/** The spreadsheet import command (backend/suggestions/management/commands/sync_sheet.py):
    the row loop that maps each sheet row to a payload, skips unusable rows and upserts
    the rest keyed by `external_id`, inside one transaction. */
module SyncSheet {
  import opened Wrappers
  import opened Strings
  import opened Seqs
  import Catalog

  /** The fields `MAPPING` names, as stored by the upsert. */
  datatype Payload = Payload(
    name: string,
    category: seq<string>,
    description: string,
    url: string,
    image: string)

  /** A stored table entry: the upserted payload and its `created_at`. The column is
      `auto_now`, so every save, an update as well as a create, sets it to the time of
      that save. */
  datatype Entry = Entry(payload: Payload, createdAt: int)

  /** `row.get(key, "")`. */
  function Cell(row: Catalog.Row, key: string): (r: string)
    ensures key in row ==> r == row[key]
    ensures key !in row ==> r == ""
  {
    if key in row then row[key] else ""
  }

  /** The pieces of a comma-separated cell, each stripped:
      `[v.strip() for v in cell.strip().split(",")]`. */
  function CategoryPieces(cell: string): (r: seq<string>)
  {
    var parts := Split(PyStrip(cell), ',');
    seq(|parts|, k requires 0 <= k < |parts| => PyStrip(parts[k]))
  }

  /** The inner `for key, value in MAPPING.items()` loop: every field is read under the
      mapping's own key, list-valued `category` is split on commas. The list value
      `["category_1", "category_2"]` only marks the field as a list; those columns are
      never read. */
  function PayloadOf(row: Catalog.Row): (p: Payload)
  {
    Payload(
      PyStrip(Cell(row, "name")),
      CategoryPieces(Cell(row, "category")),
      PyStrip(Cell(row, "description")),
      PyStrip(Cell(row, "url")),
      PyStrip(Cell(row, "image")))
  }

  /** A blank category cell stores the one-element list `[""]`, not `[]`. */
  lemma BlankCategoryIsOneEmptyPiece(row: Catalog.Row)
    requires forall k :: 0 <= k < |Cell(row, "category")| ==> IsPySpace(Cell(row, "category")[k])
    ensures PayloadOf(row).category == [""]
  {
    var cell := Cell(row, "category");
    var i := TrimIsInnerSlice(cell, IsPySpace);
    assert PyStrip(cell) == [];
    assert Split(PyStrip(cell), ',') == [""];
    assert PyStrip("") == "";
  }

  /** Every stored category piece is comma-free and carries no surrounding whitespace. */
  lemma CategoryPiecesClean(cell: string, k: nat)
    requires k < |CategoryPieces(cell)|
    ensures ',' !in CategoryPieces(cell)[k]
    ensures var piece := CategoryPieces(cell)[k];
      piece == [] || (!IsPySpace(piece[0]) && !IsPySpace(piece[|piece| - 1]))
  {
    var part := Split(PyStrip(cell), ',')[k];
    var i := TrimIsInnerSlice(part, IsPySpace);
    SplitPiecesSeparatorFree(PyStrip(cell), ',', k);
    var piece := CategoryPieces(cell)[k];
    assert piece == part[i..i + |piece|];
    assert forall c :: c in piece ==> c in part;
  }

  /** What one row contributes. */
  datatype Decision = Skipped | Upsert(id: string, payload: Payload)

  /** One iteration of the row loop; `None` is the `KeyError` that aborts the command. */
  function Decide(row: Catalog.Row, slugify: string -> string): (r: Option<Decision>)
    ensures r.None? <==> Catalog.ExternalIdFromRow(row, slugify).None?
    ensures r == Some(Skipped) <==>
      Catalog.ExternalIdFromRow(row, slugify).Some?
      && (Catalog.ExternalIdFromRow(row, slugify).value == "" || PayloadOf(row).name == "")
    ensures r.Some? && r.value.Upsert? ==>
      r.value.id == Catalog.ExternalIdFromRow(row, slugify).value && r.value.id != ""
      && r.value.payload == PayloadOf(row) && r.value.payload.name != ""
  {
    match Catalog.ExternalIdFromRow(row, slugify)
    case None => None
    case Some(id) =>
      if id == "" then Some(Skipped)
      else
        var p := PayloadOf(row);
        if p.name == "" then Some(Skipped) else Some(Upsert(id, p))
  }

  /** Loop state: the table, `incoming_ext_ids` and `upserts`. */
  datatype SyncState = SyncState(store: map<string, Entry>, ids: set<string>, upserts: nat)

  /** The row loop over `rows`, left to right, from the table `store`; `None` when some
      row raises `KeyError`. `clock(j)` is the time of the import's save number `j`
      (counting from 0), which stamps the row it saves. */
  function Sync(rows: seq<Catalog.Row>, store: map<string, Entry>, slugify: string -> string, clock: nat -> int): Option<SyncState>
  {
    if rows == [] then Some(SyncState(store, {}, 0))
    else
      var n := |rows| - 1;
      match Sync(rows[..n], store, slugify, clock)
      case None => None
      case Some(st) =>
        match Decide(rows[n], slugify)
        case None => None
        case Some(Skipped) => Some(st)
        case Some(Upsert(id, p)) =>
          Some(SyncState(st.store[id := Entry(p, clock(st.upserts))], st.ids + {id}, st.upserts + 1))
  }

  /** The upserts the rows call for, in row order. */
  function Accepted(rows: seq<Catalog.Row>, slugify: string -> string): (r: seq<(string, Payload)>)
    ensures |r| <= |rows|
  {
    if rows == [] then []
    else
      var n := |rows| - 1;
      match Decide(rows[n], slugify)
      case Some(Upsert(id, p)) => Accepted(rows[..n], slugify) + [(id, p)]
      case _ => Accepted(rows[..n], slugify)
  }

  /** The ids of a list of upserts. */
  function IdsOf(acc: seq<(string, Payload)>): (r: seq<string>)
    ensures |r| == |acc|
    ensures forall k :: 0 <= k < |acc| ==> r[k] == acc[k].0
  {
    seq(|acc|, k requires 0 <= k < |acc| => acc[k].0)
  }

  /** The position of the last upsert carrying `id`. */
  function LastIndex(acc: seq<(string, Payload)>, id: string): (r: Option<nat>)
    ensures r.Some? <==> id in IdsOf(acc)
    ensures r.Some? ==> r.value < |acc| && acc[r.value].0 == id
    ensures r.Some? ==> forall k :: r.value < k < |acc| ==> acc[k].0 != id
  {
    if acc == [] then None
    else
      var n := |acc| - 1;
      assert IdsOf(acc) == IdsOf(acc[..n]) + [acc[n].0];
      if acc[n].0 == id then Some(n) else LastIndex(acc[..n], id)
  }

  /** The entry the last upsert carrying `id` saves: its payload, stamped with the time
      of that save. */
  function LastEntry(acc: seq<(string, Payload)>, id: string, clock: nat -> int): Option<Entry>
  {
    match LastIndex(acc, id)
    case None => None
    case Some(k) => Some(Entry(acc[k].1, clock(k)))
  }

  /** A successful import counts exactly the rows that pass both skip checks and
      collects exactly their ids. */
  lemma {:induction false} SyncCounts(rows: seq<Catalog.Row>, store: map<string, Entry>, slugify: string -> string, clock: nat -> int)
    requires Sync(rows, store, slugify, clock).Some?
    ensures var st := Sync(rows, store, slugify, clock).value;
      st.upserts == |Accepted(rows, slugify)| && st.ids == Elements(IdsOf(Accepted(rows, slugify)))
  {
    if rows != [] {
      var n := |rows| - 1;
      SyncCounts(rows[..n], store, slugify, clock);
      var acc := Accepted(rows[..n], slugify);
      match Decide(rows[n], slugify)
      case Some(Upsert(id, p)) =>
        assert IdsOf(acc + [(id, p)]) == IdsOf(acc) + [id];
      case _ =>
    }
  }

  /** A successful import stores for each incoming id the payload of the LAST row
      carrying it, stamped with the time of that row's save, and leaves every other
      table entry, timestamp included, as it was. */
  lemma {:induction false} SyncStore(rows: seq<Catalog.Row>, store: map<string, Entry>, slugify: string -> string, clock: nat -> int)
    requires Sync(rows, store, slugify, clock).Some?
    ensures var st := Sync(rows, store, slugify, clock).value;
      var acc := Accepted(rows, slugify);
      && st.store.Keys == store.Keys + st.ids
      && (forall id :: id in st.ids ==> Some(st.store[id]) == LastEntry(acc, id, clock))
      && (forall id :: id in store && id !in st.ids ==> st.store[id] == store[id])
  {
    if rows != [] {
      var n := |rows| - 1;
      SyncStore(rows[..n], store, slugify, clock);
      SyncCounts(rows[..n], store, slugify, clock);
      var acc := Accepted(rows[..n], slugify);
      var st0 := Sync(rows[..n], store, slugify, clock).value;
      var st := Sync(rows, store, slugify, clock).value;
      match Decide(rows[n], slugify)
      case Some(Upsert(id, p)) =>
        assert st == SyncState(st0.store[id := Entry(p, clock(|acc|))], st0.ids + {id}, st0.upserts + 1);
        assert Accepted(rows, slugify) == acc + [(id, p)];
        LastEntryAppend(acc, id, p, clock);
      case Some(Skipped) =>
        assert st == st0 && Accepted(rows, slugify) == acc;
      case None =>
    }
  }

  /** One more upsert becomes the last entry of its own id, stamped with the time of
      save number `|acc|`, and changes no other id's last entry. */
  lemma LastEntryAppend(acc: seq<(string, Payload)>, id: string, p: Payload, clock: nat -> int)
    ensures LastEntry(acc + [(id, p)], id, clock) == Some(Entry(p, clock(|acc|)))
    ensures forall x :: x != id ==> LastEntry(acc + [(id, p)], x, clock) == LastEntry(acc, x, clock)
  {
    var acc' := acc + [(id, p)];
    assert acc'[..|acc|] == acc;
    forall x | x != id
      ensures LastEntry(acc', x, clock) == LastEntry(acc, x, clock)
    {
      assert LastIndex(acc', x) == LastIndex(acc, x);
    }
  }

  /** A successful import counts exactly the rows that pass both skip checks, collects
      exactly their ids, stores for each such id the payload of the LAST row carrying it
      stamped with that save's time, and leaves every other table entry as it was. */
  lemma SyncMeaning(rows: seq<Catalog.Row>, store: map<string, Entry>, slugify: string -> string, clock: nat -> int)
    requires Sync(rows, store, slugify, clock).Some?
    ensures var st := Sync(rows, store, slugify, clock).value;
      var acc := Accepted(rows, slugify);
      && st.upserts == |acc|
      && st.ids == Elements(IdsOf(acc))
      && st.store.Keys == store.Keys + st.ids
      && (forall id :: id in st.ids ==> Some(st.store[id]) == LastEntry(acc, id, clock))
      && (forall id :: id in store && id !in st.ids ==> st.store[id] == store[id])
  {
    SyncCounts(rows, store, slugify, clock);
    SyncStore(rows, store, slugify, clock);
  }

  /** The number of distinct incoming ids never exceeds `upserts`, and the two agree
      exactly when no id repeats among the accepted rows. */
  lemma DistinctIdsBound(rows: seq<Catalog.Row>, store: map<string, Entry>, slugify: string -> string, clock: nat -> int)
    requires Sync(rows, store, slugify, clock).Some?
    ensures var st := Sync(rows, store, slugify, clock).value;
      |st.ids| <= st.upserts
      && (|st.ids| == st.upserts <==> NoDuplicates(IdsOf(Accepted(rows, slugify))))
  {
    SyncMeaning(rows, store, slugify, clock);
    DistinctCount(IdsOf(Accepted(rows, slugify)));
  }

  /** A row raising `KeyError` aborts the whole import. */
  lemma {:induction false} KeyErrorAborts(rows: seq<Catalog.Row>, k: nat, store: map<string, Entry>, slugify: string -> string, clock: nat -> int)
    requires k < |rows| && Decide(rows[k], slugify).None?
    ensures Sync(rows, store, slugify, clock).None?
  {
    var n := |rows| - 1;
    if k < n {
      assert rows[..n][k] == rows[k];
      KeyErrorAborts(rows[..n], k, store, slugify, clock);
      assert Sync(rows[..n], store, slugify, clock).None?;
    } else {
      assert Decide(rows[n], slugify).None?;
    }
  }

  /** The suggestion table the command writes. */
  class SuggestionTable {
    var rows: map<string, Entry>

    constructor (initial: map<string, Entry>)
      ensures rows == initial
    {
      rows := initial;
    }

    /** `Command.handle` over already fetched rows. Returns the `upserts` count, or
        `None` after a `KeyError`, in which case `transaction.atomic` rolls the table
        back. `clock(j)` is the time of save number `j`. */
    method Handle(sheet: seq<Catalog.Row>, slugify: string -> string, clock: nat -> int) returns (upserts: Option<nat>)
      modifies this
      ensures var outcome := Sync(sheet, old(rows), slugify, clock);
        && (outcome.None? ==> upserts.None? && rows == old(rows))
        && (outcome.Some? ==> upserts == Some(outcome.value.upserts) && rows == outcome.value.store)
    {
      var staged := rows;
      var incomingExtIds: set<string> := {};
      var count := 0;
      for i := 0 to |sheet|
        invariant Sync(sheet[..i], rows, slugify, clock) == Some(SyncState(staged, incomingExtIds, count))
      {
        assert sheet[..i + 1][..i] == sheet[..i];
        var externalId := Catalog.ExternalIdFromRow(sheet[i], slugify);
        if externalId.None? {
          KeyErrorAborts(sheet, i, rows, slugify, clock);
          return None;
        }
        if externalId.value == "" {
          continue;
        }
        var payload := PayloadOf(sheet[i]);
        if payload.name == "" {
          continue;
        }
        staged := staged[externalId.value := Entry(payload, clock(count))];
        incomingExtIds := incomingExtIds + {externalId.value};
        count := count + 1;
      }
      assert sheet[..|sheet|] == sheet;
      rows := staged;
      upserts := Some(count);
    }
  }
}
