/** The catalog entity and its identity derivation (backend/suggestions/models.py). */
module Catalog {
  import opened Wrappers
  import opened Strings
  import opened Json
  import opened Seqs

  /** Width of the `external_id` column. */
  const ExternalIdMaxLength: nat := 64

  /** One catalog row (`SuggestionModel`); `createdAt` is the `auto_now` time of its last save, and
      `tags` is the list the tagging command writes. */
  datatype Suggestion = Suggestion(
    externalId: string,
    name: string,
    category: seq<string>,
    description: string,
    url: string,
    image: string,
    createdAt: int,
    tags: seq<Json>)

  /** The ids of a list of catalog rows, in order. */
  function ExternalIds(rows: seq<Suggestion>): (r: seq<string>)
    ensures |r| == |rows|
    ensures forall k :: 0 <= k < |rows| ==> r[k] == rows[k].externalId
  {
    seq(|rows|, k requires 0 <= k < |rows| => rows[k].externalId)
  }

  /** The catalog's `unique=True` constraint on `external_id`. */
  predicate UniqueIds(rows: seq<Suggestion>)
  {
    NoDuplicates(ExternalIds(rows))
  }

  /** One spreadsheet row: column name to cell text. */
  type Row = map<string, string>

  /** The text a slug is computed from: `f"{name}-{category}".lower()`. */
  function SlugBase(name: string, category: string): (r: string)
    ensures |r| == |name| + 1 + |category|
    ensures r[|name|] == '-'
    ensures r == Lower(name) + "-" + Lower(category)
  {
    Lower(name + "-" + category)
  }

  /** `slug_from_name_category`: the slugified base, cut to the column width.
      `slugify` is Django's `django.utils.text.slugify`, given as a parameter. */
  function SlugFromNameCategory(name: string, category: string, slugify: string -> string): (r: string)
    ensures |r| <= ExternalIdMaxLength
    ensures |r| <= |slugify(SlugBase(name, category))| && r == slugify(SlugBase(name, category))[..|r|]
    ensures |slugify(SlugBase(name, category))| <= ExternalIdMaxLength ==> r == slugify(SlugBase(name, category))
    ensures |slugify(SlugBase(name, category))| > ExternalIdMaxLength ==> |r| == ExternalIdMaxLength
  {
    Prefix(slugify(SlugBase(name, category)), ExternalIdMaxLength)
  }

  /** Whether the row carries an explicit, non-empty `external_id` cell
      (`row.get("external_id")` is truthy). */
  predicate HasExplicitId(row: Row)
  {
    "external_id" in row && row["external_id"] != ""
  }

  /** `SuggestionModel.external_id_from_row`: the stripped explicit id, or else the slug
      of the row's name and category. `None` is the `KeyError` raised when a row
      without an explicit id lacks a `name` or `category` cell. */
  function ExternalIdFromRow(row: Row, slugify: string -> string): (r: Option<string>)
    ensures HasExplicitId(row) ==> r == Some(PyStrip(row["external_id"]))
    ensures !HasExplicitId(row) ==> (r.Some? <==> "name" in row && "category" in row)
    ensures !HasExplicitId(row) && r.Some? ==>
      r.value == SlugFromNameCategory(row["name"], row["category"], slugify) && |r.value| <= ExternalIdMaxLength
  {
    if HasExplicitId(row) then Some(PyStrip(row["external_id"]))
    else if "name" in row && "category" in row then
      Some(SlugFromNameCategory(row["name"], row["category"], slugify))
    else None
  }

  /** Without an explicit id the derived id depends on the name and category cells only. */
  lemma DerivedIdDeterministic(r1: Row, r2: Row, slugify: string -> string)
    requires !HasExplicitId(r1) && !HasExplicitId(r2)
    requires "name" in r1 && "category" in r1 && "name" in r2 && "category" in r2
    requires r1["name"] == r2["name"] && r1["category"] == r2["category"]
    ensures ExternalIdFromRow(r1, slugify) == ExternalIdFromRow(r2, slugify)
  {
  }

  /** An explicit id ignores the name and category cells entirely. */
  lemma ExplicitIdIgnoresNameAndCategory(row: Row, name: string, category: string, slugify: string -> string)
    requires HasExplicitId(row)
    ensures ExternalIdFromRow(row["name" := name]["category" := category], slugify)
      == ExternalIdFromRow(row, slugify)
  {
    var row' := row["name" := name]["category" := category];
    assert row'["external_id"] == row["external_id"];
  }

  /** The explicit-id path applies no width limit: an explicit id of 65 letters comes
      back with all 65, though the column holds 64. */
  lemma ExplicitIdNotTruncated(slugify: string -> string)
    ensures var id := seq(65, _ => 'a');
      var r := ExternalIdFromRow(map["external_id" := id], slugify);
      r.Some? && |r.value| == 65 > ExternalIdMaxLength
  {
    var id := seq(65, _ => 'a');
    var row: Row := map["external_id" := id];
    assert !IsPySpace(id[0]) && !IsPySpace(id[64]);
    assert TrimStart(id, IsPySpace) == id;
    assert TrimEnd(id, IsPySpace) == id;
  }
}
