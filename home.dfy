/** The catalog page of frontend/src/pages/Home.jsx: client-side sorting of the fetched
    suggestions, the sort-direction toggle, and the pagination metadata with its
    "Showing X to Y of Z" line. `localeCompare` on names is the parameter `nameCmp`;
    `created_at` values are timestamps, `None` when missing or empty. */
module Home {
  import opened Wrappers
  import opened Strings

  /** The fields of a suggestion the page sorts and keys by. */
  datatype HomeItem = HomeItem(externalId: string, name: string, createdAt: Option<int>)

  /** A comparator as `Array.prototype.sort` takes it: negative, zero or positive. */
  type Comparator = (HomeItem, HomeItem) -> int

  /** "alphabetical": names, scaled by the direction. */
  function Alphabetical(nameCmp: (string, string) -> int, direction: int): Comparator
  {
    (a: HomeItem, b: HomeItem) => nameCmp(a.name, b.name) * direction
  }

  /** "newest": later dates first when both items have one, names otherwise. */
  function Newest(nameCmp: (string, string) -> int, direction: int): Comparator
  {
    (a: HomeItem, b: HomeItem) =>
      if a.createdAt.Some? && b.createdAt.Some? then (b.createdAt.value - a.createdAt.value) * direction
      else nameCmp(a.name, b.name) * direction
  }

  /** "oldest": earlier dates first when both items have one, names otherwise. */
  function Oldest(nameCmp: (string, string) -> int, direction: int): Comparator
  {
    (a: HomeItem, b: HomeItem) =>
      if a.createdAt.Some? && b.createdAt.Some? then (a.createdAt.value - b.createdAt.value) * direction
      else nameCmp(a.name, b.name) * direction
  }

  /** Inserts `x` after every leading element that does not compare greater than it. */
  function Insert(r: seq<HomeItem>, x: HomeItem, cmp: Comparator): (o: seq<HomeItem>)
    ensures multiset(o) == multiset(r) + multiset{x}
  {
    if r == [] then [x]
    else if cmp(r[0], x) > 0 then [x] + r
    else
      assert r == [r[0]] + r[1..];
      [r[0]] + Insert(r[1..], x, cmp)
  }

  /** `Array.prototype.sort` on a copy, as a stable insertion sort: a permutation of
      the input whatever the comparator. */
  function Sort(s: seq<HomeItem>, cmp: Comparator): (o: seq<HomeItem>)
    ensures multiset(o) == multiset(s)
  {
    if s == [] then []
    else
      var n := |s| - 1;
      assert s == s[..n] + [s[n]];
      Insert(Sort(s[..n], cmp), s[n], cmp)
  }

  /** No element compares greater than a later one. */
  predicate SortedBy(r: seq<HomeItem>, cmp: Comparator)
  {
    forall i, j :: 0 <= i < j < |r| ==> cmp(r[i], r[j]) <= 0
  }

  /** The comparator orders the elements of `s` consistently: swapping the arguments
      flips the sign, and "not greater" is transitive. */
  predicate ConsistentOn(cmp: Comparator, s: seq<HomeItem>)
  {
    && (forall a, b :: a in s && b in s ==> (cmp(a, b) > 0 <==> cmp(b, a) < 0))
    && (forall a, b, c :: a in s && b in s && c in s && cmp(a, b) <= 0 && cmp(b, c) <= 0 ==> cmp(a, c) <= 0)
  }

  lemma ConsistentOnSubset(cmp: Comparator, s: seq<HomeItem>, t: seq<HomeItem>)
    requires ConsistentOn(cmp, s)
    requires forall y :: y in t ==> y in s
    ensures ConsistentOn(cmp, t)
  {
  }

  /** The elements of an insertion are the inserted one and the old ones. */
  lemma InsertElements(r: seq<HomeItem>, x: HomeItem, cmp: Comparator, y: HomeItem)
    ensures y in Insert(r, x, cmp) <==> y == x || y in r
  {
    assert y in Insert(r, x, cmp) <==> y in multiset(Insert(r, x, cmp));
  }

  /** Putting `x` in front of a sorted list whose head compares greater than it. */
  lemma InsertFrontSorted(r: seq<HomeItem>, x: HomeItem, cmp: Comparator)
    requires r != [] && cmp(r[0], x) > 0
    requires SortedBy(r, cmp) && ConsistentOn(cmp, r + [x])
    ensures SortedBy([x] + r, cmp)
  {
    var t := r + [x];
    assert t[|r|] == x && t[0] == r[0];
    var o := [x] + r;
    forall i, j | 0 <= i < j < |o|
      ensures cmp(o[i], o[j]) <= 0
    {
      if i == 0 {
        assert cmp(x, r[0]) < 0;
        if j > 1 {
          assert t[j - 1] == r[j - 1];
          assert cmp(r[0], r[j - 1]) <= 0;
        }
      } else {
        assert o[i] == r[i - 1] && o[j] == r[j - 1];
      }
    }
  }

  /** A head that compares not greater than everything behind it keeps a sorted list sorted. */
  lemma ConsSorted(h: HomeItem, rest: seq<HomeItem>, cmp: Comparator)
    requires SortedBy(rest, cmp)
    requires forall k :: 0 <= k < |rest| ==> cmp(h, rest[k]) <= 0
    ensures SortedBy([h] + rest, cmp)
  {
    var o := [h] + rest;
    forall i, j | 0 <= i < j < |o|
      ensures cmp(o[i], o[j]) <= 0
    {
      if i == 0 {
        assert o[j] == rest[j - 1];
      } else {
        assert o[i] == rest[i - 1] && o[j] == rest[j - 1];
      }
    }
  }

  /** The tail of a list and the inserted element inherit the comparator's consistency
      and the tail's sortedness. */
  lemma TailFacts(r: seq<HomeItem>, x: HomeItem, cmp: Comparator)
    requires r != [] && SortedBy(r, cmp) && ConsistentOn(cmp, r + [x])
    ensures SortedBy(r[1..], cmp) && ConsistentOn(cmp, r[1..] + [x])
    ensures forall k :: 0 <= k < |r| - 1 ==> cmp(r[0], r[1..][k]) <= 0
  {
    var tail := r[1..];
    var t := r + [x];
    assert t[|r|] == x;
    forall y | y in tail + [x]
      ensures y in t
    {
      if y != x {
        var k :| 0 <= k < |tail| && tail[k] == y;
        assert t[k + 1] == y;
      }
    }
    ConsistentOnSubset(cmp, t, tail + [x]);
    forall i, j | 0 <= i < j < |tail|
      ensures cmp(tail[i], tail[j]) <= 0
    {
      assert tail[i] == r[i + 1] && tail[j] == r[j + 1];
    }
    forall k | 0 <= k < |tail|
      ensures cmp(r[0], tail[k]) <= 0
    {
      assert tail[k] == r[k + 1];
    }
  }

  /** Inserting into a sorted list keeps it sorted. */
  lemma {:induction false} InsertSorted(r: seq<HomeItem>, x: HomeItem, cmp: Comparator)
    requires SortedBy(r, cmp) && ConsistentOn(cmp, r + [x])
    ensures SortedBy(Insert(r, x, cmp), cmp)
  {
    if r != [] && cmp(r[0], x) > 0 {
      InsertFrontSorted(r, x, cmp);
    } else if r != [] {
      var tail := r[1..];
      TailFacts(r, x, cmp);
      InsertSorted(tail, x, cmp);
      var rest := Insert(tail, x, cmp);
      forall k | 0 <= k < |rest|
        ensures cmp(r[0], rest[k]) <= 0
      {
        InsertElements(tail, x, cmp, rest[k]);
      }
      ConsSorted(r[0], rest, cmp);
    }
  }

  /** With a comparator consistent on the input, the output is sorted. */
  lemma {:induction false} SortSorted(s: seq<HomeItem>, cmp: Comparator)
    requires ConsistentOn(cmp, s)
    ensures SortedBy(Sort(s, cmp), cmp)
  {
    if s != [] {
      var n := |s| - 1;
      var init := s[..n];
      ConsistentOnSubset(cmp, s, init);
      SortSorted(init, cmp);
      var sorted := Sort(init, cmp);
      forall y | y in sorted + [s[n]]
        ensures y in s
      {
        if y in sorted {
          assert y in multiset(init);
        }
      }
      ConsistentOnSubset(cmp, s, sorted + [s[n]]);
      InsertSorted(sorted, s[n], cmp);
    }
  }

  /** `sortedSuggestions`: the copy sorted by the comparator `sortBy` names, compared
      lower-cased; any other value keeps the received order. */
  function SortedSuggestions(suggestions: seq<HomeItem>, sortBy: string, direction: int,
                             nameCmp: (string, string) -> int): (r: seq<HomeItem>)
    ensures multiset(r) == multiset(suggestions)
    ensures Lower(sortBy) !in {"alphabetical", "newest", "oldest"} ==> r == suggestions
  {
    var key := Lower(sortBy);
    if key == "alphabetical" then Sort(suggestions, Alphabetical(nameCmp, direction))
    else if key == "newest" then Sort(suggestions, Newest(nameCmp, direction))
    else if key == "oldest" then Sort(suggestions, Oldest(nameCmp, direction))
    else suggestions
  }

  /** A name order as `localeCompare` gives one: antisymmetric in sign and transitive. */
  ghost predicate NameOrder(nameCmp: (string, string) -> int)
  {
    && (forall x, y :: nameCmp(x, y) > 0 <==> nameCmp(y, x) < 0)
    && (forall x, y, z :: nameCmp(x, y) <= 0 && nameCmp(y, z) <= 0 ==> nameCmp(x, z) <= 0)
  }

  /** Scaling a proper name order by either direction gives a consistent comparator. */
  lemma AlphabeticalConsistent(s: seq<HomeItem>, nameCmp: (string, string) -> int, direction: int)
    requires NameOrder(nameCmp) && (direction == 1 || direction == -1)
    ensures ConsistentOn(Alphabetical(nameCmp, direction), s)
  {
    var cmp := Alphabetical(nameCmp, direction);
    forall a, b | a in s && b in s
      ensures cmp(a, b) > 0 <==> cmp(b, a) < 0
    {
      assert nameCmp(a.name, b.name) > 0 <==> nameCmp(b.name, a.name) < 0;
      assert nameCmp(b.name, a.name) > 0 <==> nameCmp(a.name, b.name) < 0;
    }
    forall a, b, c | a in s && b in s && c in s && cmp(a, b) <= 0 && cmp(b, c) <= 0
      ensures cmp(a, c) <= 0
    {
      var ab, bc, ac := nameCmp(a.name, b.name), nameCmp(b.name, c.name), nameCmp(a.name, c.name);
      if direction == 1 {
        assert ab <= 0 && bc <= 0;
      } else {
        assert ab >= 0 && bc >= 0;
        assert ab > 0 <==> nameCmp(b.name, a.name) < 0;
        assert bc > 0 <==> nameCmp(c.name, b.name) < 0;
        assert nameCmp(b.name, a.name) > 0 <==> ab < 0;
        assert nameCmp(c.name, b.name) > 0 <==> bc < 0;
        assert nameCmp(c.name, b.name) <= 0 && nameCmp(b.name, a.name) <= 0;
        assert nameCmp(c.name, a.name) <= 0;
        assert nameCmp(c.name, a.name) < 0 <==> ac > 0;
      }
    }
  }

  /** A proper name order sorts "alphabetical" in either direction, and the comparator
      for direction -1 is the negation of the one for direction 1. */
  lemma AlphabeticalSorted(s: seq<HomeItem>, nameCmp: (string, string) -> int, direction: int)
    requires NameOrder(nameCmp) && (direction == 1 || direction == -1)
    ensures SortedBy(SortedSuggestions(s, "alphabetical", direction, nameCmp), Alphabetical(nameCmp, direction))
    ensures forall a, b :: Alphabetical(nameCmp, -1)(a, b) == -Alphabetical(nameCmp, 1)(a, b)
  {
    assert Lower("alphabetical") == "alphabetical";
    AlphabeticalConsistent(s, nameCmp, direction);
    SortSorted(s, Alphabetical(nameCmp, direction));
  }

  /** Every item carries a date. */
  predicate AllDated(s: seq<HomeItem>)
  {
    forall k :: 0 <= k < |s| ==> s[k].createdAt.Some?
  }

  /** When every item has a date, "newest" lists later dates first. */
  lemma NewestSorted(s: seq<HomeItem>, nameCmp: (string, string) -> int)
    requires AllDated(s)
    ensures var r := SortedSuggestions(s, "newest", 1, nameCmp);
      AllDated(r) && forall i, j :: 0 <= i < j < |r| ==> r[i].createdAt.value >= r[j].createdAt.value
  {
    assert Lower("newest") == "newest";
    var cmp := Newest(nameCmp, 1);
    assert ConsistentOn(cmp, s);
    SortSorted(s, cmp);
    var r := Sort(s, cmp);
    forall k | 0 <= k < |r| ensures r[k].createdAt.Some? {
      assert r[k] in multiset(s);
    }
  }

  /** When every item has a date, "oldest" lists earlier dates first. */
  lemma OldestSorted(s: seq<HomeItem>, nameCmp: (string, string) -> int)
    requires AllDated(s)
    ensures var r := SortedSuggestions(s, "oldest", 1, nameCmp);
      AllDated(r) && forall i, j :: 0 <= i < j < |r| ==> r[i].createdAt.value <= r[j].createdAt.value
  {
    assert Lower("oldest") == "oldest";
    var cmp := Oldest(nameCmp, 1);
    assert ConsistentOn(cmp, s);
    SortSorted(s, cmp);
    var r := Sort(s, cmp);
    forall k | 0 <= k < |r| ensures r[k].createdAt.Some? {
      assert r[k] in multiset(s);
    }
  }

  /** With dates on only some items the "newest" comparator is cyclic: an item dated 3
      named "c", one dated 1 named "a", and an undated one named "b" each compare
      before the next, so no order satisfies it and the result is the sort's own. */
  lemma MixedDatesCycle(nameCmp: (string, string) -> int)
    requires nameCmp("a", "b") < 0 && nameCmp("b", "c") < 0
    ensures var x, y, z := HomeItem("1", "c", Some(3)), HomeItem("2", "a", Some(1)), HomeItem("3", "b", None);
      var cmp := Newest(nameCmp, 1);
      cmp(x, y) < 0 && cmp(y, z) < 0 && cmp(z, x) < 0 && !ConsistentOn(cmp, [x, y, z])
  {
    var x, y, z := HomeItem("1", "c", Some(3)), HomeItem("2", "a", Some(1)), HomeItem("3", "b", None);
    var cmp := Newest(nameCmp, 1);
    var t := [x, y, z];
    assert x == t[0] && y == t[1] && z == t[2];
    assert cmp(x, y) <= 0 && cmp(y, z) <= 0 && cmp(z, x) < 0;
    assert cmp(x, z) == nameCmp("c", "b");
    if ConsistentOn(cmp, t) {
      assert false;
    }
  }

  /** The pagination metadata of a response. */
  datatype Pagination = Pagination(page: int, pageSize: int, totalPages: int, totalCount: int,
                                   hasNext: bool, hasPrevious: bool)

  /** The metadata set for a plain list of `n` items: one page holding them all. */
  function FallbackPagination(n: nat): (p: Pagination)
    ensures p.page == 1 && p.totalPages == 1 && p.pageSize == n && p.totalCount == n
    ensures !p.hasNext && !p.hasPrevious
  {
    Pagination(1, n, 1, n, false, false)
  }

  /** The "Showing X to Y" bounds, present only when there is more than one page. */
  function ShownRange(p: Pagination): (r: Option<(int, int)>)
    ensures r.Some? <==> p.totalPages > 1
  {
    if p.totalPages > 1 then
      Some(((p.page - 1) * p.pageSize + 1, if p.page * p.pageSize < p.totalCount then p.page * p.pageSize else p.totalCount))
    else None
  }

  /** The plain-list path never shows the range line. */
  lemma FallbackHidesRange(n: nat)
    ensures ShownRange(FallbackPagination(n)).None?
  {
  }

  /** For a page that exists (it starts before the last item), the line counts exactly
      the items that page holds: from the first on it to the last, never past the total. */
  lemma ShownRangeCounts(p: Pagination)
    requires p.totalPages > 1 && p.pageSize >= 1 && p.page >= 1
    requires (p.page - 1) * p.pageSize < p.totalCount
    ensures var (from, to) := ShownRange(p).value;
      && 1 <= from <= to <= p.totalCount
      && to - from + 1 == (if p.pageSize < p.totalCount - (p.page - 1) * p.pageSize
                           then p.pageSize else p.totalCount - (p.page - 1) * p.pageSize)
  {
    assert p.page * p.pageSize == (p.page - 1) * p.pageSize + p.pageSize;
  }

  /** Page 2 of 15 items at 10 per page shows "11 to 15". */
  lemma ShownRangeExample()
    ensures ShownRange(Pagination(2, 10, 2, 15, false, true)) == Some((11, 15))
  {
  }

  /** The direction toggle's message as written: it names `sortDirection` before the
      toggle, while 1 means ascending. */
  function ToggleMessageAsWritten(direction: int): string
  {
    "Sorting direction changed to " + (if direction == 1 then "ascending" else "descending")
  }

  /** Toggling away from ascending announces "ascending". */
  lemma ToggleMessageAsWrittenNamesOldDirection()
    ensures ToggleMessageAsWritten(1) == "Sorting direction changed to ascending"
  {
  }

  /** The word for a direction: 1 is ascending, -1 descending. */
  function DirectionName(direction: int): string
  {
    if direction == 1 then "ascending" else "descending"
  }

  /** The message that names the direction in force after the toggle. */
  function ToggleMessage(direction: int): (m: string)
    ensures m == "Sorting direction changed to " + DirectionName(direction * -1)
  {
    "Sorting direction changed to " + (if direction == -1 then "ascending" else "descending")
  }

  /** For both directions, the corrected message names the new direction and the
      written one names the old. */
  lemma ToggleMessageNamesNewDirection(direction: int)
    requires direction == 1 || direction == -1
    ensures ToggleMessage(direction) == "Sorting direction changed to " + DirectionName(-direction)
    ensures ToggleMessageAsWritten(direction) == "Sorting direction changed to " + DirectionName(direction)
    ensures ToggleMessage(direction) != ToggleMessageAsWritten(direction)
  {
    assert DirectionName(1) == "ascending" && DirectionName(-1) == "descending";
    assert "ascending"[0] != "descending"[0];
    var p := "Sorting direction changed to ";
    assert (p + "ascending")[|p|] == 'a';
    assert (p + "descending")[|p|] == 'd';
  }

  /** Which response `getSuggestions` received: a paginated body when signed in and it
      carries `results`, a plain list otherwise, or a failed request. */
  datatype Fetched =
    | PageOf(results: seq<HomeItem>, pagination: Pagination)
    | ListOf(items: seq<HomeItem>)
    | FetchFailed

  const FetchFailedMessage: string := "Failed to load suggestions. Please try again."

  /** The page's state. */
  class HomePage {
    var suggestions: seq<HomeItem>
    var sortBy: string
    var sortDirection: int
    var pagination: Pagination
    var snackbar: Option<string>
    var isLoading: bool

    /** The initial state, before the first fetch lands. */
    constructor()
      ensures suggestions == [] && sortBy == "alphabetical" && sortDirection == 1
      ensures pagination == Pagination(1, 50, 1, 0, false, false)
      ensures snackbar.None? && isLoading
    {
      suggestions := [];
      sortBy := "alphabetical";
      sortDirection := 1;
      pagination := Pagination(1, 50, 1, 0, false, false);
      snackbar := None;
      isLoading := true;
    }

    /** What the grid shows: a sorted copy; `suggestions` itself is never reordered. */
    function Shown(nameCmp: (string, string) -> int): (r: seq<HomeItem>)
      reads this
      ensures multiset(r) == multiset(suggestions)
    {
      SortedSuggestions(suggestions, sortBy, sortDirection, nameCmp)
    }

    /** The toggle button: the direction flips sign and the snackbar announces the
        direction now in force. */
    method ToggleDirection()
      modifies this
      ensures sortDirection == old(sortDirection) * -1
      ensures snackbar == Some(ToggleMessage(old(sortDirection)))
      ensures suggestions == old(suggestions) && sortBy == old(sortBy) && pagination == old(pagination)
      ensures isLoading == old(isLoading)
    {
      snackbar := Some(ToggleMessage(sortDirection));
      sortDirection := sortDirection * -1;
    }

    /** The sort select. */
    method SetSortBy(value: string)
      modifies this
      ensures sortBy == value
      ensures suggestions == old(suggestions) && sortDirection == old(sortDirection) && pagination == old(pagination)
      ensures snackbar == old(snackbar) && isLoading == old(isLoading)
    {
      sortBy := value;
    }

    /** The end of `getSuggestions`: store the results and their metadata, or the list
        with one-page metadata; on failure keep both and show the error. Loading ends. */
    method ApplyFetch(fetched: Fetched)
      modifies this
      ensures fetched.PageOf? ==> suggestions == fetched.results && pagination == fetched.pagination
      ensures fetched.ListOf? ==> suggestions == fetched.items && pagination == FallbackPagination(|fetched.items|)
      ensures fetched.FetchFailed? ==>
        suggestions == old(suggestions) && pagination == old(pagination) && snackbar == Some(FetchFailedMessage)
      ensures !fetched.FetchFailed? ==> snackbar == old(snackbar)
      ensures !isLoading && sortBy == old(sortBy) && sortDirection == old(sortDirection)
    {
      isLoading := true;
      match fetched {
        case PageOf(results, p) =>
          suggestions := results;
          pagination := p;
        case ListOf(items) =>
          suggestions := items;
          pagination := Pagination(1, |items|, 1, |items|, false, false);
        case FetchFailed =>
          snackbar := Some(FetchFailedMessage);
      }
      isLoading := false;
    }
  }
}
