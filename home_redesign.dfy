/** The redesigned home page (frontend/src/pages/HomeRedesign.jsx): the fetched page
    of results with repeated `external_id`s filtered out, shown once under each of five
    tag headings. */
module HomeRedesign {
  import opened Wrappers
  import opened Seqs
  import opened Home

  /** `findIndex` on `external_id`: the first position holding `id`, or -1. */
  function FindIndex(s: seq<HomeItem>, id: string): (r: int)
    ensures -1 <= r < |s|
    ensures r >= 0 ==> s[r].externalId == id
    ensures forall k :: 0 <= k < |s| && (r == -1 || k < r) ==> s[k].externalId != id
  {
    if s == [] then -1
    else if s[0].externalId == id then 0
    else
      var r := FindIndex(s[1..], id);
      assert forall k :: 1 <= k < |s| ==> s[k] == s[1..][k - 1];
      if r == -1 then -1 else r + 1
  }

  /** The elements of `s[..n]` that pass the filter: those whose index is the
      `findIndex` of their own id in the whole list. */
  function KeptPrefix(s: seq<HomeItem>, n: nat): (r: seq<HomeItem>)
    requires n <= |s|
    ensures |r| <= n
  {
    if n == 0 then []
    else KeptPrefix(s, n - 1) + (if FindIndex(s, s[n - 1].externalId) == n - 1 then [s[n - 1]] else [])
  }

  /** The `uniqueSuggestions` filter. */
  function Dedup(s: seq<HomeItem>): (r: seq<HomeItem>)
    ensures |r| <= |s|
  {
    KeptPrefix(s, |s|)
  }

  /** The ids of a list, in order. */
  function Ids(s: seq<HomeItem>): (r: seq<string>)
    ensures |r| == |s|
    ensures forall k :: 0 <= k < |s| ==> r[k] == s[k].externalId
  {
    seq(|s|, k requires 0 <= k < |s| => s[k].externalId)
  }

  lemma IdsAppend(s: seq<HomeItem>, x: HomeItem)
    ensures Ids(s + [x]) == Ids(s) + [x.externalId]
  {
  }

  /** `findIndex` never lies past an occurrence. */
  lemma FindIndexAtMost(s: seq<HomeItem>, k: nat)
    requires k < |s|
    ensures 0 <= FindIndex(s, s[k].externalId) <= k
  {
  }

  /** The kept prefix keeps the input's order. */
  lemma {:induction false} KeptPrefixSubsequence(s: seq<HomeItem>, n: nat)
    requires n <= |s|
    ensures IsSubsequence(KeptPrefix(s, n), s[..n])
  {
    if n == 0 {
    } else {
      KeptPrefixSubsequence(s, n - 1);
      var prev := KeptPrefix(s, n - 1);
      var upto := s[..n];
      assert upto[..n - 1] == s[..n - 1];
      if FindIndex(s, s[n - 1].externalId) == n - 1 {
        var r := prev + [s[n - 1]];
        assert KeptPrefix(s, n) == r;
        assert r[..|r| - 1] == prev && r[|r| - 1] == upto[n - 1];
      } else {
        assert KeptPrefix(s, n) == prev;
        SubsequenceGrow(prev, upto);
      }
    }
  }

  /** An id occurs in the kept prefix exactly when it occurs in `s[..n]`. */
  lemma {:induction false} KeptPrefixIds(s: seq<HomeItem>, n: nat, id: string)
    requires n <= |s|
    ensures id in Ids(KeptPrefix(s, n)) <==> exists k :: 0 <= k < n && s[k].externalId == id
  {
    if n > 0 {
      KeptPrefixIds(s, n - 1, id);
      var prev := KeptPrefix(s, n - 1);
      var x := s[n - 1];
      if FindIndex(s, x.externalId) == n - 1 {
        IdsAppend(prev, x);
      } else {
        assert KeptPrefix(s, n) == prev;
        if id == x.externalId {
          FindIndexAtMost(s, n - 1);
          var f := FindIndex(s, id);
          assert s[f].externalId == id && f < n - 1;
        }
      }
    }
  }

  /** No id occurs twice in the kept prefix. */
  lemma {:induction false} KeptPrefixUnique(s: seq<HomeItem>, n: nat)
    requires n <= |s|
    ensures NoDuplicates(Ids(KeptPrefix(s, n)))
  {
    if n > 0 {
      KeptPrefixUnique(s, n - 1);
      var prev := KeptPrefix(s, n - 1);
      var x := s[n - 1];
      if FindIndex(s, x.externalId) == n - 1 {
        IdsAppend(prev, x);
        KeptPrefixIds(s, n - 1, x.externalId);
        var ids := Ids(prev) + [x.externalId];
        forall i, j | 0 <= i < j < |ids|
          ensures ids[i] != ids[j]
        {
          if j == |ids| - 1 {
            assert ids[i] in Ids(prev);
          }
        }
      }
    }
  }

  /** Every kept element is the first occurrence of its id. */
  lemma {:induction false} KeptPrefixFirst(s: seq<HomeItem>, n: nat)
    requires n <= |s|
    ensures forall k :: 0 <= k < |KeptPrefix(s, n)| ==>
      0 <= FindIndex(s, KeptPrefix(s, n)[k].externalId) && KeptPrefix(s, n)[k] == s[FindIndex(s, KeptPrefix(s, n)[k].externalId)]
  {
    if n > 0 {
      KeptPrefixFirst(s, n - 1);
      var prev := KeptPrefix(s, n - 1);
      var r := KeptPrefix(s, n);
      var x := s[n - 1];
      if FindIndex(s, x.externalId) == n - 1 {
        assert r == prev + [x];
        forall k | 0 <= k < |r|
          ensures 0 <= FindIndex(s, r[k].externalId) && r[k] == s[FindIndex(s, r[k].externalId)]
        {
          if k < |prev| {
            assert r[k] == prev[k];
            assert 0 <= FindIndex(s, prev[k].externalId) && prev[k] == s[FindIndex(s, prev[k].externalId)];
          } else {
            assert r[k] == x;
          }
        }
      } else {
        assert r == prev;
      }
    }
  }

  /** The filtered list keeps the input's relative order. */
  lemma DedupSubsequence(s: seq<HomeItem>)
    ensures IsSubsequence(Dedup(s), s)
  {
    KeptPrefixSubsequence(s, |s|);
    assert s[..|s|] == s;
  }

  /** Every id of the input appears in the output, exactly once. */
  lemma DedupIdsExactlyOnce(s: seq<HomeItem>)
    ensures NoDuplicates(Ids(Dedup(s)))
    ensures forall id :: id in Ids(Dedup(s)) <==> id in Ids(s)
  {
    KeptPrefixUnique(s, |s|);
    forall id
      ensures id in Ids(Dedup(s)) <==> id in Ids(s)
    {
      KeptPrefixIds(s, |s|, id);
      if id in Ids(s) {
        var k :| 0 <= k < |s| && Ids(s)[k] == id;
        assert s[k].externalId == id;
      }
    }
  }

  /** What survives for each id is its first occurrence in the input. */
  lemma DedupFirstOccurrence(s: seq<HomeItem>)
    ensures forall k :: 0 <= k < |Dedup(s)| ==>
      0 <= FindIndex(s, Dedup(s)[k].externalId) && Dedup(s)[k] == s[FindIndex(s, Dedup(s)[k].externalId)]
  {
    KeptPrefixFirst(s, |s|);
    assert Dedup(s) == KeptPrefix(s, |s|);
  }

  /** On a list without repeated ids the filter keeps everything. */
  lemma {:induction false} KeptPrefixAllUnique(t: seq<HomeItem>, n: nat)
    requires n <= |t| && NoDuplicates(Ids(t))
    ensures KeptPrefix(t, n) == t[..n]
  {
    if n > 0 {
      KeptPrefixAllUnique(t, n - 1);
      FindIndexAtMost(t, n - 1);
      var f := FindIndex(t, t[n - 1].externalId);
      assert Ids(t)[f] == Ids(t)[n - 1];
      assert t[..n] == t[..n - 1] + [t[n - 1]];
    }
  }

  /** Filtering twice is filtering once. */
  lemma DedupIdempotent(s: seq<HomeItem>)
    ensures Dedup(Dedup(s)) == Dedup(s)
  {
    var t := Dedup(s);
    DedupIdsExactlyOnce(s);
    KeptPrefixAllUnique(t, |t|);
    assert t[..|t|] == t;
  }

  /** The headings the page shows a list under. */
  const TagsList: seq<string> :=
    ["STEM & Innovation", "Community & Service", "Sports & Fitness", "Gaming & Technology", "Arts & Design"]

  /** What `getSuggestions` received: the body's `results`, or the error it caught, of
      which only the `message` is read (`None` when there is none). A body without
      `results` is the `TypeError` of `res.data.results.filter`. */
  datatype RedesignFetch = Results(items: seq<HomeItem>) | Failed(message: Option<string>)

  /** The text `handleError` shows: `error?.message || defaultMessage`. */
  function ErrorText(message: Option<string>, defaultMessage: string): (r: string)
    ensures message.Some? && message.value != "" ==> r == message.value
    ensures message.None? || message.value == "" ==> r == defaultMessage
    ensures defaultMessage != "" ==> r != ""
  {
    if message.Some? && message.value != "" then message.value else defaultMessage
  }

  /** The page's state; the shared snackbar is a field of the page. */
  class HomeRedesignPage {
    var suggestions: seq<HomeItem>
    var isLoading: bool
    var snackbar: Option<string>

    constructor()
      ensures suggestions == [] && !isLoading && snackbar.None?
    {
      suggestions := [];
      isLoading := false;
      snackbar := None;
    }

    /** The heading and list each `ItemList` receives: the same list for every tag. */
    function Sections(): (r: seq<(string, seq<HomeItem>)>)
      reads this
      ensures |r| == |TagsList|
      ensures forall i :: 0 <= i < |r| ==> r[i].0 == TagsList[i] && r[i].1 == suggestions
    {
      var shown := suggestions;
      seq(|TagsList|, i requires 0 <= i < |TagsList| => (TagsList[i], shown))
    }

    /** `getSuggestions`: the filtered `results`; or, when the request failed or the
        body has no `results`, the list is kept and `handleError` opens the error
        snackbar. Loading ends either way. */
    method ApplyFetch(fetched: RedesignFetch)
      modifies this
      ensures fetched.Results? ==> suggestions == Dedup(fetched.items) && snackbar == old(snackbar)
      ensures fetched.Failed? ==>
        suggestions == old(suggestions) && snackbar == Some(ErrorText(fetched.message, FetchFailedMessage))
      ensures !isLoading
    {
      isLoading := true;
      match fetched {
        case Results(items) =>
          suggestions := Dedup(items);
        case Failed(message) =>
          snackbar := Some(ErrorText(message, FetchFailedMessage));
      }
      isLoading := false;
    }
  }
}
