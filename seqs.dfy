/** Sequence helpers shared by the list-updating handlers. */
module Seqs {

  /** Every element of `s` except the occurrences of `x`, in the original order:
      Python's `[i for i in s if i != x]` and JavaScript's `s.filter(i => i !== x)`. */
  function RemoveAll<T(==,!new)>(s: seq<T>, x: T): (r: seq<T>)
    ensures |r| <= |s|
    ensures x !in r
    ensures forall y :: y in r <==> y in s && y != x
    ensures multiset(r) == multiset(s)[x := 0]
  {
    if s == [] then []
    else
      var n := |s| - 1;
      assert s == s[..n] + [s[n]];
      RemoveAll(s[..n], x) + (if s[n] == x then [] else [s[n]])
  }

  /** Removing an element that is absent changes nothing. */
  lemma {:induction false} RemoveAllAbsent<T(!new)>(s: seq<T>, x: T)
    requires x !in s
    ensures RemoveAll(s, x) == s
  {
    if s != [] {
      var n := |s| - 1;
      var init := s[..n];
      assert s == init + [s[n]];
      assert x !in init;
      RemoveAllAbsent(init, x);
      assert RemoveAll(s, x) == RemoveAll(init, x) + [s[n]];
    }
  }

  /** `r` is `s` with some elements dropped and the rest kept in their relative order
      (matched greedily from the end). */
  predicate IsSubsequence<T(==)>(r: seq<T>, s: seq<T>)
    decreases |s|
  {
    if r == [] then true
    else if s == [] then false
    else if r[|r| - 1] == s[|s| - 1] then IsSubsequence(r[..|r| - 1], s[..|s| - 1])
    else IsSubsequence(r, s[..|s| - 1])
  }

  /** Every sequence is a subsequence of itself. */
  lemma {:induction false} SubsequenceRefl<T>(s: seq<T>)
    ensures IsSubsequence(s, s)
  {
    if s != [] {
      SubsequenceRefl(s[..|s| - 1]);
    }
  }

  /** Extending the larger sequence at the end keeps the relation; extending both by
      the same element keeps it too. */
  lemma {:induction false} SubsequenceExtend<T>(r: seq<T>, s: seq<T>, x: T)
    requires IsSubsequence(r, s)
    ensures IsSubsequence(r, s + [x])
    ensures IsSubsequence(r + [x], s + [x])
    decreases |s|, 1
  {
    assert (s + [x])[..|s|] == s;
    assert (r + [x])[..|r|] == r;
    if r != [] && r[|r| - 1] == x {
      SubsequenceDropLast(r, s);
    }
  }

  /** Dropping the last element of the smaller sequence keeps the relation. */
  lemma {:induction false} SubsequenceDropLast<T>(r: seq<T>, s: seq<T>)
    requires r != [] && IsSubsequence(r, s)
    ensures IsSubsequence(r[..|r| - 1], s)
    decreases |s|, 0
  {
    var n := |s| - 1;
    assert s == s[..n] + [s[n]];
    if r[|r| - 1] == s[n] {
      SubsequenceExtend(r[..|r| - 1], s[..n], s[n]);
    } else {
      SubsequenceDropLast(r, s[..n]);
      SubsequenceExtend(r[..|r| - 1], s[..n], s[n]);
    }
  }

  /** A subsequence of all but the last element is a subsequence of the whole. */
  lemma SubsequenceGrow<T>(r: seq<T>, s: seq<T>)
    requires s != [] && IsSubsequence(r, s[..|s| - 1])
    ensures IsSubsequence(r, s)
  {
    var n := |s| - 1;
    SubsequenceExtend(r, s[..n], s[n]);
    assert s[..n] + [s[n]] == s;
  }

  /** Removing occurrences keeps the other elements in their original relative order. */
  lemma {:induction false} RemoveAllIsSubsequence<T(!new)>(s: seq<T>, x: T)
    ensures IsSubsequence(RemoveAll(s, x), s)
  {
    if s != [] {
      var n := |s| - 1;
      var init := s[..n];
      var t := RemoveAll(init, x);
      RemoveAllIsSubsequence(init, x);
      if s[n] == x {
        assert RemoveAll(s, x) == t;
        assert t == [] || t[|t| - 1] != s[n];
      } else {
        var r := t + [s[n]];
        assert RemoveAll(s, x) == r;
        assert r[..|r| - 1] == t;
      }
    }
  }

  /** No element occurs twice. */
  predicate NoDuplicates<T(==)>(s: seq<T>)
  {
    forall i, j :: 0 <= i < j < |s| ==> s[i] != s[j]
  }

  /** Removing elements keeps a list duplicate-free. */
  lemma {:induction false} RemoveAllNoDuplicates<T(!new)>(s: seq<T>, x: T)
    requires NoDuplicates(s)
    ensures NoDuplicates(RemoveAll(s, x))
  {
    if s != [] {
      var n := |s| - 1;
      assert NoDuplicates(s[..n]);
      RemoveAllNoDuplicates(s[..n], x);
      var t := RemoveAll(s[..n], x);
      assert s[n] !in s[..n];
      assert s[n] !in t;
    }
  }

  /** The set of elements of a sequence. */
  function Elements<T(==,!new)>(s: seq<T>): (r: set<T>)
    ensures forall x :: x in r <==> x in s
  {
    set x | x in s
  }

  /** A sequence has at most as many distinct elements as entries, and exactly as many
      precisely when no element repeats. */
  lemma {:induction false} DistinctCount<T(!new)>(s: seq<T>)
    ensures |Elements(s)| <= |s|
    ensures |Elements(s)| == |s| <==> NoDuplicates(s)
  {
    if s != [] {
      var n := |s| - 1;
      var init := s[..n];
      DistinctCount(init);
      assert s == init + [s[n]];
      assert Elements(s) == Elements(init) + {s[n]};
      if s[n] in init {
        assert Elements(s) == Elements(init);
        assert !NoDuplicates(s) by {
          var k :| 0 <= k < n && init[k] == s[n];
          assert s[k] == s[n];
        }
      } else {
        assert |Elements(s)| == |Elements(init)| + 1;
        if !NoDuplicates(init) {
          var i, j :| 0 <= i < j < n && init[i] == init[j];
          assert s[i] == s[j];
        }
      }
    }
  }

  /** `s` after toggling `id`: every occurrence removed when it is present, appended
      at the end when it is not. */
  function Toggle<T(==,!new)>(s: seq<T>, id: T): (r: seq<T>)
    ensures id in r <==> id !in s
    ensures id !in s ==> |r| == |s| + 1 && r[..|s|] == s && r[|s|] == id
  {
    if id in s then RemoveAll(s, id) else s + [id]
  }

  /** Toggling leaves every other element where it was: removal keeps the rest in order and
      changes the presence of no other element. */
  lemma ToggleKeepsOthers<T(!new)>(s: seq<T>, id: T, other: T)
    requires other != id
    ensures other in Toggle(s, id) <==> other in s
    ensures id in s ==> IsSubsequence(Toggle(s, id), s)
    ensures id in s ==> multiset(Toggle(s, id)) == multiset(s)[id := 0]
  {
    if id in s {
      RemoveAllIsSubsequence(s, id);
    }
  }

  /** Toggling an absent element twice restores the list. */
  lemma ToggleTwice<T(!new)>(s: seq<T>, id: T)
    requires id !in s
    ensures Toggle(Toggle(s, id), id) == s
  {
    var t := s + [id];
    assert t[..|t| - 1] == s && t[|t| - 1] == id;
    assert RemoveAll(t, id) == RemoveAll(s, id);
    RemoveAllAbsent(s, id);
  }

  /** A duplicate-free list stays duplicate-free. */
  lemma ToggleNoDuplicates<T(!new)>(s: seq<T>, id: T)
    requires NoDuplicates(s)
    ensures NoDuplicates(Toggle(s, id))
  {
    if id in s {
      RemoveAllNoDuplicates(s, id);
    }
  }
}
