/** String helpers with the semantics of the Python and JavaScript built-ins the
    source calls. Strings are sequences of Unicode scalar values. */
module Strings {

  /** Characters Python's `str.strip()` (no argument) removes: those for which
      `str.isspace()` holds. */
  predicate IsPySpace(c: char)
  {
    c == ' ' || ('\t' <= c <= '\r') || ('\U{1c}' <= c <= '\U{1f}')
    || c == '\U{85}' || c == '\U{a0}' || c == '\U{1680}'
    || ('\U{2000}' <= c <= '\U{200a}') || c == '\U{2028}' || c == '\U{2029}'
    || c == '\U{202f}' || c == '\U{205f}' || c == '\U{3000}'
  }

  /** Characters JavaScript's `String.prototype.trim()` removes: WhiteSpace and
      LineTerminator of the ECMAScript grammar. */
  predicate IsJsSpace(c: char)
  {
    c == ' ' || ('\t' <= c <= '\r') || c == '\U{a0}' || c == '\U{1680}'
    || ('\U{2000}' <= c <= '\U{200a}') || c == '\U{2028}' || c == '\U{2029}'
    || c == '\U{202f}' || c == '\U{205f}' || c == '\U{3000}' || c == '\U{feff}'
  }

  /** `s` without its leading characters satisfying `ws`. */
  function TrimStart(s: string, ws: char -> bool): (r: string)
    ensures |r| <= |s|
  {
    if s == [] || !ws(s[0]) then s else TrimStart(s[1..], ws)
  }

  /** `s` without its trailing characters satisfying `ws`. */
  function TrimEnd(s: string, ws: char -> bool): (r: string)
    ensures |r| <= |s|
  {
    if s == [] || !ws(s[|s| - 1]) then s else TrimEnd(s[..|s| - 1], ws)
  }

  /** TrimStart drops a prefix made of `ws` characters and stops at a non-`ws` one. */
  lemma {:induction false} TrimStartFacts(s: string, ws: char -> bool)
    ensures var r := TrimStart(s, ws);
      r == s[|s| - |r|..] && (r == [] || !ws(r[0]))
      && forall k :: 0 <= k < |s| - |r| ==> ws(s[k])
  {
    if s != [] && ws(s[0]) {
      TrimStartFacts(s[1..], ws);
    }
  }

  /** TrimEnd drops a suffix made of `ws` characters and stops at a non-`ws` one. */
  lemma {:induction false} TrimEndFacts(s: string, ws: char -> bool)
    ensures var r := TrimEnd(s, ws);
      r == s[..|r|] && (r == [] || !ws(r[|r| - 1]))
      && forall k :: |r| <= k < |s| ==> ws(s[k])
  {
    if s != [] && ws(s[|s| - 1]) {
      TrimEndFacts(s[..|s| - 1], ws);
    }
  }

  /** `s` without leading and trailing characters satisfying `ws`. */
  function Trim(s: string, ws: char -> bool): (r: string)
  {
    TrimEnd(TrimStart(s, ws), ws)
  }

  /** A trimmed string is the contiguous part `s[i..i + |r|]` of the input, carries no
      surrounding `ws` characters, and everything cut away satisfied `ws`. */
  lemma {:induction false} TrimIsInnerSlice(s: string, ws: char -> bool) returns (i: nat)
    ensures i + |Trim(s, ws)| <= |s| && Trim(s, ws) == s[i..i + |Trim(s, ws)|]
    ensures forall k :: 0 <= k < i ==> ws(s[k])
    ensures forall k :: i + |Trim(s, ws)| <= k < |s| ==> ws(s[k])
    ensures Trim(s, ws) == [] || (!ws(Trim(s, ws)[0]) && !ws(Trim(s, ws)[|Trim(s, ws)| - 1]))
  {
    var t := TrimStart(s, ws);
    var r := TrimEnd(t, ws);
    assert r == Trim(s, ws);
    TrimStartFacts(s, ws);
    TrimEndFacts(t, ws);
    i := |s| - |t|;
    assert t == s[i..];
    assert r == t[..|r|];
    assert r == s[i..i + |r|];
    if r != [] {
      assert r[0] == t[0];
    }
    forall k | i + |r| <= k < |s|
      ensures ws(s[k])
    {
      assert s[k] == t[k - i];
    }
  }

  /** Trimming twice is trimming once. */
  lemma {:induction false} TrimIdempotent(s: string, ws: char -> bool)
    ensures Trim(Trim(s, ws), ws) == Trim(s, ws)
  {
    var _ := TrimIsInnerSlice(s, ws);
  }

  /** Python `str.strip()`. */
  function PyStrip(s: string): string
  {
    Trim(s, IsPySpace)
  }

  /** JavaScript `String.prototype.trim()`. */
  function JsTrim(s: string): string
  {
    Trim(s, IsJsSpace)
  }

  /** Python `s.split(c)` and JavaScript `s.split(c)` for a one-character separator:
      the pieces between separators, including empty ones, so `""` splits into `[""]`. */
  function Split(s: string, c: char): (r: seq<string>)
    ensures |r| >= 1
  {
    if s == [] then [""]
    else
      var rest := Split(s[1..], c);
      if s[0] == c then [""] + rest else [[s[0]] + rest[0]] + rest[1..]
  }

  /** No piece contains the separator. */
  lemma {:induction false} SplitPiecesSeparatorFree(s: string, c: char, k: nat)
    requires k < |Split(s, c)|
    ensures c !in Split(s, c)[k]
  {
    if s != [] {
      var rest := Split(s[1..], c);
      if s[0] == c {
        if k > 0 {
          SplitPiecesSeparatorFree(s[1..], c, k - 1);
        }
      } else if k == 0 {
        SplitPiecesSeparatorFree(s[1..], c, 0);
      } else {
        SplitPiecesSeparatorFree(s[1..], c, k);
      }
    }
  }

  /** Python `c.join(parts)`: the pieces with `c` between neighbours. */
  function Join(parts: seq<string>, c: char): string
    requires |parts| >= 1
  {
    if |parts| == 1 then parts[0] else parts[0] + [c] + Join(parts[1..], c)
  }

  /** Splitting loses nothing: joining the pieces back gives the input. */
  lemma {:induction false} JoinSplit(s: string, c: char)
    ensures Join(Split(s, c), c) == s
  {
    if s != [] {
      JoinSplit(s[1..], c);
      var rest := Split(s[1..], c);
      if s[0] == c {
        assert Split(s, c)[1..] == rest;
      } else {
        var r := Split(s, c);
        if |rest| == 1 {
          assert r == [[s[0]] + rest[0]];
        } else {
          assert r[1..] == rest[1..];
        }
      }
    }
  }

  /** A string without the separator splits into itself alone. */
  lemma {:induction false} SplitNoSeparator(s: string, c: char)
    requires c !in s
    ensures Split(s, c) == [s]
  {
    if s != [] {
      SplitNoSeparator(s[1..], c);
      assert [s[0]] + s[1..] == s;
    }
  }

  /** The first piece of a split is the text before the first separator, and the rest
      is the split of what follows it. */
  lemma {:induction false} SplitAtFirst(w: string, c: char, rest: string)
    requires c !in w
    ensures Split(w + [c] + rest, c) == [w] + Split(rest, c)
  {
    if w != [] {
      assert (w + [c] + rest)[1..] == w[1..] + [c] + rest;
      SplitAtFirst(w[1..], c, rest);
      assert [w[0]] + w[1..] == w;
    } else {
      assert (w + [c] + rest)[1..] == rest;
    }
  }

  /** ASCII lower-casing of one character. */
  function LowerChar(c: char): (r: char)
  {
    if 'A' <= c <= 'Z' then (c as int + 32) as char else c
  }

  /** Lower-casing of a string, on the ASCII range: Python `str.lower()` and
      JavaScript `toLowerCase()` restricted to ASCII letters. */
  function Lower(s: string): (r: string)
    ensures |r| == |s|
  {
    seq(|s|, k requires 0 <= k < |s| => LowerChar(s[k]))
  }

  /** Python `s[:n]` for a non-negative `n`. */
  function Prefix(s: string, n: nat): (r: string)
    ensures |r| == if |s| <= n then |s| else n
    ensures r == s[..|r|]
  {
    if |s| <= n then s else s[..n]
  }
}
