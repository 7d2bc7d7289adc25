/** Python's `int(text)` on a string, in base 10, for ASCII digits. */
module PyInt {
  import opened Wrappers
  import opened Strings

  predicate IsDigit(c: char)
  {
    '0' <= c <= '9'
  }

  /** The body Python accepts after the sign: digits, with single underscores allowed
      between two digits. */
  predicate WellFormedDigits(s: string)
  {
    && |s| >= 1 && IsDigit(s[0]) && IsDigit(s[|s| - 1])
    && (forall k :: 0 <= k < |s| ==> IsDigit(s[k]) || s[k] == '_')
    && (forall k :: 0 <= k < |s| - 1 ==> s[k] == '_' ==> s[k + 1] != '_')
  }

  /** The value of a digit string, underscores ignored. */
  function DigitsValue(s: string): (v: nat)
  {
    if s == [] then 0
    else
      var n := |s| - 1;
      if IsDigit(s[n]) then DigitsValue(s[..n]) * 10 + (s[n] as int - '0' as int)
      else DigitsValue(s[..n])
  }

  /** `int(text)`: surrounding whitespace is ignored, one optional sign, then the digit
      body; `None` is the `ValueError` of anything else. */
  function ParseInt(text: string): (r: Option<int>)
  {
    var t := PyStrip(text);
    if t == [] then None
    else
      var negative := t[0] == '-';
      var body := if t[0] == '-' || t[0] == '+' then t[1..] else t;
      if !WellFormedDigits(body) then None
      else
        var v: int := DigitsValue(body);
        Some(if negative then -v else v)
  }

  /** The decimal digits of a natural number, most significant first, no leading zero. */
  function DecimalDigits(n: nat): (s: string)
    ensures |s| >= 1 && forall k :: 0 <= k < |s| ==> IsDigit(s[k])
  {
    var d := ['0' + (n % 10) as char];
    if n < 10 then d else DecimalDigits(n / 10) + d
  }

  /** Python `str(n)`. */
  function IntToString(n: int): string
  {
    if n < 0 then "-" + DecimalDigits(-n) else DecimalDigits(n)
  }

  /** Reading back the digits of `n` gives `n`. */
  lemma {:induction false} DigitsValueOfDecimal(n: nat)
    ensures DigitsValue(DecimalDigits(n)) == n
  {
    var s := DecimalDigits(n);
    var d := ['0' + (n % 10) as char];
    if n >= 10 {
      DigitsValueOfDecimal(n / 10);
      assert s[..|s| - 1] == DecimalDigits(n / 10);
    }
  }

  /** Text without surrounding blanks is its own strip. */
  lemma StripUnchanged(s: string)
    requires s != [] && !IsPySpace(s[0]) && !IsPySpace(s[|s| - 1])
    ensures PyStrip(s) == s
  {
    assert TrimStart(s, IsPySpace) == s;
    assert TrimEnd(s, IsPySpace) == s;
  }

  /** `int(str(n)) == n` for every integer. */
  lemma ParseIntOfString(n: int)
    ensures ParseInt(IntToString(n)) == Some(n)
  {
    var s := IntToString(n);
    var m: nat := if n < 0 then -n else n;
    var digits := DecimalDigits(m);
    DigitsValueOfDecimal(m);
    assert WellFormedDigits(digits);
    assert IsDigit(digits[|digits| - 1]);
    if n < 0 {
      assert s == "-" + digits;
      assert s[|s| - 1] == digits[|digits| - 1];
      StripUnchanged(s);
      assert s[1..] == digits;
    } else {
      assert s == digits;
      StripUnchanged(s);
    }
  }

  /** Text that is not an integer literal is rejected. */
  lemma ParseIntRejects()
    ensures ParseInt("a") == None
    ensures ParseInt("") == None
    ensures ParseInt("1__0") == None
  {
    assert TrimStart("1__0", IsPySpace) == "1__0";
    assert TrimEnd("1__0", IsPySpace) == "1__0";
    assert "1__0"[1] == '_' && "1__0"[2] == '_';
  }

  /** Surrounding blanks and a plus sign are accepted. */
  lemma ParseIntAcceptsBlanksAndSign()
    ensures ParseInt(" +3 ") == Some(3)
  {
    assert TrimStart(" +3 ", IsPySpace) == "+3 ";
    assert TrimEnd("+3 ", IsPySpace) == "+3";
    var body := "+3"[1..];
    assert body == "3";
    assert WellFormedDigits(body);
    assert DigitsValue(body) == DigitsValue("") * 10 + 3;
  }
}
