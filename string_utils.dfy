/** The display helpers of frontend/src/utils/stringUtils.js. Strings are sequences of
    characters, and a character's code is its scalar value. */
module StringUtils {
  import opened Wrappers
  import opened Strings

  /** JavaScript `s.slice(0, end)` for an integer `end`: a negative end counts from the
      back of the string. */
  function SliceTo(s: string, end: int): (r: string)
    ensures |r| == if end < 0 then (if |s| + end < 0 then 0 else |s| + end)
                   else (if end < |s| then end else |s|)
    ensures r == s[..|r|]
  {
    if end < 0 then (if |s| + end < 0 then [] else s[..|s| + end])
    else if end < |s| then s[..end] else s
  }

  /** `truncateString`: strings longer than `maxLength` are cut to their first
      `maxLength` characters followed by "...". */
  function TruncateString(s: string, maxLength: int): (r: string)
    ensures |s| <= maxLength ==> r == s
    ensures 0 <= maxLength < |s| ==> r == s[..maxLength] + "..." && |r| == maxLength + 3
    ensures maxLength < 0 ==> r == SliceTo(s, maxLength) + "..."
  {
    if |s| > maxLength then SliceTo(s, maxLength) + "..." else s
  }

  /** For a non-negative limit, truncating twice is truncating once: the cut string is
      longer than the limit again, and cutting it keeps the same prefix. */
  lemma TruncateIdempotent(s: string, maxLength: nat)
    ensures TruncateString(TruncateString(s, maxLength), maxLength) == TruncateString(s, maxLength)
  {
    if |s| > maxLength {
      var t := TruncateString(s, maxLength);
      assert t[..maxLength] == s[..maxLength];
    }
  }

  /** 2 to the power `k`. */
  function Pow2(k: nat): (p: nat)
    ensures p >= 1
  {
    if k == 0 then 1 else 2 * Pow2(k - 1)
  }

  const TwoTo32: int := 0x1_0000_0000
  const TwoTo31: int := 0x8000_0000

  /** ECMAScript ToInt32 on an integral number: the value modulo 2^32, read as a signed
      32-bit integer. */
  function ToInt32(x: int): (r: int)
    ensures -TwoTo31 <= r < TwoTo31
    ensures (r - x) % TwoTo32 == 0
  {
    var m := x % TwoTo32;
    if m >= TwoTo31 then m - TwoTo32 else m
  }

  /** `x << 5`. */
  function ShiftLeft5(x: int): int
  {
    ToInt32(ToInt32(x) * 32)
  }

  /** `x >> k` for `0 <= k < 32`: an arithmetic (sign-propagating) shift. */
  function ShiftRight(x: int, k: nat): int
  {
    ToInt32(x) / Pow2(k)
  }

  /** `x & 0xff`: the low eight bits of the 32-bit pattern. */
  function LowByte(x: int): (r: int)
    ensures 0 <= r < 256
  {
    ToInt32(x) % 256
  }

  /** One step of the hash: `charCode + ((hash << 5) - hash)`. The accumulator is exact;
      only the shift works on 32 bits. */
  function HashStep(hash: int, c: char): int
  {
    c as int + (ShiftLeft5(hash) - hash)
  }

  /** The hash of a string, from `hash = 0` over its characters in order. */
  function Hash(s: string): int
  {
    if s == [] then 0 else HashStep(Hash(s[..|s| - 1]), s[|s| - 1])
  }

  /** Byte `i` of the hash as the second loop reads it: `(hash >> (i * 8)) & 0xff`. */
  function HashByte(hash: int, i: nat): (v: int)
    ensures 0 <= v < 256
  {
    LowByte(ShiftRight(hash, i * 8))
  }

  /** A lowercase hexadecimal digit. */
  function HexDigit(d: nat): (c: char)
    requires d < 16
  {
    if d < 10 then '0' + d as char else 'a' + (d - 10) as char
  }

  predicate IsLowerHex(c: char)
  {
    '0' <= c <= '9' || 'a' <= c <= 'f'
  }

  /** The value of a lowercase hexadecimal digit. */
  function HexValue(c: char): (v: int)
  {
    if '0' <= c <= '9' then c as int - '0' as int else c as int - 'a' as int + 10
  }

  /** `n.toString(16)` for a natural number: lowercase digits, no padding. */
  function JsHex(n: nat): (s: string)
    ensures |s| >= 1
  {
    if n < 16 then [HexDigit(n)] else JsHex(n / 16) + [HexDigit(n % 16)]
  }

  /** JavaScript `s.slice(-2)` for a string of at least two characters. */
  function LastTwo(s: string): string
    requires |s| >= 2
  {
    s[|s| - 2..]
  }

  /** The two characters the loop appends for byte `v`: `` `00${v.toString(16)}`.slice(-2) ``. */
  function HexPair(v: nat): string
  {
    LastTwo("00" + JsHex(v))
  }

  /** A byte's pair is exactly two lowercase hex digits, zero-padded, that read back as
      the byte. */
  lemma HexPairFormat(v: nat)
    requires v < 256
    ensures |HexPair(v)| == 2 && IsLowerHex(HexPair(v)[0]) && IsLowerHex(HexPair(v)[1])
    ensures HexValue(HexPair(v)[0]) * 16 + HexValue(HexPair(v)[1]) == v
  {
    if v >= 16 {
      assert JsHex(v / 16) == [HexDigit(v / 16)];
      assert HexPair(v) == [HexDigit(v / 16), HexDigit(v % 16)];
    } else {
      assert HexPair(v) == ['0', HexDigit(v)];
    }
  }

  /** The pairs of the first `n` bytes of the hash, byte 0 first. */
  function HexPairs(hash: int, n: nat): (s: string)
    ensures |s| == 2 * n
  {
    if n == 0 then "" else (HexPairFormat(HashByte(hash, n - 1)); HexPairs(hash, n - 1) + HexPair(HashByte(hash, n - 1)))
  }

  /** The colour of a hash: "#" and the pairs of bytes 0, 1 and 2. */
  function ColorOf(hash: int): string
  {
    "#" + HexPairs(hash, 3)
  }

  /** `stringToColor`: the hash loop, then one pair of hex digits per byte. */
  method StringToColor(s: string) returns (color: string)
    ensures color == ColorOf(Hash(s))
  {
    var hash := 0;
    var i := 0;
    while i < |s|
      invariant 0 <= i <= |s|
      invariant hash == Hash(s[..i])
    {
      assert s[..i + 1][..i] == s[..i];
      hash := s[i] as int + (ShiftLeft5(hash) - hash);
      i := i + 1;
    }
    assert s[..|s|] == s;
    color := "#";
    i := 0;
    while i < 3
      invariant 0 <= i <= 3
      invariant color == "#" + HexPairs(hash, i)
    {
      var value := LowByte(ShiftRight(hash, i * 8));
      color := color + LastTwo("00" + JsHex(value));
      i := i + 1;
    }
  }

  /** The low 32 bits of a hash, as an unsigned number. */
  function Unsigned32(hash: int): (u: int)
    ensures 0 <= u < TwoTo32
  {
    hash % TwoTo32
  }

  /** The shift amounts the loop uses, as numbers. */
  lemma Pow2Values()
    ensures Pow2(0) == 1 && Pow2(8) == 256 && Pow2(16) == 65536
  {
    assert Pow2(4) == 16 by { assert Pow2(1) == 2 && Pow2(2) == 4 && Pow2(3) == 8; }
    assert Pow2(8) == 256 by { assert Pow2(5) == 32 && Pow2(6) == 64 && Pow2(7) == 128; }
    assert Pow2(12) == 4096 by { assert Pow2(9) == 512 && Pow2(10) == 1024 && Pow2(11) == 2048; }
    assert Pow2(16) == 65536 by { assert Pow2(13) == 8192 && Pow2(14) == 16384 && Pow2(15) == 32768; }
  }

  /** Euclidean division by 256 from a quotient and remainder. */
  lemma DivMod256(x: int, q: int, r: int)
    requires x == 256 * q + r && 0 <= r < 256
    ensures x / 256 == q && x % 256 == r
  {
  }

  /** Euclidean division by 65536 from a quotient and remainder. */
  lemma DivMod65536(x: int, q: int, r: int)
    requires x == 65536 * q + r && 0 <= r < 65536
    ensures x / 65536 == q && x % 65536 == r
  {
  }

  /** ToInt32 leaves a value already in the signed 32-bit range alone. */
  lemma ToInt32Small(x: int)
    requires -TwoTo31 <= x < TwoTo31
    ensures ToInt32(x) == x
  {
  }

  /** Subtracting 2^32 from an unsigned pattern changes none of its low three bytes. */
  lemma SignedBytes(t: int, u: int, shift: int)
    requires shift == 0 || shift == 1
    requires 0 <= u < TwoTo32 && t == u - shift * TwoTo32
    ensures t % 256 == u % 256
    ensures (t / 256) % 256 == (u / 256) % 256
    ensures (t / 65536) % 256 == (u / 65536) % 256
  {
    var q1, r1 := u / 256, u % 256;
    DivMod256(t, q1 - shift * 16777216, r1);
    DivMod256(q1 - shift * 16777216, q1 / 256 - shift * 65536, q1 % 256);
    var q2, r2 := u / 65536, u % 65536;
    DivMod65536(t, q2 - shift * 65536, r2);
    DivMod256(q2 - shift * 65536, q2 / 256 - shift * 256, q2 % 256);
  }

  /** Byte 0 is bits 0-7 of the hash's 32-bit pattern. */
  lemma HashByte0(hash: int)
    ensures HashByte(hash, 0) == Unsigned32(hash) % 256
  {
    var u, t := Unsigned32(hash), ToInt32(hash);
    Pow2Values();
    SignedBytes(t, u, if u >= TwoTo31 then 1 else 0);
    ToInt32Small(t);
    assert HashByte(hash, 0) == ToInt32(t) % 256;
  }

  /** Byte 1 is bits 8-15 of the hash's 32-bit pattern. */
  lemma HashByte1(hash: int)
    ensures HashByte(hash, 1) == (Unsigned32(hash) / 256) % 256
  {
    var u, t := Unsigned32(hash), ToInt32(hash);
    Pow2Values();
    SignedBytes(t, u, if u >= TwoTo31 then 1 else 0);
    ToInt32Small(t / 256);
    assert HashByte(hash, 1) == ToInt32(t / 256) % 256;
  }

  /** Byte 2 is bits 16-23 of the hash's 32-bit pattern. */
  lemma HashByte2(hash: int)
    ensures HashByte(hash, 2) == (Unsigned32(hash) / 65536) % 256
  {
    var u, t := Unsigned32(hash), ToInt32(hash);
    Pow2Values();
    SignedBytes(t, u, if u >= TwoTo31 then 1 else 0);
    ToInt32Small(t / 65536);
    assert HashByte(hash, 2) == ToInt32(t / 65536) % 256;
  }

  /** The three bytes are bits 0-7, 8-15 and 16-23 of the hash's 32-bit pattern: the
      sign-propagating shift makes no difference to them. */
  lemma HashBytesAreBits(hash: int)
    ensures HashByte(hash, 0) == Unsigned32(hash) % 256
    ensures HashByte(hash, 1) == (Unsigned32(hash) / 256) % 256
    ensures HashByte(hash, 2) == (Unsigned32(hash) / 65536) % 256
  {
    HashByte0(hash);
    HashByte1(hash);
    HashByte2(hash);
  }

  /** The colour is "#" and the pairs of bytes 0, 1 and 2 in that order. */
  lemma ColorPairs(hash: int)
    ensures ColorOf(hash) == "#" + HexPair(HashByte(hash, 0)) + HexPair(HashByte(hash, 1)) + HexPair(HashByte(hash, 2))
  {
    var p0, p1, p2 := HexPair(HashByte(hash, 0)), HexPair(HashByte(hash, 1)), HexPair(HashByte(hash, 2));
    assert HexPairs(hash, 1) == p0;
    assert HexPairs(hash, 2) == p0 + p1;
    assert HexPairs(hash, 3) == p0 + p1 + p2;
  }

  /** The colour is "#" and six lowercase hex digits whose pairs read back as the hash's
      bytes 0, 1 and 2. */
  lemma ColorFormat(hash: int)
    ensures |ColorOf(hash)| == 7 && ColorOf(hash)[0] == '#'
    ensures forall k :: 1 <= k < 7 ==> IsLowerHex(ColorOf(hash)[k])
    ensures HexValue(ColorOf(hash)[1]) * 16 + HexValue(ColorOf(hash)[2]) == HashByte(hash, 0)
    ensures HexValue(ColorOf(hash)[3]) * 16 + HexValue(ColorOf(hash)[4]) == HashByte(hash, 1)
    ensures HexValue(ColorOf(hash)[5]) * 16 + HexValue(ColorOf(hash)[6]) == HashByte(hash, 2)
  {
    var c := ColorOf(hash);
    var p0, p1, p2 := HexPair(HashByte(hash, 0)), HexPair(HashByte(hash, 1)), HexPair(HashByte(hash, 2));
    HexPairFormat(HashByte(hash, 0));
    HexPairFormat(HashByte(hash, 1));
    HexPairFormat(HashByte(hash, 2));
    ColorPairs(hash);
    assert c == ['#', p0[0], p0[1], p1[0], p1[1], p2[0], p2[1]];
  }

  /** The empty string has hash 0 and colour "#000000". */
  lemma EmptyStringColor()
    ensures Hash("") == 0
    ensures ColorOf(Hash("")) == "#000000"
  {
    assert HashByte(0, 0) == 0 && HashByte(0, 1) == 0 && HashByte(0, 2) == 0;
    assert JsHex(0) == "0";
    assert HexPair(0) == "00";
  }

  /** The props `stringAvatar` builds: the background colour and the initials. */
  datatype Avatar = Avatar(bgcolor: string, children: string)

  /** `` `${w[0]}` `` for a word `w`: its first character, or the text "undefined" that
      JavaScript prints for the missing character of an empty word. */
  function FirstCharText(w: string): string
  {
    if w == "" then "undefined" else [w[0]]
  }

  /** `stringAvatar`: the colour of the whole name, and the first character of the
      first space-separated word followed by that of the second word when it is
      non-empty. */
  function StringAvatar(name: string): Avatar
  {
    var words := Split(name, ' ');
    var second := if |words| > 1 && words[1] != "" then [words[1][0]] else "";
    Avatar(ColorOf(Hash(name)), FirstCharText(words[0]) + second)
  }

  /** "John Doe ..." gets the initials "JD". */
  lemma AvatarTwoWords(first: string, last: string, rest: string)
    requires first != "" && ' ' !in first && last != "" && ' ' !in last
    ensures StringAvatar(first + " " + last + rest).children == [first[0], last[0]]
  {
    var name := first + " " + last + rest;
    assert name == first + [' '] + (last + rest);
    SplitAtFirst(first, ' ', last + rest);
    SplitFirstChar(last, rest);
  }

  /** The second word's first character is that of `last` whenever `last` is non-empty
      and has no space. */
  lemma {:induction false} SplitFirstChar(last: string, rest: string)
    requires last != "" && ' ' !in last
    ensures Split(last + rest, ' ')[0] != "" && Split(last + rest, ' ')[0][0] == last[0]
  {
    var t := last + rest;
    assert t[0] == last[0];
    assert t[1..] == last[1..] + rest;
  }

  /** A single word gets its first character alone. */
  lemma AvatarOneWord(name: string)
    requires name != "" && ' ' !in name
    ensures StringAvatar(name).children == [name[0]]
  {
    SplitNoSeparator(name, ' ');
  }

  /** A name that is empty or starts with a space shows the text "undefined" first. */
  lemma AvatarEmptyFirstWord(name: string)
    requires name == "" || name[0] == ' '
    ensures StringAvatar(name).children[..9] == "undefined"
  {
  }

  /** `apiBaseUrl`: the configured `VITE_API_URL` with one trailing "/" removed. */
  function ApiBaseUrl(env: Option<string>): (r: Option<string>)
    ensures r.Some? <==> env.Some?
    ensures r.Some? ==> r.value + (if r.value == env.value then "" else "/") == env.value
    ensures env.Some? && env.value != "" && env.value[|env.value| - 1] == '/' ==>
      r.value == env.value[..|env.value| - 1]
    ensures env.Some? && (env.value == "" || env.value[|env.value| - 1] != '/') ==> r.value == env.value
  {
    match env
    case None => None
    case Some(v) => Some(if v != "" && v[|v| - 1] == '/' then v[..|v| - 1] else v)
  }

  /** `apiBaseUrl || "http://localhost:8000"`. */
  function Origin(env: Option<string>): (o: string)
    ensures ApiBaseUrl(env).Some? && ApiBaseUrl(env).value != "" ==> o == ApiBaseUrl(env).value
    ensures ApiBaseUrl(env).None? || ApiBaseUrl(env).value == "" ==> o == "http://localhost:8000"
  {
    match ApiBaseUrl(env)
    case Some(b) => if b != "" then b else "http://localhost:8000"
    case None => "http://localhost:8000"
  }

  /** The test `/^https?:\/\//i`: the text starts with "http://" or "https://" in any
      mix of ASCII case. */
  predicate IsAbsoluteUrl(u: string)
  {
    (|u| >= 7 && Lower(u[..7]) == "http://") || (|u| >= 8 && Lower(u[..8]) == "https://")
  }

  /** `toAbsoluteMediaUrl`: "" for a missing or empty input, an absolute URL as it is,
      and otherwise the origin followed by the path with a leading "/" made sure of. */
  function ToAbsoluteMediaUrl(url: Option<string>, env: Option<string>): (r: string)
    ensures url.None? || url.value == "" ==> r == ""
    ensures url.Some? && IsAbsoluteUrl(url.value) ==> r == url.value
    ensures url.Some? && url.value != "" && !IsAbsoluteUrl(url.value) ==>
      r == Origin(env) + (if url.value[0] == '/' then url.value else "/" + url.value)
  {
    match url
    case None => ""
    case Some(u) =>
      if u == "" then ""
      else if IsAbsoluteUrl(u) then u
      else
        var path := if u[0] == '/' then u else "/" + u;
        Origin(env) + path
  }

  /** With an absolute origin (the fallback is one), every result but "" is absolute,
      so converting twice is converting once. */
  lemma ToAbsoluteIdempotent(url: Option<string>, env: Option<string>)
    requires IsAbsoluteUrl(Origin(env))
    ensures var r := ToAbsoluteMediaUrl(url, env);
      (r == "" || IsAbsoluteUrl(r)) && ToAbsoluteMediaUrl(Some(r), env) == r
  {
    var r := ToAbsoluteMediaUrl(url, env);
    var o := Origin(env);
    if url.Some? && url.value != "" && !IsAbsoluteUrl(url.value) {
      assert r[..|o|] == o;
      if |o| >= 7 && Lower(o[..7]) == "http://" {
        assert r[..7] == o[..7];
      } else {
        assert r[..8] == o[..8];
      }
    }
  }

  /** The fallback origin is absolute. */
  lemma FallbackOriginAbsolute()
    ensures IsAbsoluteUrl(Origin(None))
  {
    assert Origin(None)[..7] == "http://";
  }
}
