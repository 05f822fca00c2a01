/**
 * Hexadecimal text for fingerprints: `hex(v)[2:].zfill(16)` and
 * `f"{v:016x}"` on the way out, `int(s, 16)` on the way back.
 */
module Hex {
  import opened Wrappers
  import opened Bits
  import opened PyText

  function Pow16(k: nat): (r: nat)
    ensures r >= 1
  {
    if k == 0 then 1 else 16 * Pow16(k - 1)
  }

  /** Sixteen hex digits hold exactly the 64-bit values. */
  lemma {:induction false} Pow2Pow16(k: nat)
    ensures Pow2(4 * k) == Pow16(k)
  {
    if k > 0 {
      Pow2Pow16(k - 1);
      var j := 4 * (k - 1);
      assert Pow2(j + 4) == 2 * Pow2(j + 3) == 4 * Pow2(j + 2) == 8 * Pow2(j + 1) == 16 * Pow2(j);
    }
  }

  predicate IsHexChar(c: char) {
    '0' <= c <= '9' || 'a' <= c <= 'f' || 'A' <= c <= 'F'
  }

  function CharValue(c: char): (d: nat)
    requires IsHexChar(c)
    ensures d < 16
  {
    if '0' <= c <= '9' then c as nat - '0' as nat
    else if 'a' <= c <= 'f' then c as nat - 'a' as nat + 10
    else c as nat - 'A' as nat + 10
  }

  /** The lower-case digit for `d`. */
  function HexDigit(d: nat): (c: char)
    requires d < 16
    ensures IsHexChar(c) && !('A' <= c <= 'F') && CharValue(c) == d
  {
    if d < 10 then ('0' as int + d) as char else ('a' as int + d - 10) as char
  }

  /** The value of a string of hex digits, most significant first. */
  function DigitsValue(s: string): nat
    requires forall k :: 0 <= k < |s| ==> IsHexChar(s[k])
  {
    if s == [] then 0 else 16 * DigitsValue(s[..|s| - 1]) + CharValue(s[|s| - 1])
  }

  /** `hex(v)[2:]`: the shortest lower-case hex spelling of `v` ("0" for zero). */
  function ToHex(v: nat): (r: string)
    ensures 1 <= |r|
    ensures forall k :: 0 <= k < |r| ==> IsHexChar(r[k]) && !('A' <= r[k] <= 'F')
  {
    (if v < 16 then "" else ToHex(v / 16)) + [HexDigit(v % 16)]
  }

  /** `s.zfill(w)` for a string without a sign: zeros on the left up to width `w`. */
  function ZFill(s: string, w: nat): (r: string)
    ensures |r| == if |s| < w then w else |s|
    ensures r == Repeat('0', w - |s|) + s
  {
    Repeat('0', w - |s|) + s
  }

  /** `hex(v)[2:].zfill(16)`, which is also `f"{v:016x}"`. */
  function Hex16(v: nat): string {
    ZFill(ToHex(v), 16)
  }

  predicate AllHex(s: string) {
    forall k :: 0 <= k < |s| ==> IsHexChar(s[k])
  }

  /** What `int(_, 16)` reads as digits: the text after an optional `+` and `0x`/`0X`. */
  function HexBody(t: string): string {
    var u := if |t| > 0 && t[0] == '+' then t[1..] else t;
    if |u| >= 2 && u[0] == '0' && (u[1] == 'x' || u[1] == 'X') then u[2..] else u
  }

  /** Powers of sixteen grow with the exponent. */
  lemma {:induction false} Pow16Grows(a: nat, b: nat)
    requires a <= b
    ensures Pow16(a) <= Pow16(b)
    decreases b - a
  {
    if a < b {
      Pow16Grows(a, b - 1);
    }
  }

  /** `k` hex digits spell a value below `16^k`. */
  lemma {:induction false} DigitsBelow(s: string)
    requires AllHex(s)
    ensures DigitsValue(s) < Pow16(|s|)
  {
    if s != [] {
      DigitsBelow(s[..|s| - 1]);
    }
  }

  /** The digits are part of the text. */
  lemma HexBodyShorter(t: string)
    ensures |HexBody(t)| <= |t|
  {
  }

  /** `int(s, 16)` for a string without sign `-` or digit separators; `None` where Python raises `ValueError`. */
  function ParseHex(s: string): (r: Option<nat>)
    ensures r.Some? ==> r.value < Pow16(|s|)
    ensures r.None? ==> HexBody(Strip(s)) == [] || exists k :: 0 <= k < |HexBody(Strip(s))| && !IsHexChar(HexBody(Strip(s))[k])
  {
    var body := HexBody(Strip(s));
    if |body| > 0 && AllHex(body) then
      DigitsBelow(body);
      HexBodyShorter(Strip(s));
      Pow16Grows(|body|, |s|);
      Some(DigitsValue(body))
    else None
  }

  /** Reading back the shortest spelling gives the value. */
  lemma {:induction false} ToHexValue(v: nat)
    ensures DigitsValue(ToHex(v)) == v
  {
    var init := if v < 16 then "" else ToHex(v / 16);
    var d := HexDigit(v % 16);
    var r := init + [d];
    assert ToHex(v) == r;
    assert r[..|r| - 1] == init && r[|r| - 1] == d;
    if v >= 16 {
      ToHexValue(v / 16);
    }
    assert DigitsValue(init) == v / 16;
    assert DigitsValue(r) == 16 * (v / 16) + v % 16;
  }

  /** A value below `16^k` needs at most `k` digits. */
  lemma {:induction false} ToHexLength(v: nat, k: nat)
    requires 1 <= k && v < Pow16(k)
    ensures |ToHex(v)| <= k
  {
    if v >= 16 {
      ToHexLength(v / 16, k - 1);
    }
  }

  /** Leading zeros do not change the value. */
  lemma {:induction false} LeadingZeros(n: nat, s: string)
    requires forall k :: 0 <= k < |s| ==> IsHexChar(s[k])
    ensures forall k :: 0 <= k < |Repeat('0', n) + s| ==> IsHexChar((Repeat('0', n) + s)[k])
    ensures DigitsValue(Repeat('0', n) + s) == DigitsValue(s)
    decreases |s| + n
  {
    var z := Repeat('0', n);
    if s == [] {
      assert z + s == z;
      if n > 0 {
        assert z[..n - 1] == Repeat('0', n - 1);
        LeadingZeros(n - 1, s);
        assert Repeat('0', n - 1) + s == Repeat('0', n - 1);
      }
    } else {
      var init := s[..|s| - 1];
      assert (z + s)[..|z + s| - 1] == z + init;
      LeadingZeros(n, init);
    }
  }

  /** Every 64-bit fingerprint is written with exactly sixteen digits. */
  lemma Hex16Length(v: nat)
    requires v < Pow2(64)
    ensures |Hex16(v)| == 16
  {
    Pow2Pow16(16);
    ToHexLength(v, 16);
  }

  /** A non-empty run of hex digits parses to its value. */
  lemma ParseDigits(s: string)
    requires |s| > 0 && AllHex(s)
    ensures ParseHex(s) == Some(DigitsValue(s))
  {
    forall k | 0 <= k < |s| ensures !IsSpace(s[k]) {
      assert IsHexChar(s[k]);
    }
    StripNoSpace(s);
    assert IsHexChar(s[0]);
    assert |s| >= 2 ==> IsHexChar(s[1]);
    assert HexBody(s) == s;
  }

  /** Parsing a written fingerprint gives the fingerprint back. */
  lemma ParseHex16(v: nat)
    ensures ParseHex(Hex16(v)) == Some(v)
  {
    var h := ToHex(v);
    var n := if |h| < 16 then 16 - |h| else 0;
    var s := Hex16(v);
    assert s == Repeat('0', n) + h;
    LeadingZeros(n, h);
    ToHexValue(v);
    assert AllHex(s);
    ParseDigits(s);
  }

  /** Distinct fingerprints are written differently. */
  lemma Hex16Injective(a: nat, b: nat)
    requires Hex16(a) == Hex16(b)
    ensures a == b
  {
    ParseHex16(a);
    ParseHex16(b);
  }
}
