/** Character- and string-level helpers shared by the label lookup and the
    answer parsing: Python's `str.lower()`, the whitespace `int()` and
    `float()` skip, and decimal digits, restricted to the characters the model covers (ASCII and Latin-1). */
module Text {

  /** True for the letters that `str.lower()` maps to a different letter in
      ASCII and Latin-1: 'A'..'Z' and U+00C0..U+00DE except U+00D7 (the
      multiplication sign). */
  predicate IsUpper(c: char) {
    ('A' <= c <= 'Z') || ('À' <= c <= 'Þ' && c != '×')
  }

  /** The lower-case partner of an upper-case letter; every other character
      is returned unchanged. */
  function LowerChar(c: char): (r: char)
    ensures !IsUpper(r)
    ensures !IsUpper(c) ==> r == c
    ensures IsUpper(c) ==> r as int == c as int + 32
  {
    if IsUpper(c) then (c as int + 32) as char else c
  }

  /** Python's `s.lower()` on the covered characters. */
  function Lower(s: string): (r: string)
    ensures |r| == |s|
    ensures forall i :: 0 <= i < |s| ==> r[i] == LowerChar(s[i])
  {
    seq(|s|, i requires 0 <= i < |s| => LowerChar(s[i]))
  }

  /** A string that `Lower` leaves as it is. */
  predicate IsLowerCase(s: string) {
    forall i :: 0 <= i < |s| ==> !IsUpper(s[i])
  }

  lemma LowerIsLowerCase(s: string)
    ensures IsLowerCase(Lower(s))
    ensures IsLowerCase(s) <==> Lower(s) == s
  {
    if IsLowerCase(s) {
      assert Lower(s) == s;
    }
    if Lower(s) == s {
      forall i | 0 <= i < |s| ensures !IsUpper(s[i]) {
        assert s[i] == Lower(s)[i];
      }
    }
  }

  lemma LowerIdempotent(s: string)
    ensures Lower(Lower(s)) == Lower(s)
  {
    LowerIsLowerCase(s);
    LowerIsLowerCase(Lower(s));
  }

  /** The ASCII whitespace Python's `int()` and `float()` skip around a
      number: tab to carriage return, and space. The separators 0x1C..0x1F,
      which `str.isspace()` accepts, are not skipped by them. */
  predicate IsSpace(c: char) {
    c == ' ' || '\t' <= c <= '\r'
  }

  predicate AllSpace(s: string) {
    forall k :: 0 <= k < |s| ==> IsSpace(s[k])
  }

  /** The position of the first character at or after `i` that is not
      whitespace (`|s|` when there is none). */
  function SpaceEnd(s: string, i: nat): (j: nat)
    requires i <= |s|
    ensures i <= j <= |s|
    ensures forall k :: i <= k < j ==> IsSpace(s[k])
    ensures j < |s| ==> !IsSpace(s[j])
    decreases |s| - i
  {
    if i < |s| && IsSpace(s[i]) then SpaceEnd(s, i + 1) else i
  }

  /** The position, between `lo` and `j`, where the whitespace that ends
      `s[lo..j]` starts. */
  function SpaceStart(s: string, lo: nat, j: nat): (e: nat)
    requires lo <= j <= |s|
    ensures lo <= e <= j
    ensures forall k :: e <= k < j ==> IsSpace(s[k])
    ensures lo < e ==> !IsSpace(s[e - 1])
    decreases j - lo
  {
    if lo < j && IsSpace(s[j - 1]) then SpaceStart(s, lo, j - 1) else j
  }

  /** The argument of `int()` or `float()` without the whitespace they skip
      at either end: the part of `s` after its leading whitespace, with only
      whitespace after it, neither starting nor ending with whitespace. */
  function Strip(s: string): (r: string)
    ensures var i := SpaceEnd(s, 0);
      i + |r| <= |s| && r == s[i..i + |r|] &&
      (forall k :: 0 <= k < i ==> IsSpace(s[k])) &&
      (forall k :: i + |r| <= k < |s| ==> IsSpace(s[k]))
    ensures r == [] || (!IsSpace(r[0]) && !IsSpace(r[|r| - 1]))
  {
    var i := SpaceEnd(s, 0);
    s[i..SpaceStart(s, i, |s|)]
  }

  /** The stripped form is the only part of `s` with whitespace alone
      around it and none at its ends. */
  lemma StripUnique(s: string, i: nat, r: string)
    requires i + |r| <= |s| && r == s[i..i + |r|]
    requires forall k :: 0 <= k < i ==> IsSpace(s[k])
    requires forall k :: i + |r| <= k < |s| ==> IsSpace(s[k])
    requires r == [] || (!IsSpace(r[0]) && !IsSpace(r[|r| - 1]))
    ensures Strip(s) == r
  {
    var i0 := SpaceEnd(s, 0);
    if r != [] {
      assert s[i] == r[0];
      assert s[i + |r| - 1] == r[|r| - 1];
      assert i0 == i;
      var e := SpaceStart(s, i, |s|);
      assert e == i + |r|;
    }
  }

  /** Whitespace on either side of a string does not change its stripped
      form. */
  lemma StripAround(w1: string, t: string, w2: string)
    requires AllSpace(w1) && AllSpace(w2)
    ensures Strip(w1 + t + w2) == Strip(t)
  {
    var x := w1 + t + w2;
    var r := Strip(t);
    var j := SpaceEnd(t, 0);
    var i := |w1| + j;
    assert r == x[i..i + |r|] by {
      assert t[j..j + |r|] == x[i..i + |r|];
    }
    forall k | 0 <= k < i
      ensures IsSpace(x[k])
    {
      if k >= |w1| {
        assert x[k] == t[k - |w1|];
      } else {
        assert x[k] == w1[k];
      }
    }
    forall k | i + |r| <= k < |x|
      ensures IsSpace(x[k])
    {
      if k < |w1| + |t| {
        assert x[k] == t[k - |w1|];
      } else {
        assert x[k] == w2[k - |w1| - |t|];
      }
    }
    StripUnique(x, i, r);
  }

  predicate IsDigit(c: char) {
    '0' <= c <= '9'
  }

  function DigitValue(c: char): (d: nat)
    requires IsDigit(c)
    ensures d < 10
  {
    c as int - '0' as int
  }

  function DigitChar(d: nat): (c: char)
    requires d < 10
    ensures IsDigit(c) && DigitValue(c) == d
  {
    ('0' as int + d) as char
  }

  predicate AllDigits(s: string) {
    forall i :: 0 <= i < |s| ==> IsDigit(s[i])
  }

  /** The value of a string of decimal digits, most significant first. */
  function DigitsValue(s: string): (n: nat)
    requires AllDigits(s)
  {
    if s == [] then 0 else DigitsValue(s[..|s| - 1]) * 10 + DigitValue(s[|s| - 1])
  }

  /** The decimal notation of a natural number, without leading zeros. */
  function NatToString(n: nat): (s: string)
    ensures AllDigits(s) && s != []
  {
    if n < 10 then [DigitChar(n)] else NatToString(n / 10) + [DigitChar(n % 10)]
  }

  lemma {:induction false} NatToStringRoundTrip(n: nat)
    ensures DigitsValue(NatToString(n)) == n
  {
    var s := NatToString(n);
    if n >= 10 {
      NatToStringRoundTrip(n / 10);
      assert s[..|s| - 1] == NatToString(n / 10);
    }
  }
}
