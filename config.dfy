/** The settings `main` reads for the video mode: three typed answers become
    a resize factor in [0.1, 1.0], a frame skip in [1, 10] and the GPU wish,
    or the defaults of `process_video_file` when an answer does not parse. */
module Config {
  import opened Wrappers
  import opened Text

  datatype Settings = Settings(resizeFactor: real, skipFrames: int, useGpu: bool)

  /** `process_video_file(detector, video_path)`: its parameter defaults. */
  const DefaultSettings: Settings := Settings(0.5, 2, true)

  /** What an empty answer stands for (`input(...) or 0.5`, `or 2`). */
  const RecommendedResize: real := 0.5
  const RecommendedSkip: int := 2

  const MinResize: real := 0.1
  const MaxResize: real := 1.0
  const MinSkip: int := 1
  const MaxSkip: int := 10

  /** The answers to the GPU question that mean yes, once lower-cased. */
  const GpuYes: set<string> := {"s", "sim", "y", "yes", ""}

  /** The most digits `int()` and `str()` convert between a string and an
      integer: Python's default `sys.int_info.default_max_str_digits`. */
  const MaxStrDigits: nat := 4300

  /** Python's `int(s)` on a string: whitespace around, an optional sign,
      at most `MaxStrDigits` decimal digits (leading zeros count); `None`
      where `int` raises `ValueError`. */
  function ParseInt(s: string): Option<int> {
    ParseSigned(Strip(s))
  }

  /** What `int` makes of its argument once stripped: an optional sign
      followed by the digits. */
  function ParseSigned(t: string): Option<int> {
    if t == [] then None
    else
      var digits := if t[0] == '-' || t[0] == '+' then t[1..] else t;
      if digits != [] && AllDigits(digits) && |digits| <= MaxStrDigits then
        var v: int := DigitsValue(digits);
        Some(if t[0] == '-' then -v else v)
      else None
  }

  function Pow10(n: nat): (p: nat)
    ensures p >= 1
  {
    if n == 0 then 1 else 10 * Pow10(n - 1)
  }

  /** The position of the first '.', or the length when there is none. */
  function FirstDot(s: string): (i: nat)
    ensures i <= |s| && (i < |s| ==> s[i] == '.')
    ensures forall k :: 0 <= k < i ==> s[k] != '.'
  {
    if s == [] || s[0] == '.' then 0 else 1 + FirstDot(s[1..])
  }

  /** The value of the digits `whole`, a point, and the digits `frac`. */
  function DecimalValue(whole: string, frac: string): real
    requires AllDigits(whole) && AllDigits(frac)
  {
    DigitsValue(whole) as real + DigitsValue(frac) as real / Pow10(|frac|) as real
  }

  /** The digits before and after the first point (none after when there is
      no point). */
  function SplitAtPoint(body: string): (string, string) {
    var i := FirstDot(body);
    if i < |body| then (body[..i], body[i + 1..]) else (body, [])
  }

  /** The value of `digits[.digits]` with at least one digit. */
  function ParseDecimal(body: string): Option<real> {
    var (whole, frac) := SplitAtPoint(body);
    if AllDigits(whole) && AllDigits(frac) && |whole| + |frac| > 0 then Some(DecimalValue(whole, frac))
    else None
  }

  /** Python's `float(s)` on a string written in plain decimal notation:
      whitespace around, an optional sign, digits with at most one point;
      `None` where `float` raises `ValueError`. */
  function ParseFloat(s: string): Option<real> {
    var t := Strip(s);
    if t == [] then None
    else
      var body := if t[0] == '-' || t[0] == '+' then t[1..] else t;
      match ParseDecimal(body)
      case None => None
      case Some(v) => Some(if t[0] == '-' then -v else v)
  }

  /** `max(0.1, min(1.0, x))`. */
  function ClampResize(x: real): (r: real)
    ensures MinResize <= r <= MaxResize
    ensures MinResize <= x <= MaxResize ==> r == x
    ensures x < MinResize ==> r == MinResize
    ensures x > MaxResize ==> r == MaxResize
  {
    if x < MinResize then MinResize else if x > MaxResize then MaxResize else x
  }

  /** `max(1, min(10, k))`. */
  function ClampSkip(k: int): (r: int)
    ensures MinSkip <= r <= MaxSkip
    ensures MinSkip <= k <= MaxSkip ==> r == k
    ensures k < MinSkip ==> r == MinSkip
    ensures k > MaxSkip ==> r == MaxSkip
  {
    if k < MinSkip then MinSkip else if k > MaxSkip then MaxSkip else k
  }

  /** `float(answer or 0.5)`. */
  function ResizeAnswer(answer: string): Option<real> {
    if answer == "" then Some(RecommendedResize) else ParseFloat(answer)
  }

  /** `int(answer or 2)`. */
  function SkipAnswer(answer: string): Option<int> {
    if answer == "" then Some(RecommendedSkip) else ParseInt(answer)
  }

  /** `answer.lower() in ['s', 'sim', 'y', 'yes', '']`: yes for an empty
      answer and for "s", "sim", "y" or "yes" in any case, no for anything
      else. */
  predicate WantsGpu(answer: string) {
    Lower(answer) in GpuYes
  }

  /** The settings the video mode runs with, given the three answers. */
  function ChooseSettings(resizeAns: string, skipAns: string, gpuAns: string): (c: Settings)
    ensures MinResize <= c.resizeFactor <= MaxResize && MinSkip <= c.skipFrames <= MaxSkip
    ensures ResizeAnswer(resizeAns).None? || SkipAnswer(skipAns).None? ==> c == DefaultSettings
  {
    match (ResizeAnswer(resizeAns), SkipAnswer(skipAns))
    case (Some(r), Some(k)) => Settings(ClampResize(r), ClampSkip(k), WantsGpu(gpuAns))
    case _ => DefaultSettings
  }

  /** Decimal notation of an integer: an optional minus sign and the digits
      without leading zeros. */
  function IntToString(n: int): (s: string)
    ensures s != [] && !IsSpace(s[0]) && !IsSpace(s[|s| - 1])
  {
    if n < 0 then "-" + NatToString(-n) else NatToString(n)
  }

  lemma StripUnspaced(s: string)
    requires s != [] && !IsSpace(s[0]) && !IsSpace(s[|s| - 1])
    ensures Strip(s) == s
  {
    StripUnique(s, 0, s);
  }

  lemma ParseIntUnsigned(d: string)
    requires d != [] && AllDigits(d) && |d| <= MaxStrDigits
    ensures ParseInt(d) == Some(DigitsValue(d) as int)
  {
    assert IsDigit(d[0]) && IsDigit(d[|d| - 1]);
    StripUnspaced(d);
  }

  lemma ParseIntNegative(d: string)
    requires d != [] && AllDigits(d) && |d| <= MaxStrDigits
    ensures ParseInt("-" + d) == Some(-(DigitsValue(d) as int))
  {
    var s := "-" + d;
    assert s[0] == '-' && s[1..] == d;
    assert ParseSigned(s) == Some(-(DigitsValue(d) as int));
    assert s[|s| - 1] == d[|d| - 1];
    StripUnspaced(s);
  }

  /** `int(str(n)) == n` for every integer of at most `MaxStrDigits`
      digits; `str` itself raises on longer ones. */
  lemma ParseIntRoundTrip(n: int)
    requires |NatToString(if n < 0 then -n else n)| <= MaxStrDigits
    ensures ParseInt(IntToString(n)) == Some(n)
  {
    var m: nat := if n < 0 then -n else n;
    var d := NatToString(m);
    NatToStringRoundTrip(m);
    if n < 0 {
      assert IntToString(n) == "-" + d;
      ParseIntNegative(d);
    } else {
      assert IntToString(n) == d;
      ParseIntUnsigned(d);
    }
  }

  lemma {:induction false} FirstDotOfDigits(s: string)
    requires AllDigits(s)
    ensures FirstDot(s) == |s|
  {
    if s != [] {
      assert AllDigits(s[1..]);
      FirstDotOfDigits(s[1..]);
    }
  }

  lemma {:induction false} FirstDotAfterDigits(a: string, b: string)
    requires AllDigits(a)
    ensures FirstDot(a + "." + b) == |a|
  {
    if a != [] {
      assert (a + "." + b)[1..] == a[1..] + "." + b;
      FirstDotAfterDigits(a[1..], b);
    }
  }

  /** An unsigned body is parsed as a decimal. */
  lemma ParseFloatUnsigned(s: string)
    requires s != [] && !IsSpace(s[0]) && !IsSpace(s[|s| - 1]) && s[0] != '-' && s[0] != '+'
    ensures ParseFloat(s) == ParseDecimal(s)
  {
    StripUnspaced(s);
  }

  lemma ParseDecimalOfDigits(d: string)
    requires d != [] && AllDigits(d)
    ensures ParseDecimal(d) == Some(DigitsValue(d) as real)
  {
    FirstDotOfDigits(d);
    assert SplitAtPoint(d) == (d, []);
    assert DecimalValue(d, []) == DigitsValue(d) as real;
  }

  lemma ParseFloatNegative(d: string)
    requires d != [] && AllDigits(d)
    ensures ParseFloat("-" + d) == Some(-(DigitsValue(d) as real))
  {
    var s := "-" + d;
    assert s[|s| - 1] == d[|d| - 1];
    StripUnspaced(s);
    assert s[1..] == d;
    ParseDecimalOfDigits(d);
  }

  /** `float()` of the decimal notation of an integer `n` is `n`, for every
      integer, in exact reals: `float()` has no digit limit. */
  lemma ParseFloatOfInteger(n: int)
    ensures ParseFloat(IntToString(n)) == Some(n as real)
  {
    var m: nat := if n < 0 then -n else n;
    var d := NatToString(m);
    NatToStringRoundTrip(m);
    if n < 0 {
      var s := "-" + d;
      assert IntToString(n) == s;
      ParseFloatNegative(d);
      assert -(DigitsValue(d) as real) == n as real;
      assert ParseFloat(s) == Some(n as real);
    } else {
      assert IntToString(n) == d;
      ParseDecimalOfDigits(d);
      ParseFloatUnsigned(d);
    }
  }

  lemma ParseDecimalOfPoint(a: string, b: string)
    requires AllDigits(a) && AllDigits(b) && |a| + |b| > 0
    ensures ParseDecimal(a + "." + b) == Some(DecimalValue(a, b))
  {
    var s := a + "." + b;
    FirstDotAfterDigits(a, b);
    assert s[..|a|] == a;
    assert s[|a| + 1..] == b;
    assert SplitAtPoint(s) == (a, b);
  }

  lemma PointStringUnsigned(a: string, b: string)
    requires AllDigits(a) && AllDigits(b)
    ensures var s := a + "." + b;
      s != [] && !IsSpace(s[0]) && !IsSpace(s[|s| - 1]) && s[0] != '-' && s[0] != '+'
  {
    var s := a + "." + b;
    assert s[0] == (if a == [] then '.' else a[0]);
    assert s[|s| - 1] == (if b == [] then '.' else b[|b| - 1]);
  }

  /** `float("a.b")` for digit strings `a` and `b`, not both empty, is
      `a + b / 10^|b|`. */
  lemma ParseFloatOfDecimal(a: string, b: string)
    requires AllDigits(a) && AllDigits(b) && |a| + |b| > 0
    ensures ParseFloat(a + "." + b) == Some(DecimalValue(a, b))
  {
    PointStringUnsigned(a, b);
    ParseFloatUnsigned(a + "." + b);
    ParseDecimalOfPoint(a, b);
  }

  /** Whitespace around an answer is ignored, as by `int()` itself. */
  lemma ParseIntIgnoresSpace(w1: string, t: string, w2: string)
    requires AllSpace(w1) && AllSpace(w2)
    ensures ParseInt(w1 + t + w2) == ParseInt(t)
  {
    StripAround(w1, t, w2);
  }

  /** An answer of spaces only is not empty, so it is parsed and fails:
      unlike the empty answer it gives the defaults. */
  lemma BlankAnswerIsInvalid(s: string)
    requires s != [] && forall i :: 0 <= i < |s| ==> IsSpace(s[i])
    ensures SkipAnswer(s).None? && ResizeAnswer(s).None?
  {
    StripUnique(s, 0, []);
  }

  /** Empty answers give the recommended factor 0.5 and skip 2. */
  lemma EmptyAnswersGiveRecommended(gpuAns: string)
    ensures ChooseSettings("", "", gpuAns) == Settings(RecommendedResize, RecommendedSkip, WantsGpu(gpuAns))
  {
  }

  /** A parsed factor or skip outside its range is brought to the nearest
      bound; the defaults are used only when an answer does not parse. */
  lemma ParsedAnswersAreClamped(resizeAns: string, skipAns: string, gpuAns: string)
    requires ResizeAnswer(resizeAns).Some? && SkipAnswer(skipAns).Some?
    ensures var c := ChooseSettings(resizeAns, skipAns, gpuAns);
      c.resizeFactor == ClampResize(ResizeAnswer(resizeAns).value) &&
      c.skipFrames == ClampSkip(SkipAnswer(skipAns).value) &&
      c.useGpu == WantsGpu(gpuAns)
  {
  }

  /** Clamping a clamped value changes nothing. */
  lemma ClampIdempotent(x: real, k: int)
    ensures ClampResize(ClampResize(x)) == ClampResize(x)
    ensures ClampSkip(ClampSkip(k)) == ClampSkip(k)
  {
  }

  /** The GPU answer is read case-insensitively. */
  lemma GpuAnswerIgnoresCase(answer: string)
    ensures WantsGpu(answer) == WantsGpu(Lower(answer))
  {
    LowerIdempotent(answer);
  }

  /** The GPU answer is not stripped: the empty answer and "Sim" or "YES"
      mean yes, while "n", " s" and "yes " mean no. */
  lemma GpuAnswerUnstripped()
    ensures WantsGpu("") && WantsGpu("Sim") && WantsGpu("YES") && WantsGpu("s")
    ensures !WantsGpu("n") && !WantsGpu(" s") && !WantsGpu("yes ")
  {
    assert Lower("Sim") == "sim";
    assert Lower("YES") == "yes";
    forall a | a in ["", "s", "n", " s", "yes "]
      ensures Lower(a) == a
    {
      LowerIsLowerCase(a);
    }
  }

  /** `int()` rejects an argument whose first character is neither
      whitespace, a sign nor a digit. */
  lemma ParseIntRejectsNonDigit(s: string)
    requires s != [] && !IsSpace(s[0])
    requires s[0] != '-' && s[0] != '+' && !IsDigit(s[0])
    ensures ParseInt(s) == None
  {
    var t := Strip(s);
    assert t != [] && t[0] == s[0];
    assert !AllDigits(t);
  }

  /** The ASCII separator 0x1C is not whitespace to `int()`: a skip answer
      that starts with it raises `ValueError`, so the defaults are used. */
  lemma SeparatorNotSkipped()
    ensures ParseInt("\U{001C}5") == None
    ensures ChooseSettings("", "\U{001C}5", "") == DefaultSettings
  {
    var answer := "\U{001C}5";
    assert !IsSpace(answer[0]) && !IsDigit(answer[0]);
    ParseIntRejectsNonDigit(answer);
  }

  /** `int()` refuses more than `MaxStrDigits` digits, leading zeros
      included, so such a skip answer gives the defaults. */
  lemma TooManyDigitsIsInvalid(d: string)
    requires AllDigits(d) && |d| > MaxStrDigits
    ensures ParseInt(d) == None
    ensures ChooseSettings("", d, "") == DefaultSettings
  {
    assert IsDigit(d[0]) && IsDigit(d[|d| - 1]);
    StripUnspaced(d);
  }
}
