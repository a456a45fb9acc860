/** Exact decimal text: strict parsing to scaled integers, and formatting back. */
module Decimals {
  import opened Numbers
  import opened Digits

  const MAX_PROTOCOL_SCALE: u32 := 36

  // ----- trimming -----

  /** Unicode White_Space. */
  predicate Whitespace(c: char) {
    var code := c as int;
    || 0x9 <= code <= 0xD || code == 0x20 || code == 0x85 || code == 0xA0 || code == 0x1680
    || 0x2000 <= code <= 0x200A || code == 0x2028 || code == 0x2029 || code == 0x202F || code == 0x205F
    || code == 0x3000
  }

  function TrimStart(s: string): string {
    if s == [] || !Whitespace(s[0]) then s else TrimStart(s[1..])
  }

  function TrimEnd(s: string): string {
    if s == [] || !Whitespace(s[|s| - 1]) then s else TrimEnd(s[..|s| - 1])
  }

  function Trim(s: string): string {
    TrimEnd(TrimStart(s))
  }

  // ----- the form `digits` or `digits.digits` -----

  datatype Parts = Parts(whole: string, frac: Option<string>)

  /** Where the first dot is, or the length when there is none. */
  function DotAt(s: string): (d: nat)
    ensures d <= |s| && (d < |s| ==> s[d] == '.')
    ensures forall i | 0 <= i < d :: s[i] != '.'
  {
    if s == [] || s[0] == '.' then 0 else 1 + DotAt(s[1..])
  }

  function SplitDot(s: string): Parts {
    var d := DotAt(s);
    if d < |s| then Parts(s[..d], Some(s[d + 1..])) else Parts(s, None)
  }

  function Frac(parts: Parts): string {
    if parts.frac.Some? then parts.frac.value else ""
  }

  ghost predicate StrictParts(parts: Parts) {
    && parts.whole != [] && AllDigits(parts.whole)
    && (parts.frac.Some? ==> parts.frac.value != [] && AllDigits(parts.frac.value))
  }

  ghost predicate Strict(s: string) {
    StrictParts(SplitDot(s))
  }

  method IsStrictDecimal(text: string) returns (ok: bool)
    ensures ok <==> Strict(text)
  {
    var dot := DotAt(text);
    if text == [] || !IsDigit(text[0]) {
      assert text != [] && dot > 0 ==> SplitDot(text).whole[0] == text[0];
      return false;
    }
    var sawDot, fracDigits := false, 0;
    for i := 1 to |text|
      invariant sawDot <==> dot < i
      invariant AllDigits(text[..if sawDot then dot else i])
      invariant sawDot ==> AllDigits(text[dot + 1..i]) && fracDigits == i - dot - 1
      invariant !sawDot ==> fracDigits == 0
    {
      var c := text[i];
      if c == '.' {
        if sawDot {
          assert text[dot + 1..][i - dot - 1] == c;
          return false;
        }
        sawDot := true;
      } else {
        if !IsDigit(c) {
          assert sawDot ==> text[dot + 1..][i - dot - 1] == c;
          assert !sawDot ==> SplitDot(text).whole[i] == c;
          return false;
        }
        if sawDot {
          assert text[dot + 1..i + 1] == text[dot + 1..i] + [c];
          fracDigits := fracDigits + 1;
        }
      }
    }
    assert text[..|text|] == text;
    ok := !sawDot || fracDigits > 0;
  }

  function Join(whole: string, frac: string): string {
    if frac == [] then whole else whole + "." + frac
  }

  function TrimTrailingFracZeros(raw: string): string {
    match SplitDot(raw)
    case Parts(_, None) => raw
    case Parts(whole, Some(frac)) =>
      var rest := StripTrailing(frac);
      if rest == [] then OrZero(whole) else whole + "." + rest
  }

  lemma SplitJoined(whole: string, frac: string)
    requires AllDigits(whole)
    ensures SplitDot(Join(whole, frac)) == Parts(whole, if frac == [] then None else Some(frac))
  {
    var s := Join(whole, frac);
    if frac != [] {
      assert s[|whole|] == '.';
    }
    assert forall i | 0 <= i < |whole| :: s[i] == whole[i] && IsDigit(s[i]);
    assert DotAt(s) == |whole|;
  }

  // ----- text to scaled integer -----

  /** `Overflow`: the arithmetic on lengths leaves its range. */
  datatype ScaleError = BadScale | Invalid | Precision | Overflow

  /** What strict parsing means: the fraction without its trailing zeros must fit the scale, the integer `i128`. */
  ghost function ToScaled(decimal: string, scale: u32): Result<i128, ScaleError> {
    var parts := SplitDot(Trim(decimal));
    var frac := StripTrailing(Frac(parts));
    if scale > MAX_PROTOCOL_SCALE then Err(BadScale)
    else if !StrictParts(parts) then Err(Invalid)
    else if |frac| % (U32_MAX + 1) > scale then Err(Precision)
    else if |frac| > scale then Err(Overflow)
    else
      var n := Val(parts.whole + frac) * Pow10(scale - |frac|);
      if n <= I128_MAX then Ok(n) else Err(Invalid)
  }

  lemma StripKeepsDigits(s: string)
    requires AllDigits(s)
    ensures AllDigits(StripTrailing(s)) && |StripTrailing(s)| <= |s|
    ensures StripTrailing(s) <= s
  {
    StripTrailingPads(s);
    var rest := StripTrailing(s);
    assert forall i | 0 <= i < |rest| :: rest[i] == s[i];
  }

  method TryDecimalToScaled(decimal: string, scale: u32) returns (r: Result<i128, ScaleError>)
    ensures r == ToScaled(decimal, scale)
  {
    hide Val, Pow10, Trim;
    if scale > MAX_PROTOCOL_SCALE {
      return Err(BadScale);
    }
    var raw := Trim(decimal);
    var strict := IsStrictDecimal(raw);
    if !strict {
      return Err(Invalid);
    }
    ghost var given := SplitDot(raw);
    StripKeepsDigits(Frac(given));
    SplitJoined(given.whole, StripTrailing(Frac(given)));
    assert StripTrailing("") == "";
    raw := TrimTrailingFracZeros(raw);
    assert raw == Join(given.whole, StripTrailing(Frac(given)));
    var parts := SplitDot(raw);
    var whole, frac := parts.whole, Frac(parts);
    if |frac| % (U32_MAX + 1) > scale {
      return Err(Precision);
    }
    if |frac| > scale {
      return Err(Overflow);
    }
    var digits := whole + frac + Zeros(scale - |frac|);
    ValPadded(whole + frac, scale - |frac|);
    if digits == [] {
      digits := ['0'];
    }
    var value := Val(digits);
    r := if value <= I128_MAX then Ok(value) else Err(Invalid);
  }

  // ----- what parsing means -----

  lemma Cancel(a: int, b: int, p: int)
    requires p > 0
    ensures a * p == b * p <==> a == b
  {
  }

  lemma Regroup(a: int, b: int, c: int)
    ensures a * (b * c) == a * b * c && a * (b * c) == a * c * b
  {
  }

  /** A numeral whose last digit is not 0 is no multiple of a higher power of ten. */
  lemma NoMultiple(s: string, n: int, k: nat)
    requires s != [] && AllDigits(s) && s[|s| - 1] != '0' && k > 0
    ensures n * Pow10(k) != Val(s)
  {
    Regroup(n, 10, Pow10(k - 1));
    assert n * Pow10(k) == 10 * (n * Pow10(k - 1));
  }

  /** The value of the text, taken times `10^scale`, is the integer `n`. */
  ghost predicate Denotes(parts: Parts, n: int, scale: nat) {
    n * Pow10(|Frac(parts)|) == Val(parts.whole + Frac(parts)) * Pow10(scale)
  }

  /** Trailing zeros of the fraction do not change what it denotes. */
  lemma DenotesWithoutZeros(whole: string, frac: string, n: int, scale: nat)
    requires frac != []
    ensures var rest := StripTrailing(frac);
            Denotes(Parts(whole, Some(frac)), n, scale) <==> n * Pow10(|rest|) == Val(whole + rest) * Pow10(scale)
  {
    hide Val, Pow10;
    var rest := StripTrailing(frac);
    StripTrailingPads(frac);
    var z := |frac| - |rest|;
    assert whole + frac == whole + rest + Zeros(z);
    ValPadded(whole + rest, z);
    Pow10Add(|rest|, z);
    Regroup(n, Pow10(|rest|), Pow10(z));
    Regroup(Val(whole + rest), Pow10(z), Pow10(scale));
    Cancel(n * Pow10(|rest|), Val(whole + rest) * Pow10(scale), Pow10(z));
  }

  lemma ExactWithinScale(v: int, n: int, used: nat, scale: nat)
    requires used <= scale
    ensures n * Pow10(used) == v * Pow10(scale) <==> n == v * Pow10(scale - used)
  {
    hide Pow10;
    Pow10Add(used, scale - used);
    Regroup(v, Pow10(used), Pow10(scale - used));
    Cancel(n, v * Pow10(scale - used), Pow10(used));
  }

  lemma NotExactBeyondScale(s: string, n: int, used: nat, scale: nat)
    requires scale < used && s != [] && AllDigits(s) && s[|s| - 1] != '0'
    ensures n * Pow10(used) != Val(s) * Pow10(scale)
  {
    hide Pow10, Val;
    Pow10Add(scale, used - scale);
    Regroup(n, Pow10(scale), Pow10(used - scale));
    Cancel(n * Pow10(used - scale), Val(s), Pow10(scale));
    NoMultiple(s, n, used - scale);
  }

  /**
   Parsing succeeds exactly when the trimmed text is a strict decimal whose value
   times `10^scale` is an integer in `i128`, and then returns that integer.
   */
  lemma ScaledExactly(decimal: string, scale: u32, n: i128)
    requires scale <= 36
    ensures ToScaled(decimal, scale) == Ok(n) <==>
              Strict(Trim(decimal)) && n >= 0 && Denotes(SplitDot(Trim(decimal)), n, scale)
  {
    hide Val, Pow10, Trim, DotAt;
    var parts := SplitDot(Trim(decimal));
    var whole, frac := parts.whole, StripTrailing(Frac(parts));
    if StrictParts(parts) {
      StripTrailingPads(Frac(parts));
      StripKeepsDigits(Frac(parts));
      assert parts.frac.None? ==> Frac(parts) == "" && frac == "";
      if parts.frac.Some? {
        DenotesWithoutZeros(whole, parts.frac.value, n, scale);
      }
      if |frac| <= scale {
        ExactWithinScale(Val(whole + frac), n, |frac|, scale);
      } else {
        NotExactBeyondScale(whole + frac, n, |frac|, scale);
      }
    }
  }

  /**
   A strict decimal with more fractional digits than the scale holds is refused for its precision,
   unless the digit count, cut to 32 bits, hides the excess: then the lengths overflow instead.
   */
  lemma ExcessDigits(decimal: string, scale: u32)
    requires scale <= 36 && Strict(Trim(decimal))
    ensures var used := |StripTrailing(Frac(SplitDot(Trim(decimal))))|;
            && (ToScaled(decimal, scale) == Err(Overflow) <==> used > U32_MAX && used % (U32_MAX + 1) <= scale)
            && (ToScaled(decimal, scale) == Err(Precision) <==> used > scale && used % (U32_MAX + 1) > scale)
  {
    hide Val, Pow10, Trim, StripTrailing, SplitDot;
    var used := |StripTrailing(Frac(SplitDot(Trim(decimal))))|;
    assert used <= U32_MAX ==> used % (U32_MAX + 1) == used;
    assert used % (U32_MAX + 1) <= used;
  }

  /** What is refused and why: a scale beyond 36, text that is no strict decimal, and a value beyond `i128`. */
  lemma RefusedExactly(decimal: string, scale: u32)
    ensures scale > 36 <==> ToScaled(decimal, scale) == Err(BadScale)
    ensures scale <= 36 && !Strict(Trim(decimal)) ==> ToScaled(decimal, scale) == Err(Invalid)
    ensures scale <= 36 && Strict(Trim(decimal)) && |StripTrailing(Frac(SplitDot(Trim(decimal))))| <= scale ==>
              var parts := SplitDot(Trim(decimal));
              var frac := StripTrailing(Frac(parts));
              var n := Val(parts.whole + frac) * Pow10(scale - |frac|);
              (ToScaled(decimal, scale) == Err(Invalid) <==> n > 170_141_183_460_469_231_731_687_303_715_884_105_727)
  {
    hide Val, Pow10, Trim, StripTrailing, SplitDot;
  }

  // ----- scaled integer to text -----

  datatype FormatError = ScaleTooLarge | AbsOverflow | NotInteger | OutOfRange

  /** The digits with a point `scale` places from the end, without superfluous zeros. */
  function Place(digits: string, scale: nat): string {
    var padded := Zeros(Max(0, scale + 1 - |digits|)) + digits;
    var head, tail := padded[..|padded| - scale], padded[|padded| - scale..];
    Join(OrZero(StripLeading(head)), StripTrailing(tail))
  }

  function FormatScaled(value: i128, scale: u32): Result<string, FormatError> {
    if scale > MAX_PROTOCOL_SCALE then Err(ScaleTooLarge)
    else if scale == 0 then Ok(Signed(value, ToString(Abs(value))))
    else if value == I128_MIN then Err(AbsOverflow)
    else Ok(Signed(value, Place(ToString(Abs(value)), scale)))
  }

  function Abs(value: int): nat {
    if value < 0 then -value else value
  }

  function Signed(value: int, text: string): string {
    if value < 0 then "-" + text else text
  }

  /** No superfluous zero on either side, no bare point. */
  ghost predicate CanonicalParts(parts: Parts) {
    && Lean(parts.whole)
    && (parts.frac.Some? ==> parts.frac.value != [] && AllDigits(parts.frac.value)
                             && parts.frac.value[|parts.frac.value| - 1] != '0')
  }

  /** The text is canonical, and its value times `10^scale` is `n`. */
  ghost predicate CanonicalFor(text: string, n: nat, scale: nat) {
    var parts := SplitDot(text);
    && CanonicalParts(parts) && |Frac(parts)| <= scale
    && Val(parts.whole + Frac(parts)) * Pow10(scale - |Frac(parts)|) == n
  }

  lemma SliceDigits(s: string, i: nat)
    requires AllDigits(s) && i <= |s|
    ensures AllDigits(s[..i]) && AllDigits(s[i..])
  {
  }

  lemma PadDigits(digits: string, n: nat)
    requires AllDigits(digits)
    ensures AllDigits(Zeros(n) + digits)
  {
  }

  lemma PaddedSplits(digits: string, scale: nat) returns (head: string, tail: string)
    requires AllDigits(digits)
    ensures AllDigits(head) && AllDigits(tail) && |tail| == scale
    ensures Val(head) * Pow10(scale) + Val(tail) == Val(digits)
    ensures Place(digits, scale) == Join(OrZero(StripLeading(head)), StripTrailing(tail))
  {
    hide Val, Pow10, StripLeading, StripTrailing;
    var pad := Max(0, scale + 1 - |digits|);
    var padded := Zeros(pad) + digits;
    PadDigits(digits, pad);
    ValPadded(digits, pad);
    head, tail := padded[..|padded| - scale], padded[|padded| - scale..];
    assert padded == head + tail;
    SliceDigits(padded, |padded| - scale);
    ValAppend(head, tail);
  }

  lemma JoinedValue(whole: string, frac: string, tail: string)
    requires |frac| <= |tail| && tail == frac + Zeros(|tail| - |frac|)
    ensures Val(whole + frac) * Pow10(|tail| - |frac|) == Val(whole) * Pow10(|tail|) + Val(tail)
  {
    hide Val, Pow10;
    assert whole + tail == whole + frac + Zeros(|tail| - |frac|);
    ValPadded(whole + frac, |tail| - |frac|);
    ValAppend(whole, tail);
  }

  lemma CanonicalOfParts(text: string, whole: string, frac: string, n: nat, scale: nat)
    requires SplitDot(text) == Parts(whole, if frac == [] then None else Some(frac))
    requires Lean(whole) && AllDigits(frac) && (frac != [] ==> frac[|frac| - 1] != '0') && |frac| <= scale
    requires Val(whole + frac) * Pow10(scale - |frac|) == n
    ensures CanonicalFor(text, n, scale)
  {
    hide Val, Pow10, SplitDot;
    assert Frac(SplitDot(text)) == frac;
  }

  lemma JoinIsCanonical(whole: string, tail: string)
    requires Lean(whole) && AllDigits(tail)
    ensures CanonicalFor(Join(whole, StripTrailing(tail)), Val(whole) * Pow10(|tail|) + Val(tail), |tail|)
  {
    hide Val, Pow10, StripTrailing, SplitDot, Join, CanonicalFor;
    StripKeepsDigits(tail);
    StripTrailingPads(tail);
    var frac := StripTrailing(tail);
    SplitJoined(whole, frac);
    JoinedValue(whole, frac, tail);
    CanonicalOfParts(Join(whole, frac), whole, frac, Val(whole) * Pow10(|tail|) + Val(tail), |tail|);
  }

  lemma PlaceIsCanonical(digits: string, scale: nat)
    requires AllDigits(digits)
    ensures CanonicalFor(Place(digits, scale), Val(digits), scale)
  {
    hide Val, Pow10, Place, CanonicalFor, StripLeading;
    var head, tail := PaddedSplits(digits, scale);
    StripLeadingKeeps(head);
    JoinIsCanonical(OrZero(StripLeading(head)), tail);
  }

  lemma NumeralIsCanonical(digits: string)
    requires Lean(digits)
    ensures CanonicalFor(digits, Val(digits), 0)
  {
    hide Val;
    SplitJoined(digits, "");
    assert Join(digits, "") == digits && digits + "" == digits;
  }

  lemma FormatIsCanonical(value: i128, scale: u32)
    requires value >= 0 && scale <= 36
    ensures FormatScaled(value, scale).Ok? && CanonicalFor(FormatScaled(value, scale).value, value, scale)
  {
    hide Val, Pow10, Place, CanonicalFor, ToString;
    ToStringReadsBack(value);
    if scale == 0 {
      NumeralIsCanonical(ToString(value));
    } else {
      PlaceIsCanonical(ToString(value), scale);
    }
  }

  lemma TrimKeeps(s: string)
    requires s != [] && !Whitespace(s[0]) && !Whitespace(s[|s| - 1])
    ensures Trim(s) == s
  {
  }

  lemma CanonicalEnds(text: string)
    requires CanonicalParts(SplitDot(text))
    ensures text != [] && IsDigit(text[0]) && IsDigit(text[|text| - 1])
  {
    var parts := SplitDot(text);
    assert text[0] == parts.whole[0];
    if parts.frac.Some? {
      assert text[|text| - 1] == parts.frac.value[|parts.frac.value| - 1];
    }
  }

  lemma StripNothing(s: string)
    requires s == [] || s[|s| - 1] != '0'
    ensures StripTrailing(s) == s
  {
  }

  /** That happens: `0.` and 2^32 ones overflow at every scale, where one digit less is too precise. */
  lemma LongFractionOverflows(scale: u32)
    requires scale <= 36
    ensures ToScaled("0." + seq(U32_MAX + 1, _ => '1'), scale) == Err(Overflow)
    ensures ToScaled("0." + seq(U32_MAX, _ => '1'), scale) == Err(Precision)
  {
    hide ToScaled, Trim, StripTrailing, SplitDot, Strict;
    OnesAreCounted(U32_MAX + 1);
    ExcessDigits("0." + seq(U32_MAX + 1, _ => '1'), scale);
    OnesAreCounted(U32_MAX);
    ExcessDigits("0." + seq(U32_MAX, _ => '1'), scale);
  }

  lemma OnesAreCounted(k: nat)
    requires k > 0
    ensures var text := "0." + seq(k, _ => '1');
            Strict(Trim(text)) && StripTrailing(Frac(SplitDot(Trim(text)))) == seq(k, _ => '1')
  {
    var ones := seq(k, _ => '1');
    var text := "0." + ones;
    assert text[0] == '0' && text[1] == '.' && text[|text| - 1] == '1';
    TrimKeeps(text);
    assert DotAt(text[1..]) == 0;
    assert DotAt(text) == 1;
    assert text[2..] == ones;
    StripNothing(ones);
  }

  /** Canonical text reads as the integer it stands for. */
  lemma CanonicalReads(text: string, n: nat, scale: u32)
    requires scale <= 36 && n <= I128_MAX && CanonicalFor(text, n, scale)
    ensures ToScaled(text, scale) == Ok(n)
  {
    hide Val, Pow10, Trim, DotAt;
    var parts := SplitDot(text);
    CanonicalEnds(text);
    TrimKeeps(text);
    StripNothing(Frac(parts));
  }

  /** Parsing what was formatted gives the value back. */
  /** Formatting fails for a scale beyond 36, and where digits are placed for the one magnitude beyond `i128`. */
  lemma FormatFails(value: i128, scale: u32)
    ensures FormatScaled(value, scale) == Err(ScaleTooLarge) <==> scale > 36
    ensures FormatScaled(value, scale) == Err(AbsOverflow)
       <==> 0 < scale <= 36 && value == -170_141_183_460_469_231_731_687_303_715_884_105_728
    ensures FormatScaled(value, scale).Err? ==> FormatScaled(value, scale).error in {ScaleTooLarge, AbsOverflow}
    ensures scale == 0 && value < 0 ==> FormatScaled(value, scale) == Ok("-" + ToString(Abs(value)))
  {
    hide Place, ToString;
  }

  lemma FormatReadsBack(value: i128, scale: u32)
    requires value >= 0 && scale <= 36
    ensures FormatScaled(value, scale).Ok? && ToScaled(FormatScaled(value, scale).value, scale) == Ok(value)
  {
    hide Val, Pow10, ToScaled, FormatScaled, CanonicalFor;
    FormatIsCanonical(value, scale);
    CanonicalReads(FormatScaled(value, scale).value, value, scale);
  }

  /** A negative value prints as the text of its magnitude behind a sign, which strict parsing refuses. */
  lemma NegativeTextIsRefused(value: i128, scale: u32)
    requires I128_MIN < value < 0 && scale <= 36
    ensures FormatScaled(value, scale).Ok? && FormatScaled(-value, scale).Ok?
    ensures FormatScaled(value, scale).value == "-" + FormatScaled(-value, scale).value
    ensures ToScaled(FormatScaled(value, scale).value, scale) == Err(Invalid)
  {
    hide Val, Pow10, Place, ToString, Trim, StripTrailing, DotAt;
    FormatIsCanonical(-value, scale);
    var text := FormatScaled(-value, scale).value;
    CanonicalEnds(text);
    TrimKeeps("-" + text);
    var signed := "-" + text;
    assert signed[0] == '-';
    assert DotAt(signed) > 0 ==> SplitDot(signed).whole[0] == '-';
  }

  lemma QuotientIsUnique(a: nat, b: nat, x: nat, y: nat, p: nat)
    requires x < p && y < p && a * p + x == b * p + y
    ensures a == b && x == y
  {
    if a < b {
      MoreTimes(a, b, p);
    } else if b < a {
      MoreTimes(b, a, p);
    }
  }

  lemma NoLonger(e: string, f: string, x: string)
    requires e <= x && f <= x && x[|f|..] == Zeros(|x| - |f|)
    requires e == [] || e[|e| - 1] != '0'
    ensures |e| <= |f|
  {
    assert forall i | |f| <= i < |x| :: x[i] == x[|f|..][i - |f|];
  }

  /** Each scaled integer has one canonical text. */
  lemma CanonicalIsUnique(s: string, t: string, n: nat, scale: nat)
    requires CanonicalFor(s, n, scale) && CanonicalFor(t, n, scale)
    ensures s == t
  {
    hide Val, Pow10, DotAt;
    var a, b := SplitDot(s), SplitDot(t);
    var e, f := Frac(a), Frac(b);
    var x, y := e + Zeros(scale - |e|), f + Zeros(scale - |f|);
    ValPadded(a.whole + e, scale - |e|);
    ValPadded(b.whole + f, scale - |f|);
    assert a.whole + e + Zeros(scale - |e|) == a.whole + x;
    assert b.whole + f + Zeros(scale - |f|) == b.whole + y;
    ValAppend(a.whole, x);
    ValAppend(b.whole, y);
    ValBelow(x);
    ValBelow(y);
    QuotientIsUnique(Val(a.whole), Val(b.whole), Val(x), Val(y), Pow10(scale));
    LeanIsUnique(a.whole, b.whole);
    SameLengthSameVal(x, y);
    NoLonger(e, f, x);
    NoLonger(f, e, x);
    assert e == x[..|e|] && f == y[..|f|];
    Rejoin(s);
    Rejoin(t);
  }

  lemma Rejoin(s: string)
    ensures var parts := SplitDot(s);
            s == if parts.frac.None? then parts.whole else parts.whole + "." + parts.frac.value
  {
  }

  /**
   Formatting a parsed decimal gives the one canonical text of its value: decimals
   of equal value get the same text, and canonical text is left as it is.
   */
  lemma FormattingCanonicalises(decimal: string, scale: u32, n: i128)
    requires ToScaled(decimal, scale) == Ok(n)
    ensures n >= 0 && FormatScaled(n, scale).Ok? && CanonicalFor(FormatScaled(n, scale).value, n, scale)
    ensures CanonicalFor(decimal, n, scale) ==> FormatScaled(n, scale) == Ok(decimal)
  {
    hide Val, Pow10, FormatScaled, CanonicalFor, Trim, DotAt;
    ScaledExactly(decimal, scale, n);
    FormatIsCanonical(n, scale);
    if CanonicalFor(decimal, n, scale) {
      CanonicalIsUnique(decimal, FormatScaled(n, scale).value, n, scale);
    }
  }

  // ----- ledger balances -----

  const U128_MAX_DECIMAL: string := "340282366920938463463374607431768211455"

  function WithoutLeadingZeros(digits: string): string {
    OrZero(StripLeading(digits))
  }

  /** `format_ledger_u128`: the range is checked on the text, by length and then digit by digit. */
  ghost function FormatLedger(value: string, scale: u32): Result<string, FormatError> {
    var given := Trim(value);
    if given == [] || !AllDigits(given) then Err(NotInteger)
    else
      var digits := WithoutLeadingZeros(given);
      if |digits| > |U128_MAX_DECIMAL| || (|digits| == |U128_MAX_DECIMAL| && TextLess(U128_MAX_DECIMAL, digits))
      then Err(OutOfRange)
      else if scale > MAX_PROTOCOL_SCALE then Err(ScaleTooLarge)
      else if scale == 0 then Ok(digits)
      else Ok(Place(digits, scale))
  }

  lemma FourMore(s: string, a: char, b: char, c: char, d: char)
    ensures Val(s + [a, b, c, d])
         == 10000 * Val(s) + 1000 * DigitOf(a) + 100 * DigitOf(b) + 10 * DigitOf(c) + DigitOf(d)
  {
    hide Val;
    assert s + [a, b, c, d] == s + [a] + [b] + [c] + [d];
    ValOfOneMore(s, a);
    ValOfOneMore(s + [a], b);
    ValOfOneMore(s + [a] + [b], c);
    ValOfOneMore(s + [a] + [b] + [c], d);
  }

  function FourDigits(s: string, i: nat): nat
    requires i + 4 <= |s|
  {
    1000 * DigitOf(s[i]) + 100 * DigitOf(s[i + 1]) + 10 * DigitOf(s[i + 2]) + DigitOf(s[i + 3])
  }

  lemma NineRead(s: string)
    requires |s| == 9
    ensures Val(s) == 1_0000_0000 * DigitOf(s[0]) + 1_0000 * FourDigits(s, 1) + FourDigits(s, 5)
  {
    hide Val, DigitOf;
    ValOfChar(s[0]);
    FourMore(s[..1], s[1], s[2], s[3], s[4]);
    FourMore(s[..5], s[5], s[6], s[7], s[8]);
    assert s[..1] == [s[0]] && s[..5] == s[..1] + [s[1], s[2], s[3], s[4]];
    assert s == s[..5] + [s[5], s[6], s[7], s[8]];
  }

  lemma ThirteenRead(s: string)
    requires |s| == 13
    ensures Val(s) == 1_0000_0000_0000 * DigitOf(s[0]) + 1_0000_0000 * FourDigits(s, 1)
                      + 1_0000 * FourDigits(s, 5) + FourDigits(s, 9)
  {
    hide Val, DigitOf;
    NineRead(s[..9]);
    FourMore(s[..9], s[9], s[10], s[11], s[12]);
    assert s == s[..9] + [s[9], s[10], s[11], s[12]];
  }

  lemma HighReads()
    ensures Val("3402823669209") == 3402823669209
  {
    ThirteenRead("3402823669209");
  }

  lemma MiddleReads()
    ensures Val("3846346337460") == 3846346337460
  {
    ThirteenRead("3846346337460");
  }

  lemma LowReads()
    ensures Val("7431768211455") == 7431768211455
  {
    ThirteenRead("7431768211455");
  }

  lemma InThreeParts(high: string, middle: string, low: string)
    requires |middle| == 13 && |low| == 13
    ensures Val(high + middle + low)
         == (Val(high) * 10_0000_0000_0000 + Val(middle)) * 10_0000_0000_0000 + Val(low)
  {
    hide Val, Pow10;
    ValAppend(high, middle);
    ValAppend(high + middle, low);
    Pow10Of13();
  }

  lemma U128MaxReads()
    ensures Val(U128_MAX_DECIMAL) == U128_MAX
  {
    hide Val, Pow10;
    var high, middle, low := "3402823669209", "3846346337460", "7431768211455";
    InThreeParts(high, middle, low);
    assert U128_MAX_DECIMAL == high + middle + low;
    HighReads();
    MiddleReads();
    LowReads();
  }

  lemma Pow10Of13()
    ensures Pow10(13) == 10_0000_0000_0000
  {
    assert Pow10(4) == 1_0000;
    Pow10Add(4, 4);
    Pow10Add(8, 4);
    assert Pow10(13) == 10 * Pow10(12);
  }

  /** Leaving out leading zeros, a digit string is longer or later in order than another exactly when it is greater. */
  lemma OrderOfText(digits: string, limit: string)
    requires Lean(digits) && Lean(limit) && limit[0] != '0'
    ensures |digits| > |limit| || (|digits| == |limit| && TextLess(limit, digits)) <==> Val(digits) > Val(limit)
  {
    hide Val, TextLess;
    if |digits| > |limit| {
      ShorterIsLess(limit, digits);
    } else if |digits| < |limit| {
      ShorterIsLess(digits, limit);
    } else {
      TextLessIsLess(limit, digits);
    }
  }

  /**
   A balance is accepted exactly when its trimmed text is all digits with a value
   within `u128`, and is printed as the canonical text of that value over `10^scale`.
   */
  lemma LedgerExactly(value: string, scale: u32)
    requires scale <= 36
    ensures var given := Trim(value);
            && (FormatLedger(value, scale).Ok? <==> given != [] && AllDigits(given) && Val(given) <= U128_MAX)
            && (FormatLedger(value, scale).Ok? ==> CanonicalFor(FormatLedger(value, scale).value, Val(given), scale))
  {
    hide Val, TextLess, Trim, CanonicalFor, Place, StripLeading;
    var given := Trim(value);
    if given != [] && AllDigits(given) {
      StripLeadingKeeps(given);
      U128MaxReads();
      var digits := WithoutLeadingZeros(given);
      OrderOfText(digits, U128_MAX_DECIMAL);
      if scale == 0 {
        NumeralIsCanonical(digits);
      } else {
        PlaceIsCanonical(digits, scale);
      }
    }
  }

  /** Where both apply, the balance formatter and the integer formatter print the same text. */
  lemma LedgerAgreesWithScaled(value: string, scale: u32)
    requires FormatLedger(value, scale).Ok? && Val(Trim(value)) <= I128_MAX
    ensures FormatLedger(value, scale) == FormatScaled(Val(Trim(value)), scale)
  {
    hide Val, Trim, CanonicalFor, FormatLedger, FormatScaled;
    LedgerScale(value, scale);
    LedgerExactly(value, scale);
    FormatIsCanonical(Val(Trim(value)), scale);
    CanonicalIsUnique(FormatLedger(value, scale).value, FormatScaled(Val(Trim(value)), scale).value,
                      Val(Trim(value)), scale);
  }

  /** A balance is refused for not being all digits, else for its range, else for a scale beyond 36. */
  lemma LedgerRefusals(value: string, scale: u32)
    ensures var given := Trim(value);
            && (FormatLedger(value, scale) == Err(NotInteger) <==> given == [] || !AllDigits(given))
            && (FormatLedger(value, scale) == Err(OutOfRange) <==>
                  given != [] && AllDigits(given) && Val(given) > 340_282_366_920_938_463_463_374_607_431_768_211_455)
            && (FormatLedger(value, scale) == Err(ScaleTooLarge) ==> scale > 36)
            && (FormatLedger(value, scale).Ok? ==> scale <= 36)
  {
    hide Val, TextLess, Trim, Place, StripLeading;
    var given := Trim(value);
    if given != [] && AllDigits(given) {
      StripLeadingKeeps(given);
      U128MaxReads();
      OrderOfText(WithoutLeadingZeros(given), U128_MAX_DECIMAL);
    }
  }

  lemma LedgerScale(value: string, scale: u32)
    requires FormatLedger(value, scale).Ok?
    ensures scale <= 36
  {
  }
}
