/** Exact quote accounting: notional and fees at different decimal scales, in checked `i128`. */
module Trading {
  import opened Numbers
  import opened Digits

  // ----- what a scaled integer is worth -----

  function Ten(k: nat): real {
    Pow10(k) as real
  }

  function Worth(value: int, scale: nat): real {
    value as real / Ten(scale)
  }

  lemma WorthOfProduct(value: int, scale: nat, k: nat)
    ensures Worth(value * Pow10(k), scale + k) == Worth(value, scale)
  {
    hide Pow10;
    Pow10Add(scale, k);
    ProductAsReal(value, Pow10(k));
    ProductAsReal(Pow10(scale), Pow10(k));
    CancelReal(value as real, Ten(scale), Ten(k));
  }

  lemma ProductAsReal(a: int, b: int)
    ensures (a * b) as real == a as real * b as real
  {
  }

  lemma CancelReal(a: real, p: real, q: real)
    requires p > 0.0 && q > 0.0
    ensures (a * q) / (p * q) == a / p
  {
    var r := a / p;
    assert a == r * p;
    assert a * q == r * (p * q);
  }

  lemma WorthAdds(a: int, b: int, scale: nat)
    ensures Worth(a + b, scale) == Worth(a, scale) + Worth(b, scale)
    ensures Worth(a - b, scale) == Worth(a, scale) - Worth(b, scale)
  {
    DivideSum(a as real, b as real, Ten(scale));
  }

  lemma DivideSum(a: real, b: real, p: real)
    requires p > 0.0
    ensures (a + b) / p == a / p + b / p && (a - b) / p == a / p - b / p
  {
  }

  /** Equal worth at two scales, seen on integers. */
  lemma SameWorth(a: int, s: nat, b: int, t: nat)
    requires s <= t
    ensures Worth(a, s) == Worth(b, t) <==> b == a * Pow10(t - s)
  {
    hide Pow10;
    WorthOfProduct(a, s, t - s);
    Worths(b, a * Pow10(t - s), t);
  }

  lemma Worths(a: int, b: int, scale: nat)
    ensures Worth(a, scale) == Worth(b, scale) <==> a == b
  {
    SameQuotient(a as real, b as real, Ten(scale));
  }

  lemma SameQuotient(a: real, b: real, p: real)
    requires p > 0.0
    ensures a / p == b / p <==> a == b
  {
    assert a / p * p == a && b / p * p == b;
  }

  // ----- trimming and rescaling -----

  datatype Scaled = Scaled(value: i128, scale: u32)

  function TrimScale(value: i128, scale: u32): Scaled
    decreases scale
  {
    if scale > 0 && value % 10 == 0 then TrimScale(value / 10, scale - 1) else Scaled(value, scale)
  }

  /** `trim_scale`, dropping one digit per turn. */
  method Trimmed(value: i128, scale: u32) returns (r: Scaled)
    ensures r == TrimScale(value, scale)
  {
    var v, s := value, scale;
    while s > 0 && v % 10 == 0
      invariant TrimScale(value, scale) == TrimScale(v, s)
      decreases s
    {
      v := v / 10;
      s := s - 1;
    }
    r := Scaled(v, s);
  }

  lemma {:induction false} TrimKeepsWorth(value: i128, scale: u32)
    ensures var t := TrimScale(value, scale);
            t.scale <= scale && value == t.value * Pow10(scale - t.scale) && (t.scale == 0 || t.value % 10 != 0)
    decreases scale
  {
    if scale > 0 && value % 10 == 0 {
      TrimKeepsWorth(value / 10, scale - 1);
      var t := TrimScale(value / 10, scale - 1);
      TimesTen(t.value, Pow10(scale - 1 - t.scale));
    }
  }

  /** A value that has its worth at a lower scale too ends in 0. */
  lemma LowerScaleDropsAZero(w: int, s: nat, value: int, scale: nat)
    requires s < scale && Worth(w, s) == Worth(value, scale)
    ensures value % 10 == 0
  {
    SameWorth(w, s, value, scale);
    assert Pow10(scale - s) == 10 * Pow10(scale - s - 1);
    TimesTen(w, Pow10(scale - s - 1));
    EndsInZero(w * Pow10(scale - s - 1));
  }

  lemma EndsInZero(k: int)
    ensures 10 * k % 10 == 0
  {
  }

  /** Trimming keeps the worth and finds the least scale that holds every digit. */
  lemma TrimIsLeast(value: i128, scale: u32)
    ensures var t := TrimScale(value, scale);
            && Worth(t.value, t.scale) == Worth(value, scale)
            && (forall w: int, s: nat | Worth(w, s) == Worth(value, scale) :: t.scale <= s)
  {
    hide TrimScale, Worth, Pow10;
    var t := TrimScale(value, scale);
    TrimKeepsWorth(value, scale);
    SameWorth(t.value, t.scale, value, scale);
    forall w: int, s: nat | Worth(w, s) == Worth(value, scale)
      ensures t.scale <= s
    {
      if s < t.scale {
        LowerScaleDropsAZero(w, s, t.value, t.scale);
      }
    }
  }

  function CheckedPow10(k: nat): Option<i128> {
    CheckedI128(Pow10(k))
  }

  function Rescale(value: i128, from: u32, to: u32): Option<i128> {
    if to < from then None
    else
      match CheckedPow10(to - from)
      case None => None
      case Some(p) => CheckedI128(value * p)
  }

  lemma SmallPowers()
    ensures Pow10(2) == 100 && Pow10(3) == 1000 && Pow10(6) == 1_000_000
  {
    assert Pow10(4) == 10_000;
  }

  lemma PowersOfTen()
    ensures Pow10(38) <= I128_MAX && I128_MAX + 1 < Pow10(39)
  {
    hide Pow10;
    SmallPowers();
    Pow10Add(6, 6);
    Pow10Add(12, 12);
    Pow10Add(24, 12);
    Pow10Add(36, 2);
    Pow10Add(36, 3);
  }

  lemma PowerFits(k: nat)
    ensures Pow10(k) <= I128_MAX <==> k <= 38
    ensures Pow10(k) <= I128_MAX + 1 <==> k <= 38
  {
    hide Pow10;
    PowersOfTen();
    if k <= 38 {
      Pow10Monotone(k, 38);
    } else {
      Pow10Monotone(39, k);
    }
  }

  /**
   Rescaling is exact. It fails for a value other than 0 only when the result
   does not fit; 0 fails as soon as the scales are 39 apart.
   */
  lemma RescaleExactly(value: i128, from: u32, to: u32)
    requires from <= to
    ensures Rescale(value, from, to).Some? ==>
              Rescale(value, from, to).value == value * Pow10(to - from)
              && Worth(Rescale(value, from, to).value, to) == Worth(value, from)
    ensures value != 0 ==>
              (Rescale(value, from, to).Some? <==> I128_MIN <= value * Pow10(to - from) <= I128_MAX)
    ensures value == 0 ==> (Rescale(value, from, to).Some? <==> to - from <= 38)
  {
    hide Pow10, Worth;
    PowerFits(to - from);
    WorthOfProduct(value, from, to - from);
    AtLeast(value, Pow10(to - from));
  }

  lemma AtLeast(value: int, p: nat)
    requires p > 0
    ensures value > 0 ==> value * p >= p
    ensures value < 0 ==> value * p <= 0 - p
  {
  }

  // ----- orders -----

  const FEE_SCALE: u32 := 18
  const NOTIONAL_SCALE: u32 := 9

  datatype FeeTotal = FeeTotal(amountE18: string, isRebate: bool, qty: Option<i64>)

  datatype Order = Order(
    cumNotional: string,
    cumQty: Option<i64>,
    feeAsset: string,
    feeTotal: Option<FeeTotal>,
    submittedMaxQuoteDebit: Option<i64>)

  /** `parse::<i128>`: an optional sign, then at least one digit, within range. */
  ghost function ParseI128(text: string): Option<i128> {
    var negative := text != [] && text[0] == '-';
    var digits := if text != [] && (text[0] == '-' || text[0] == '+') then text[1..] else text;
    if digits == [] || !AllDigits(digits) then None
    else CheckedI128(if negative then 0 - Val(digits) else Val(digits))
  }

  /** The fee total covers every fill. */
  predicate Covered(order: Order) {
    && order.feeTotal.Some? && order.feeTotal.value.qty.Some?
    && order.feeTotal.value.qty.value == if order.cumQty.Some? then order.cumQty.value else 0
  }

  ghost function QuoteUsedScaled(order: Order, baseScale: u32): Option<Scaled> {
    if !Covered(order) then None
    else
      match (ParseI128(order.cumNotional), ParseI128(order.feeTotal.value.amountE18))
      case (Some(cumNotional), Some(amountE18)) =>
        if NOTIONAL_SCALE + baseScale > U32_MAX then None
        else
          UsedAtCommonScale(
            TrimScale(cumNotional, NOTIONAL_SCALE + baseScale), TrimScale(amountE18, FEE_SCALE),
            order.feeAsset, order.feeTotal.value.isRebate)
      case _ => None
  }

  function UsedAtCommonScale(notional: Scaled, fee: Scaled, feeAsset: string, isRebate: bool): Option<Scaled> {
    var scale := Max(notional.scale, fee.scale);
    match (Rescale(notional.value, notional.scale, scale), Rescale(fee.value, fee.scale, scale))
    case (Some(n), Some(f)) =>
      (match Used(n, f, feeAsset, isRebate)
       case Some(used) => Some(Scaled(used, scale))
       case None => None)
    case _ => None
  }

  function Used(notional: i128, fee: i128, feeAsset: string, isRebate: bool): Option<i128> {
    if feeAsset == "base" then Some(notional)
    else if feeAsset == "quote" && isRebate then CheckedI128(notional - fee)
    else if feeAsset == "quote" then CheckedI128(notional + fee)
    else None
  }

  /** The fee total counts just the quantity filled, nothing when there are no fills. */
  predicate CoversFills(order: Order) {
    && order.feeTotal.Some?
    && match (order.feeTotal.value.qty, order.cumQty)
       case (Some(covered), Some(filled)) => covered == filled
       case (Some(covered), None) => covered == 0
       case _ => false
  }

  /** What the fee adds to the quote used. */
  function FeePart(fee: real, feeAsset: string, isRebate: bool): real {
    if feeAsset == "base" then 0.0 else if isRebate then -fee else fee
  }

  lemma UsedIsExact(notional: Scaled, fee: Scaled, feeAsset: string, isRebate: bool)
    ensures var used := UsedAtCommonScale(notional, fee, feeAsset, isRebate);
            used.Some? ==>
              && (feeAsset == "base" || feeAsset == "quote")
              && used.value.scale == Max(notional.scale, fee.scale)
              && Worth(used.value.value, used.value.scale)
                   == Worth(notional.value, notional.scale) + FeePart(Worth(fee.value, fee.scale), feeAsset, isRebate)
  {
    hide Worth, Rescale;
    var scale := Max(notional.scale, fee.scale);
    RescaleExactly(notional.value, notional.scale, scale);
    RescaleExactly(fee.value, fee.scale, scale);
    var n, f := Rescale(notional.value, notional.scale, scale), Rescale(fee.value, fee.scale, scale);
    if n.Some? && f.Some? {
      WorthAdds(n.value, f.value, scale);
    }
  }

  /** Whenever the quote used is known it is exactly the notional plus, less or without the fee. */
  lemma QuoteUsedIsExact(order: Order, baseScale: u32)
    requires QuoteUsedScaled(order, baseScale).Some?
    ensures var used := QuoteUsedScaled(order, baseScale).value;
            && CoversFills(order)
            && ParseI128(order.cumNotional).Some? && ParseI128(order.feeTotal.value.amountE18).Some?
            && (order.feeAsset == "base" || order.feeAsset == "quote")
            && Worth(used.value, used.scale)
                 == Worth(ParseI128(order.cumNotional).value, 9 + baseScale)
                    + FeePart(Worth(ParseI128(order.feeTotal.value.amountE18).value, 18),
                              order.feeAsset, order.feeTotal.value.isRebate)
  {
    hide Worth, TrimScale, UsedAtCommonScale, ParseI128;
    var cumNotional, amount := ParseI128(order.cumNotional).value, ParseI128(order.feeTotal.value.amountE18).value;
    var n, f := TrimScale(cumNotional, NOTIONAL_SCALE + baseScale), TrimScale(amount, FEE_SCALE);
    UsedIsExact(n, f, order.feeAsset, order.feeTotal.value.isRebate);
    TrimIsLeast(cumNotional, NOTIONAL_SCALE + baseScale);
    TrimIsLeast(amount, FEE_SCALE);
  }

  /** The common scale is the least at which the notional and the fee are both integers. */
  lemma CommonScaleIsLeast(order: Order, baseScale: u32, n: int, f: int, s: nat)
    requires QuoteUsedScaled(order, baseScale).Some?
    requires ParseI128(order.cumNotional).Some? && Covered(order) && ParseI128(order.feeTotal.value.amountE18).Some?
    requires Worth(n, s) == Worth(ParseI128(order.cumNotional).value, 9 + baseScale)
    requires Worth(f, s) == Worth(ParseI128(order.feeTotal.value.amountE18).value, 18)
    ensures QuoteUsedScaled(order, baseScale).value.scale <= s
  {
    hide Worth, TrimScale, UsedAtCommonScale, ParseI128;
    var cumNotional, amount := ParseI128(order.cumNotional).value, ParseI128(order.feeTotal.value.amountE18).value;
    TrimIsLeast(cumNotional, NOTIONAL_SCALE + baseScale);
    TrimIsLeast(amount, FEE_SCALE);
    UsedIsExact(TrimScale(cumNotional, NOTIONAL_SCALE + baseScale), TrimScale(amount, FEE_SCALE),
                order.feeAsset, order.feeTotal.value.isRebate);
  }

  // ----- decimals and the remainder -----

  /** A 96-bit mantissa at a scale of at most 28. */
  const MAX_MANTISSA: int := 0xffff_ffff_ffff_ffff_ffff_ffff
  const MAX_DECIMAL_SCALE: u32 := 28

  predicate FitsDecimal(value: int, scale: nat) {
    -MAX_MANTISSA <= value <= MAX_MANTISSA && scale <= MAX_DECIMAL_SCALE
  }

  /** What a decimal holds: 96 bits without the sign, and up to 28 places. */
  predicate Representable(value: int, scale: nat) {
    -79_228_162_514_264_337_593_543_950_335 <= value <= 79_228_162_514_264_337_593_543_950_335 && scale <= 28
  }

  function ExactDecimal(value: i128, scale: u32): Option<Scaled> {
    var t := TrimScale(value, scale);
    if FitsDecimal(t.value, t.scale) then Some(t) else None
  }

  ghost function QuoteUsed(order: Order, baseScale: u32): Option<Scaled> {
    match QuoteUsedScaled(order, baseScale)
    case Some(used) => ExactDecimal(used.value, used.scale)
    case None => None
  }

  ghost function QuoteUnspent(order: Order, baseScale: u32, quoteScale: u32): Option<Scaled> {
    if order.submittedMaxQuoteDebit.None? then None
    else
      var submitted := TrimScale(order.submittedMaxQuoteDebit.value, quoteScale);
      match QuoteUsedScaled(order, baseScale)
      case None => None
      case Some(used) => Remainder(submitted, used)
  }

  function Remainder(submitted: Scaled, used: Scaled): Option<Scaled> {
    var scale := Max(used.scale, submitted.scale);
    match (Rescale(submitted.value, submitted.scale, scale), Rescale(used.value, used.scale, scale))
    case (Some(s), Some(u)) =>
      (match CheckedI128(s as int - u as int)
       case Some(unspent) => ExactDecimal(unspent, scale)
       case None => None)
    case _ => None
  }

  lemma AtLeastTimes(w: int, p: nat)
    requires p > 0
    ensures -MAX_MANTISSA <= w * p <= MAX_MANTISSA ==> -MAX_MANTISSA <= w <= MAX_MANTISSA
  {
    AtLeastSelf(w, p);
  }

  lemma AtLeastSelf(w: int, p: nat)
    requires p > 0
    ensures w >= 0 ==> w * p >= w
    ensures w <= 0 ==> w * p <= w
  {
  }

  /** A decimal is produced exactly when some decimal is worth the value, and is worth it exactly. */
  lemma ExactDecimalExactly(value: i128, scale: u32)
    ensures ExactDecimal(value, scale).Some? ==>
              var d := ExactDecimal(value, scale).value;
              Representable(d.value, d.scale) && Worth(d.value, d.scale) == Worth(value, scale)
    ensures forall w: int, s: nat | Worth(w, s) == Worth(value, scale) && Representable(w, s) ::
              ExactDecimal(value, scale).Some?
  {
    hide Worth, TrimScale, Pow10;
    TrimIsLeast(value, scale);
    var t := TrimScale(value, scale);
    forall w: int, s: nat | Worth(w, s) == Worth(value, scale) && Representable(w, s)
      ensures Representable(t.value, t.scale)
    {
      SameWorth(t.value, t.scale, w, s);
      AtLeastTimes(t.value, Pow10(s - t.scale));
    }
  }

  /** The reported quote used is the exact one, reported whenever some decimal is worth it. */
  lemma QuoteUsedAsDecimal(order: Order, baseScale: u32)
    requires QuoteUsedScaled(order, baseScale).Some?
    ensures var used := QuoteUsedScaled(order, baseScale).value;
            && (QuoteUsed(order, baseScale).Some? ==>
                  var d := QuoteUsed(order, baseScale).value;
                  Representable(d.value, d.scale) && Worth(d.value, d.scale) == Worth(used.value, used.scale))
            && (forall w: int, s: nat | Worth(w, s) == Worth(used.value, used.scale) && Representable(w, s) ::
                  QuoteUsed(order, baseScale).Some?)
  {
    hide Worth, ExactDecimal, QuoteUsedScaled, Representable;
    var used := QuoteUsedScaled(order, baseScale).value;
    ExactDecimalExactly(used.value, used.scale);
  }

  lemma RemainderIsExact(submitted: Scaled, used: Scaled)
    requires Remainder(submitted, used).Some?
    ensures var x := Remainder(submitted, used).value;
            Worth(x.value, x.scale) + Worth(used.value, used.scale) == Worth(submitted.value, submitted.scale)
  {
    hide Worth, Rescale, ExactDecimal;
    var scale := Max(used.scale, submitted.scale);
    RescaleExactly(submitted.value, submitted.scale, scale);
    RescaleExactly(used.value, used.scale, scale);
    var s, u := Rescale(submitted.value, submitted.scale, scale).value, Rescale(used.value, used.scale, scale).value;
    WorthAdds(s, u, scale);
    ExactDecimalExactly(s - u, scale);
  }

  /** What was not used and what was used make up what was submitted, to the last digit. */
  lemma UsedAndUnspentMakeSubmitted(order: Order, baseScale: u32, quoteScale: u32)
    requires QuoteUnspent(order, baseScale, quoteScale).Some?
    ensures order.submittedMaxQuoteDebit.Some? && QuoteUsedScaled(order, baseScale).Some?
    ensures var x, used := QuoteUnspent(order, baseScale, quoteScale).value, QuoteUsedScaled(order, baseScale).value;
            Worth(x.value, x.scale) + Worth(used.value, used.scale)
              == Worth(order.submittedMaxQuoteDebit.value, quoteScale)
  {
    hide Worth, TrimScale, QuoteUsedScaled, Remainder;
    TrimIsLeast(order.submittedMaxQuoteDebit.value, quoteScale);
    RemainderIsExact(TrimScale(order.submittedMaxQuoteDebit.value, quoteScale),
                     QuoteUsedScaled(order, baseScale).value);
  }

  /** A zero whose scale lies 39 or more below the common one cannot be rescaled. */
  predicate ZeroTooFar(operand: Scaled, scale: nat) {
    operand.value == 0 && scale - operand.scale >= 39
  }

  predicate FitsI128(value: int) {
    I128_MIN <= value <= I128_MAX
  }

  /** Both operands and their sum fit at the common scale, and no zero is too far below it. */
  predicate OperandsFit(notional: Scaled, fee: Scaled, feeAsset: string, isRebate: bool) {
    var scale := Max(notional.scale, fee.scale);
    var n, f := notional.value * Pow10(scale - notional.scale), fee.value * Pow10(scale - fee.scale);
    && FitsI128(n) && FitsI128(f)
    && !ZeroTooFar(notional, scale) && !ZeroTooFar(fee, scale)
    && FitsI128(if feeAsset == "base" then n else if isRebate then n - f else n + f)
  }

  predicate KnownAsset(feeAsset: string) {
    feeAsset == "base" || feeAsset == "quote"
  }

  lemma UsedAtCommonScaleExactly(notional: Scaled, fee: Scaled, feeAsset: string, isRebate: bool)
    ensures UsedAtCommonScale(notional, fee, feeAsset, isRebate).Some? <==>
              KnownAsset(feeAsset) && OperandsFit(notional, fee, feeAsset, isRebate)
  {
    hide Worth, Rescale, Pow10;
    var scale := Max(notional.scale, fee.scale);
    RescaleExactly(notional.value, notional.scale, scale);
    RescaleExactly(fee.value, fee.scale, scale);
  }

  /** The order's own notional and fee, trimmed. */
  ghost predicate OrderFits(order: Order, baseScale: u32) {
    && CoversFills(order) && KnownAsset(order.feeAsset) && 9 + baseScale <= 0xFFFF_FFFF
    && ParseI128(order.cumNotional).Some? && ParseI128(order.feeTotal.value.amountE18).Some?
    && OperandsFit(
         TrimScale(ParseI128(order.cumNotional).value, 9 + baseScale),
         TrimScale(ParseI128(order.feeTotal.value.amountE18).value, 18),
         order.feeAsset, order.feeTotal.value.isRebate)
  }

  /**
   Exactly when an order's quote used is known: its fee total covers its fills, both texts
   parse, the asset is known, and the trimmed amounts and their sum fit at the common
   scale with no zero 39 or more places below it.
   */
  lemma WhenUsedIsKnown(order: Order, baseScale: u32)
    ensures QuoteUsedScaled(order, baseScale).Some? <==> OrderFits(order, baseScale)
  {
    hide ParseI128, TrimScale, UsedAtCommonScale, OperandsFit;
    if Covered(order) && NOTIONAL_SCALE + baseScale <= U32_MAX
       && ParseI128(order.cumNotional).Some? && ParseI128(order.feeTotal.value.amountE18).Some? {
      UsedAtCommonScaleExactly(
        TrimScale(ParseI128(order.cumNotional).value, NOTIONAL_SCALE + baseScale),
        TrimScale(ParseI128(order.feeTotal.value.amountE18).value, FEE_SCALE),
        order.feeAsset, order.feeTotal.value.isRebate);
    }
  }

  /** A covered order of notional `1` with a fee of `0`. */
  function FreeOrder(feeAsset: string, isRebate: bool): Order {
    Order("1", Some(1), feeAsset, Some(FeeTotal("0", isRebate, Some(1))), None)
  }

  lemma OneAndZeroParse()
    ensures ParseI128("1") == Some(1) && ParseI128("0") == Some(0)
  {
    ValOfChar('1');
    ValOfChar('0');
    assert "1" == ['1'] && "0" == ['0'];
  }

  lemma OneIsTrimmed(scale: u32)
    ensures TrimScale(1, scale) == Scaled(1, scale)
  {
  }

  /**
   That order's quote used is 1e-39 at a base scale of 30, which fits, and yet is unknown
   because of the zero fee, whoever it is paid to; at a base scale of 29 it is known.
   */
  lemma ZeroFeeLosesTheTotal(feeAsset: string, isRebate: bool)
    requires KnownAsset(feeAsset)
    ensures QuoteUsedScaled(FreeOrder(feeAsset, isRebate), 30) == None
    ensures QuoteUsedScaled(FreeOrder(feeAsset, isRebate), 29) == Some(Scaled(1, 38))
  {
    hide Pow10, ParseI128;
    OneAndZeroParse();
    OneIsTrimmed(39);
    OneIsTrimmed(38);
    TrimZero(FEE_SCALE);
    OneIsPow10();
    hide TrimScale;
    RescaleExactly(0, 0, 39);
    RescaleExactly(0, 0, 38);
    RescaleExactly(1, 38, 38);
    assert Rescale(0, 0, 38).value == 0 * Pow10(38);
  }

  lemma OneIsPow10()
    ensures Pow10(0) == 1
  {
  }

  lemma {:induction false} TrimZero(scale: u32)
    ensures TrimScale(0, scale) == Scaled(0, 0)
    decreases scale
  {
    if scale > 0 {
      TrimZero(scale - 1);
    }
  }

  // ----- when the remainder is known -----

  /** Some decimal is worth this. */
  ghost predicate HasDecimal(value: int, scale: nat) {
    exists w: int, s: nat :: Worth(w, s) == Worth(value, scale) && Representable(w, s)
  }

  lemma ExactDecimalIff(value: i128, scale: u32)
    ensures ExactDecimal(value, scale).Some? <==> HasDecimal(value, scale)
  {
    hide Worth, ExactDecimal;
    ExactDecimalExactly(value, scale);
  }

  /** The difference at the common scale. */
  function Less(a: Scaled, b: Scaled): int {
    var scale := Max(a.scale, b.scale);
    a.value * Pow10(scale - a.scale) - b.value * Pow10(scale - b.scale)
  }

  lemma RemainderIff(submitted: Scaled, used: Scaled)
    ensures var scale := Max(used.scale, submitted.scale);
            Remainder(submitted, used).Some? <==>
              && OperandsFit(submitted, used, "quote", true)
              && HasDecimal(Less(submitted, used), scale)
  {
    hide Worth, Rescale, Pow10, ExactDecimal, HasDecimal;
    var scale := Max(used.scale, submitted.scale);
    RescaleExactly(submitted.value, submitted.scale, scale);
    RescaleExactly(used.value, used.scale, scale);
    var s, u := submitted.value * Pow10(scale - submitted.scale), used.value * Pow10(scale - used.scale);
    if FitsI128(s - u) {
      ExactDecimalIff(s - u, scale);
    }
  }

  /**
   What was not used is known exactly when the order was sized by a quote amount, what was used
   is known, both and their difference fit at the common scale, and some decimal is worth the difference.
   */
  lemma WhenUnspentIsKnown(order: Order, baseScale: u32, quoteScale: u32)
    ensures QuoteUnspent(order, baseScale, quoteScale).Some? <==>
              && order.submittedMaxQuoteDebit.Some? && QuoteUsedScaled(order, baseScale).Some?
              && var submitted := TrimScale(order.submittedMaxQuoteDebit.value, quoteScale);
              && var used := QuoteUsedScaled(order, baseScale).value;
              && var scale := Max(used.scale, submitted.scale);
              && OperandsFit(submitted, used, "quote", true)
              && HasDecimal(Less(submitted, used), scale)
  {
    hide TrimScale, QuoteUsedScaled, Remainder, OperandsFit, HasDecimal, Pow10;
    if order.submittedMaxQuoteDebit.Some? && QuoteUsedScaled(order, baseScale).Some? {
      RemainderIff(TrimScale(order.submittedMaxQuoteDebit.value, quoteScale), QuoteUsedScaled(order, baseScale).value);
    }
  }

  /** An amount is read as Rust reads an `i128`: at most one sign, then at least one digit, in range. */
  lemma SignedAmountReads(sign: char, digits: string)
    requires sign == '+' || sign == '-'
    ensures ParseI128([sign] + digits)
         == if digits == [] || !AllDigits(digits) then None
            else CheckedI128(if sign == '-' then 0 - Val(digits) else Val(digits))
  {
    hide Val, AllDigits;
    assert ([sign] + digits)[1..] == digits;
  }

  lemma PlainAmountReads(digits: string)
    requires digits == [] || (digits[0] != '+' && digits[0] != '-')
    ensures ParseI128(digits) == if digits == [] || !AllDigits(digits) then None else CheckedI128(Val(digits))
  {
    hide Val, AllDigits;
  }
}
