/** Decimal digit strings and their values. */
module Digits {
  import opened Numbers

  predicate IsDigit(c: char) {
    '0' <= c <= '9'
  }

  ghost predicate AllDigits(s: string) {
    forall i | 0 <= i < |s| :: IsDigit(s[i])
  }

  function DigitOf(c: char): (d: nat)
    ensures d <= 9
  {
    if IsDigit(c) then c as int - '0' as int else 0
  }

  function CharOf(d: nat): (c: char)
    requires d <= 9
    ensures IsDigit(c) && DigitOf(c) == d
  {
    ('0' as int + d) as char
  }

  function Val(s: string): nat {
    if s == [] then 0 else 10 * Val(s[..|s| - 1]) + DigitOf(s[|s| - 1])
  }

  function Zeros(n: nat): (s: string)
    ensures |s| == n
  {
    seq(n, _ => '0')
  }

  function StripLeading(s: string): string {
    if s == [] || s[0] != '0' then s else StripLeading(s[1..])
  }

  function StripTrailing(s: string): string {
    if s == [] || s[|s| - 1] != '0' then s else StripTrailing(s[..|s| - 1])
  }

  /** A numeral without superfluous leading zeros. */
  ghost predicate Lean(s: string) {
    s != [] && AllDigits(s) && (s[0] != '0' || s == "0")
  }

  function OrZero(s: string): string {
    if s == [] then "0" else s
  }

  function ToString(n: nat): string {
    if n < 10 then [CharOf(n)] else ToString(n / 10) + [CharOf(n % 10)]
  }

  lemma ValOfOneMore(s: string, c: char)
    ensures Val(s + [c]) == 10 * Val(s) + DigitOf(c)
  {
    assert (s + [c])[..|s|] == s;
  }

  lemma {:induction false} ValAppend(a: string, b: string)
    ensures Val(a + b) == Val(a) * Pow10(|b|) + Val(b)
    decreases |b|
  {
    if b == [] {
      assert a + b == a;
    } else {
      hide Val;
      var before, last := b[..|b| - 1], b[|b| - 1];
      assert a + b == a + before + [last] && b == before + [last];
      ValAppend(a, before);
      ValOfOneMore(a + before, last);
      ValOfOneMore(before, last);
      assert Pow10(|b|) == 10 * Pow10(|before|);
      TimesTen(Val(a), Pow10(|before|));
    }
  }

  lemma TimesTen(a: int, p: int)
    ensures a * (10 * p) == 10 * (a * p)
  {
  }

  lemma {:induction false} ValBelow(s: string)
    ensures Val(s) < Pow10(|s|)
    decreases |s|
  {
    if s != [] {
      ValBelow(s[..|s| - 1]);
    }
  }

  lemma {:induction false} ValZeros(n: nat)
    ensures Val(Zeros(n)) == 0
  {
    if n > 0 {
      assert Zeros(n)[..n - 1] == Zeros(n - 1);
      ValZeros(n - 1);
    }
  }

  lemma ValPadded(s: string, n: nat)
    ensures Val(Zeros(n) + s) == Val(s)
    ensures Val(s + Zeros(n)) == Val(s) * Pow10(n)
  {
    ValAppend(Zeros(n), s);
    ValAppend(s, Zeros(n));
    ValZeros(n);
  }

  lemma {:induction false} StripLeadingPads(s: string)
    ensures |StripLeading(s)| <= |s| && s == Zeros(|s| - |StripLeading(s)|) + StripLeading(s)
    ensures StripLeading(s) != [] ==> StripLeading(s)[0] != '0'
    decreases |s|
  {
    if s != [] && s[0] == '0' {
      StripLeadingPads(s[1..]);
      assert s == ['0'] + s[1..];
    }
  }

  lemma StripLeadingKeeps(s: string)
    requires AllDigits(s)
    ensures Val(StripLeading(s)) == Val(s) && Val(OrZero(StripLeading(s))) == Val(s) && Lean(OrZero(StripLeading(s)))
  {
    StripLeadingPads(s);
    var rest := StripLeading(s);
    ValPadded(rest, |s| - |rest|);
    assert forall i | 0 <= i < |rest| :: rest[i] == s[|s| - |rest| + i];
  }

  lemma {:induction false} StripTrailingPads(s: string)
    ensures |StripTrailing(s)| <= |s| && s == StripTrailing(s) + Zeros(|s| - |StripTrailing(s)|)
    ensures StripTrailing(s) != [] ==> StripTrailing(s)[|StripTrailing(s)| - 1] != '0'
    decreases |s|
  {
    if s != [] && s[|s| - 1] == '0' {
      StripTrailingPads(s[..|s| - 1]);
      assert s == s[..|s| - 1] + ['0'];
    }
  }

  lemma {:induction false} ToStringReadsBack(n: nat)
    ensures Lean(ToString(n)) && Val(ToString(n)) == n
    decreases n
  {
    if n < 10 {
      ValOfOneMore("", CharOf(n));
      assert "" + [CharOf(n)] == [CharOf(n)];
      if CharOf(n) == '0' {
        assert [CharOf(n)] == "0";
      }
    } else {
      ToStringReadsBack(n / 10);
      ValOfOneMore(ToString(n / 10), CharOf(n % 10));
      LeanNumeralIsZero(ToString(n / 10));
    }
  }

  lemma LeanNumeralIsZero(s: string)
    requires Lean(s)
    ensures s[0] == '0' ==> Val(s) == 0
  {
    if s[0] == '0' {
      ValZeros(1);
      assert Zeros(1) == "0";
    }
  }

  /** Digit strings of one length are told apart by their values. */
  lemma {:induction false} SameLengthSameVal(a: string, b: string)
    requires AllDigits(a) && AllDigits(b) && |a| == |b| && Val(a) == Val(b)
    ensures a == b
    decreases |a|
  {
    if a != [] {
      SameLengthSameVal(a[..|a| - 1], b[..|b| - 1]);
      assert a == a[..|a| - 1] + [a[|a| - 1]] && b == b[..|b| - 1] + [b[|b| - 1]];
    }
  }

  lemma LeadingDigitCounts(s: string)
    requires s != [] && AllDigits(s) && s[0] != '0'
    ensures Val(s) >= Pow10(|s| - 1)
  {
    assert s == [s[0]] + s[1..];
    ValAppend([s[0]], s[1..]);
    assert [s[0]][..0] == [];
    assert Val([s[0]]) >= 1;
  }

  lemma {:induction false} Pow10Monotone(j: nat, k: nat)
    requires j <= k
    ensures Pow10(j) <= Pow10(k)
    decreases k
  {
    if j < k {
      Pow10Monotone(j, k - 1);
    }
  }

  lemma ShorterIsLess(a: string, b: string)
    requires AllDigits(b) && |a| < |b| && b[0] != '0'
    ensures Val(a) < Val(b)
  {
    ValBelow(a);
    Pow10Monotone(|a|, |b| - 1);
    LeadingDigitCounts(b);
  }

  /** Every number has one lean numeral. */
  lemma LeanIsUnique(a: string, b: string)
    requires Lean(a) && Lean(b) && Val(a) == Val(b)
    ensures a == b
  {
    if |a| == |b| {
      SameLengthSameVal(a, b);
    } else {
      var short, long := if |a| < |b| then a else b, if |a| < |b| then b else a;
      assert long[0] != '0';
      ShorterIsLess(short, long);
    }
  }

  // ----- comparing numerals as text -----

  predicate TextLess(a: string, b: string)
    requires |a| == |b|
  {
    a != [] && (a[0] < b[0] || (a[0] == b[0] && TextLess(a[1..], b[1..])))
  }

  lemma {:induction false} TextLessIsLess(a: string, b: string)
    requires AllDigits(a) && AllDigits(b) && |a| == |b|
    ensures TextLess(a, b) <==> Val(a) < Val(b)
    decreases |a|
  {
    hide Val, Pow10;
    if a == [] {
      assert b == [];
    } else {
      TextLessIsLess(a[1..], b[1..]);
      ValOfFirst(a);
      ValOfFirst(b);
      ValBelow(a[1..]);
      ValBelow(b[1..]);
      FirstDigitDecides(DigitOf(a[0]), DigitOf(b[0]), Pow10(|a| - 1), Val(a[1..]), Val(b[1..]));
    }
  }

  lemma FirstDigitDecides(d: nat, e: nat, p: nat, x: nat, y: nat)
    requires x < p && y < p
    ensures d < e ==> d * p + x < e * p + y
    ensures e < d ==> e * p + y < d * p + x
  {
    if d < e {
      MoreTimes(d, e, p);
    } else if e < d {
      MoreTimes(e, d, p);
    }
  }

  lemma {:induction false} MoreTimes(d: nat, e: nat, p: nat)
    requires d < e
    ensures d * p + p <= e * p
    decreases e
  {
    OneMoreTime(e - 1, p);
    if d < e - 1 {
      MoreTimes(d, e - 1, p);
    }
  }

  lemma OneMoreTime(d: nat, p: nat)
    ensures (d + 1) * p == d * p + p
  {
  }

  lemma ValOfChar(c: char)
    ensures Val([c]) == DigitOf(c)
  {
    assert [c][..0] == [];
  }

  lemma ValOfFirst(s: string)
    requires s != []
    ensures Val(s) == DigitOf(s[0]) * Pow10(|s| - 1) + Val(s[1..])
  {
    hide Val, Pow10;
    assert s == [s[0]] + s[1..];
    ValAppend([s[0]], s[1..]);
    ValOfChar(s[0]);
  }
}
