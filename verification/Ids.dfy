/** Public IDs: base58 text with '1' for each leading zero byte, or decimal. */
module Ids {
  import opened Numbers
  import opened Digits
  import opened Decimals

  // ----- positional notation -----

  function ToBase(n: nat, base: nat): seq<nat>
    requires base >= 2
  {
    if n == 0 then [] else ToBase(n / base, base) + [n % base]
  }

  function FromBase(digits: seq<nat>, base: nat): nat {
    if digits == [] then 0 else FromBase(digits[..|digits| - 1], base) * base + digits[|digits| - 1]
  }

  function Power(base: nat, k: nat): nat {
    if k == 0 then 1 else Power(base, k - 1) * base
  }

  lemma {:induction false} ToBaseReadsBack(n: nat, base: nat)
    requires base >= 2
    ensures FromBase(ToBase(n, base), base) == n
    ensures forall i | 0 <= i < |ToBase(n, base)| :: ToBase(n, base)[i] < base
    ensures n > 0 ==> ToBase(n, base) != [] && ToBase(n, base)[0] != 0
    decreases n
  {
    if n > 0 {
      Quotient(n, base);
      var before := ToBase(n / base, base);
      ToBaseReadsBack(n / base, base);
      assert (before + [n % base])[..|before|] == before;
    }
  }

  lemma Quotient(n: nat, base: nat)
    requires base >= 2
    ensures n / base * base + n % base == n && n % base < base && (n > 0 ==> n / base < n)
  {
  }

  lemma {:induction false} ToBaseIsShort(n: nat, base: nat, k: nat)
    requires base >= 2 && n < Power(base, k)
    ensures |ToBase(n, base)| <= k
    decreases k
  {
    if n > 0 && k > 0 {
      BelowTimes(n, Power(base, k - 1), base);
      ToBaseIsShort(n / base, base, k - 1);
    }
  }

  lemma BelowTimes(n: nat, p: nat, base: nat)
    requires base >= 2 && n < p * base
    ensures n / base < p
  {
  }

  // ----- base58 -----

  function Char58(d: nat): char
    requires d < 58
  {
    if d <= 8 then ('1' as int + d) as char
    else if d <= 16 then ('A' as int + d - 9) as char
    else if d <= 21 then ('J' as int + d - 17) as char
    else if d <= 32 then ('P' as int + d - 22) as char
    else if d <= 43 then ('a' as int + d - 33) as char
    else ('m' as int + d - 44) as char
  }

  function Digit58(c: char): Option<nat> {
    var code := c as int;
    if '1' <= c <= '9' then Some(code - '1' as int)
    else if 'A' <= c <= 'H' then Some(code - 'A' as int + 9)
    else if 'J' <= c <= 'N' then Some(code - 'J' as int + 17)
    else if 'P' <= c <= 'Z' then Some(code - 'P' as int + 22)
    else if 'a' <= c <= 'k' then Some(code - 'a' as int + 33)
    else if 'm' <= c <= 'z' then Some(code - 'm' as int + 44)
    else None
  }

  lemma Char58ReadsBack(d: nat)
    requires d < 58
    ensures Digit58(Char58(d)) == Some(d) && !Whitespace(Char58(d))
  {
  }

  ghost predicate InAlphabet(s: string) {
    forall i | 0 <= i < |s| :: Digit58(s[i]).Some?
  }

  ghost function Digits58(s: string): (digits: seq<nat>)
    requires InAlphabet(s)
    ensures |digits| == |s|
  {
    seq(|s|, i requires 0 <= i < |s| => Digit58(s[i]).value)
  }

  function Chars58(digits: seq<nat>): (s: string)
    requires forall i | 0 <= i < |digits| :: digits[i] < 58
    ensures |s| == |digits|
  {
    seq(|digits|, i requires 0 <= i < |digits| => Char58(digits[i]))
  }

  /** How many elements at the front equal `zero`. */
  function Leading<T(==)>(s: seq<T>, zero: T): (k: nat)
    ensures k <= |s|
  {
    if s == [] || s[0] != zero then 0 else 1 + Leading(s[1..], zero)
  }

  function Encode58(bytes: seq<nat>): string {
    var n := FromBase(bytes, 256);
    ToBaseReadsBack(n, 58);
    seq(Leading(bytes, 0), _ => '1') + Chars58(ToBase(n, 58))
  }

  ghost function Decode58(s: string): Option<seq<nat>> {
    if !InAlphabet(s) then None
    else Some(seq(Leading(s, '1'), _ => 0) + ToBase(FromBase(Digits58(s), 58), 256))
  }

  // ----- IDs -----

  datatype IdError = NotAnId | ExceedsU64

  /** The big-endian bytes of a `u64` without its leading zero bytes; one zero byte for 0. */
  function FormatId(id: u64): string {
    if id == 0 then Encode58([0]) else Encode58(ToBase(id, 256))
  }

  lemma {:induction false} FromBaseBelow(digits: seq<nat>, base: nat)
    requires forall i | 0 <= i < |digits| :: digits[i] < base
    ensures FromBase(digits, base) < Power(base, |digits|)
    decreases |digits|
  {
    if digits != [] {
      FromBaseBelow(digits[..|digits| - 1], base);
      MoreTimes(FromBase(digits[..|digits| - 1], base), Power(base, |digits| - 1), base);
    }
  }

  lemma {:induction false} PowerMonotone(base: nat, j: nat, k: nat)
    requires base >= 1 && j <= k
    ensures Power(base, j) <= Power(base, k)
    decreases k
  {
    if j < k {
      PowerMonotone(base, j, k - 1);
    }
  }

  lemma EightBytesFit(s: string)
    requires Decode58(s).Some? && |Decode58(s).value| <= 8
    ensures FromBase(Decode58(s).value, 256) <= U64_MAX
  {
    hide Power, FromBase;
    var bytes := Decode58(s).value;
    ToBaseReadsBack(FromBase(Digits58(s), 58), 256);
    FromBaseBelow(bytes, 256);
    PowerMonotone(256, |bytes|, 8);
    Powers();
  }

  ghost function Base58ToU64(value: string): Result<u64, IdError> {
    match Decode58(value)
    case None => Err(NotAnId)
    case Some(bytes) => if |bytes| > 8 then Err(ExceedsU64) else (EightBytesFit(value); Ok(FromBase(bytes, 256)))
  }

  ghost function IdToU64(value: string): Result<u64, IdError> {
    var text := Trim(value);
    if text == [] then Err(NotAnId)
    else if AllDigits(text) then
      if Val(text) > U64_MAX then Err(ExceedsU64)
      else
        match Base58ToU64(text)
        case Ok(id) => Ok(if FormatId(id) == text then id else Val(text))
        case Err(_) => Ok(Val(text))
    else Base58ToU64(text)
  }

  lemma FormatIdIs(id: u64)
    ensures FormatId(id) == (ToBaseReadsBack(id, 58); if id == 0 then "1" else Chars58(ToBase(id, 58)))
  {
    ToBaseReadsBack(id, 58);
    ToBaseReadsBack(id, 256);
    if id == 0 {
      assert [0][..0] == [];
      assert FromBase([0], 256) == 0;
      assert Leading([0], 0) == 1;
    } else {
      assert Leading(ToBase(id, 256), 0) == 0;
    }
  }

  lemma Powers()
    ensures Power(256, 8) == U64_MAX + 1 && Power(58, 11) > U64_MAX
  {
    assert Power(256, 4) == 0x1_0000_0000;
    assert Power(256, 6) == 0x1_0000_0000_0000;
    assert Power(58, 4) == 11316496;
    assert Power(58, 8) == 128063081718016;
  }

  /** Base58 text of an ID decodes to it. */
  lemma Base58ReadsBack(id: u64)
    ensures Base58ToU64(FormatId(id)) == Ok(id)
  {
    hide Power, Char58, Digit58;
    FormatIdIs(id);
    ToBaseReadsBack(id, 58);
    ToBaseReadsBack(id, 256);
    Powers();
    ToBaseIsShort(id, 256, 8);
    if id == 0 {
      ZeroDecodes();
    } else {
      var digits := ToBase(id, 58);
      CharsReadBack(digits);
      assert FormatId(id)[0] == Char58(digits[0]);
      OnlyZeroIsOne(digits[0]);
      assert Leading(FormatId(id), '1') == 0;
      assert seq(0, _ => 0) + ToBase(id, 256) == ToBase(id, 256);
    }
  }

  lemma OnlyZeroIsOne(d: nat)
    requires d < 58
    ensures Char58(d) == '1' <==> d == 0
  {
    Char58ReadsBack(d);
  }

  lemma CharsReadBack(digits: seq<nat>)
    requires forall i | 0 <= i < |digits| :: digits[i] < 58
    ensures InAlphabet(Chars58(digits)) && Digits58(Chars58(digits)) == digits
    ensures forall i | 0 <= i < |digits| :: !Whitespace(Chars58(digits)[i])
  {
    forall i | 0 <= i < |digits|
      ensures Digit58(Chars58(digits)[i]) == Some(digits[i]) && !Whitespace(Chars58(digits)[i])
    {
      Char58ReadsBack(digits[i]);
    }
  }

  lemma ZeroDecodes()
    ensures Base58ToU64("1") == Ok(0)
  {
    var digits := Digits58("1");
    assert digits == [0];
    assert [0][..0] == [];
    assert FromBase([0], 58) == 0;
    assert Leading("1", '1') == 1;
    assert Decode58("1") == Some(seq(1, _ => 0) + ToBase(0, 256));
    assert seq(1, _ => 0) + ToBase(0, 256) == [0];
    assert FromBase([0], 256) == 0;
  }

  lemma FormatIdIsShort(id: u64)
    ensures 1 <= |FormatId(id)| <= 11 && Trim(FormatId(id)) == FormatId(id)
  {
    hide Power;
    FormatIdIs(id);
    ToBaseReadsBack(id, 58);
    Powers();
    ToBaseIsShort(id, 58, 11);
    if id > 0 {
      CharsReadBack(ToBase(id, 58));
    }
    TrimKeeps(FormatId(id));
  }

  lemma ElevenDigitsFit(s: string)
    requires |s| <= 11
    ensures Val(s) <= U64_MAX
  {
    hide Val;
    ValBelow(s);
    Pow10Monotone(|s|, 11);
    assert Pow10(6) == 1_000_000 && Pow10(11) == 100_000 * Pow10(6) by {
      Pow10Add(5, 6);
      assert Pow10(5) == 100_000;
    }
  }

  /** Every ID survives formatting and parsing, those whose text is all digits included. */
  lemma IdReadsBack(id: u64)
    ensures IdToU64(FormatId(id)) == Ok(id)
  {
    hide Val, FormatId, Base58ToU64, Trim;
    FormatIdIsShort(id);
    Base58ReadsBack(id);
    ElevenDigitsFit(FormatId(id));
  }

  lemma FormatIdIsInjective(a: u64, b: u64)
    requires FormatId(a) == FormatId(b)
    ensures a == b
  {
    hide FormatId, IdToU64;
    IdReadsBack(a);
    IdReadsBack(b);
  }

  /**
   What an all-digit text reads as: the ID it is the canonical text of, if any;
   otherwise its decimal value, if that fits `u64`.
   */
  lemma DigitsReadAs(value: string)
    requires Trim(value) != [] && AllDigits(Trim(value))
    ensures forall id: u64 | FormatId(id) == Trim(value) :: IdToU64(value) == Ok(id)
    ensures (forall id: u64 :: FormatId(id) != Trim(value)) ==>
              IdToU64(value) == if Val(Trim(value)) <= U64_MAX then Ok(Val(Trim(value))) else Err(ExceedsU64)
  {
    hide Val, FormatId, Base58ToU64, Trim;
    forall id: u64 | FormatId(id) == Trim(value)
      ensures IdToU64(value) == Ok(id)
    {
      FormatIdIsShort(id);
      ElevenDigitsFit(FormatId(id));
      Base58ReadsBack(id);
    }
  }

  // ----- letter by letter -----

  const DIGITS := "123456789"
  const UPPER := "ABCDEFGH" + "JKLMN" + "PQRSTUVWXYZ"
  const LOWER := "abcdefghijk" + "mnopqrstuvwxyz"
  const ALPHABET := DIGITS + UPPER + LOWER

  lemma UpperRuns()
    ensures |UPPER| == 24
    ensures forall i | 0 <= i < 24 ::
              UPPER[i] as int == (if i < 8 then 'A' as int + i else if i < 13 then 'J' as int + i - 8
                                  else 'P' as int + i - 13)
  {
  }

  lemma LowerRuns()
    ensures |LOWER| == 25
    ensures forall i | 0 <= i < 25 :: LOWER[i] as int == (if i < 11 then 'a' as int + i else 'm' as int + i - 11)
  {
  }

  lemma DigitsRun()
    ensures |DIGITS| == 9 && forall i | 0 <= i < 9 :: DIGITS[i] as int == '1' as int + i
  {
  }

  /** The digits are these characters, in this order. */
  lemma AlphabetIs(c: char, d: nat)
    ensures |ALPHABET| == 58
    ensures d < 58 ==> Char58(d) == ALPHABET[d]
    ensures Digit58(c) == Some(d) <==> d < 58 && c == ALPHABET[d]
  {
    UpperRuns();
    LowerRuns();
    DigitsRun();
    hide DIGITS, UPPER, LOWER;
    if 9 <= d < 33 {
      assert ALPHABET[d] == UPPER[d - 9];
    } else if 33 <= d < 58 {
      assert ALPHABET[d] == LOWER[d - 33];
    }
  }

  lemma {:induction false} FromBaseOfZeros(zeros: nat, digits: seq<nat>, base: nat)
    ensures FromBase(seq(zeros, _ => 0) + digits, base) == FromBase(digits, base)
    decreases zeros + |digits|
  {
    var all := seq(zeros, _ => 0) + digits;
    if digits != [] {
      assert all[..|all| - 1] == seq(zeros, _ => 0) + digits[..|digits| - 1];
      FromBaseOfZeros(zeros, digits[..|digits| - 1], base);
    } else if zeros > 0 {
      assert all[..|all| - 1] == seq(zeros - 1, _ => 0) + digits;
      FromBaseOfZeros(zeros - 1, digits, base);
    } else {
      assert all == digits;
    }
  }

  lemma BytesNeeded(n: nat, k: nat)
    ensures |ToBase(n, 256)| <= k <==> n < Power(256, k)
  {
    ToBaseReadsBack(n, 256);
    if n < Power(256, k) {
      ToBaseIsShort(n, 256, k);
    }
    if |ToBase(n, 256)| <= k {
      FromBaseBelow(ToBase(n, 256), 256);
      PowerMonotone(256, |ToBase(n, 256)|, k);
    }
  }

  /**
   What a text with another character than a digit reads as: its number in base 58, when that and a
   byte for each leading `1` take no more than eight bytes.
   */
  lemma TextReadsAs(value: string, ones: nat)
    requires Trim(value) != [] && !AllDigits(Trim(value))
    requires var text := Trim(value);
             ones <= |text| && (forall i | 0 <= i < ones :: text[i] == '1') && (ones < |text| ==> text[ones] != '1')
    ensures var text, read := Trim(value), IdToU64(value);
            if !(forall i | 0 <= i < |text| :: text[i] in ALPHABET) then read == Err(NotAnId)
            else
              InAlphabet(text)
              && var n := FromBase(Digits58(text), 58);
              if ones <= 8 && n < Power(256, 8 - ones) then read == Ok(n) else read == Err(ExceedsU64)
  {
    hide AllDigits, Val, Power, FromBase, ToBase, ALPHABET, Digit58;
    var text := Trim(value);
    LeadingIs(text, '1', ones);
    InAlphabetIs(text);
    if InAlphabet(text) {
      var n := FromBase(Digits58(text), 58);
      ToBaseReadsBack(n, 256);
      FromBaseOfZeros(ones, ToBase(n, 256), 256);
      if ones <= 8 {
        BytesNeeded(n, 8 - ones);
      }
    }
  }

  lemma InAlphabetIs(text: string)
    ensures InAlphabet(text) <==> forall i | 0 <= i < |text| :: text[i] in ALPHABET
  {
    forall i | 0 <= i < |text|
      ensures Digit58(text[i]).Some? <==> text[i] in ALPHABET
    {
      if Digit58(text[i]).Some? {
        AlphabetIs(text[i], Digit58(text[i]).value);
      }
      if text[i] in ALPHABET {
        var d :| 0 <= d < |ALPHABET| && ALPHABET[d] == text[i];
        AlphabetIs(text[i], d);
      }
    }
  }

  lemma {:induction false} LeadingIs<T>(s: seq<T>, zero: T, k: nat)
    requires k <= |s| && (forall i | 0 <= i < k :: s[i] == zero) && (k < |s| ==> s[k] != zero)
    ensures Leading(s, zero) == k
    decreases |s|
  {
    if k > 0 {
      LeadingIs(s[1..], zero, k - 1);
    }
  }

  /** An ID other than 0 is written in base 58 without a leading `1`, and 0 as `1`. */
  lemma FormatsInBase58(id: u64)
    ensures var text := FormatId(id);
            && (forall i | 0 <= i < |text| :: text[i] in ALPHABET) && InAlphabet(text)
            && FromBase(Digits58(text), 58) == id && (id > 0 ==> text[0] != '1') && (id == 0 ==> text == "1")
  {
    hide Power, Char58, Digit58, ALPHABET;
    FormatIdIs(id);
    ToBaseReadsBack(id, 58);
    if id == 0 {
      Char58ReadsBack(0);
      OnlyZeroIsOne(0);
      assert Chars58([0]) == "1";
      CharsReadBack([0]);
      assert [0][..0] == [];
    } else {
      CharsReadBack(ToBase(id, 58));
      OnlyZeroIsOne(ToBase(id, 58)[0]);
    }
    InAlphabetIs(FormatId(id));
  }
}
