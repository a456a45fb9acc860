/**
 The canonical query of a signed request: form-decode the pairs, sort them by
 their bytes, and print them percent-encoded (sections 2.1 and 2.3 of RFC 3986).
 */
module CanonicalQuery {
  import opened Numbers

  type Bytes = seq<byte>

  datatype Pair = Pair(key: Bytes, value: Bytes)

  const AMPERSAND: byte := 0x26
  const EQUALS: byte := 0x3D
  const PLUS: byte := 0x2B
  const SPACE: byte := 0x20
  const PERCENT: byte := 0x25

  // ----- reading -----

  /** The parts between separators; one empty part when there is nothing. */
  function Split(b: Bytes, separator: byte): (parts: seq<Bytes>)
    ensures |parts| >= 1
  {
    if b == [] then [[]]
    else
      var rest := Split(b[1..], separator);
      if b[0] == separator then [[]] + rest else [[b[0]] + rest[0]] + rest[1..]
  }

  /** The text before and after the first separator; nothing after when there is none. */
  function SplitOnce(b: Bytes, separator: byte): Pair {
    if b == [] then Pair([], [])
    else if b[0] == separator then Pair([], b[1..])
    else
      var rest := SplitOnce(b[1..], separator);
      Pair([b[0]] + rest.key, rest.value)
  }

  function NonEmpty(parts: seq<Bytes>): seq<Bytes> {
    if parts == [] then []
    else (if parts[0] == [] then [] else [parts[0]]) + NonEmpty(parts[1..])
  }

  function PlusToSpace(b: Bytes): Bytes {
    if b == [] then [] else [if b[0] == PLUS then SPACE else b[0]] + PlusToSpace(b[1..])
  }

  function HexValue(b: byte): Option<nat> {
    if 0x30 <= b <= 0x39 then Some(b - 0x30)
    else if 0x41 <= b <= 0x46 then Some(b - 0x41 + 10)
    else if 0x61 <= b <= 0x66 then Some(b - 0x61 + 10)
    else None
  }

  function EscapeAt(b: Bytes): Option<byte> {
    if |b| < 3 || b[0] != PERCENT then None
    else
      match (HexValue(b[1]), HexValue(b[2]))
      case (Some(high), Some(low)) => if high < 16 && low < 16 then Some(16 * high + low) else None
      case _ => None
  }

  /** A `%` not followed by two hexadecimal digits stands for itself. */
  function PercentDecode(b: Bytes): Bytes
    decreases |b|
  {
    if b == [] then []
    else
      match EscapeAt(b)
      case Some(byte) => [byte] + PercentDecode(b[3..])
      case None => [b[0]] + PercentDecode(b[1..])
  }

  function DecodeComponent(b: Bytes): Bytes {
    PercentDecode(PlusToSpace(b))
  }

  function ReadPair(part: Bytes): Pair {
    var split := SplitOnce(part, EQUALS);
    Pair(DecodeComponent(split.key), DecodeComponent(split.value))
  }

  function ReadPairs(parts: seq<Bytes>): seq<Pair> {
    if parts == [] then [] else [ReadPair(parts[0])] + ReadPairs(parts[1..])
  }

  /** The decoded pairs of a raw query, in the order given. */
  function Pairs(query: Bytes): seq<Pair> {
    ReadPairs(NonEmpty(Split(query, AMPERSAND)))
  }

  // ----- order -----

  predicate BytesLe(a: Bytes, b: Bytes) {
    a == [] || (b != [] && (a[0] < b[0] || (a[0] == b[0] && BytesLe(a[1..], b[1..]))))
  }

  predicate Le(p: Pair, q: Pair) {
    if p.key == q.key then BytesLe(p.value, q.value) else BytesLe(p.key, q.key)
  }

  lemma {:induction false} BytesLeIsOrder(a: Bytes, b: Bytes, c: Bytes)
    ensures BytesLe(a, b) || BytesLe(b, a)
    ensures BytesLe(a, b) && BytesLe(b, a) ==> a == b
    ensures BytesLe(a, b) && BytesLe(b, c) ==> BytesLe(a, c)
    decreases |a|
  {
    if a != [] && b != [] && a[0] == b[0] {
      BytesLeIsOrder(a[1..], b[1..], if c == [] then [] else c[1..]);
      assert a == [a[0]] + a[1..] && b == [b[0]] + b[1..];
    }
  }

  lemma LeIsOrder(p: Pair, q: Pair, r: Pair)
    ensures Le(p, q) || Le(q, p)
    ensures Le(p, q) && Le(q, p) ==> p == q
    ensures Le(p, q) && Le(q, r) ==> Le(p, r)
  {
    BytesLeIsOrder(p.key, q.key, r.key);
    BytesLeIsOrder(q.key, r.key, p.key);
    BytesLeIsOrder(q.key, p.key, r.key);
    BytesLeIsOrder(p.value, q.value, r.value);
  }

  ghost predicate IsSorted(pairs: seq<Pair>) {
    forall i, j | 0 <= i < j < |pairs| :: Le(pairs[i], pairs[j])
  }

  function Insert(p: Pair, sorted: seq<Pair>): seq<Pair> {
    if sorted == [] || Le(p, sorted[0]) then [p] + sorted else [sorted[0]] + Insert(p, sorted[1..])
  }

  function Sort(pairs: seq<Pair>): seq<Pair> {
    if pairs == [] then [] else Insert(pairs[0], Sort(pairs[1..]))
  }

  lemma {:induction false} InsertSorts(p: Pair, sorted: seq<Pair>)
    requires IsSorted(sorted)
    ensures IsSorted(Insert(p, sorted))
    ensures multiset(Insert(p, sorted)) == multiset{p} + multiset(sorted)
    decreases |sorted|
  {
    if sorted == [] {
    } else if Le(p, sorted[0]) {
      forall j | 0 <= j < |sorted|
        ensures Le(p, sorted[j])
      {
        LeIsOrder(p, sorted[0], sorted[j]);
        LeIsOrder(sorted[0], sorted[0], sorted[0]);
      }
    } else {
      InsertSorts(p, sorted[1..]);
      LeIsOrder(p, sorted[0], p);
      assert sorted == [sorted[0]] + sorted[1..];
      var rest := Insert(p, sorted[1..]);
      forall j | 0 <= j < |rest|
        ensures Le(sorted[0], rest[j])
      {
        assert rest[j] in multiset(rest);
        if rest[j] != p {
          assert rest[j] in sorted[1..];
        }
      }
    }
  }

  lemma {:induction false} SortSorts(pairs: seq<Pair>)
    ensures IsSorted(Sort(pairs))
    ensures multiset(Sort(pairs)) == multiset(pairs)
    decreases |pairs|
  {
    if pairs != [] {
      SortSorts(pairs[1..]);
      InsertSorts(pairs[0], Sort(pairs[1..]));
      assert pairs == [pairs[0]] + pairs[1..];
    }
  }

  lemma HeadIsLeast(a: seq<Pair>, p: Pair)
    requires IsSorted(a) && p in a
    ensures Le(a[0], p)
  {
    LeIsOrder(a[0], a[0], a[0]);
  }

  lemma TailOf(a: seq<Pair>)
    requires a != []
    ensures multiset(a[1..]) == multiset(a) - multiset{a[0]}
    ensures |multiset(a)| == |a| && a[0] in multiset(a)
  {
    assert a == [a[0]] + a[1..];
  }

  /** Only one sorted list has a given multiset of pairs. */
  lemma {:induction false} SortedIsUnique(a: seq<Pair>, b: seq<Pair>)
    requires IsSorted(a) && IsSorted(b) && multiset(a) == multiset(b)
    ensures a == b
    decreases |a|
  {
    hide Le;
    if a == [] {
      assert |multiset(b)| == |b|;
    } else {
      TailOf(a);
      assert |multiset(a)| == |multiset(b)| == |b|;
      TailOf(b);
      HeadIsLeast(a, b[0]);
      HeadIsLeast(b, a[0]);
      LeIsOrder(a[0], b[0], a[0]);
      SortedIsUnique(a[1..], b[1..]);
      assert a == [a[0]] + a[1..] && b == [b[0]] + b[1..];
    }
  }

  // ----- printing -----

  predicate Unreserved(b: byte) {
    || 0x30 <= b <= 0x39 || 0x41 <= b <= 0x5A || 0x61 <= b <= 0x7A
    || b == 0x2D || b == 0x2E || b == 0x5F || b == 0x7E
  }

  function HexDigit(n: nat): byte
    requires n < 16
  {
    if n < 10 then 0x30 + n else 0x41 + n - 10
  }

  function EncodeByte(b: byte): Bytes {
    if Unreserved(b) then [b] else [PERCENT, HexDigit(b / 16), HexDigit(b % 16)]
  }

  function Encode(b: Bytes): Bytes {
    if b == [] then [] else EncodeByte(b[0]) + Encode(b[1..])
  }

  function PrintPair(p: Pair): Bytes {
    Encode(p.key) + [EQUALS] + Encode(p.value)
  }

  function Print(pairs: seq<Pair>): Bytes {
    if pairs == [] then []
    else if |pairs| == 1 then PrintPair(pairs[0])
    else PrintPair(pairs[0]) + [AMPERSAND] + Print(pairs[1..])
  }

  function Canonical(query: Bytes): Bytes {
    Print(Sort(Pairs(query)))
  }

  // ----- printing and reading are inverse -----

  predicate Clean(b: byte) {
    Unreserved(b) || b == PERCENT
  }

  lemma {:induction false} EncodeIsClean(b: Bytes)
    ensures forall i | 0 <= i < |Encode(b)| :: Clean(Encode(b)[i])
    decreases |b|
  {
    if b != [] {
      EncodeIsClean(b[1..]);
    }
  }

  lemma EscapeReadsBack(b: byte, rest: Bytes)
    requires !Unreserved(b)
    ensures EscapeAt(EncodeByte(b) + rest) == Some(b)
  {
    assert EncodeByte(b) == [PERCENT, HexDigit(b / 16), HexDigit(b % 16)];
  }

  lemma {:induction false} CleanHasNoPlus(b: Bytes)
    requires forall i | 0 <= i < |b| :: Clean(b[i])
    ensures PlusToSpace(b) == b
    decreases |b|
  {
    if b != [] {
      assert Clean(b[0]);
      CleanHasNoPlus(b[1..]);
      assert b == [b[0]] + b[1..];
    }
  }

  lemma {:induction false} PercentDecodeInverts(b: Bytes)
    ensures PercentDecode(Encode(b)) == b
    decreases |b|
  {
    if b != [] {
      PercentDecodeInverts(b[1..]);
      var rest := Encode(b[1..]);
      if Unreserved(b[0]) {
        assert Encode(b) == [b[0]] + rest;
        assert EscapeAt(Encode(b)) == None;
      } else {
        EscapeReadsBack(b[0], rest);
        assert Encode(b)[3..] == rest;
      }
      assert b == [b[0]] + b[1..];
    }
  }

  /** Every byte string survives encoding and form decoding. */
  lemma ComponentReadsBack(b: Bytes)
    ensures DecodeComponent(Encode(b)) == b
  {
    EncodeIsClean(b);
    CleanHasNoPlus(Encode(b));
    PercentDecodeInverts(b);
  }

  lemma {:induction false} SplitOnceAtSeparator(before: Bytes, after: Bytes, separator: byte)
    requires separator !in before
    ensures SplitOnce(before + [separator] + after, separator) == Pair(before, after)
    decreases |before|
  {
    var whole := before + [separator] + after;
    if before == [] {
      assert whole[1..] == after;
    } else {
      SplitOnceAtSeparator(before[1..], after, separator);
      assert whole[1..] == before[1..] + [separator] + after;
      assert before == [before[0]] + before[1..];
    }
  }

  lemma {:induction false} SplitWithout(b: Bytes, separator: byte)
    requires separator !in b
    ensures Split(b, separator) == [b]
    decreases |b|
  {
    if b != [] {
      SplitWithout(b[1..], separator);
      assert b == [b[0]] + b[1..];
    }
  }

  lemma {:induction false} SplitAtSeparator(before: Bytes, after: Bytes, separator: byte)
    requires separator !in before
    ensures Split(before + [separator] + after, separator) == [before] + Split(after, separator)
    decreases |before|
  {
    var whole := before + [separator] + after;
    if before == [] {
      assert whole[1..] == after;
    } else {
      SplitAtSeparator(before[1..], after, separator);
      assert whole[1..] == before[1..] + [separator] + after;
      assert before == [before[0]] + before[1..];
    }
  }

  lemma EncodeHasNoSeparator(b: Bytes)
    ensures EQUALS !in Encode(b) && AMPERSAND !in Encode(b)
  {
    hide Encode;
    EncodeIsClean(b);
  }

  lemma PairReadsBack(p: Pair)
    ensures ReadPair(PrintPair(p)) == p
    ensures PrintPair(p) != [] && AMPERSAND !in PrintPair(p)
  {
    hide Encode, DecodeComponent, SplitOnce;
    EncodeHasNoSeparator(p.key);
    EncodeHasNoSeparator(p.value);
    SplitOnceAtSeparator(Encode(p.key), Encode(p.value), EQUALS);
    ComponentReadsBack(p.key);
    ComponentReadsBack(p.value);
  }

  /** Printing pairs and reading them back gives the same pairs in the same order. */
  lemma {:induction false} PairsReadBack(pairs: seq<Pair>)
    ensures Pairs(Print(pairs)) == pairs
    decreases |pairs|
  {
    hide ReadPair, PrintPair, Split;
    if pairs == [] {
      assert Split([], AMPERSAND) == [[]] by {
        SplitWithout([], AMPERSAND);
      }
      assert NonEmpty([[]]) == [];
    } else {
      var first, rest := PrintPair(pairs[0]), pairs[1..];
      PairReadsBack(pairs[0]);
      assert pairs == [pairs[0]] + rest;
      if rest == [] {
        SplitWithout(first, AMPERSAND);
        var parts := [first];
        assert parts[1..] == [];
        assert NonEmpty([first]) == [first];
        assert ReadPairs([first]) == [ReadPair(first)] + ReadPairs([]);
      } else {
        assert Print(pairs) == first + [AMPERSAND] + Print(rest);
        SplitAtSeparator(first, Print(rest), AMPERSAND);
        PairsReadBack(rest);
        var parts := Split(Print(rest), AMPERSAND);
        assert ([first] + parts)[1..] == parts;
        assert NonEmpty([first] + parts) == [first] + NonEmpty(parts);
        assert ([first] + NonEmpty(parts))[1..] == NonEmpty(parts);
        assert ReadPairs([first] + NonEmpty(parts)) == [pairs[0]] + ReadPairs(NonEmpty(parts));
      }
    }
  }

  // ----- what the canonical form is for -----

  lemma CanonicalPairs(query: Bytes)
    ensures Pairs(Canonical(query)) == Sort(Pairs(query))
  {
    PairsReadBack(Sort(Pairs(query)));
  }

  /** The canonical form of a canonical query is itself. */
  lemma CanonicalIsIdempotent(query: Bytes)
    ensures Canonical(Canonical(query)) == Canonical(query)
  {
    CanonicalPairs(query);
    SortSorts(Pairs(query));
    SortSorts(Sort(Pairs(query)));
    SortedIsUnique(Sort(Sort(Pairs(query))), Sort(Pairs(query)));
  }

  /** Two queries have the same canonical form exactly when they carry the same pairs, repeats counted. */
  lemma CanonicalIdentifiesPairs(one: Bytes, two: Bytes)
    ensures Canonical(one) == Canonical(two) <==> multiset(Pairs(one)) == multiset(Pairs(two))
  {
    SortSorts(Pairs(one));
    SortSorts(Pairs(two));
    CanonicalPairs(one);
    CanonicalPairs(two);
    if multiset(Pairs(one)) == multiset(Pairs(two)) {
      SortedIsUnique(Sort(Pairs(one)), Sort(Pairs(two)));
    }
  }

  lemma ReadPairsOfCons(part: Bytes, parts: seq<Bytes>)
    ensures multiset(ReadPairs([part] + parts)) == multiset{ReadPair(part)} + multiset(ReadPairs(parts))
  {
    assert ([part] + parts)[1..] == parts;
  }

  lemma {:induction false} ReadPairsOfOneLess(before: seq<Bytes>, part: Bytes, after: seq<Bytes>)
    ensures multiset(ReadPairs(before + [part] + after))
         == multiset{ReadPair(part)} + multiset(ReadPairs(before + after))
    decreases |before|
  {
    hide ReadPairs, ReadPair;
    if before == [] {
      assert before + [part] + after == [part] + after && before + after == after;
      ReadPairsOfCons(part, after);
    } else {
      var first, rest := before[0], before[1..];
      assert before + [part] + after == [first] + (rest + [part] + after);
      assert before + after == [first] + (rest + after);
      ReadPairsOfOneLess(rest, part, after);
      ReadPairsOfCons(first, rest + [part] + after);
      ReadPairsOfCons(first, rest + after);
    }
  }

  lemma TakenAway(part: Bytes, parts: multiset<Bytes>)
    ensures multiset{part} + parts - multiset{part} == parts
  {
  }

  lemma {:induction false} ReadPairsOfPermutation(one: seq<Bytes>, two: seq<Bytes>)
    requires multiset(one) == multiset(two)
    ensures multiset(ReadPairs(one)) == multiset(ReadPairs(two))
    decreases |one|
  {
    hide ReadPairs, ReadPair;
    assert |multiset(one)| == |one| && |multiset(two)| == |two|;
    if one == [] {
      assert two == [];
    } else {
      var part, rest := one[0], one[1..];
      assert one == [part] + rest;
      assert part in multiset(two);
      var i :| 0 <= i < |two| && two[i] == part;
      var before, after := two[..i], two[i + 1..];
      assert two == before + [part] + after;
      assert multiset(before + [part] + after) == multiset{part} + multiset(before + after);
      assert multiset([part] + rest) == multiset{part} + multiset(rest);
      TakenAway(part, multiset(rest));
      TakenAway(part, multiset(before + after));
      ReadPairsOfOneLess(before, part, after);
      ReadPairsOfCons(part, rest);
      ReadPairsOfPermutation(rest, before + after);
    }
  }

  /** Reordering the parts of the raw query does not change its canonical form. */
  lemma ReorderingChangesNothing(one: Bytes, two: Bytes)
    requires multiset(NonEmpty(Split(one, AMPERSAND))) == multiset(NonEmpty(Split(two, AMPERSAND)))
    ensures Canonical(one) == Canonical(two)
  {
    ReadPairsOfPermutation(NonEmpty(Split(one, AMPERSAND)), NonEmpty(Split(two, AMPERSAND)));
    CanonicalIdentifiesPairs(one, two);
  }

  // ----- letter by letter -----

  const UPPER_HEX := "0123456789ABCDEF"
  const LOWER_HEX := "0123456789abcdef"
  const UPPER := "ABCDEFGHIJKLMNOPQRSTUVWXYZ"
  const LOWER := "abcdefghijklmnopqrstuvwxyz"
  const DIGITS := "0123456789"
  const MARKS := "-._~"

  /** A byte is left as it is exactly when it is an unreserved character, else it is a `%` and two capital digits. */
  lemma EncodesByLetter(b: byte)
    ensures EncodeByte(b)
         == if b as char in UPPER + LOWER + DIGITS + MARKS then [b]
            else ['%' as byte, UPPER_HEX[b / 16] as byte, UPPER_HEX[b % 16] as byte]
  {
    UnreservedByLetter(b);
    assert HexDigit(b / 16) == UPPER_HEX[b / 16] as byte;
    assert HexDigit(b % 16) == UPPER_HEX[b % 16] as byte;
  }

  lemma UnreservedByLetter(b: byte)
    ensures Unreserved(b) <==> b as char in UPPER + LOWER + DIGITS + MARKS
  {
    assert forall i | 0 <= i < 26 :: UPPER[i] == (0x41 + i) as char;
    assert forall i | 0 <= i < 26 :: LOWER[i] == (0x61 + i) as char;
    assert forall i | 0 <= i < 10 :: DIGITS[i] == (0x30 + i) as char;
    assert MARKS == [0x2D as char, 0x2E as char, 0x5F as char, 0x7E as char];
    hide UPPER, LOWER, DIGITS, MARKS;
    if 0x41 <= b <= 0x5A {
      assert UPPER[b - 0x41] == b as char;
    } else if 0x61 <= b <= 0x7A {
      assert LOWER[b - 0x61] == b as char;
    } else if 0x30 <= b <= 0x39 {
      assert DIGITS[b - 0x30] == b as char;
    }
  }

  /** The byte is the hexadecimal digit `v`, in either case. */
  predicate IsHex(b: byte, v: nat) {
    v < 16 && (b as char == UPPER_HEX[v] || b as char == LOWER_HEX[v])
  }

  lemma HexByLetter(b: byte, v: nat)
    ensures HexValue(b) == Some(v) <==> IsHex(b, v)
  {
  }

  /** `+` is a space; a `%` and two hexadecimal digits of either case are one byte; all else is itself. */
  lemma {:induction false} DecodesByLetter(b: Bytes, rest: Bytes)
    ensures DecodeComponent(['+' as byte] + rest) == [' ' as byte] + DecodeComponent(rest)
    ensures |b| == 1 && b[0] as char != '+' && b[0] as char != '%' ==>
              DecodeComponent(b + rest) == b + DecodeComponent(rest)
    ensures forall high, low | |b| == 3 && b[0] as char == '%' && IsHex(b[1], high) && IsHex(b[2], low) ::
              DecodeComponent(b + rest) == [16 * high + low] + DecodeComponent(rest)
    ensures b == ['%' as byte] && !(|rest| >= 2 && HexValue(rest[0]).Some? && HexValue(rest[1]).Some?) ==>
              DecodeComponent(b + rest) == b + DecodeComponent(rest)
  {
    hide HexValue;
    PlusToSpaceOfBoth(['+' as byte], rest);
    PlusToSpaceOfBoth(b, rest);
    assert (['+' as byte] + rest)[1..] == rest;
    PlusOfOne('+' as byte);
    var spaced := PlusToSpace(rest);
    assert ([' ' as byte] + spaced)[1..] == spaced;
    if |b| == 1 {
      PlusOfOne(b[0]);
      assert b == [b[0]] && (b + spaced)[1..] == spaced;
      PlusKeepsHex(rest);
    }
    forall high, low | |b| == 3 && b[0] as char == '%' && IsHex(b[1], high) && IsHex(b[2], low)
      ensures DecodeComponent(b + rest) == [16 * high + low] + DecodeComponent(rest)
    {
      HexByLetter(b[1], high);
      HexByLetter(b[2], low);
      HexIsNoPlus(b[1]);
      HexIsNoPlus(b[2]);
      NoPlusStays(b);
      assert (b + spaced)[3..] == spaced;
    }
  }

  lemma {:induction false} PlusToSpaceOfBoth(a: Bytes, b: Bytes)
    ensures PlusToSpace(a + b) == PlusToSpace(a) + PlusToSpace(b)
    decreases |a|
  {
    if a == [] {
      assert a + b == b;
    } else {
      assert (a + b)[1..] == a[1..] + b;
      PlusToSpaceOfBoth(a[1..], b);
    }
  }

  lemma PlusOfOne(b: byte)
    ensures PlusToSpace([b]) == [if b as char == '+' then ' ' as byte else b]
  {
    assert [b][1..] == [];
  }

  lemma HexIsNoPlus(b: byte)
    ensures HexValue(b).Some? ==> b as char != '+' && b as char != ' '
    ensures HexValue(b).Some? ==> HexValue(b).value < 16
  {
  }

  lemma NoPlusStays(b: Bytes)
    requires |b| == 3 && '+' as byte !in b
    ensures PlusToSpace(b) == b
  {
    assert b == [b[0]] + ([b[1]] + [b[2]]);
    PlusToSpaceOfBoth([b[0]], [b[1]] + [b[2]]);
    PlusToSpaceOfBoth([b[1]], [b[2]]);
    PlusOfOne(b[0]);
    PlusOfOne(b[1]);
    PlusOfOne(b[2]);
  }

  /** Two bytes are hexadecimal digits before and after `+` becomes a space. */
  lemma PlusKeepsHex(rest: Bytes)
    ensures var spaced := PlusToSpace(rest);
            && |spaced| == |rest|
            && (|rest| >= 2 ==> HexValue(spaced[0]) == HexValue(rest[0]) && HexValue(spaced[1]) == HexValue(rest[1]))
  {
    PlusToSpaceKeepsLength(rest);
    if |rest| >= 2 {
      assert PlusToSpace(rest) == [if rest[0] == PLUS then SPACE else rest[0]] + PlusToSpace(rest[1..]);
      assert PlusToSpace(rest[1..]) == [if rest[1] == PLUS then SPACE else rest[1]] + PlusToSpace(rest[2..]) by {
        assert rest[1..][1..] == rest[2..];
      }
    }
  }

  lemma {:induction false} PlusToSpaceKeepsLength(b: Bytes)
    ensures |PlusToSpace(b)| == |b|
    decreases |b|
  {
    if b != [] {
      PlusToSpaceKeepsLength(b[1..]);
    }
  }

  /**
   A query is its parts between `&`, empty ones left out, each a key and a value at its first `=`,
   or a key alone.
   */
  lemma QueryByLetter(key: Bytes, value: Bytes, rest: Bytes)
    requires '&' as byte !in key && '=' as byte !in key && '&' as byte !in value
    ensures Pairs([]) == [] && Pairs(['&' as byte] + rest) == Pairs(rest)
    ensures Pairs(key + ['=' as byte] + value + ['&' as byte] + rest)
         == [Pair(DecodeComponent(key), DecodeComponent(value))] + Pairs(rest)
    ensures key != [] ==> Pairs(key + ['&' as byte] + rest) == [Pair(DecodeComponent(key), [])] + Pairs(rest)
  {
    hide DecodeComponent;
    assert ['&' as byte] + rest == [] + ['&' as byte] + rest;
    SplitAtSeparator([], rest, '&' as byte);
    PartsOfMore([], rest);
    NoParts();
    assert [] + Pairs(rest) == Pairs(rest);
    var part := key + ['=' as byte] + value;
    SplitAtSeparator(part, rest, '&' as byte);
    PartsOfMore(part, rest);
    SplitOnceAtSeparator(key, value, '=' as byte);
    SplitAtSeparator(key, rest, '&' as byte);
    PartsOfMore(key, rest);
    NoSeparator(key, '=' as byte);
    EmptyStays();
  }

  lemma NoParts()
    ensures Pairs([]) == []
  {
    assert NonEmpty([[]]) == NonEmpty([[]][1..]) == [];
  }

  lemma EmptyStays()
    ensures DecodeComponent([]) == []
  {
  }

  lemma PartsOfMore(part: Bytes, rest: Bytes)
    requires Split(part + ['&' as byte] + rest, AMPERSAND) == [part] + Split(rest, AMPERSAND)
    ensures Pairs(part + ['&' as byte] + rest) == (if part == [] then [] else [ReadPair(part)]) + Pairs(rest)
  {
    var parts := Split(rest, AMPERSAND);
    assert ([part] + parts)[1..] == parts;
    assert ([part] + NonEmpty(parts))[1..] == NonEmpty(parts);
    assert [] + NonEmpty(parts) == NonEmpty(parts);
  }

  lemma {:induction false} NoSeparator(b: Bytes, separator: byte)
    requires separator !in b
    ensures SplitOnce(b, separator) == Pair(b, [])
    decreases |b|
  {
    if b != [] {
      NoSeparator(b[1..], separator);
      assert b == [b[0]] + b[1..];
    }
  }

  /** Bytes are in order when one is the start of the other or is less where they first differ. */
  lemma {:induction false} BytesByFirstDifference(a: Bytes, b: Bytes)
    ensures BytesLe(a, b)
       <==> a <= b || exists k :: 0 <= k < |a| && k < |b| && a[..k] == b[..k] && a[k] < b[k]
    decreases |a|
  {
    if a != [] && b != [] && a[0] == b[0] {
      BytesByFirstDifference(a[1..], b[1..]);
      assert a == [a[0]] + a[1..] && b == [b[0]] + b[1..];
      if k :| 0 <= k < |a| && k < |b| && a[..k] == b[..k] && a[k] < b[k] {
        assert k > 0 && a[1..][..k - 1] == a[..k][1..] && b[1..][..k - 1] == b[..k][1..];
        assert a[1..][k - 1] < b[1..][k - 1];
      }
      if k :| 0 <= k < |a[1..]| && k < |b[1..]| && a[1..][..k] == b[1..][..k] && a[1..][k] < b[1..][k] {
        assert a[..k + 1] == [a[0]] + a[1..][..k] && b[..k + 1] == [b[0]] + b[1..][..k];
        assert a[k + 1] < b[k + 1];
      }
    } else if a != [] && b != [] && a[0] < b[0] {
      assert a[..0] == b[..0];
    }
  }

  /** The canonical form orders pairs by key, pairs of one key by value, and writes them `key=value`, joined by `&`. */
  lemma PrintsByLetter(query: Bytes)
    ensures var pairs := Sort(Pairs(query));
            && (forall i | 0 < i < |pairs| ::
                  if pairs[i - 1].key == pairs[i].key then BytesLe(pairs[i - 1].value, pairs[i].value)
                  else BytesLe(pairs[i - 1].key, pairs[i].key))
            && Canonical(query) == Joined(pairs)
  {
    SortSorts(Pairs(query));
    PrintIsJoined(Sort(Pairs(query)));
  }

  function Joined(pairs: seq<Pair>): Bytes {
    if pairs == [] then []
    else
      var last := pairs[|pairs| - 1];
      (if |pairs| == 1 then [] else Joined(pairs[..|pairs| - 1]) + ['&' as byte])
      + Encode(last.key) + ['=' as byte] + Encode(last.value)
  }

  lemma {:induction false} PrintIsJoined(pairs: seq<Pair>)
    ensures Print(pairs) == Joined(pairs)
    decreases |pairs|
  {
    hide Encode;
    if |pairs| == 1 {
      assert [] + Encode(pairs[0].key) == Encode(pairs[0].key);
    } else if |pairs| > 1 {
      var before, last := pairs[..|pairs| - 1], pairs[|pairs| - 1];
      assert pairs == before + [last];
      PrintOneMore(before, last);
      PrintIsJoined(before);
    }
  }

  lemma {:induction false} PrintOneMore(pairs: seq<Pair>, last: Pair)
    requires pairs != []
    ensures Print(pairs + [last])
         == Print(pairs) + ['&' as byte] + Encode(last.key) + ['=' as byte] + Encode(last.value)
    decreases |pairs|
  {
    hide Encode;
    var tail := Encode(last.key) + ['=' as byte] + Encode(last.value);
    assert (pairs + [last])[1..] == pairs[1..] + [last];
    if |pairs| == 1 {
      assert (pairs + [last])[1..] == [last];
    } else {
      PrintOneMore(pairs[1..], last);
    }
  }
}
