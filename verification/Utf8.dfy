/** UTF-8 as the standard library checks it: strict decoding and lossy decoding of bytes. */
module Utf8 {
  import opened Numbers

  const REPLACEMENT: seq<byte> := [0xEF, 0xBF, 0xBD]

  predicate Continuation(b: byte) {
    0x80 <= b <= 0xBF
  }

  /** The second byte a three- or four-byte sequence may have after `first`. */
  predicate SecondByte(first: byte, second: byte) {
    if first == 0xE0 then 0xA0 <= second <= 0xBF
    else if first == 0xED then 0x80 <= second <= 0x9F
    else if first == 0xF0 then 0x90 <= second <= 0xBF
    else if first == 0xF4 then 0x80 <= second <= 0x8F
    else Continuation(second)
  }

  function Width(first: byte): nat {
    if first < 0x80 then 1
    else if 0xC2 <= first <= 0xDF then 2
    else if 0xE0 <= first <= 0xEF then 3
    else if 0xF0 <= first <= 0xF4 then 4
    else 0
  }

  /** The length of the leading character, or of the leading malformed part. */
  function Step(b: seq<byte>): (step: (nat, bool))
    requires b != []
    ensures 1 <= step.0 <= |b|
  {
    var w := Width(b[0]);
    if w == 1 then (1, true)
    else if w == 0 || |b| < 2 || !SecondByte(b[0], b[1]) then (1, false)
    else if w == 2 then (2, true)
    else if |b| < 3 || !Continuation(b[2]) then (2, false)
    else if w == 3 then (3, true)
    else if |b| < 4 || !Continuation(b[3]) then (3, false)
    else (4, true)
  }

  predicate Valid(b: seq<byte>)
    decreases |b|
  {
    b == [] || (Step(b).1 && Valid(b[Step(b).0..]))
  }

  /** `String::from_utf8_lossy`. */
  function Lossy(b: seq<byte>): seq<byte>
    decreases |b|
  {
    if b == [] then []
    else (if Step(b).1 then b[..Step(b).0] else REPLACEMENT) + Lossy(b[Step(b).0..])
  }

  lemma {:induction false} LossyKeepsValid(b: seq<byte>)
    requires Valid(b)
    ensures Lossy(b) == b
    decreases |b|
  {
    if b != [] {
      LossyKeepsValid(b[Step(b).0..]);
      assert b == b[..Step(b).0] + b[Step(b).0..];
    }
  }

  /** Each malformed part has at least one byte and is replaced by three. */
  lemma {:induction false} LossyIsBounded(b: seq<byte>)
    ensures |Lossy(b)| <= 3 * |b|
    decreases |b|
  {
    if b != [] {
      LossyIsBounded(b[Step(b).0..]);
    }
  }

  // ----- the characters of Unicode -----

  /** A code point that is not a surrogate. */
  predicate IsScalar(c: nat) {
    c <= 0xD7FF || 0xE000 <= c <= 0x10FFFF
  }

  /** The six low bits. */
  function Low(c: nat): (b: byte)
    ensures 0x80 <= b <= 0xBF
  {
    0x80 + c % 64
  }

  /** The bytes of one character: its high bits behind a mark of the length, then six bits each. */
  function Encode(c: nat): (b: seq<byte>)
    requires IsScalar(c)
    ensures b != []
  {
    var m := c / 64;
    var k := m / 64;
    if c < 0x80 then [c]
    else if c < 0x800 then [0xC0 + m, Low(c)]
    else if c < 0x1_0000 then assert k < 16; [0xE0 + k, Low(m), Low(c)]
    else assert k / 64 <= 4; [0xF0 + k / 64, Low(k), Low(m), Low(c)]
  }

  /** A byte without its mark. */
  function Over(b: byte, mark: int): int {
    b - mark
  }

  lemma Horner(high: nat, b: byte)
    requires Continuation(b)
    ensures (high * 64 + Over(b, 0x80)) / 64 == high && Low(high * 64 + Over(b, 0x80)) == b
  {
  }

  lemma EncodedIsOneStep(c: nat, rest: seq<byte>)
    requires IsScalar(c)
    ensures Step(Encode(c) + rest) == (|Encode(c)|, true)
  {
    var m := c / 64;
    var k := m / 64;
    var b := Encode(c) + rest;
    if 0x800 <= c < 0x1_0000 {
      assert b[0] == 0xE0 + k && b[1] == Low(m) && b[2] == Low(c);
      assert c == k * 4096 + m % 64 * 64 + c % 64;
    } else if c >= 0x1_0000 {
      assert b[0] == 0xF0 + k / 64 && b[1] == Low(k) && b[2] == Low(m) && b[3] == Low(c);
      assert c == k / 64 * 262144 + k % 64 * 4096 + m % 64 * 64 + c % 64;
    }
  }

  lemma TwoBytes(b: seq<byte>)
    requires |b| >= 2 && Width(b[0]) == 2 && Continuation(b[1])
    ensures var c := Over(b[0], 0xC0) * 64 + Over(b[1], 0x80);
            IsScalar(c) && b[..2] == Encode(c)
  {
    Horner(Over(b[0], 0xC0), b[1]);
  }

  lemma ThreeBytes(b: seq<byte>)
    requires |b| >= 3 && Width(b[0]) == 3 && SecondByte(b[0], b[1]) && Continuation(b[1]) && Continuation(b[2])
    ensures var c := (Over(b[0], 0xE0) * 64 + Over(b[1], 0x80)) * 64 + Over(b[2], 0x80);
            IsScalar(c) && b[..3] == Encode(c)
  {
    var m := Over(b[0], 0xE0) * 64 + Over(b[1], 0x80);
    Horner(Over(b[0], 0xE0), b[1]);
    Horner(m, b[2]);
  }

  lemma FourBytes(b: seq<byte>)
    requires |b| >= 4 && Width(b[0]) == 4 && SecondByte(b[0], b[1])
    requires Continuation(b[1]) && Continuation(b[2]) && Continuation(b[3])
    ensures var c := ((Over(b[0], 0xF0) * 64 + Over(b[1], 0x80)) * 64 + Over(b[2], 0x80)) * 64 + Over(b[3], 0x80);
            IsScalar(c) && b[..4] == Encode(c)
  {
    var k := Over(b[0], 0xF0) * 64 + Over(b[1], 0x80);
    var m := k * 64 + Over(b[2], 0x80);
    Horner(Over(b[0], 0xF0), b[1]);
    Horner(k, b[2]);
    Horner(m, b[3]);
  }

  lemma StepIsEncoded(b: seq<byte>) returns (c: nat)
    requires b != [] && Step(b).1
    ensures IsScalar(c) && b[..Step(b).0] == Encode(c)
  {
    var w := Width(b[0]);
    if w == 1 {
      c := b[0];
    } else if w == 2 {
      c := Over(b[0], 0xC0) * 64 + Over(b[1], 0x80);
      TwoBytes(b);
    } else if w == 3 {
      c := (Over(b[0], 0xE0) * 64 + Over(b[1], 0x80)) * 64 + Over(b[2], 0x80);
      ThreeBytes(b);
    } else {
      c := ((Over(b[0], 0xF0) * 64 + Over(b[1], 0x80)) * 64 + Over(b[2], 0x80)) * 64 + Over(b[3], 0x80);
      FourBytes(b);
    }
  }

  function EncodeAll(text: seq<nat>): seq<byte>
    requires forall c <- text :: IsScalar(c)
  {
    if text == [] then [] else Encode(text[0]) + EncodeAll(text[1..])
  }

  /** Valid bytes are those of some text. */
  lemma {:induction false} ValidIsEncoded(b: seq<byte>) returns (text: seq<nat>)
    requires Valid(b)
    ensures (forall c <- text :: IsScalar(c)) && EncodeAll(text) == b
    decreases |b|
  {
    hide Encode, Step;
    if b == [] {
      text := [];
    } else {
      var c := StepIsEncoded(b);
      var rest := ValidIsEncoded(b[Step(b).0..]);
      text := [c] + rest;
      assert text[1..] == rest;
    }
  }

  /** The bytes of any text are valid. */
  lemma {:induction false} EncodedIsValid(text: seq<nat>)
    requires forall c <- text :: IsScalar(c)
    ensures Valid(EncodeAll(text))
    decreases |text|
  {
    hide Encode, Step;
    if text != [] {
      var head, rest := Encode(text[0]), EncodeAll(text[1..]);
      EncodedIsOneStep(text[0], rest);
      EncodedIsValid(text[1..]);
      assert (head + rest)[|head|..] == rest;
    }
  }

  /**
   What is replaced as malformed is a byte, or a longer start of some character, with which no
   longer start of a character goes on; it becomes one U+FFFD.
   */
  lemma MalformedIsReplaced(b: seq<byte>) returns (c: nat)
    requires b != [] && !Step(b).1
    ensures Lossy(b) == Encode(0xFFFD) + Lossy(b[Step(b).0..])
    ensures Step(b).0 == 1 || (IsScalar(c) && b[..Step(b).0] <= Encode(c))
    ensures forall d | IsScalar(d) :: !(Encode(d) <= b)
    ensures forall d | IsScalar(d) && Step(b).0 < |b| :: !(b[..Step(b).0 + 1] <= Encode(d))
  {
    assert Encode(0xFFFD) == REPLACEMENT;
    c := StartsCharacter(b);
    forall d | IsScalar(d)
      ensures !(Encode(d) <= b) && (Step(b).0 < |b| ==> !(b[..Step(b).0 + 1] <= Encode(d)))
    {
      NoCharacterGoesOn(b, d);
    }
  }

  lemma StartsCharacter(b: seq<byte>) returns (c: nat)
    requires b != [] && !Step(b).1
    ensures Step(b).0 == 1 || (IsScalar(c) && b[..Step(b).0] <= Encode(c))
  {
    c := 0;
    var n := Step(b).0;
    if n > 1 {
      var filled := b[..n] + if Width(b[0]) == 3 || n == 3 then [0x80] else [0x80, 0x80];
      assert filled[..n] == b[..n];
      c := StepIsEncoded(filled);
    }
  }

  lemma NoCharacterGoesOn(b: seq<byte>, c: nat)
    requires b != [] && !Step(b).1 && IsScalar(c)
    ensures !(Encode(c) <= b)
    ensures Step(b).0 < |b| ==> !(b[..Step(b).0 + 1] <= Encode(c))
  {
    var n := Step(b).0;
    EncodedIsOneStep(c, []);
    assert Encode(c) + [] == Encode(c);
    var rest := if Encode(c) <= b then b[|Encode(c)|..] else [];
    EncodedIsOneStep(c, rest);
    PrefixAndRest(Encode(c), b, rest);
    StepOfLonger(b, Encode(c), n);
  }

  lemma PrefixAndRest(head: seq<byte>, b: seq<byte>, rest: seq<byte>)
    requires head <= b ==> rest == b[|head|..]
    ensures head <= b ==> b == head + rest
  {
  }

  lemma StepOfLonger(b: seq<byte>, e: seq<byte>, n: nat)
    requires b != [] && Step(b) == (n, false)
    ensures n < |b| && b[..n + 1] <= e ==> !Step(e).1
  {
    assert n < |b| && b[..n + 1] <= e ==> forall i | 0 <= i <= n :: b[..n + 1][i] == e[i];
  }
}
