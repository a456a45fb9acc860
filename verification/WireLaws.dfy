/**
 What the numbers on the wire mean, written out: the bytes of varints and fields, and each
 message by the numbers of its fields. Nothing here goes by the decoders' own cases.
 */
module WireLaws {
  import opened Numbers
  import opened Wire
  import opened WireProofs
  import Utf8

  // ----- varints -----

  /** Groups of seven bits, the least significant first. */
  function Weighted(b: Bytes): nat {
    if b == [] then 0 else b[0] % 128 + 128 * Weighted(b[1..])
  }

  /** The varint at the start of `b` is these bytes: all but the last go on, and they fit in 64 bits. */
  ghost predicate IsVarint(b: Bytes) {
    && 1 <= |b| <= 10 && (forall i | 0 <= i < |b| - 1 :: b[i] >= 128) && b[|b| - 1] < 128
    && (|b| == 10 ==> b[9] <= 1)
  }

  lemma {:induction false} VarintFromMeans(b: Bytes, k: nat, rest: Bytes)
    requires b != [] && k + |b| <= 10
    requires (forall i | 0 <= i < |b| - 1 :: b[i] >= 128) && b[|b| - 1] < 128 && (k + |b| == 10 ==> b[|b| - 1] <= 1)
    ensures VarintFrom(b + rest, k) == Some((Weighted(b), |b|))
    decreases |b|
  {
    assert (b + rest)[1..] == b[1..] + rest;
    if |b| > 1 {
      VarintFromMeans(b[1..], k + 1, rest);
    }
  }

  lemma {:induction false} VarintFromIs(b: Bytes, k: nat)
    requires k <= 9 && VarintFrom(b, k).Some?
    ensures var n := VarintFrom(b, k).value.1;
            && (forall i | 0 <= i < n - 1 :: b[i] >= 128) && b[n - 1] < 128 && (k + n == 10 ==> b[n - 1] <= 1)
    decreases |b|
  {
    if b[0] >= 128 {
      VarintFromIs(b[1..], k + 1);
      var n := VarintFrom(b, k).value.1;
      forall i | 0 <= i < n - 1
        ensures b[i] >= 128
      {
        assert i > 0 ==> b[i] == b[1..][i - 1];
      }
    }
  }

  /** A varint is read exactly where one stands, as the number its bits spell, and uses just its bytes. */
  lemma VarintMeans(b: Bytes, n: nat)
    ensures (exists value: u64 :: Varint(b) == Some((value, n))) <==> n <= |b| && IsVarint(b[..n])
    ensures n <= |b| && IsVarint(b[..n]) ==> Varint(b) == Some((Weighted(b[..n]), n))
  {
    if n <= |b| && IsVarint(b[..n]) {
      assert b == b[..n] + b[n..];
      VarintFromMeans(b[..n], 0, b[n..]);
    }
    if Varint(b).Some? && Varint(b).value.1 == n {
      VarintFromIs(b, 0);
      RoomIsU64();
    }
  }

  /** A number is written as the shortest of its varints. */
  lemma {:induction false} EncodedIsShortest(value: u64)
    ensures IsVarint(EncodeVarint(value)) && Weighted(EncodeVarint(value)) == value
    ensures var b := EncodeVarint(value); |b| > 1 ==> b[|b| - 1] > 0
  {
    var b := EncodeVarint(value);
    VarintReadsBack(value, []);
    assert b + [] == b && b[..|b|] == b;
    VarintMeans(b, |b|);
    LastIsPositive(value);
  }

  lemma {:induction false} LastIsPositive(value: nat)
    ensures var b := EncodeVarint(value); |b| > 1 ==> b[|b| - 1] > 0
  {
    if value >= 128 {
      LastIsPositive(value / 128);
    }
  }

  // ----- fields -----

  /** The key of field `num`: its number and, in the low three bits, how its value is written. */
  function KeyBytes(num: u32, wire: nat): Bytes {
    EncodeVarint(8 * num + wire)
  }

  /**
   A field's value by its wire type: 0 a varint, 2 a length and that many bytes, 1 eight bytes
   and 5 four; no other wire type and no field numbered zero is read.
   */
  lemma FieldsByWireType(num: u32, wire: nat, b: Bytes)
    requires wire < 8
    ensures var key := KeyBytes(num, wire);
            FieldAt(key + b)
              == if num == 0 then None
                 else if wire == 0 then
                   match Varint(b) { case Some((v, n)) => Some((VarintField(num, v), |key| + n)) case None => None }
                 else if wire == 1 then if |b| >= 8 then Some((FixedField(num, 8), |key| + 8)) else None
                 else if wire == 5 then if |b| >= 4 then Some((FixedField(num, 4), |key| + 4)) else None
                 else if wire == 2 then
                   match Varint(b) {
                     case Some((n, used)) =>
                       if n <= 8_388_608 && used + n <= |b|
                       then Some((LenField(num, b[used..used + n]), |key| + used + n)) else None
                     case None => None
                   }
                 else None
  {
    hide Varint, EncodeVarint;
    var key := KeyBytes(num, wire);
    VarintReadsBack(8 * num + wire, b);
    assert (key + b)[|key|..] == b;
  }

  // ----- a message is its fields -----

  /** The steps of a decoder over the fields in order. */
  function Steps<S>(s: S, fields: seq<Field>, step: (S, Field) -> Option<S>): Option<S>
    decreases |fields|
  {
    if fields == [] then Some(s)
    else
      match step(s, fields[0])
      case None => None
      case Some(next) => Steps(next, fields[1..], step)
  }

  lemma {:induction false} DecodeIsStepsFrom<S>(s: S, before: seq<Field>, b: Bytes, step: (S, Field) -> Option<S>)
    ensures var all := Decode(before, b, Collect);
            match all
            case None => Decode(s, b, step) == None
            case Some(fields) =>
              |before| <= |fields| && before == fields[..|before|]
              && Decode(s, b, step) == Steps(s, fields[|before|..], step)
    decreases |b|
  {
    if b != [] && FieldAt(b).Some? {
      var (field, used) := FieldAt(b).value;
      DecodeIsStepsFrom(s, before + [field], b[used..], step);
      var all := Decode(before + [field], b[used..], Collect);
      if all.Some? {
        var fields := all.value;
        assert fields[..|before| + 1][|before|] == field;
        assert fields[..|before|] == (before + [field])[..|before|];
        assert fields[|before|..][1..] == fields[|before| + 1..];
        if step(s, field).Some? {
          DecodeIsStepsFrom(step(s, field).value, before + [field], b[used..], step);
        }
      } else if step(s, field).Some? {
        DecodeIsStepsFrom(step(s, field).value, before + [field], b[used..], step);
      }
    }
  }

  /** Decoding is stepping through the fields; a message that does not split into fields is refused. */
  lemma DecodeIsSteps<S>(s: S, b: Bytes, step: (S, Field) -> Option<S>)
    ensures Decode(s, b, step)
         == match Fields(b) { case None => None case Some(fields) => Steps(s, fields, step) }
  {
    DecodeIsStepsFrom(s, [], b, step);
    if Fields(b).Some? {
      assert Fields(b).value[0..] == Fields(b).value;
    }
  }

  // ----- fields by number; of several with one number the last counts -----

  predicate IsVarintOf(field: Field, num: nat) {
    field.VarintField? && field.num == num
  }

  predicate IsDataOf(field: Field, num: nat) {
    field.LenField? && field.num == num
  }

  function Number(fields: seq<Field>, num: nat, absent: nat): nat
    decreases |fields|
  {
    if fields == [] then absent
    else Number(fields[1..], num, if IsVarintOf(fields[0], num) then fields[0].value else absent)
  }

  function Text(fields: seq<Field>, num: nat, absent: Bytes): Bytes
    decreases |fields|
  {
    if fields == [] then absent
    else Text(fields[1..], num, if IsDataOf(fields[0], num) then fields[0].data else absent)
  }

  /** Some field of this number holds more than a `u32`. */
  ghost predicate TooLarge(fields: seq<Field>, num: nat) {
    exists field <- fields :: IsVarintOf(field, num) && field.value > 0xFFFF_FFFF
  }

  ghost predicate IllFormed(fields: seq<Field>, num: nat) {
    exists field <- fields :: IsDataOf(field, num) && !Utf8.Valid(field.data)
  }

  lemma HeadOrTail(fields: seq<Field>, num: nat)
    requires fields != []
    ensures TooLarge(fields, num)
       <==> (IsVarintOf(fields[0], num) && fields[0].value > 0xFFFF_FFFF) || TooLarge(fields[1..], num)
    ensures IllFormed(fields, num)
       <==> (IsDataOf(fields[0], num) && !Utf8.Valid(fields[0].data)) || IllFormed(fields[1..], num)
  {
    assert forall field :: field in fields <==> field == fields[0] || field in fields[1..];
  }

  // ----- the lifetime in a result -----

  lemma {:induction false} ExpirySteps(life: Lifetime, fields: seq<Field>, result: u32, expires: u32, ttl: u32)
    requires LifetimeFields(result, expires, ttl)
    ensures var read := Steps(life, fields, (l: Lifetime, f: Field) => ExpiryStep(result, l, f));
            && (read.None? <==> TooLarge(fields, ttl))
            && (read.Some? ==>
                  && (read.value.expires <==> Number(fields, expires, if life.expires then 1 else 0) != 0)
                  && read.value.ttl == Number(fields, ttl, life.ttl))
    decreases |fields|
  {
    if fields != [] {
      HeadOrTail(fields, ttl);
      var next := ExpiryStep(result, life, fields[0]);
      if next.Some? {
        ExpirySteps(next.value, fields[1..], result, expires, ttl);
        NumberOfNonzero(fields[1..], expires, if next.value.expires then 1 else 0,
                        if IsVarintOf(fields[0], expires) then fields[0].value else if life.expires then 1 else 0);
      }
    }
  }

  lemma {:induction false} NumberOfNonzero(fields: seq<Field>, num: nat, a: nat, b: nat)
    requires a == 0 <==> b == 0
    ensures Number(fields, num, a) == 0 <==> Number(fields, num, b) == 0
    decreases |fields|
  {
    if fields != [] {
      var v := if IsVarintOf(fields[0], num) then fields[0].value else a;
      NumberOfNonzero(fields[1..], num, v, if IsVarintOf(fields[0], num) then fields[0].value else b);
    }
  }

  /**
   A connect or refresh result (5 and 14) says in field 3 that its token expires and in field 4
   after how long, a subscribe or sub-refresh result (6 and 15) in fields 1 and 2. One that does
   not say so grants no lifetime, whatever else it holds.
   */
  lemma LifetimeByNumbers(b: Bytes, result: u32, expires: u32, ttl: u32)
    requires LifetimeFields(result, expires, ttl)
    ensures DecodeExpiry(b, result)
         == match Fields(b)
            case None => None
            case Some(fields) =>
              if TooLarge(fields, ttl) then None
              else if Number(fields, expires, 0) != 0 then Some(Some(Number(fields, ttl, 0)))
              else Some(None)
  {
    var step := (l: Lifetime, f: Field) => ExpiryStep(result, l, f);
    DecodeIsSteps(Lifetime(false, 0), b, step);
    if Fields(b).Some? {
      ExpirySteps(Lifetime(false, 0), Fields(b).value, result, expires, ttl);
    }
  }

  /** A result that does not hold its `expires` field grants no lifetime, whatever else it holds. */
  lemma OtherFieldsGrantNothing(b: Bytes, result: u32, expires: u32, ttl: u32)
    requires LifetimeFields(result, expires, ttl)
    requires Fields(b).Some? && !TooLarge(Fields(b).value, ttl)
    requires forall field <- Fields(b).value :: !IsVarintOf(field, expires)
    ensures DecodeExpiry(b, result) == Some(None)
  {
    LifetimeByNumbers(b, result, expires, ttl);
    AbsentNumber(Fields(b).value, expires, 0);
  }

  lemma {:induction false} AbsentNumber(fields: seq<Field>, num: nat, absent: nat)
    requires forall field <- fields :: !IsVarintOf(field, num)
    ensures Number(fields, num, absent) == absent
    decreases |fields|
  {
    if fields != [] {
      AbsentNumber(fields[1..], num, absent);
    }
  }

  lemma NumbersOfTwo(one: Field, two: Field, num: u32, other: u32, absent: nat)
    requires one.VarintField? && two.VarintField? && one.num == num && two.num == other && num != other
    requires two.value <= 0xFFFF_FFFF
    ensures Number([one, two], num, absent) == one.value && Number([one, two], other, absent) == two.value
    ensures !TooLarge([one, two], other)
  {
    assert [one, two][1..] == [two] && [two][1..] == [];
    assert Number([two], num, one.value) == one.value;
    assert Number([two], other, absent) == two.value;
  }

  lemma TwoVarints(b: Bytes, num: u32, value: u64, other: u32, value': u64)
    requires num > 0 && other > 0 && b == PutVarintField(num, value) + PutVarintField(other, value')
    ensures Fields(b) == Some([VarintField(num, value), VarintField(other, value')])
  {
    hide PutVarintField, Decode;
    var one, two := VarintField(num, value), VarintField(other, value');
    assert [] + [one] == [one] && [one] + [two] == [one, two];
    DecodeVarintThenVarint([], [one], b, num, value, other, value', Collect);
  }

  lemma ResultFrameGrants(id: u32, ttl: u32, flag: u64, result: u32, expires: u32, after: u32)
    requires LifetimeFields(result, expires, after)
    requires |ReplyFrame(id, result, PutVarintField(expires, flag) + PutVarintField(after, ttl))| <= 8_388_608
    ensures DecodeReplies(ReplyFrame(id, result, PutVarintField(expires, flag) + PutVarintField(after, ttl)))
         == Some([Reply(id, None, if flag == 0 then None else Some(ttl))])
  {
    hide PutVarintField, DecodeExpiry, DecodeReplies, Number, LengthDelimit, PutBytes, Fields, Decode;
    var body := PutVarintField(expires, flag) + PutVarintField(after, ttl);
    TwoVarints(body, expires, flag, after, ttl);
    NumbersOfTwo(VarintField(expires, flag), VarintField(after, ttl), expires, after, 0);
    LifetimeByNumbers(body, result, expires, after);
    assert DecodeExpiry(body, result) == Some(if flag == 0 then None else Some(ttl));
    IdThenBytes(id, result, body, ReplyFrame(id, result, body));
    var reply := Reply(id, None, if flag == 0 then None else Some(ttl));
    assert [] + [reply] == [reply];
  }

  /** A result frame with its protocol numbers, decoded: its ID and its lifetime. */
  lemma ResultFramesGrant(id: u32, ttl: u32)
    ensures forall result <- {5, 14} ::
              var frame := ReplyFrame(id, result, PutVarintField(3, 1) + PutVarintField(4, ttl));
              |frame| <= 8_388_608 ==> DecodeReplies(frame) == Some([Reply(id, None, Some(ttl))])
    ensures forall result <- {6, 15} ::
              var frame := ReplyFrame(id, result, PutVarintField(1, 1) + PutVarintField(2, ttl));
              |frame| <= 8_388_608 ==> DecodeReplies(frame) == Some([Reply(id, None, Some(ttl))])
  {
    hide PutVarintField, DecodeReplies, ReplyFrame;
    forall result | result in {5, 14}
      ensures var frame := ReplyFrame(id, result, PutVarintField(3, 1) + PutVarintField(4, ttl));
              |frame| <= 8_388_608 ==> DecodeReplies(frame) == Some([Reply(id, None, Some(ttl))])
    {
      if |ReplyFrame(id, result, PutVarintField(3, 1) + PutVarintField(4, ttl))| <= 8_388_608 {
        ResultFrameGrants(id, ttl, 1, result, 3, 4);
      }
    }
    forall result | result in {6, 15}
      ensures var frame := ReplyFrame(id, result, PutVarintField(1, 1) + PutVarintField(2, ttl));
              |frame| <= 8_388_608 ==> DecodeReplies(frame) == Some([Reply(id, None, Some(ttl))])
    {
      if |ReplyFrame(id, result, PutVarintField(1, 1) + PutVarintField(2, ttl))| <= 8_388_608 {
        ResultFrameGrants(id, ttl, 1, result, 1, 2);
      }
    }
  }

  // ----- errors, unsubscribes, publications -----

  lemma {:induction false} ErrorSteps(error: ProtoError, fields: seq<Field>)
    ensures var read := Steps(error, fields, ErrorStep);
            && (read.None? <==> TooLarge(fields, 1) || IllFormed(fields, 2))
            && (read.Some? ==>
                  && read.value.code == Number(fields, 1, error.code)
                  && read.value.message == Text(fields, 2, error.message)
                  && (read.value.temporary <==> Number(fields, 3, if error.temporary then 1 else 0) != 0))
    decreases |fields|
  {
    if fields != [] {
      HeadOrTail(fields, 1);
      HeadOrTail(fields, 2);
      var next := ErrorStep(error, fields[0]);
      if next.Some? {
        ErrorSteps(next.value, fields[1..]);
        NumberOfNonzero(fields[1..], 3, if next.value.temporary then 1 else 0,
                        if IsVarintOf(fields[0], 3) then fields[0].value else if error.temporary then 1 else 0);
      }
    }
  }

  /** An error has its code in field 1, its text in 2 and in 3 whether it is temporary. */
  lemma ErrorByNumbers(b: Bytes)
    ensures DecodeError(b).Some?
       <==> Fields(b).Some? && !TooLarge(Fields(b).value, 1) && !IllFormed(Fields(b).value, 2)
    ensures DecodeError(b).Some? ==>
              var error, fields := DecodeError(b).value, Fields(b).value;
              && error.code == Number(fields, 1, 0) && error.message == Text(fields, 2, [])
              && (error.temporary <==> Number(fields, 3, 0) != 0)
  {
    DecodeIsSteps(ProtoError(0, [], false), b, ErrorStep);
    if Fields(b).Some? {
      ErrorSteps(ProtoError(0, [], false), Fields(b).value);
    }
  }

  lemma {:induction false} UnsubscribeSteps(ended: Ended, raw: Bytes, fields: seq<Field>)
    requires ended.reason == Utf8.Lossy(raw)
    ensures var read := Steps(ended, fields, UnsubscribeStep);
            && (read.None? <==> TooLarge(fields, 2))
            && (read.Some? ==>
                  && read.value.code == Number(fields, 2, ended.code)
                  && read.value.reason == Utf8.Lossy(Text(fields, 3, raw)))
    decreases |fields|
  {
    hide Utf8.Lossy;
    if fields != [] {
      HeadOrTail(fields, 2);
      var next := UnsubscribeStep(ended, fields[0]);
      if next.Some? {
        UnsubscribeSteps(next.value, if IsDataOf(fields[0], 3) then fields[0].data else raw, fields[1..]);
      }
    }
  }

  /** An unsubscribe has its code in field 2 and its reason in 3. */
  lemma UnsubscribeByNumbers(b: Bytes)
    ensures DecodeUnsubscribe(b).Some? <==> Fields(b).Some? && !TooLarge(Fields(b).value, 2)
    ensures DecodeUnsubscribe(b).Some? ==>
              var ended, fields := DecodeUnsubscribe(b).value, Fields(b).value;
              ended.code == Number(fields, 2, 0) && ended.reason == Utf8.Lossy(Text(fields, 3, []))
  {
    DecodeIsSteps(Ended(0, []), b, UnsubscribeStep);
    if Fields(b).Some? {
      UnsubscribeSteps(Ended(0, []), [], Fields(b).value);
    }
  }

  /** The payloads in the fields of this number, in order. */
  function DataIn(fields: seq<Field>, num: nat): seq<Bytes>
    decreases |fields|
  {
    if fields == [] then []
    else (if IsDataOf(fields[0], num) then [fields[0].data] else []) + DataIn(fields[1..], num)
  }

  function Published(payloads: seq<Bytes>): seq<Incoming> {
    seq(|payloads|, i requires 0 <= i < |payloads| => Publication(payloads[i]))
  }

  lemma {:induction false} PublicationSteps(out: seq<Incoming>, fields: seq<Field>)
    ensures Steps(out, fields, PublicationStep) == Some(out + Published(DataIn(fields, 4)))
    decreases |fields|
  {
    if fields == [] {
      assert out + Published([]) == out;
    } else {
      var head := if IsDataOf(fields[0], 4) then [fields[0].data] else [];
      PublicationSteps(out + Published(head), fields[1..]);
      assert head == [] ==> out + Published(head) == out;
      assert head != [] ==> out + Published(head) == out + [Publication(fields[0].data)];
      var tail := DataIn(fields[1..], 4);
      assert out + Published(head + tail) == out + Published(head) + Published(tail);
    }
  }

  /** A publication's payloads are its fields 4. */
  lemma PublicationByNumbers(b: Bytes, out: seq<Incoming>)
    ensures DecodePublication(b, out)
         == match Fields(b) { case None => None case Some(fields) => Some(out + Published(DataIn(fields, 4))) }
  {
    DecodeIsSteps(out, b, PublicationStep);
    if Fields(b).Some? {
      PublicationSteps(out, Fields(b).value);
    }
  }

  // ----- pushes -----

  /** Each field 4 holds a publication, each field 7 an unsubscribe. */
  ghost predicate PushReads(fields: seq<Field>) {
    && (forall field <- fields | IsDataOf(field, 4) :: Fields(field.data).Some?)
    && (forall field <- fields | IsDataOf(field, 7) :: DecodeUnsubscribe(field.data).Some?)
  }

  /** What the publications of a push hold, in order. */
  function PushedIn(fields: seq<Field>): seq<Incoming>
    decreases |fields|
  {
    if fields == [] then []
    else
      (if IsDataOf(fields[0], 4) && Fields(fields[0].data).Some?
       then Published(DataIn(Fields(fields[0].data).value, 4)) else []) + PushedIn(fields[1..])
  }

  function LastData(fields: seq<Field>, num: nat, absent: Option<Bytes>): Option<Bytes>
    decreases |fields|
  {
    if fields == [] then absent
    else LastData(fields[1..], num, if IsDataOf(fields[0], num) then Some(fields[0].data) else absent)
  }

  function EndedIn(data: Option<Bytes>): Option<Ended> {
    match data
    case None => None
    case Some(b) => DecodeUnsubscribe(b)
  }

  lemma PushSplits(fields: seq<Field>)
    requires fields != []
    ensures PushReads(fields) <==> PushReads([fields[0]]) && PushReads(fields[1..])
    ensures PushedIn(fields) == PushedIn([fields[0]]) + PushedIn(fields[1..])
  {
    hide DecodeUnsubscribe, Fields;
    assert forall field :: field in fields <==> field in [fields[0]] || field in fields[1..];
    assert [fields[0]][1..] == [];
    assert PushedIn([]) == [];
  }

  lemma PushStepDoes(push: PushState, field: Field)
    ensures PushStep(push, field).Some? <==> PushReads([field])
    ensures PushStep(push, field).Some? ==>
              var next := PushStep(push, field).value;
              && next.channel == (if IsDataOf(field, 2) then Utf8.Lossy(field.data) else push.channel)
              && next.out == push.out + PushedIn([field])
              && next.ended == (if IsDataOf(field, 7) then DecodeUnsubscribe(field.data) else push.ended)
              && (IsDataOf(field, 7) ==> next.ended.Some?)
  {
    hide Utf8.Lossy, DecodeUnsubscribe, DecodePublication, Fields;
    assert field in [field] && [field][1..] == [];
    if field.LenField? {
      PublicationByNumbers(field.data, push.out);
    }
    assert PushedIn([]) == [];
    assert push.out + [] == push.out;
  }

  lemma {:induction false} PushSteps(push: PushState, raw: Bytes, last: Option<Bytes>, fields: seq<Field>)
    requires push.channel == Utf8.Lossy(raw) && push.ended == EndedIn(last)
    requires last.Some? ==> push.ended.Some?
    ensures var read := Steps(push, fields, PushStep);
            && (read.Some? <==> PushReads(fields))
            && (read.Some? ==>
                  && read.value.channel == Utf8.Lossy(Text(fields, 2, raw))
                  && read.value.out == push.out + PushedIn(fields)
                  && read.value.ended == EndedIn(LastData(fields, 7, last)))
    decreases |fields|
  {
    hide Utf8.Lossy, DecodeUnsubscribe, PushStep, PushReads, PushedIn;
    if fields != [] {
      PushSplits(fields);
      PushStepDoes(push, fields[0]);
      if PushStep(push, fields[0]).Some? {
        var next := PushStep(push, fields[0]).value;
        PushSteps(next, if IsDataOf(fields[0], 2) then fields[0].data else raw,
                  if IsDataOf(fields[0], 7) then Some(fields[0].data) else last, fields[1..]);
        assert push.out + PushedIn([fields[0]]) + PushedIn(fields[1..]) == push.out + PushedIn(fields);
      }
    } else {
      NothingPushed();
      assert push.out + [] == push.out;
    }
  }

  lemma NothingPushed()
    ensures PushReads([]) && PushedIn([]) == [] && ReplyReads([]) && PushesIn([]) == []
  {
  }

  /**
   A push names its channel in field 2, publishes in fields 4 and ends the subscription in
   field 7. It is refused when one of those cannot be read; the end comes behind what it published.
   */
  lemma PushByNumbers(b: Bytes, out: seq<Incoming>)
    ensures DecodePush(b, out).Some? <==> Fields(b).Some? && PushReads(Fields(b).value)
    ensures DecodePush(b, out).Some? ==>
              var fields := Fields(b).value;
              DecodePush(b, out).value
                == out + PushedIn(fields)
                   + match EndedIn(LastData(fields, 7, None)) {
                       case None => []
                       case Some(ended) => [Unsubscribe(Utf8.Lossy(Text(fields, 2, [])), ended.code, ended.reason)]
                     }
  {
    hide DecodeUnsubscribe;
    var start := PushState([], None, out);
    DecodeIsSteps(start, b, PushStep);
    if Fields(b).Some? {
      PushSteps(start, [], None, Fields(b).value);
    }
  }

  // ----- replies -----

  /** A result of one of the four commands. */
  predicate IsResultOf(field: Field) {
    field.LenField? && field.num in {5, 6, 14, 15}
  }

  /** Each field 2 holds an error, each field 4 a push, and each result can be read. */
  ghost predicate ReplyReads(fields: seq<Field>) {
    && !TooLarge(fields, 1)
    && (forall field <- fields | IsDataOf(field, 2) :: DecodeError(field.data).Some?)
    && (forall field <- fields | IsDataOf(field, 4) :: DecodePush(field.data, []).Some?)
    && (forall field <- fields | IsResultOf(field) :: DecodeExpiry(field.data, field.num).Some?)
  }

  function LastError(fields: seq<Field>, absent: Option<ProtoError>): Option<ProtoError>
    decreases |fields|
  {
    if fields == [] then absent
    else LastError(fields[1..], if IsDataOf(fields[0], 2) then DecodeError(fields[0].data) else absent)
  }

  /** The lifetime of the last result. */
  function LastLifetime(fields: seq<Field>, absent: Option<u32>): Option<u32>
    decreases |fields|
  {
    if fields == [] then absent
    else
      LastLifetime(
        fields[1..],
        if IsResultOf(fields[0]) && DecodeExpiry(fields[0].data, fields[0].num).Some?
        then DecodeExpiry(fields[0].data, fields[0].num).value else absent)
  }

  function PushesIn(fields: seq<Field>): seq<Incoming>
    decreases |fields|
  {
    if fields == [] then []
    else
      (if IsDataOf(fields[0], 4) && DecodePush(fields[0].data, []).Some?
       then DecodePush(fields[0].data, []).value else []) + PushesIn(fields[1..])
  }

  lemma ReplySplits(fields: seq<Field>)
    requires fields != []
    ensures ReplyReads(fields) <==> ReplyReads([fields[0]]) && ReplyReads(fields[1..])
    ensures PushesIn(fields) == PushesIn([fields[0]]) + PushesIn(fields[1..])
    ensures (exists field <- fields :: IsDataOf(field, 4))
       <==> IsDataOf(fields[0], 4) || exists field <- fields[1..] :: IsDataOf(field, 4)
  {
    hide DecodeError, DecodePush, DecodeExpiry;
    assert forall field :: field in fields <==> field in [fields[0]] || field in fields[1..];
    assert [fields[0]][1..] == [];
    assert PushesIn([]) == [];
  }

  lemma ReplyStepDoes(reply: ReplyState, field: Field)
    ensures ReplyStep(reply, field).Some? <==> ReplyReads([field])
    ensures ReplyStep(reply, field).Some? ==>
              var next := ReplyStep(reply, field).value;
              && next.id == (if IsVarintOf(field, 1) then field.value else reply.id)
              && next.error == LastError([field], reply.error) && next.expiry == LastLifetime([field], reply.expiry)
              && next.out == reply.out + PushesIn([field])
              && (next.sawPayload <==> reply.sawPayload || IsDataOf(field, 4))
  {
    hide DecodeError, DecodePush, DecodeExpiry;
    assert field in [field] && [field][1..] == [];
    if field.LenField? {
      PushAppends(reply.out, [], field.data);
    }
    assert PushesIn([]) == [];
    assert reply.out + [] == reply.out;
  }

  lemma {:induction false} ReplySteps(reply: ReplyState, fields: seq<Field>)
    ensures var read := Steps(reply, fields, ReplyStep);
            && (read.Some? <==> ReplyReads(fields))
            && (read.Some? ==>
                  && read.value.id == Number(fields, 1, reply.id)
                  && read.value.error == LastError(fields, reply.error)
                  && read.value.expiry == LastLifetime(fields, reply.expiry)
                  && read.value.out == reply.out + PushesIn(fields)
                  && (read.value.sawPayload <==> reply.sawPayload || exists field <- fields :: IsDataOf(field, 4)))
    decreases |fields|
  {
    hide DecodeError, DecodePush, DecodeExpiry, ReplyStep, ReplyReads, PushesIn;
    if fields != [] {
      ReplySplits(fields);
      ReplyStepDoes(reply, fields[0]);
      assert [fields[0]][1..] == [];
      if ReplyStep(reply, fields[0]).Some? {
        ReplySteps(ReplyStep(reply, fields[0]).value, fields[1..]);
        assert reply.out + PushesIn([fields[0]]) + PushesIn(fields[1..]) == reply.out + PushesIn(fields);
      }
    } else {
      NothingPushed();
      assert reply.out + [] == reply.out;
    }
  }

  /**
   A reply names its command in field 1, an error in field 2, pushes in fields 4 and a result in
   5, 6, 14 or 15. It is passed on behind its pushes unless it only pushed: unless it names no
   command and no error but holds a push. An empty record is a ping.
   */
  lemma ReplyByNumbers(b: Bytes)
    ensures b == [] ==> DecodeReply(b, []) == Some([Ping])
    ensures b != [] ==> (DecodeReply(b, []).Some? <==> Fields(b).Some? && ReplyReads(Fields(b).value))
    ensures b != [] && DecodeReply(b, []).Some? ==>
              var fields := Fields(b).value;
              var id, error := Number(fields, 1, 0), LastError(fields, None);
              var read := DecodeReply(b, []).value;
              if id == 0 && error == None && exists field <- fields :: IsDataOf(field, 4) then read == PushesIn(fields)
              else
                && |read| == |PushesIn(fields)| + 1 && read[..|read| - 1] == PushesIn(fields)
                && read[|read| - 1].Reply? && read[|read| - 1].id == id && read[|read| - 1].error == error
                && read[|read| - 1].expiry == LastLifetime(fields, None)
  {
    hide DecodeError, DecodePush, DecodeExpiry;
    var start := ReplyState(0, None, None, false, []);
    DecodeIsSteps(start, b, ReplyStep);
    if Fields(b).Some? {
      ReplySteps(start, Fields(b).value);
    }
  }

  // ----- frames -----

  /** A frame of more than 8 MiB is refused, and so is one that announces a longer record. */
  lemma LongFramesAreRefused(frame: Bytes, length: u64, rest: Bytes)
    ensures |frame| > 8_388_608 ==> DecodeReplies(frame) == None
    ensures length > 8_388_608 ==> DecodeReplies(EncodeVarint(length) + rest) == None
  {
    VarintReadsBack(length, rest);
  }

  /** A frame is a row of records, each behind its length, or it is refused. */
  lemma {:induction false} FramesAreRecords(record: Bytes, rest: Bytes, out: seq<Incoming>)
    requires |record| <= 8_388_608
    ensures DecodeRecords(EncodeVarint(|record|) + record + rest, out)
         == match DecodeReply(record, out) { case None => None case Some(next) => DecodeRecords(rest, next) }
    ensures DecodeRecords([], out) == Some(out)
  {
    DelimitedReadsBack(record, rest);
    var head := EncodeVarint(|record|) + record;
    assert (head + rest)[|head|..] == rest;
  }
}
