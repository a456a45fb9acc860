/** Round trips and composition of the wire format. */
module WireProofs {
  import opened Numbers
  import opened Wire
  import Utf8

  // ----- one field -----

  lemma DelimitedReadsBack(data: Bytes, rest: Bytes)
    requires |data| <= MAX_REALTIME_MESSAGE_BYTES
    ensures Delimited(LengthDelimit(data) + rest) == Some((data, |LengthDelimit(data)|))
  {
    var prefix := EncodeVarint(|data|);
    VarintReadsBack(|data|, data + rest);
    assert LengthDelimit(data) + rest == prefix + (data + rest);
    assert (prefix + (data + rest))[|prefix|..|prefix| + |data|] == data;
  }

  lemma KeyReadsBack(num: u32, wire: nat, rest: Bytes)
    requires num > 0 && wire < 8
    ensures Key(PutKey(num, wire) + rest) == Some((num, wire, |PutKey(num, wire)|))
  {
    VarintReadsBack(num * 8 + wire, rest);
  }

  lemma VarintFieldReadsBack(num: u32, value: u64, rest: Bytes)
    requires num > 0
    ensures FieldAt(PutVarintField(num, value) + rest)
         == Some((VarintField(num, value), |PutVarintField(num, value)|))
  {
    var key := PutKey(num, 0);
    KeyReadsBack(num, 0, EncodeVarint(value) + rest);
    assert PutVarintField(num, value) + rest == key + (EncodeVarint(value) + rest);
    VarintReadsBack(value, rest);
    assert (key + (EncodeVarint(value) + rest))[|key|..] == EncodeVarint(value) + rest;
  }

  lemma BytesFieldReadsBack(num: u32, data: Bytes, rest: Bytes)
    requires num > 0 && |data| <= MAX_REALTIME_MESSAGE_BYTES
    ensures FieldAt(PutBytes(num, data) + rest) == Some((LenField(num, data), |PutBytes(num, data)|))
  {
    var key := PutKey(num, 2);
    KeyReadsBack(num, 2, LengthDelimit(data) + rest);
    assert PutBytes(num, data) + rest == key + (LengthDelimit(data) + rest);
    DelimitedReadsBack(data, rest);
    assert (key + (LengthDelimit(data) + rest))[|key|..] == LengthDelimit(data) + rest;
  }

  /** Decoding a printed field is one step. */
  lemma DecodeVarintField<S>(s: S, num: u32, value: u64, rest: Bytes, step: (S, Field) -> Option<S>)
    requires num > 0
    ensures Decode(s, PutVarintField(num, value) + rest, step)
         == match step(s, VarintField(num, value)) { case None => None case Some(next) => Decode(next, rest, step) }
  {
    VarintFieldReadsBack(num, value, rest);
    assert (PutVarintField(num, value) + rest)[|PutVarintField(num, value)|..] == rest;
  }

  lemma DecodeBytesField<S>(s: S, num: u32, data: Bytes, rest: Bytes, step: (S, Field) -> Option<S>)
    requires num > 0 && |data| <= MAX_REALTIME_MESSAGE_BYTES
    ensures Decode(s, PutBytes(num, data) + rest, step)
         == match step(s, LenField(num, data)) { case None => None case Some(next) => Decode(next, rest, step) }
  {
    BytesFieldReadsBack(num, data, rest);
    assert (PutBytes(num, data) + rest)[|PutBytes(num, data)|..] == rest;
  }

  lemma DecodeOneBytes<S>(s: S, num: u32, data: Bytes, step: (S, Field) -> Option<S>)
    requires num > 0 && |data| <= MAX_REALTIME_MESSAGE_BYTES
    ensures Decode(s, PutBytes(num, data), step) == step(s, LenField(num, data))
  {
    DecodeBytesField(s, num, data, [], step);
    assert PutBytes(num, data) + [] == PutBytes(num, data);
  }

  lemma DecodeOneVarint<S>(s: S, num: u32, value: u64, step: (S, Field) -> Option<S>)
    requires num > 0
    ensures Decode(s, PutVarintField(num, value), step) == step(s, VarintField(num, value))
  {
    DecodeVarintField(s, num, value, [], step);
    assert PutVarintField(num, value) + [] == PutVarintField(num, value);
  }

  lemma DecodeVarintThenVarint<S>(s: S, mid: S, b: Bytes, num: u32, value: u64, num': u32, value': u64,
                                  step: (S, Field) -> Option<S>)
    requires num > 0 && num' > 0 && step(s, VarintField(num, value)) == Some(mid)
    requires b == PutVarintField(num, value) + PutVarintField(num', value')
    ensures Decode(s, b, step) == step(mid, VarintField(num', value'))
  {
    DecodeVarintField(s, num, value, PutVarintField(num', value'), step);
    DecodeOneVarint(mid, num', value', step);
  }

  lemma DecodeVarintThenBytes<S>(s: S, mid: S, b: Bytes, num: u32, value: u64, num': u32, data': Bytes,
                                 step: (S, Field) -> Option<S>)
    requires num > 0 && num' > 0 && step(s, VarintField(num, value)) == Some(mid)
    requires |data'| <= MAX_REALTIME_MESSAGE_BYTES
    requires b == PutVarintField(num, value) + PutBytes(num', data')
    ensures Decode(s, b, step) == step(mid, LenField(num', data'))
  {
    DecodeVarintField(s, num, value, PutBytes(num', data'), step);
    DecodeOneBytes(mid, num', data', step);
  }

  lemma DecodeBytesThenBytes<S>(s: S, mid: S, b: Bytes, num: u32, data: Bytes, num': u32, data': Bytes,
                                step: (S, Field) -> Option<S>)
    requires num > 0 && num' > 0 && step(s, LenField(num, data)) == Some(mid)
    requires |data| <= MAX_REALTIME_MESSAGE_BYTES && |data'| <= MAX_REALTIME_MESSAGE_BYTES
    requires b == PutBytes(num, data) + PutBytes(num', data')
    ensures Decode(s, b, step) == step(mid, LenField(num', data'))
  {
    DecodeBytesField(s, num, data, PutBytes(num', data'), step);
    DecodeOneBytes(mid, num', data', step);
  }

  lemma DelimitGrows(message: Bytes)
    ensures |message| < |LengthDelimit(message)|
  {
  }

  lemma PutBytesGrows(num: u32, data: Bytes)
    ensures |data| < |PutBytes(num, data)|
  {
  }

  /** A frame of one record decodes as that record. */
  lemma OneRecord(message: Bytes, frame: Bytes)
    requires frame == LengthDelimit(message) && |frame| <= MAX_REALTIME_MESSAGE_BYTES
    ensures |message| < |frame|
    ensures DecodeReplies(frame) == DecodeReply(message, [])
  {
    DelimitGrows(message);
    DelimitedReadsBack(message, []);
    assert frame + [] == frame;
    assert frame[|frame|..] == [];
    assert forall next :: DecodeRecords([], next) == Some(next);
  }

  // ----- the server's frames -----

  const NO_REPLY := ReplyState(0, None, None, false, [])

  /** The numbers of a result's lifetime fields. */
  predicate LifetimeFields(resultField: u32, expires: u32, after: u32) {
    if resultField == 5 || resultField == 14 then expires == 3 && after == 4
    else (resultField == 6 || resultField == 15) && expires == 1 && after == 2
  }

  lemma ExpiryReadsBack(resultField: u32, expires: u32, after: u32, ttl: u32)
    requires LifetimeFields(resultField, expires, after)
    ensures DecodeExpiry(ExpiryResult(expires, after, ttl), resultField)
         == Some(if ttl == 0 then None else Some(ttl))
  {
    var step := (l: Lifetime, f: Field) => ExpiryStep(resultField, l, f);
    if ttl > 0 {
      DecodeVarintThenVarint(Lifetime(false, 0), Lifetime(true, 0), ExpiryResult(expires, after, ttl),
                             expires, 1, after, ttl, step);
    }
  }

  /** A record of an id and one length-delimited field. */
  lemma IdThenBytes(id: u32, num: u32, data: Bytes, frame: Bytes)
    requires num > 0 && frame == LengthDelimit(PutVarintField(1, id) + PutBytes(num, data))
    requires |frame| <= MAX_REALTIME_MESSAGE_BYTES
    ensures |data| < |frame|
    ensures DecodeReplies(frame)
         == match ReplyStep(NO_REPLY.(id := id), LenField(num, data)) {
              case None => None
              case Some(reply) => Some(ReplyResult(reply))
            }
  {
    hide PutVarintField, PutBytes, LengthDelimit;
    var message := PutVarintField(1, id) + PutBytes(num, data);
    OneRecord(message, frame);
    PutBytesGrows(num, data);
    assert ReplyStep(NO_REPLY, VarintField(1, id)) == Some(NO_REPLY.(id := id));
    DecodeVarintThenBytes(NO_REPLY, NO_REPLY.(id := id), message, 1, id, num, data, ReplyStep);
  }

  /** A reply to connect, subscribe or a renewal decodes to its id and the token lifetime it grants. */
  lemma ReplyFrameReadsBack(id: u32, resultField: u32, expires: u32, after: u32, ttl: u32)
    requires LifetimeFields(resultField, expires, after)
    requires |ReplyFrame(id, resultField, ExpiryResult(expires, after, ttl))| <= 8_388_608
    ensures DecodeReplies(ReplyFrame(id, resultField, ExpiryResult(expires, after, ttl)))
         == Some([Reply(id, None, if ttl == 0 then None else Some(ttl))])
  {
    hide PutVarintField, PutBytes, LengthDelimit, Decode, ExpiryResult;
    var result := ExpiryResult(expires, after, ttl);
    IdThenBytes(id, resultField, result, ReplyFrame(id, resultField, result));
    ExpiryReadsBack(resultField, expires, after, ttl);
    var reply := Reply(id, None, if ttl == 0 then None else Some(ttl));
    assert [] + [reply] == [reply];
  }

  lemma ErrorReadsBack(code: u32, text: Bytes, error: Bytes)
    requires error == PutVarintField(1, code) + PutBytes(2, text)
    requires |error| <= MAX_REALTIME_MESSAGE_BYTES
    ensures DecodeError(error) == if Utf8.Valid(text) then Some(ProtoError(code, text, false)) else None
  {
    PutBytesGrows(2, text);
    var none := ProtoError(0, [], false);
    assert ErrorStep(none, VarintField(1, code)) == Some(none.(code := code));
    DecodeVarintThenBytes(none, none.(code := code), error, 1, code, 2, text, ErrorStep);
  }

  /** An error reply decodes to its code and text; a text that is not UTF-8 fails the whole frame. */
  lemma ErrorFrameReadsBack(id: u32, code: u32, text: Bytes)
    requires |ErrorFrame(id, code, text)| <= MAX_REALTIME_MESSAGE_BYTES
    ensures DecodeReplies(ErrorFrame(id, code, text))
         == if Utf8.Valid(text) then Some([Reply(id, Some(ProtoError(code, text, false)), None)]) else None
  {
    hide PutVarintField, PutBytes, LengthDelimit, Decode;
    var error := PutVarintField(1, code) + PutBytes(2, text);
    IdThenBytes(id, 2, error, ErrorFrame(id, code, text));
    ErrorReadsBack(code, text, error);
    var reply := Reply(id, Some(ProtoError(code, text, false)), None);
    assert [] + [reply] == [reply];
  }

  lemma EndedReadsBack(code: u32, reason: Bytes, ended: Bytes)
    requires ended == PutVarintField(2, code) + PutBytes(3, reason)
    requires |ended| <= MAX_REALTIME_MESSAGE_BYTES
    ensures DecodeUnsubscribe(ended) == Some(Ended(code, Utf8.Lossy(reason)))
  {
    PutBytesGrows(3, reason);
    assert UnsubscribeStep(Ended(0, []), VarintField(2, code)) == Some(Ended(code, []));
    DecodeVarintThenBytes(Ended(0, []), Ended(code, []), ended, 2, code, 3, reason, UnsubscribeStep);
  }

  /** A record of one push. */
  lemma OnePush(push: Bytes, frame: Bytes)
    requires frame == LengthDelimit(PutBytes(4, push)) && |frame| <= MAX_REALTIME_MESSAGE_BYTES
    ensures |push| < |frame|
    ensures DecodeReplies(frame) == DecodePush(push, [])
  {
    hide PutBytes, LengthDelimit;
    OneRecord(PutBytes(4, push), frame);
    PutBytesGrows(4, push);
    DecodeOneBytes(NO_REPLY, 4, push, ReplyStep);
  }

  /** An unsubscribe push decodes to its channel, code and reason, with malformed UTF-8 replaced. */
  lemma UnsubscribeFrameReadsBack(channel: Bytes, code: u32, reason: Bytes)
    requires |UnsubscribeFrame(channel, code, reason)| <= MAX_REALTIME_MESSAGE_BYTES
    ensures DecodeReplies(UnsubscribeFrame(channel, code, reason))
         == Some([Unsubscribe(Utf8.Lossy(channel), code, Utf8.Lossy(reason))])
    ensures Utf8.Valid(channel) && Utf8.Valid(reason) ==>
              DecodeReplies(UnsubscribeFrame(channel, code, reason)) == Some([Unsubscribe(channel, code, reason)])
  {
    hide PutVarintField, PutBytes, LengthDelimit, Utf8.Lossy, Utf8.Valid, DecodeReplies;
    var ended := PutVarintField(2, code) + PutBytes(3, reason);
    var push := PutBytes(2, channel) + PutBytes(7, ended);
    OnePush(push, UnsubscribeFrame(channel, code, reason));
    PutBytesGrows(2, channel);
    PutBytesGrows(7, ended);
    EndedReadsBack(code, reason, ended);
    var start := PushState([], None, []);
    assert PushStep(start, LenField(2, channel)) == Some(start.(channel := Utf8.Lossy(channel)));
    DecodeBytesThenBytes(start, start.(channel := Utf8.Lossy(channel)), push, 2, channel, 7, ended, PushStep);
    var unsubscribe := Unsubscribe(Utf8.Lossy(channel), code, Utf8.Lossy(reason));
    assert [] + [unsubscribe] == [unsubscribe];
    if Utf8.Valid(channel) && Utf8.Valid(reason) {
      Utf8.LossyKeepsValid(channel);
      Utf8.LossyKeepsValid(reason);
    }
  }

  /** A publication frame decodes to its payload, whatever bytes that holds. */
  lemma PublicationFrameReadsBack(data: Bytes)
    requires |PublicationFrame(data)| <= MAX_REALTIME_MESSAGE_BYTES
    ensures DecodeReplies(PublicationFrame(data)) == Some([Publication(data)])
  {
    hide PutVarintField, PutBytes, LengthDelimit, DecodeReplies;
    var publication := PutBytes(4, data);
    var push := PutBytes(4, publication);
    OnePush(push, PublicationFrame(data));
    PutBytesGrows(4, publication);
    PutBytesGrows(4, data);
    DecodeOneBytes(PushState([], None, []), 4, publication, PushStep);
    DecodeOneBytes([], 4, data, PublicationStep);
    assert [] + [Publication(data)] == [Publication(data)];
  }

  // ----- the client's commands, read field by field -----

  function Collect(fields: seq<Field>, field: Field): Option<seq<Field>> {
    Some(fields + [field])
  }

  /** The fields of a message in order. */
  function Fields(b: Bytes): Option<seq<Field>> {
    Decode([], b, Collect)
  }

  lemma OneField(num: u32, data: Bytes)
    requires num > 0 && |data| <= MAX_REALTIME_MESSAGE_BYTES
    ensures Fields(PutBytes(num, data)) == Some([LenField(num, data)])
  {
    DecodeOneBytes([], num, data, Collect);
    assert [] + [LenField(num, data)] == [LenField(num, data)];
  }

  lemma TwoFields(num: u32, data: Bytes, num': u32, data': Bytes)
    requires num > 0 && num' > 0 && |data| <= MAX_REALTIME_MESSAGE_BYTES && |data'| <= MAX_REALTIME_MESSAGE_BYTES
    ensures Fields(PutBytes(num, data) + PutBytes(num', data')) == Some([LenField(num, data), LenField(num', data')])
  {
    hide PutVarintField, PutBytes;
    assert [] + [LenField(num, data)] == [LenField(num, data)];
    assert [LenField(num, data)] + [LenField(num', data')] == [LenField(num, data), LenField(num', data')];
    DecodeBytesThenBytes([], [LenField(num, data)], PutBytes(num, data) + PutBytes(num', data'),
                         num, data, num', data', Collect);
  }

  /** The server reads `frame` as one command: its id, field number and the fields of its request. */
  ghost predicate ReadsAs(frame: Bytes, id: u32, num: u32, request: seq<Field>) {
    exists message, body ::
      && Delimited(frame) == Some((message, |frame|))
      && Fields(message) == Some([VarintField(1, id), LenField(num, body)])
      && Fields(body) == Some(request)
  }

  lemma CommandReadsBack(id: u32, num: u32, body: Bytes, frame: Bytes, request: seq<Field>)
    requires num > 0 && frame == Command(id, num, body) && |frame| <= MAX_REALTIME_MESSAGE_BYTES
    requires |body| < |frame| ==> Fields(body) == Some(request)
    ensures ReadsAs(frame, id, num, request)
  {
    hide PutVarintField, PutBytes, EncodeVarint, Delimited, Decode;
    var message := PutVarintField(1, id) + PutBytes(num, body);
    DelimitGrows(message);
    PutBytesGrows(num, body);
    DelimitedReadsBack(message, []);
    assert frame + [] == frame;
    assert [] + [VarintField(1, id)] == [VarintField(1, id)];
    DecodeVarintThenBytes([], [VarintField(1, id)], message, 1, id, num, body, Collect);
    assert [VarintField(1, id)] + [LenField(num, body)] == [VarintField(1, id), LenField(num, body)];
    assert Delimited(frame) == Some((message, |frame|));
  }

  lemma RefreshReadsBack(id: u32, token: Bytes)
    requires |RefreshCommand(id, token)| <= MAX_REALTIME_MESSAGE_BYTES
    ensures ReadsAs(RefreshCommand(id, token), id, 14, [LenField(1, token)])
  {
    PutBytesGrows(1, token);
    if |PutBytes(1, token)| < |RefreshCommand(id, token)| {
      OneField(1, token);
    }
    CommandReadsBack(id, 14, PutBytes(1, token), RefreshCommand(id, token), [LenField(1, token)]);
  }

  lemma SubRefreshReadsBack(id: u32, channel: Bytes, token: Bytes)
    requires |SubRefreshCommand(id, channel, token)| <= MAX_REALTIME_MESSAGE_BYTES
    ensures ReadsAs(SubRefreshCommand(id, channel, token), id, 15, [LenField(1, channel), LenField(2, token)])
  {
    PutBytesGrows(1, channel);
    PutBytesGrows(2, token);
    var body := PutBytes(1, channel) + PutBytes(2, token);
    if |body| < |SubRefreshCommand(id, channel, token)| {
      TwoFields(1, channel, 2, token);
    }
    CommandReadsBack(id, 15, body, SubRefreshCommand(id, channel, token), [LenField(1, channel), LenField(2, token)]);
  }

  function TokenField(num: u32, token: Option<Bytes>): seq<Field> {
    if token.Some? then [LenField(num, token.value)] else []
  }

  lemma ConnectReadsBack(id: u32, token: Option<Bytes>)
    requires |ConnectCommand(id, token)| <= MAX_REALTIME_MESSAGE_BYTES
    ensures ReadsAs(ConnectCommand(id, token), id, 4, TokenField(1, token))
  {
    var body := OptionalBytes(1, token);
    if token.Some? && |body| < |ConnectCommand(id, token)| {
      PutBytesGrows(1, token.value);
      OneField(1, token.value);
    }
    CommandReadsBack(id, 4, body, ConnectCommand(id, token), TokenField(1, token));
  }

  lemma SubscribeReadsBack(id: u32, channel: Bytes, token: Option<Bytes>)
    requires |SubscribeCommand(id, channel, token)| <= MAX_REALTIME_MESSAGE_BYTES
    ensures ReadsAs(SubscribeCommand(id, channel, token), id, 5, [LenField(1, channel)] + TokenField(2, token))
  {
    hide PutBytes, LengthDelimit, PutVarintField;
    var body := PutBytes(1, channel) + OptionalBytes(2, token);
    PutBytesGrows(1, channel);
    if |body| < |SubscribeCommand(id, channel, token)| {
      if token.Some? {
        PutBytesGrows(2, token.value);
        TwoFields(1, channel, 2, token.value);
      } else {
        assert body == PutBytes(1, channel);
        OneField(1, channel);
      }
    }
    assert token.None? ==> [LenField(1, channel)] + TokenField(2, token) == [LenField(1, channel)];
    assert token.Some? ==> [LenField(1, channel)] + TokenField(2, token)
                           == [LenField(1, channel), LenField(2, token.value)];
    CommandReadsBack(id, 5, body, SubscribeCommand(id, channel, token), [LenField(1, channel)] + TokenField(2, token));
  }

  // ----- frames back to back -----

  lemma DelimitedIgnoresWhatFollows(b: Bytes, rest: Bytes)
    requires Delimited(b).Some?
    ensures Delimited(b + rest) == Delimited(b)
  {
    VarintIgnoresWhatFollows(b, 0, rest);
    var used := Varint(b).value.1;
    var length := Varint(b).value.0;
    assert (b + rest)[used..used + length] == b[used..used + length];
  }

  lemma {:induction false} RecordsConcatenate(x: Bytes, y: Bytes, out: seq<Incoming>)
    requires DecodeRecords(x, out).Some?
    ensures DecodeRecords(x + y, out) == DecodeRecords(y, DecodeRecords(x, out).value)
    decreases |x|
  {
    if x == [] {
      assert x + y == y;
    } else {
      DelimitedIgnoresWhatFollows(x, y);
      var (record, used) := Delimited(x).value;
      assert (x + y)[used..] == x[used..] + y;
      RecordsConcatenate(x[used..], y, DecodeReply(record, out).value);
    }
  }

  // Decoders only ever append to what was decoded before.

  function Behind(before: seq<Incoming>, decoded: Option<seq<Incoming>>): Option<seq<Incoming>> {
    if decoded.Some? then Some(before + decoded.value) else None
  }

  lemma {:induction false} PublicationAppends(before: seq<Incoming>, out: seq<Incoming>, b: Bytes)
    ensures DecodePublication(b, before + out) == Behind(before, DecodePublication(b, out))
    decreases |b|
  {
    if b != [] && FieldAt(b).Some? {
      var (field, used) := FieldAt(b).value;
      var next := PublicationStep(out, field).value;
      assert PublicationStep(before + out, field) == Some(before + next) by {
        assert before + out + [Publication([])] == before + (out + [Publication([])]);
        if field.LenField? {
          assert before + out + [Publication(field.data)] == before + (out + [Publication(field.data)]);
        }
      }
      PublicationAppends(before, next, b[used..]);
    }
  }

  function PushBehind(before: seq<Incoming>, push: PushState): PushState {
    push.(out := before + push.out)
  }

  lemma {:induction false} PushFieldsAppend(before: seq<Incoming>, push: PushState, b: Bytes)
    ensures Decode(PushBehind(before, push), b, PushStep)
         == match Decode(push, b, PushStep) { case None => None case Some(r) => Some(PushBehind(before, r)) }
    decreases |b|
  {
    hide FieldAt, DecodePublication, DecodeUnsubscribe;
    if b != [] && FieldAt(b).Some? {
      var (field, used) := FieldAt(b).value;
      if field.LenField? {
        PublicationAppends(before, push.out, field.data);
      }
      if PushStep(push, field).Some? {
        PushFieldsAppend(before, PushStep(push, field).value, b[used..]);
      }
    }
  }

  lemma PushAppends(before: seq<Incoming>, out: seq<Incoming>, b: Bytes)
    ensures DecodePush(b, before + out) == Behind(before, DecodePush(b, out))
  {
    PushFieldsAppend(before, PushState([], None, out), b);
    var decoded := Decode(PushState([], None, out), b, PushStep);
    if decoded.Some? && decoded.value.ended.Some? {
      var ended := decoded.value.ended.value;
      var tail := [Unsubscribe(decoded.value.channel, ended.code, ended.reason)];
      assert before + decoded.value.out + tail == before + (decoded.value.out + tail);
    }
  }

  function ReplyBehind(before: seq<Incoming>, reply: ReplyState): ReplyState {
    reply.(out := before + reply.out)
  }

  lemma {:induction false} ReplyFieldsAppend(before: seq<Incoming>, reply: ReplyState, b: Bytes)
    ensures Decode(ReplyBehind(before, reply), b, ReplyStep)
         == match Decode(reply, b, ReplyStep) { case None => None case Some(r) => Some(ReplyBehind(before, r)) }
    decreases |b|
  {
    hide FieldAt, DecodePush, DecodeError, DecodeExpiry;
    if b != [] && FieldAt(b).Some? {
      var (field, used) := FieldAt(b).value;
      if field.LenField? {
        PushAppends(before, reply.out, field.data);
      }
      if ReplyStep(reply, field).Some? {
        ReplyFieldsAppend(before, ReplyStep(reply, field).value, b[used..]);
      }
    }
  }

  lemma ReplyAppends(before: seq<Incoming>, out: seq<Incoming>, b: Bytes)
    ensures DecodeReply(b, before + out) == Behind(before, DecodeReply(b, out))
  {
    assert before + out + [Ping] == before + (out + [Ping]);
    ReplyFieldsAppend(before, ReplyState(0, None, None, false, out), b);
    var decoded := Decode(ReplyState(0, None, None, false, out), b, ReplyStep);
    if decoded.Some? {
      var tail := [Reply(decoded.value.id, decoded.value.error, decoded.value.expiry)];
      assert before + decoded.value.out + tail == before + (decoded.value.out + tail);
    }
  }

  lemma {:induction false} RecordsAppend(before: seq<Incoming>, out: seq<Incoming>, b: Bytes)
    ensures DecodeRecords(b, before + out) == Behind(before, DecodeRecords(b, out))
    decreases |b|
  {
    if b != [] && Delimited(b).Some? {
      var (record, used) := Delimited(b).value;
      ReplyAppends(before, out, record);
      if DecodeReply(record, out).Some? {
        RecordsAppend(before, DecodeReply(record, out).value, b[used..]);
      }
    }
  }

  /** Whole frames compose: a frame made of two good frames decodes to both results in order. */
  lemma FramesConcatenate(x: Bytes, y: Bytes)
    requires DecodeReplies(x).Some? && DecodeReplies(y).Some?
    requires |x + y| <= MAX_REALTIME_MESSAGE_BYTES
    ensures DecodeReplies(x + y) == Some(DecodeReplies(x).value + DecodeReplies(y).value)
  {
    RecordsConcatenate(x, y, []);
    var first := DecodeReplies(x).value;
    RecordsAppend(first, [], y);
    assert first + [] == first;
  }

  // ----- decoding is bounded by its input -----

  /** Three for the message and each byte of payload or error text, one for each byte of text that may be replaced. */
  function Weight(item: Incoming): nat {
    match item
    case Reply(_, error, _) => 3 + ErrorWeight(error)
    case Publication(data) => 3 + 3 * |data|
    case Ping => 3
    case Unsubscribe(channel, _, reason) => 3 + |channel| + |reason|
  }

  function ErrorWeight(error: Option<ProtoError>): nat {
    if error.Some? then 3 * |error.value.message| else 0
  }

  function Cost(out: seq<Incoming>): nat {
    if out == [] then 0 else Cost(out[..|out| - 1]) + Weight(out[|out| - 1])
  }

  lemma CostOfOneMore(out: seq<Incoming>, item: Incoming)
    ensures Cost(out + [item]) == Cost(out) + Weight(item)
  {
    assert (out + [item])[..|out|] == out;
  }

  lemma {:induction false} ErrorTextIsBounded(error: ProtoError, b: Bytes)
    requires Decode(error, b, ErrorStep).Some?
    ensures |Decode(error, b, ErrorStep).value.message| <= Max(|error.message|, |b|)
    decreases |b|
  {
    if b != [] {
      var (field, used) := FieldAt(b).value;
      ErrorTextIsBounded(ErrorStep(error, field).value, b[used..]);
    }
  }

  lemma {:induction false} ReasonIsBounded(ended: Ended, b: Bytes)
    requires Decode(ended, b, UnsubscribeStep).Some?
    ensures |Decode(ended, b, UnsubscribeStep).value.reason| <= Max(|ended.reason|, 3 * |b|)
    decreases |b|
  {
    hide Utf8.Lossy;
    if b != [] {
      var (field, used) := FieldAt(b).value;
      if field.LenField? {
        Utf8.LossyIsBounded(field.data);
      }
      ReasonIsBounded(UnsubscribeStep(ended, field).value, b[used..]);
    }
  }

  lemma {:induction false} PublicationCost(out: seq<Incoming>, b: Bytes)
    requires DecodePublication(b, out).Some?
    ensures Cost(DecodePublication(b, out).value) <= Cost(out) + 3 * |b|
    decreases |b|
  {
    hide Cost;
    if b != [] {
      var (field, used) := FieldAt(b).value;
      if field.LenField? {
        CostOfOneMore(out, Publication(field.data));
      }
      PublicationCost(PublicationStep(out, field).value, b[used..]);
    }
  }

  function PushCost(push: PushState): nat {
    Cost(push.out) + |push.channel| + if push.ended.Some? then 3 + |push.ended.value.reason| else 0
  }

  lemma PushFieldCost(push: PushState, field: Field, used: nat)
    requires PushStep(push, field).Some? && (field.LenField? ==> |field.data| < used)
    ensures PushCost(PushStep(push, field).value) <= PushCost(push) + 3 * used
  {
    hide Cost, DecodePublication, Utf8.Lossy;
    if field.LenField? {
      if field.num == 2 {
        Utf8.LossyIsBounded(field.data);
      } else if field.num == 4 {
        PublicationCost(push.out, field.data);
      } else if field.num == 7 {
        ReasonIsBounded(Ended(0, []), field.data);
      }
    }
  }

  lemma {:induction false} PushFieldsCost(push: PushState, b: Bytes)
    requires Decode(push, b, PushStep).Some?
    ensures PushCost(Decode(push, b, PushStep).value) <= PushCost(push) + 3 * |b|
    decreases |b|
  {
    hide PushCost, PushStep;
    if b != [] {
      var (field, used) := FieldAt(b).value;
      PushFieldCost(push, field, used);
      PushFieldsCost(PushStep(push, field).value, b[used..]);
    }
  }

  lemma PushIsBounded(out: seq<Incoming>, b: Bytes)
    requires DecodePush(b, out).Some?
    ensures Cost(DecodePush(b, out).value) <= Cost(out) + 3 * |b|
  {
    hide Cost;
    PushFieldsCost(PushState([], None, out), b);
    var push := Decode(PushState([], None, out), b, PushStep).value;
    if push.ended.Some? {
      CostOfOneMore(push.out, Unsubscribe(push.channel, push.ended.value.code, push.ended.value.reason));
    }
  }

  function ReplyCost(reply: ReplyState): nat {
    Cost(reply.out) + ErrorWeight(reply.error)
  }

  lemma ReplyFieldCost(reply: ReplyState, field: Field, used: nat)
    requires ReplyStep(reply, field).Some? && (field.LenField? ==> |field.data| < used)
    ensures ReplyCost(ReplyStep(reply, field).value) <= ReplyCost(reply) + 3 * used
  {
    hide Cost, DecodePush, DecodeExpiry;
    if field.LenField? {
      if field.num == 2 {
        ErrorTextIsBounded(ProtoError(0, [], false), field.data);
      } else if field.num == 4 {
        PushIsBounded(reply.out, field.data);
      }
    }
  }

  lemma {:induction false} ReplyFieldsCost(reply: ReplyState, b: Bytes)
    requires Decode(reply, b, ReplyStep).Some?
    ensures ReplyCost(Decode(reply, b, ReplyStep).value) <= ReplyCost(reply) + 3 * |b|
    decreases |b|
  {
    hide ReplyCost, ReplyStep;
    if b != [] {
      var (field, used) := FieldAt(b).value;
      ReplyFieldCost(reply, field, used);
      ReplyFieldsCost(ReplyStep(reply, field).value, b[used..]);
    }
  }

  lemma ReplyIsBounded(out: seq<Incoming>, b: Bytes)
    requires DecodeReply(b, out).Some?
    ensures Cost(DecodeReply(b, out).value) <= Cost(out) + 3 * (|b| + 1)
  {
    hide Cost;
    if b == [] {
      CostOfOneMore(out, Ping);
    } else {
      ReplyFieldsCost(ReplyState(0, None, None, false, out), b);
      var reply := Decode(ReplyState(0, None, None, false, out), b, ReplyStep).value;
      CostOfOneMore(reply.out, Reply(reply.id, reply.error, reply.expiry));
    }
  }

  lemma {:induction false} RecordsAreBounded(out: seq<Incoming>, b: Bytes)
    requires DecodeRecords(b, out).Some?
    ensures Cost(DecodeRecords(b, out).value) <= Cost(out) + 3 * |b|
    decreases |b|
  {
    hide Cost, DecodeReply;
    if b != [] {
      var (record, used) := Delimited(b).value;
      ReplyIsBounded(out, record);
      RecordsAreBounded(DecodeReply(record, out).value, b[used..]);
    }
  }

  /**
   Everything a frame decodes to is no larger than the frame: its messages, their payload
   and error bytes, and at a third the channels and reasons, whose bad bytes grow threefold.
   */
  lemma RepliesAreBounded(frame: Bytes)
    requires DecodeReplies(frame).Some?
    ensures Cost(DecodeReplies(frame).value) <= 3 * |frame| <= 3 * MAX_REALTIME_MESSAGE_BYTES
  {
    RecordsAreBounded([], frame);
  }
}
