/**
 The Centrifugo protobuf wire format as functions on bytes: base-128 varints,
 fields, the reply messages, and the printers of both sides.
 */
module Wire {
  import opened Numbers
  import Utf8

  type Bytes = seq<byte>

  const MAX_REALTIME_MESSAGE_BYTES: nat := 8 * 1024 * 1024

  // ----- varints -----

  /** The largest value left for a varint once `k` of its bytes are read. */
  function Room(k: nat): (room: nat)
    requires k <= 9
    ensures room >= 2
    decreases 9 - k
  {
    if k == 9 then 2 else 128 * Room(k + 1)
  }

  lemma RoomIsU64()
    ensures Room(0) == U64_MAX + 1
  {
    assert Room(8) == 256;
    assert Room(7) == 128 * 256;
    assert Room(6) == 128 * 128 * 256;
    assert Room(5) == 128 * 128 * 128 * 256;
    assert Room(4) == 128 * 128 * 128 * 128 * 256;
    assert Room(3) == 128 * 128 * 128 * 128 * 128 * 256;
    assert Room(2) == 128 * 128 * 128 * 128 * 128 * 128 * 256;
    assert Room(1) == 128 * 128 * 128 * 128 * 128 * 128 * 128 * 256;
  }

  /** Bytes `k`, `k + 1`, ... of a varint: their value and how many they are. */
  function VarintFrom(b: Bytes, k: nat): (r: Option<(int, nat)>)
    requires k <= 9
    ensures r.Some? ==> 0 <= r.value.0 < Room(k) && 1 <= r.value.1 <= |b| && k + r.value.1 <= 10
    decreases |b|
  {
    if b == [] || (k == 9 && b[0] > 1) then None
    else if b[0] < 128 then Some((b[0], 1))
    else
      match VarintFrom(b[1..], k + 1)
      case None => None
      case Some(rest) => Some((b[0] - 128 + 128 * rest.0, rest.1 + 1))
  }

  function Varint(b: Bytes): (r: Option<(u64, nat)>)
    ensures r.Some? ==> 1 <= r.value.1 <= |b|
  {
    RoomIsU64();
    match VarintFrom(b, 0)
    case None => None
    case Some(p) => Some((p.0, p.1))
  }

  function EncodeVarint(value: nat): (b: Bytes)
    ensures |b| >= 1
  {
    if value < 128 then [value] else [value % 128 + 128] + EncodeVarint(value / 128)
  }

  lemma {:induction false} VarintReadsBackFrom(value: nat, k: nat, rest: Bytes)
    requires k <= 9 && value < Room(k)
    ensures VarintFrom(EncodeVarint(value) + rest, k) == Some((value, |EncodeVarint(value)|))
    decreases value
  {
    if value >= 128 {
      VarintReadsBackFrom(value / 128, k + 1, rest);
      assert (EncodeVarint(value) + rest)[1..] == EncodeVarint(value / 128) + rest;
    }
  }

  /** Every `u64` written as a varint reads back, using exactly its own bytes. */
  lemma VarintReadsBack(value: u64, rest: Bytes)
    ensures Varint(EncodeVarint(value) + rest) == Some((value, |EncodeVarint(value)|))
  {
    RoomIsU64();
    VarintReadsBackFrom(value, 0, rest);
  }

  lemma {:induction false} VarintIgnoresWhatFollows(b: Bytes, k: nat, rest: Bytes)
    requires k <= 9 && VarintFrom(b, k).Some?
    ensures VarintFrom(b + rest, k) == VarintFrom(b, k)
    decreases |b|
  {
    if b[0] >= 128 {
      VarintIgnoresWhatFollows(b[1..], k + 1, rest);
      assert (b + rest)[1..] == b[1..] + rest;
    }
  }

  // ----- fields -----

  datatype Field =
    | VarintField(num: u32, value: u64)
    | LenField(num: u32, data: Bytes)
    | FixedField(num: u32, width: nat)

  /** A length prefix no larger than a message, and that many bytes. */
  function Delimited(b: Bytes): (r: Option<(Bytes, nat)>)
    ensures r.Some? ==> |r.value.0| < r.value.1 <= |b|
  {
    match Varint(b)
    case None => None
    case Some((length, used)) =>
      if length > MAX_REALTIME_MESSAGE_BYTES || used + length > |b| then None
      else Some((b[used..used + length], used + length))
  }

  /** A field number and wire type. */
  function Key(b: Bytes): (r: Option<(u32, nat, nat)>)
    ensures r.Some? ==> r.value.0 > 0 && r.value.1 < 8 && 1 <= r.value.2 <= |b|
  {
    match Varint(b)
    case None => None
    case Some((key, used)) =>
      if key / 8 > U32_MAX || key / 8 == 0 then None else Some((key / 8, key % 8, used))
  }

  /** The value of wire type `wire` at the start of `b`, as field `num`. */
  function Payload(num: u32, wire: nat, b: Bytes): (r: Option<(Field, nat)>)
    ensures r.Some? ==> r.value.1 <= |b|
  {
    if wire == 0 then
      match Varint(b)
      case None => None
      case Some((value, used)) => Some((VarintField(num, value), used))
    else if wire == 2 then
      match Delimited(b)
      case None => None
      case Some((data, used)) => Some((LenField(num, data), used))
    else if wire == 1 then
      if |b| < 8 then None else Some((FixedField(num, 8), 8))
    else if wire == 5 then
      if |b| < 4 then None else Some((FixedField(num, 4), 4))
    else None
  }

  function FieldAt(b: Bytes): (r: Option<(Field, nat)>)
    ensures r.Some? ==> 1 <= r.value.1 <= |b|
    ensures r.Some? && r.value.0.LenField? ==> |r.value.0.data| < r.value.1
  {
    match Key(b)
    case None => None
    case Some((num, wire, used)) =>
      match Payload(num, wire, b[used..])
      case None => None
      case Some((field, more)) => Some((field, used + more))
  }

  /** Reads a message field by field; a field or a step that fails fails the message. */
  function Decode<S>(s: S, b: Bytes, step: (S, Field) -> Option<S>): Option<S>
    decreases |b|
  {
    if b == [] then Some(s)
    else
      match FieldAt(b)
      case None => None
      case Some((field, used)) =>
        match step(s, field)
        case None => None
        case Some(next) => Decode(next, b[used..], step)
  }

  // ----- replies -----

  datatype ProtoError = ProtoError(code: u32, message: Bytes, temporary: bool)

  datatype Incoming =
    | Reply(id: u32, error: Option<ProtoError>, expiry: Option<u32>)
    | Publication(data: Bytes)
    | Ping
    | Unsubscribe(channel: Bytes, code: u32, reason: Bytes)

  function ErrorStep(error: ProtoError, field: Field): Option<ProtoError> {
    match field
    case VarintField(num, value) =>
      if num == 1 then if value > U32_MAX then None else Some(error.(code := value))
      else if num == 3 then Some(error.(temporary := value != 0))
      else Some(error)
    case LenField(num, data) =>
      if num == 2 then if Utf8.Valid(data) then Some(error.(message := data)) else None
      else Some(error)
    case FixedField(_, _) => Some(error)
  }

  function DecodeError(b: Bytes): Option<ProtoError> {
    Decode(ProtoError(0, [], false), b, ErrorStep)
  }

  datatype Lifetime = Lifetime(expires: bool, ttl: u32)

  /** `ConnectResult` and `RefreshResult` number their lifetime fields 3 and 4, the others 1 and 2. */
  function ExpiresField(resultField: u32): u32 {
    if resultField == 5 || resultField == 14 then 3 else 1
  }

  function ExpiryStep(resultField: u32, life: Lifetime, field: Field): Option<Lifetime> {
    match field
    case VarintField(num, value) =>
      if num == ExpiresField(resultField) then Some(life.(expires := value != 0))
      else if num == ExpiresField(resultField) + 1 then if value > U32_MAX then None else Some(life.(ttl := value))
      else Some(life)
    case _ => Some(life)
  }

  function DecodeExpiry(b: Bytes, resultField: u32): Option<Option<u32>> {
    match Decode(Lifetime(false, 0), b, (l: Lifetime, f: Field) => ExpiryStep(resultField, l, f))
    case None => None
    case Some(life) => Some(if life.expires then Some(life.ttl) else None)
  }

  datatype Ended = Ended(code: u32, reason: Bytes)

  function UnsubscribeStep(ended: Ended, field: Field): Option<Ended> {
    match field
    case VarintField(num, value) =>
      if num == 2 then if value > U32_MAX then None else Some(ended.(code := value)) else Some(ended)
    case LenField(num, data) =>
      if num == 3 then Some(ended.(reason := Utf8.Lossy(data))) else Some(ended)
    case FixedField(_, _) => Some(ended)
  }

  function DecodeUnsubscribe(b: Bytes): Option<Ended> {
    Decode(Ended(0, []), b, UnsubscribeStep)
  }

  function PublicationStep(out: seq<Incoming>, field: Field): Option<seq<Incoming>> {
    if field.LenField? && field.num == 4 then Some(out + [Publication(field.data)]) else Some(out)
  }

  function DecodePublication(b: Bytes, out: seq<Incoming>): Option<seq<Incoming>> {
    Decode(out, b, PublicationStep)
  }

  datatype PushState = PushState(channel: Bytes, ended: Option<Ended>, out: seq<Incoming>)

  function PushStep(push: PushState, field: Field): Option<PushState> {
    if !field.LenField? then Some(push)
    else if field.num == 2 then Some(push.(channel := Utf8.Lossy(field.data)))
    else if field.num == 4 then
      match DecodePublication(field.data, push.out)
      case None => None
      case Some(out) => Some(push.(out := out))
    else if field.num == 7 then
      match DecodeUnsubscribe(field.data)
      case None => None
      case Some(ended) => Some(push.(ended := Some(ended)))
    else Some(push)
  }

  function PushResult(push: PushState): seq<Incoming> {
    match push.ended
    case None => push.out
    case Some(ended) => push.out + [Unsubscribe(push.channel, ended.code, ended.reason)]
  }

  function DecodePush(b: Bytes, out: seq<Incoming>): Option<seq<Incoming>> {
    match Decode(PushState([], None, out), b, PushStep)
    case None => None
    case Some(push) => Some(PushResult(push))
  }

  datatype ReplyState = ReplyState(
    id: u32, error: Option<ProtoError>, expiry: Option<u32>, sawPayload: bool, out: seq<Incoming>)

  predicate IsResult(num: u32) {
    num == 5 || num == 6 || num == 14 || num == 15
  }

  function ReplyStep(reply: ReplyState, field: Field): Option<ReplyState> {
    match field
    case VarintField(num, value) =>
      if num == 1 then if value > U32_MAX then None else Some(reply.(id := value)) else Some(reply)
    case LenField(num, data) =>
      if num == 2 then
        match DecodeError(data)
        case None => None
        case Some(error) => Some(reply.(error := Some(error)))
      else if num == 4 then
        match DecodePush(data, reply.out)
        case None => None
        case Some(out) => Some(reply.(sawPayload := true, out := out))
      else if IsResult(num) then
        match DecodeExpiry(data, num)
        case None => None
        case Some(expiry) => Some(reply.(expiry := expiry))
      else Some(reply)
    case FixedField(_, _) => Some(reply)
  }

  function ReplyResult(reply: ReplyState): seq<Incoming> {
    if reply.id != 0 || reply.error.Some? || !reply.sawPayload
    then reply.out + [Reply(reply.id, reply.error, reply.expiry)] else reply.out
  }

  function DecodeReply(b: Bytes, out: seq<Incoming>): Option<seq<Incoming>> {
    if b == [] then Some(out + [Ping])
    else
      match Decode(ReplyState(0, None, None, false, out), b, ReplyStep)
      case None => None
      case Some(reply) => Some(ReplyResult(reply))
  }

  function DecodeRecords(b: Bytes, out: seq<Incoming>): Option<seq<Incoming>>
    decreases |b|
  {
    if b == [] then Some(out)
    else
      match Delimited(b)
      case None => None
      case Some((record, used)) =>
        match DecodeReply(record, out)
        case None => None
        case Some(next) => DecodeRecords(b[used..], next)
  }

  /** Every message of a frame, in order, or nothing when any of the frame is malformed. */
  function DecodeReplies(frame: Bytes): Option<seq<Incoming>> {
    if |frame| > MAX_REALTIME_MESSAGE_BYTES then None else DecodeRecords(frame, [])
  }

  // ----- printers -----

  function PutKey(num: u32, wire: nat): Bytes {
    EncodeVarint(num * 8 + wire)
  }

  function PutVarintField(num: u32, value: u64): Bytes {
    PutKey(num, 0) + EncodeVarint(value)
  }

  function PutBytes(num: u32, data: Bytes): Bytes {
    PutKey(num, 2) + EncodeVarint(|data|) + data
  }

  function LengthDelimit(message: Bytes): Bytes {
    EncodeVarint(|message|) + message
  }

  function Command(id: u32, num: u32, request: Bytes): Bytes {
    LengthDelimit(PutVarintField(1, id) + PutBytes(num, request))
  }

  function OptionalBytes(num: u32, data: Option<Bytes>): Bytes {
    if data.Some? then PutBytes(num, data.value) else []
  }

  function ConnectCommand(id: u32, token: Option<Bytes>): Bytes {
    Command(id, 4, OptionalBytes(1, token))
  }

  function SubscribeCommand(id: u32, channel: Bytes, token: Option<Bytes>): Bytes {
    Command(id, 5, PutBytes(1, channel) + OptionalBytes(2, token))
  }

  function RefreshCommand(id: u32, token: Bytes): Bytes {
    Command(id, 14, PutBytes(1, token))
  }

  function SubRefreshCommand(id: u32, channel: Bytes, token: Bytes): Bytes {
    Command(id, 15, PutBytes(1, channel) + PutBytes(2, token))
  }

  // What the server prints: `expires` and `ttl` fields of a result, and the four reply frames.

  function ExpiryResult(expiresField: u32, ttlField: u32, ttl: u32): Bytes {
    if ttl == 0 then [] else PutVarintField(expiresField, 1) + PutVarintField(ttlField, ttl)
  }

  function ReplyFrame(id: u32, resultField: u32, result: Bytes): Bytes {
    LengthDelimit(PutVarintField(1, id) + PutBytes(resultField, result))
  }

  function ErrorFrame(id: u32, code: u32, message: Bytes): Bytes {
    LengthDelimit(PutVarintField(1, id) + PutBytes(2, PutVarintField(1, code) + PutBytes(2, message)))
  }

  function UnsubscribeFrame(channel: Bytes, code: u32, reason: Bytes): Bytes {
    LengthDelimit(PutBytes(4, PutBytes(2, channel) + PutBytes(7, PutVarintField(2, code) + PutBytes(3, reason))))
  }

  function PublicationFrame(data: Bytes): Bytes {
    LengthDelimit(PutBytes(4, PutBytes(4, PutBytes(4, data))))
  }
}
