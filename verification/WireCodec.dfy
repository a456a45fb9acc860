/**
 The codec as it runs: a cursor over the received bytes, decoders that push what
 they find, and writers that append. Each is proved equal to its function in `Wire`.
 */
module WireCodec {
  import opened Numbers
  import opened Wire
  import Utf8

  // ----- reading -----

  class Cursor {
    const bytes: Bytes
    var offset: nat
    /** What is still to be read. */
    ghost var left: Bytes

    constructor (bytes: Bytes)
      ensures Valid() && left == bytes
    {
      this.bytes := bytes;
      offset := 0;
      left := bytes;
    }

    ghost predicate Valid()
      reads this
    {
      offset <= |bytes| && left == bytes[offset..]
    }

    predicate IsEmpty()
      reads this
      requires Valid()
      ensures IsEmpty() <==> left == []
    {
      offset == |bytes|
    }

    /** Reads at most ten bytes; the loop cannot run out, since the tenth byte must end the varint. */
    method ReadVarint() returns (r: Option<u64>)
      requires Valid()
      modifies this
      ensures Valid()
      ensures match Varint(old(left))
              case None => r == None
              case Some((value, used)) => r == Some(value) && left == old(left)[used..]
    {
      hide Room, VarintFrom;
      ghost var start := left;
      RoomIsU64();
      var value, weight := 0, 1;
      for k := 0 to 10
        invariant Valid() && k <= |start| && left == start[k..]
        invariant k == 10 ==> false
        invariant 0 <= value < weight && weight * Room(k) == U64_MAX + 1
        invariant VarintFrom(start, 0)
               == match VarintFrom(left, k) {
                    case None => None
                    case Some((more, used)) => Some((value + weight * more, k + used))
                  }
      {
        if offset >= |bytes| {
          VarintIsTruncated(k);
          return None;
        }
        var byte := bytes[offset];
        assert left == [byte] + left[1..] && left[1..] == bytes[offset + 1..] == start[k + 1..];
        offset := offset + 1;
        left := left[1..];
        if k == 9 && byte > 1 {
          VarintOverflows(byte, left);
          return None;
        }
        VarintPlace(value, weight, k, byte);
        ghost var low := value;
        value := value + weight * (byte % 128);
        if byte < 128 {
          VarintEnds(low, weight, k, byte, left);
          return Some(value);
        }
        VarintCarries(low, weight, k, byte, left);
        weight := weight * 128;
      }
      assert false;
    }

    /** A field number and wire type. */
    method ReadKey() returns (r: Option<(u32, nat)>)
      requires Valid()
      modifies this
      ensures Valid()
      ensures match Key(old(left))
              case None => r == None
              case Some((num, wire, used)) => r == Some((num, wire)) && left == old(left)[used..]
    {
      var key := ReadVarint();
      if key == None {
        return None;
      }
      if key.value / 8 > U32_MAX {
        return None;
      }
      var num := key.value / 8;
      if num == 0 {
        return None;
      }
      return Some((num, key.value % 8));
    }

    method Take(length: nat) returns (r: Option<Bytes>)
      requires Valid()
      modifies this
      ensures Valid()
      ensures if length <= |old(left)|
              then r == Some(old(left)[..length]) && left == old(left)[length..] else r == None
    {
      if offset + length > |bytes| {
        return None;
      }
      assert left[..length] == bytes[offset..offset + length];
      r := Some(bytes[offset..offset + length]);
      offset := offset + length;
      left := left[length..];
    }

    method ReadLenBytes() returns (r: Option<Bytes>)
      requires Valid()
      modifies this
      ensures Valid()
      ensures match Delimited(old(left))
              case None => r == None
              case Some((data, used)) => r == Some(data) && left == old(left)[used..]
    {
      ghost var before := left;
      var length := ReadVarint();
      if length == None || length.value > MAX_REALTIME_MESSAGE_BYTES {
        return None;
      }
      ghost var used := Varint(before).value.1;
      r := Take(length.value);
      assert r.Some? ==> before[used..][..length.value] == before[used..used + length.value];
      assert r.Some? ==> before[used..][length.value..] == before[used + length.value..];
    }

    /** Passes over the value of a field this client does not read. */
    method Skip(ghost num: u32, wire: nat) returns (ok: bool)
      requires Valid()
      modifies this
      ensures Valid()
      ensures match Payload(num, wire, old(left))
              case None => !ok
              case Some((_, used)) => ok && left == old(left)[used..]
    {
      match wire {
        case 0 =>
          var value := ReadVarint();
          ok := value.Some?;
        case 1 =>
          var fixed := Take(8);
          ok := fixed.Some?;
        case 2 =>
          var data := ReadLenBytes();
          ok := data.Some?;
        case 5 =>
          var fixed := Take(4);
          ok := fixed.Some?;
        case _ =>
          ok := false;
      }
    }
  }

  lemma VarintPlace(value: int, weight: int, k: nat, byte: byte)
    requires k <= 9 && 0 <= value < weight && weight * Room(k) == U64_MAX + 1
    requires k == 9 ==> byte <= 1
    ensures 0 <= value + weight * (byte % 128) <= U64_MAX
    ensures k < 9 ==> value + weight * (byte % 128) < weight * 128 && weight * 128 * Room(k + 1) == U64_MAX + 1
  {
    var low := byte % 128;
    if k == 9 {
      Weigh(weight, low, 1);
    } else {
      var wide := weight * 128;
      Weigh(weight, low, 127);
      assert wide * Room(k + 1) == weight * Room(k);
      Weigh(wide, 1, Room(k + 1));
    }
  }

  lemma Weigh(weight: int, low: int, high: int)
    requires weight >= 0 && 0 <= low <= high
    ensures 0 <= weight * low <= weight * high
  {
    assert weight * (high - low) >= 0;
  }

  lemma VarintIsTruncated(k: nat)
    requires k <= 9
    ensures VarintFrom([], k) == None
  {
  }

  lemma VarintOverflows(byte: byte, rest: Bytes)
    requires byte > 1
    ensures VarintFrom([byte] + rest, 9) == None
  {
  }

  lemma VarintEnds(value: int, weight: int, k: nat, byte: byte, rest: Bytes)
    requires k <= 9 && byte < 128 && (k == 9 ==> byte <= 1)
    ensures VarintFrom([byte] + rest, k) == Some((byte, 1))
    ensures value + weight * byte == value + weight * (byte % 128)
  {
  }

  lemma VarintCarries(value: int, weight: int, k: nat, byte: byte, rest: Bytes)
    requires k < 9 && byte >= 128
    ensures match VarintFrom(rest, k + 1)
            case None => VarintFrom([byte] + rest, k) == None
            case Some((more, used)) =>
              && VarintFrom([byte] + rest, k) == Some((byte - 128 + 128 * more, used + 1))
              && value + weight * (byte - 128 + 128 * more) == value + weight * (byte % 128) + weight * 128 * more
  {
    assert ([byte] + rest)[1..] == rest;
    if VarintFrom(rest, k + 1).Some? {
      var more := VarintFrom(rest, k + 1).value.0;
      assert weight * (byte - 128 + 128 * more) == weight * (byte - 128) + weight * (128 * more);
      assert weight * (128 * more) == weight * 128 * more;
    }
  }

  // ----- messages -----

  lemma Finished<S>(s: S, step: (S, Field) -> Option<S>)
    ensures Decode(s, [], step) == Some(s)
  {
  }

  /** One turn of a decoder's loop: a key, the value behind it, a step, and the rest. */
  function Turn<S>(s: S, before: Bytes, step: (S, Field) -> Option<S>): Option<S> {
    match Key(before)
    case None => None
    case Some((num, wire, used)) =>
      match Payload(num, wire, before[used..])
      case None => None
      case Some((field, more)) =>
        match step(s, field)
        case None => None
        case Some(next) => Decode(next, before[used..][more..], step)
  }

  lemma Onward<S>(s: S, before: Bytes, step: (S, Field) -> Option<S>)
    requires before != []
    ensures Decode(s, before, step) == Turn(s, before, step)
  {
    hide Varint, Delimited;
    if Key(before).Some? {
      var (num, wire, used) := Key(before).value;
      if Payload(num, wire, before[used..]).Some? {
        var more := Payload(num, wire, before[used..]).value.1;
        assert before[used..][more..] == before[used + more..];
      }
    }
  }

  class Inbox {
    var items: seq<Incoming>

    constructor ()
      ensures items == []
    {
      items := [];
    }
  }

  method ReadError(bytes: Bytes) returns (r: Option<ProtoError>)
    ensures r == DecodeError(bytes)
  {
    hide Cursor.Valid, Decode, FieldAt, Key, Varint, Delimited;
    hide DecodePublication, DecodeUnsubscribe, DecodePush, DecodeExpiry;
    var cursor := new Cursor(bytes);
    var error := ProtoError(0, [], false);
    while !cursor.IsEmpty()
      invariant cursor.Valid()
      invariant Decode(error, cursor.left, ErrorStep) == DecodeError(bytes)
      decreases |cursor.left|
    {
      Onward(error, cursor.left, ErrorStep);
      var key := cursor.ReadKey();
      if key == None {
        return None;
      }
      var (num, wire) := key.value;
      if num == 1 && wire == 0 {
        var code := cursor.ReadVarint();
        if code == None || code.value > U32_MAX {
          return None;
        }
        error := error.(code := code.value);
      } else if num == 2 && wire == 2 {
        var text := cursor.ReadLenBytes();
        if text == None || !Utf8.Valid(text.value) {
          return None;
        }
        error := error.(message := text.value);
      } else if num == 3 && wire == 0 {
        var temporary := cursor.ReadVarint();
        if temporary == None {
          return None;
        }
        error := error.(temporary := temporary.value != 0);
      } else {
        var ok := cursor.Skip(num, wire);
        if !ok {
          return None;
        }
      }
    }
    Finished(error, ErrorStep);
    return Some(error);
  }

  method ReadExpiry(bytes: Bytes, resultField: u32) returns (r: Option<Option<u32>>)
    ensures r == DecodeExpiry(bytes, resultField)
  {
    hide Cursor.Valid, Decode, FieldAt, Key, Varint, Delimited;
    hide DecodePublication, DecodeUnsubscribe, DecodePush, DecodeError;
    var expiresField := if resultField == 5 || resultField == 14 then 3 else 1;
    var ttlField := if resultField == 5 || resultField == 14 then 4 else 2;
    ghost var step := (l: Lifetime, f: Field) => ExpiryStep(resultField, l, f);
    var cursor := new Cursor(bytes);
    var expires, ttl := false, 0;
    ghost var whole := Decode(Lifetime(false, 0), bytes, step);
    while !cursor.IsEmpty()
      invariant cursor.Valid() && 0 <= ttl <= U32_MAX
      invariant Decode(Lifetime(expires, ttl), cursor.left, step) == whole
      decreases |cursor.left|
    {
      Onward(Lifetime(expires, ttl), cursor.left, step);
      var key := cursor.ReadKey();
      if key == None {
        return None;
      }
      var (num, wire) := key.value;
      if num == expiresField && wire == 0 {
        var value := cursor.ReadVarint();
        if value == None {
          return None;
        }
        expires := value.value != 0;
      } else if num == ttlField && wire == 0 {
        var value := cursor.ReadVarint();
        if value == None || value.value > U32_MAX {
          return None;
        }
        ttl := value.value;
      } else {
        var ok := cursor.Skip(num, wire);
        if !ok {
          return None;
        }
      }
    }
    Finished(Lifetime(expires, ttl), step);
    return Some(if expires then Some(ttl) else None);
  }

  method ReadUnsubscribe(bytes: Bytes) returns (r: Option<Ended>)
    ensures r == DecodeUnsubscribe(bytes)
  {
    hide Cursor.Valid, Decode, FieldAt, Key, Varint, Delimited;
    hide DecodePublication, DecodePush, DecodeError, DecodeExpiry;
    var cursor := new Cursor(bytes);
    var ended := Ended(0, []);
    while !cursor.IsEmpty()
      invariant cursor.Valid()
      invariant Decode(ended, cursor.left, UnsubscribeStep) == DecodeUnsubscribe(bytes)
      decreases |cursor.left|
    {
      Onward(ended, cursor.left, UnsubscribeStep);
      var key := cursor.ReadKey();
      if key == None {
        return None;
      }
      var (num, wire) := key.value;
      if num == 2 && wire == 0 {
        var code := cursor.ReadVarint();
        if code == None || code.value > U32_MAX {
          return None;
        }
        ended := ended.(code := code.value);
      } else if num == 3 && wire == 2 {
        var reason := cursor.ReadLenBytes();
        if reason == None {
          return None;
        }
        ended := ended.(reason := Utf8.Lossy(reason.value));
      } else {
        var ok := cursor.Skip(num, wire);
        if !ok {
          return None;
        }
      }
    }
    Finished(ended, UnsubscribeStep);
    return Some(ended);
  }

  method ReadPublication(bytes: Bytes, out: Inbox) returns (ok: bool)
    modifies out
    ensures match DecodePublication(bytes, old(out.items))
            case None => !ok
            case Some(items) => ok && out.items == items
  {
    hide Cursor.Valid, Decode, FieldAt, Key, Varint, Delimited;
    hide DecodeUnsubscribe, DecodePush, DecodeError, DecodeExpiry;
    ghost var whole := DecodePublication(bytes, out.items);
    var cursor := new Cursor(bytes);
    while !cursor.IsEmpty()
      invariant cursor.Valid() && fresh(cursor)
      invariant Decode(out.items, cursor.left, PublicationStep) == whole
      decreases |cursor.left|
    {
      Onward(out.items, cursor.left, PublicationStep);
      var key := cursor.ReadKey();
      if key == None {
        return false;
      }
      var (num, wire) := key.value;
      if num == 4 && wire == 2 {
        var data := cursor.ReadLenBytes();
        if data == None {
          return false;
        }
        out.items := out.items + [Publication(data.value)];
      } else {
        ok := cursor.Skip(num, wire);
        if !ok {
          return false;
        }
      }
    }
    Finished(out.items, PublicationStep);
    return true;
  }

  method ReadPush(bytes: Bytes, out: Inbox) returns (ok: bool)
    modifies out
    ensures match DecodePush(bytes, old(out.items))
            case None => !ok
            case Some(items) => ok && out.items == items
  {
    hide Cursor.Valid, Decode, FieldAt, Key, Varint, Delimited;
    hide DecodePublication, DecodeUnsubscribe, DecodeError, DecodeExpiry;
    ghost var whole := Decode(PushState([], None, out.items), bytes, PushStep);
    var cursor := new Cursor(bytes);
    var channel: Bytes := [];
    var unsubscribe: Option<Ended> := None;
    while !cursor.IsEmpty()
      invariant cursor.Valid() && fresh(cursor)
      invariant Decode(PushState(channel, unsubscribe, out.items), cursor.left, PushStep) == whole
      decreases |cursor.left|
    {
      Onward(PushState(channel, unsubscribe, out.items), cursor.left, PushStep);
      var key := cursor.ReadKey();
      if key == None {
        return false;
      }
      var (num, wire) := key.value;
      if num == 2 && wire == 2 {
        var name := cursor.ReadLenBytes();
        if name == None {
          return false;
        }
        channel := Utf8.Lossy(name.value);
      } else if num == 4 && wire == 2 {
        var data := cursor.ReadLenBytes();
        if data == None {
          return false;
        }
        var pushed := ReadPublication(data.value, out);
        if !pushed {
          return false;
        }
      } else if num == 7 && wire == 2 {
        var data := cursor.ReadLenBytes();
        if data == None {
          return false;
        }
        var ended := ReadUnsubscribe(data.value);
        if ended == None {
          return false;
        }
        unsubscribe := ended;
      } else {
        ok := cursor.Skip(num, wire);
        if !ok {
          return false;
        }
      }
    }
    Finished(PushState(channel, unsubscribe, out.items), PushStep);
    if unsubscribe.Some? {
      out.items := out.items + [Unsubscribe(channel, unsubscribe.value.code, unsubscribe.value.reason)];
    }
    return true;
  }

  method ReadReply(bytes: Bytes, out: Inbox) returns (ok: bool)
    modifies out
    ensures match DecodeReply(bytes, old(out.items))
            case None => !ok
            case Some(items) => ok && out.items == items
  {
    hide Cursor.Valid, Decode, FieldAt, Key, Varint, Delimited;
    hide DecodePublication, DecodeUnsubscribe, DecodePush, DecodeError, DecodeExpiry;
    if |bytes| == 0 {
      out.items := out.items + [Ping];
      return true;
    }
    ghost var whole := Decode(ReplyState(0, None, None, false, out.items), bytes, ReplyStep);
    var cursor := new Cursor(bytes);
    var id: u32 := 0;
    var error: Option<ProtoError> := None;
    var expiry: Option<u32> := None;
    var sawPayload := false;
    while !cursor.IsEmpty()
      invariant cursor.Valid() && fresh(cursor)
      invariant Decode(ReplyState(id, error, expiry, sawPayload, out.items), cursor.left, ReplyStep) == whole
      decreases |cursor.left|
    {
      Onward(ReplyState(id, error, expiry, sawPayload, out.items), cursor.left, ReplyStep);
      var key := cursor.ReadKey();
      if key == None {
        return false;
      }
      var (num, wire) := key.value;
      if num == 1 && wire == 0 {
        var value := cursor.ReadVarint();
        if value == None || value.value > U32_MAX {
          return false;
        }
        id := value.value;
      } else if num == 2 && wire == 2 {
        var data := cursor.ReadLenBytes();
        if data == None {
          return false;
        }
        error := ReadError(data.value);
        if error == None {
          return false;
        }
      } else if num == 4 && wire == 2 {
        sawPayload := true;
        var data := cursor.ReadLenBytes();
        if data == None {
          return false;
        }
        var pushed := ReadPush(data.value, out);
        if !pushed {
          return false;
        }
      } else if (num == 5 || num == 6 || num == 14 || num == 15) && wire == 2 {
        var data := cursor.ReadLenBytes();
        if data == None {
          return false;
        }
        var life := ReadExpiry(data.value, num);
        if life == None {
          return false;
        }
        expiry := life.value;
      } else {
        ok := cursor.Skip(num, wire);
        if !ok {
          return false;
        }
      }
    }
    Finished(ReplyState(id, error, expiry, sawPayload, out.items), ReplyStep);
    if id != 0 || error.Some? || !sawPayload {
      out.items := out.items + [Reply(id, error, expiry)];
    }
    return true;
  }

  /** One turn of the frame loop: a length, that many bytes, a reply, and the rest. */
  function RecordTurn(before: Bytes, out: seq<Incoming>): Option<seq<Incoming>> {
    match Varint(before)
    case None => None
    case Some((length, used)) =>
      if length > MAX_REALTIME_MESSAGE_BYTES || length > |before[used..]| then None
      else
        match DecodeReply(before[used..][..length], out)
        case None => None
        case Some(next) => DecodeRecords(before[used..][length..], next)
  }

  lemma RecordOnward(before: Bytes, out: seq<Incoming>)
    requires before != []
    ensures DecodeRecords(before, out) == RecordTurn(before, out)
  {
    hide VarintFrom, DecodeReply, Varint;
    if Delimited(before).Some? {
      var (length, used) := Varint(before).value;
      assert before[used..][..length] == before[used..used + length];
      assert before[used..][length..] == before[used + length..];
    }
  }

  method ReadReplies(frame: Bytes) returns (r: Option<seq<Incoming>>)
    ensures r == DecodeReplies(frame)
  {
    hide Cursor.Valid, Varint, DecodeReply, Delimited;
    if |frame| > MAX_REALTIME_MESSAGE_BYTES {
      return None;
    }
    ghost var whole := DecodeRecords(frame, []);
    var cursor := new Cursor(frame);
    var out := new Inbox();
    while !cursor.IsEmpty()
      invariant cursor.Valid() && fresh(cursor) && fresh(out)
      invariant DecodeRecords(cursor.left, out.items) == whole
      decreases |cursor.left|
    {
      hide DecodeRecords;
      RecordOnward(cursor.left, out.items);
      var length := cursor.ReadVarint();
      if length == None || length.value > MAX_REALTIME_MESSAGE_BYTES {
        return None;
      }
      var reply := cursor.Take(length.value);
      if reply == None {
        return None;
      }
      var ok := ReadReply(reply.value, out);
      if !ok {
        return None;
      }
    }
    return Some(out.items);
  }

  // ----- writing -----

  class Writer {
    var bytes: Bytes

    constructor ()
      ensures bytes == []
    {
      bytes := [];
    }

    method WriteVarint(value: u64)
      modifies this
      ensures bytes == old(bytes) + EncodeVarint(value)
    {
      var left := value;
      while left >= 0x80
        invariant 0 <= left
        invariant bytes + EncodeVarint(left) == old(bytes) + EncodeVarint(value)
      {
        assert EncodeVarint(left) == [left % 128 + 128] + EncodeVarint(left / 128);
        assert bytes + EncodeVarint(left) == (bytes + [left % 128 + 128]) + EncodeVarint(left / 128);
        bytes := bytes + [left % 128 + 128];
        left := left / 128;
      }
      bytes := bytes + [left];
    }

    method WriteKey(num: u32, wire: nat)
      requires wire < 8
      modifies this
      ensures bytes == old(bytes) + PutKey(num, wire)
    {
      WriteVarint(num * 8 + wire);
    }

    method WriteVarintField(num: u32, value: u64)
      modifies this
      ensures bytes == old(bytes) + PutVarintField(num, value)
    {
      WriteKey(num, 0);
      WriteVarint(value);
    }

    method WriteBytes(num: u32, data: Bytes)
      requires |data| <= U64_MAX
      modifies this
      ensures bytes == old(bytes) + PutBytes(num, data)
    {
      WriteKey(num, 2);
      WriteVarint(|data|);
      bytes := bytes + data;
    }
  }

  method WriteCommand(id: u32, num: u32, request: Bytes) returns (frame: Bytes)
    requires |PutVarintField(1, id) + PutBytes(num, request)| <= U64_MAX
    ensures frame == Command(id, num, request)
  {
    var message := new Writer();
    message.WriteVarintField(1, id);
    message.WriteBytes(num, request);
    var out := new Writer();
    out.WriteVarint(|message.bytes|);
    frame := out.bytes + message.bytes;
  }
}
