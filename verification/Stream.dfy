/**
 One realtime connection from its first reply to its end: the two setup replies,
 what arrives around them, and the loop that hands publications to the consumer.
 */
module Stream {
  import opened Numbers
  import opened Wire
  import opened Access
  import opened Renewal

  const SETUP_BUFFER: nat := 200

  /** What a turn of the connection meets: a message of the server, a renewal falling due, or its token fetched. */
  datatype Message =
    Binary(frame: Bytes) | Text | SocketPing | Close | Other | RenewalDue | TokenFetched(kind: Kind, ok: bool)

  /** When a setup reply arrived, and the lifetime it named. */
  datatype Answer = Answer(at: Instant, expiry: Option<u32>)

  /** What handing one item to the consumer's queue meets. */
  datatype Send = Taken | QueueFull | ConsumerGone

  datatype StreamError =
    | ServerEnded(code: u32, reason: Bytes)
    | QueueOverflow
    | Refused(error: ProtoError)
    | Undecodable
    | BadPublication
    | UnexpectedText
    | ConnectionClosed
    | WriteFailed

  datatype End = Stopped | ConsumerClosed | Lost(error: StreamError)

  /** The members of a publication's payload, each decoded or not; nothing when the payload is malformed. */
  type Decoder<T> = Bytes -> Option<seq<Option<T>>>

  // ----- what arrived, seen in different ways -----

  function Members<T>(members: seq<Option<T>>): seq<T> {
    if members == [] then []
    else Members(members[..|members| - 1])
         + match members[|members| - 1] { case Some(item) => [item] case None => [] }
  }

  function ItemsOf<T>(incoming: Incoming, decode: Decoder<T>): seq<T> {
    match incoming
    case Publication(data) =>
      (match decode(data)
       case Some(members) => Members(members)
       case None => [])
    case _ => []
  }

  /** The decodable members of every publication, in order. */
  function Items<T>(arrived: seq<Incoming>, decode: Decoder<T>): seq<T> {
    if arrived == [] then []
    else Items(arrived[..|arrived| - 1], decode) + ItemsOf(arrived[|arrived| - 1], decode)
  }

  function Pings(arrived: seq<Incoming>): nat {
    if arrived == [] then 0
    else Pings(arrived[..|arrived| - 1]) + if arrived[|arrived| - 1].Ping? then 1 else 0
  }

  /** Neither a ping nor a reply to a setup command. */
  predicate Lasting(incoming: Incoming) {
    !incoming.Ping? && !(incoming.Reply? && (incoming.id == 1 || incoming.id == 2))
  }

  /** Publications, unsubscribes and later replies, in order. */
  function Lastings(arrived: seq<Incoming>): seq<Incoming> {
    if arrived == [] then []
    else Lastings(arrived[..|arrived| - 1])
         + if Lasting(arrived[|arrived| - 1]) then [arrived[|arrived| - 1]] else []
  }

  function Payloads(arrived: seq<Incoming>): seq<Bytes> {
    if arrived == [] then []
    else Payloads(arrived[..|arrived| - 1])
         + match arrived[|arrived| - 1] { case Publication(data) => [data] case _ => [] }
  }

  lemma ItemsLast<T>(before: seq<Incoming>, last: Incoming, decode: Decoder<T>)
    ensures Items(before + [last], decode) == Items(before, decode) + ItemsOf(last, decode)
  {
    hide ItemsOf;
    assert (before + [last])[..|before|] == before;
  }

  lemma {:induction false} ItemsOfBoth<T>(a: seq<Incoming>, b: seq<Incoming>, decode: Decoder<T>)
    ensures Items(a + b, decode) == Items(a, decode) + Items(b, decode)
    decreases |b|
  {
    if b == [] {
      assert a + b == a;
    } else {
      hide Items, ItemsOf;
      var before, last := b[..|b| - 1], b[|b| - 1];
      assert a + b == a + before + [last] && b == before + [last];
      ItemsOfBoth(a, before, decode);
      ItemsLast(a + before, last, decode);
      ItemsLast(before, last, decode);
    }
  }

  lemma {:induction false} PingsOfBoth(a: seq<Incoming>, b: seq<Incoming>)
    ensures Pings(a + b) == Pings(a) + Pings(b)
    decreases |b|
  {
    if b == [] {
      assert a + b == a;
    } else {
      assert (a + b)[..|a + b| - 1] == a + b[..|b| - 1];
      PingsOfBoth(a, b[..|b| - 1]);
    }
  }

  lemma {:induction false} LastingsOfBoth(a: seq<Incoming>, b: seq<Incoming>)
    ensures Lastings(a + b) == Lastings(a) + Lastings(b)
    decreases |b|
  {
    if b == [] {
      assert a + b == a;
    } else {
      assert (a + b)[..|a + b| - 1] == a + b[..|b| - 1];
      LastingsOfBoth(a, b[..|b| - 1]);
    }
  }

  lemma {:induction false} PayloadsOfBoth(a: seq<Incoming>, b: seq<Incoming>)
    ensures Payloads(a + b) == Payloads(a) + Payloads(b)
    decreases |b|
  {
    if b == [] {
      assert a + b == a;
    } else {
      assert (a + b)[..|a + b| - 1] == a + b[..|b| - 1];
      PayloadsOfBoth(a, b[..|b| - 1]);
    }
  }

  lemma ItemsOfOne<T>(incoming: Incoming, decode: Decoder<T>)
    ensures Items([incoming], decode) == ItemsOf(incoming, decode)
    ensures Pings([incoming]) == if incoming.Ping? then 1 else 0
    ensures Lastings([incoming]) == if Lasting(incoming) then [incoming] else []
    ensures Payloads([incoming]) == if incoming.Publication? then [incoming.data] else []
  {
    assert [incoming][..0] == [];
    hide ItemsOf, Lasting;
  }

  /** Dropping pings and setup replies drops no item. */
  lemma {:induction false} LastingsHoldItems<T>(arrived: seq<Incoming>, decode: Decoder<T>)
    ensures Items(Lastings(arrived), decode) == Items(arrived, decode)
    decreases |arrived|
  {
    if arrived != [] {
      var before, last := arrived[..|arrived| - 1], arrived[|arrived| - 1];
      LastingsHoldItems(before, decode);
      ItemsOfBoth(Lastings(before), if Lasting(last) then [last] else [], decode);
      ItemsOfOne(last, decode);
    }
  }

  /** What was handled and what is held back make up what arrived: no item is lost, doubled or overtaken. */
  lemma NothingLost<T>(arrived: seq<Incoming>, handled: seq<Incoming>, pending: seq<Incoming>, decode: Decoder<T>)
    requires Lastings(arrived) == Lastings(handled) + Lastings(pending)
    ensures Items(arrived, decode) == Items(handled, decode) + Items(pending, decode)
  {
    hide Items, Lastings;
    LastingsHoldItems(arrived, decode);
    LastingsHoldItems(handled, decode);
    LastingsHoldItems(pending, decode);
    ItemsOfBoth(Lastings(handled), Lastings(pending), decode);
  }

  lemma {:induction false} MembersOfPrefix<T>(members: seq<Option<T>>, n: nat)
    requires n <= |members|
    ensures Members(members[..n]) <= Members(members)
    decreases |members|
  {
    if n < |members| {
      var shorter := members[..|members| - 1];
      assert shorter[..n] == members[..n];
      MembersOfPrefix(shorter, n);
    } else {
      assert members[..n] == members;
    }
  }

  /** Everything in the binary frames among these messages; an undecodable frame carries nothing. */
  function Decoded(messages: seq<Message>): seq<Incoming> {
    if messages == [] then []
    else
      Decoded(messages[..|messages| - 1]) + InMessage(messages[|messages| - 1])
  }

  function InMessage(message: Message): seq<Incoming> {
    match message
    case Binary(frame) =>
      (match DecodeReplies(frame)
       case Some(incomings) => incomings
       case None => [])
    case _ => []
  }

  /**
   `script` is what this connection meets in order; `take` is the consumer's queue, per
   item offered; `canWrite` tells which of the client's writes get through.
   */
  class Session<T> {
    const channel: Bytes
    const subaccounts: bool
    const script: seq<Message>
    const decode: Decoder<T>
    const take: nat -> Send
    const canWrite: nat -> bool
    var written: nat
    var at: nat
    var pending: seq<Incoming>
    var pongs: nat
    var offered: nat
    var sent: seq<T>
    var noted: seq<Bytes>
    ghost var handled: seq<Incoming>

    ghost function Arrived(): seq<Incoming>
      reads this
      requires at <= |script|
    {
      Decoded(script[..at])
    }

    /** What was handled and what is held back make up `arrived`. */
    ghost predicate Accounts(arrived: seq<Incoming>)
      reads this
    {
      && Lastings(arrived) == Lastings(handled) + Lastings(pending)
      && Pings(arrived) == Pings(handled) + Pings(pending)
      && pongs == Pings(handled)
      && sent == Items(handled, decode)
      && noted == if subaccounts then Payloads(handled) else []
    }

    ghost predicate Valid()
      reads this
    {
      at <= |script| && Accounts(Arrived())
    }

    constructor (channel: Bytes, subaccounts: bool, script: seq<Message>, decode: Decoder<T>, take: nat -> Send,
                 canWrite: nat -> bool)
      ensures this.channel == channel && this.subaccounts == subaccounts && this.script == script
      ensures this.decode == decode && this.take == take && this.canWrite == canWrite
      ensures Valid() && at == 0 && pending == [] && sent == []
    {
      this.channel, this.subaccounts, this.script := channel, subaccounts, script;
      this.decode, this.take, this.canWrite := decode, take, canWrite;
      written := 0;
      at, pending, pongs, offered, sent, noted := 0, [], 0, 0, [], [];
      handled := [];
    }

    method Write() returns (ok: bool)
      modifies this`written
      ensures ok == canWrite(old(written)) && written == old(written) + 1
    {
      ok := canWrite(written);
      written := written + 1;
    }

    /** Counts one incoming as handled. */
    ghost method NoteHandled(incoming: Incoming)
      modifies this`handled
      ensures handled == old(handled) + [incoming]
      ensures Lastings(handled) == Lastings(old(handled)) + if Lasting(incoming) then [incoming] else []
      ensures Pings(handled) == Pings(old(handled)) + if incoming.Ping? then 1 else 0
      ensures Items(handled, decode) == Items(old(handled), decode) + ItemsOf(incoming, decode)
      ensures Payloads(handled) == Payloads(old(handled)) + if incoming.Publication? then [incoming.data] else []
    {
      hide Items, Lastings, Pings, Payloads;
      ItemsOfOne(incoming, decode);
      LastingsOfBoth(handled, [incoming]);
      PingsOfBoth(handled, [incoming]);
      ItemsOfBoth(handled, [incoming], decode);
      PayloadsOfBoth(handled, [incoming]);
      handled := handled + [incoming];
    }

    /** Takes in the next one of a frame's incomings while waiting for `expectedId`. */
    method TakeInSetup(incoming: Incoming, expectedId: u32, ghost before: seq<Incoming>)
      returns (r: Result<Option<Option<u32>>, StreamError>)
      requires Accounts(before) && |pending| <= SETUP_BUFFER && (expectedId == 1 || expectedId == 2)
      modifies this
      ensures at == old(at) && sent == old(sent) && |pending| <= SETUP_BUFFER
      ensures r.Ok? ==> Accounts(before + [incoming])
      ensures if incoming.Reply? && incoming.id == expectedId then
                r == if incoming.error.Some? then Err(Refused(incoming.error.value)) else Ok(Some(incoming.expiry))
              else if incoming.Ping? then r == if canWrite(old(written)) then Ok(None) else Err(WriteFailed)
              else
                && r == (if |old(pending)| < 200 then Ok(None) else Err(QueueOverflow))
                && pending == if |old(pending)| < 200 then old(pending) + [incoming] else old(pending)
    {
      hide Items, Lastings, Pings, Payloads;
      LastingsOfBoth(before, [incoming]);
      PingsOfBoth(before, [incoming]);
      ItemsOfOne(incoming, decode);
      match incoming {
        case Reply(id, error, expiry) =>
          if id == expectedId {
            if error.Some? {
              return Err(Refused(error.value));
            }
            NoteHandled(incoming);
            return Ok(Some(expiry));
          }
        case Ping =>
          var ok := Write();
          if !ok {
            return Err(WriteFailed);
          }
          pongs := pongs + 1;
          NoteHandled(incoming);
          return Ok(None);
        case _ =>
      }
      if |pending| >= SETUP_BUFFER {
        return Err(QueueOverflow);
      }
      LastingsOfBoth(pending, [incoming]);
      PingsOfBoth(pending, [incoming]);
      pending := pending + [incoming];
      r := Ok(None);
    }

    /** Takes in a whole frame; the reply waited for, when it holds one. */
    method TakeFrame(incomings: seq<Incoming>, expectedId: u32, ghost before: seq<Incoming>)
      returns (r: Result<Option<Option<u32>>, StreamError>)
      requires Accounts(before) && |pending| <= SETUP_BUFFER && (expectedId == 1 || expectedId == 2)
      modifies this
      ensures at == old(at) && sent == old(sent) && |pending| <= SETUP_BUFFER
      ensures r.Ok? ==> Accounts(before + incomings)
      ensures match r
              case Ok(Some(expiry)) =>
                Reply(expectedId, None, expiry) in incomings && !RefusedIn(incomings, expectedId)
              case Ok(None) => !AnsweredIn(incomings, expectedId)
              case Err(Refused(error)) => RefusedWith(incomings, expectedId, error)
              case Err(error) => error == QueueOverflow || error == WriteFailed
    {
      hide Items, Lastings, Pings, Payloads;
      var matched: Option<Option<u32>> := None;
      assert before + incomings[..0] == before;
      for i := 0 to |incomings|
        invariant Accounts(before + incomings[..i]) && |pending| <= SETUP_BUFFER && sent == old(sent)
        invariant at == old(at)
        invariant matched.Some? ==> Reply(expectedId, None, matched.value) in incomings[..i]
        invariant matched.None? ==> !AnsweredIn(incomings[..i], expectedId)
        invariant !RefusedIn(incomings[..i], expectedId)
      {
        assert before + incomings[..i + 1] == before + incomings[..i] + [incomings[i]];
        var taken := TakeInSetup(incomings[i], expectedId, before + incomings[..i]);
        if taken.Err? {
          return Err(taken.error);
        }
        if taken.value.Some? {
          matched := taken.value;
        }
      }
      assert incomings[..|incomings|] == incomings;
      r := Ok(matched);
    }

    /**
     Waits for the reply to a setup command. Everything else that arrives first,
     or with it, is held back in order for the stream; every ping is answered.
     */
    method ReadReply(expectedId: u32) returns (r: Result<Option<u32>, StreamError>)
      requires Valid() && |pending| <= SETUP_BUFFER && (expectedId == 1 || expectedId == 2)
      modifies this
      ensures old(at) <= at <= |script| && |pending| <= SETUP_BUFFER && sent == old(sent)
      ensures r.Ok? ==> Valid() && Reply(expectedId, None, r.value) in Decoded(script[old(at)..at])
      ensures forall k | old(at) <= k < at - 1 :: Quiet(script[k], expectedId)
      ensures match r
              case Ok(expiry) =>
                && old(at) < at && Reply(expectedId, None, expiry) in InMessage(script[at - 1])
                && !RefusedIn(InMessage(script[at - 1]), expectedId)
              case Err(Refused(error)) =>
                old(at) < at && RefusedWith(InMessage(script[at - 1]), expectedId, error)
              case Err(error) =>
                || error == QueueOverflow || error == WriteFailed
                || (old(at) < at && Breaks(script[at - 1], error))
                || (at == |script| && error == ConnectionClosed)
    {
      hide Items, Lastings, Pings, Payloads, Decoded, DecodeReplies;
      while at < |script|
        invariant old(at) <= at <= |script| && Valid() && |pending| <= SETUP_BUFFER && sent == old(sent)
        invariant forall k | old(at) <= k < at :: Quiet(script[k], expectedId)
        decreases |script| - at
      {
        var message := script[at];
        DecodedOneMore(script, 0, at);
        DecodedOneMore(script, old(at), at);
        assert script[0..at] == script[..at] && script[0..at + 1] == script[..at + 1];
        ghost var before := Decoded(script[..at]);
        assert Decoded(script[..at + 1]) == before + InMessage(message);
        at := at + 1;
        match message {
          case Binary(frame) =>
            var decoded := DecodeReplies(frame);
            if decoded.None? {
              return Err(Undecodable);
            }
            var matched := TakeFrame(decoded.value, expectedId, before);
            if matched.Err? {
              return Err(matched.error);
            }
            assert Decoded(script[..at]) == before + decoded.value;
            assert Valid();
            if matched.value.Some? {
              return Ok(matched.value.value);
            }
          case Text =>
            return Err(UnexpectedText);
          case Close =>
            return Err(ConnectionClosed);
          case SocketPing =>
            var ok := Write();
            if !ok {
              return Err(WriteFailed);
            }
            assert before + [] == before;
          case _ =>
            assert before + [] == before;
        }
        assert Valid();
      }
      r := Err(ConnectionClosed);
    }

    /** Connect, then subscribe. */
    method Handshake() returns (r: Result<(Option<u32>, Option<u32>), StreamError>)
      requires Valid() && pending == []
      modifies this
      ensures |pending| <= SETUP_BUFFER && sent == old(sent) && at <= |script|
      ensures r.Ok? ==> Valid() && Reply(1, None, r.value.0) in Arrived() && Reply(2, None, r.value.1) in Arrived()
    {
      hide Items, Lastings, Pings, Payloads, Decoded;
      ghost var start := at;
      var sentConnect := Write();
      if !sentConnect {
        return Err(WriteFailed);
      }
      var connected := ReadReply(1);
      if connected.Err? {
        return Err(connected.error);
      }
      ghost var middle := at;
      var sentSubscribe := Write();
      if !sentSubscribe {
        return Err(WriteFailed);
      }
      var subscribed := ReadReply(2);
      if subscribed.Err? {
        return Err(subscribed.error);
      }
      DecodedWithin(script, start, middle, at, Reply(1, None, connected.value));
      DecodedWithin(script, middle, at, at, Reply(2, None, subscribed.value));
      r := Ok((connected.value, subscribed.value));
    }

    /** Offers one publication's members in order and stops at the first the queue does not take. */
    method Deliver(members: seq<Option<T>>) returns (outcome: Send)
      modifies this`sent, this`offered
      ensures outcome.Taken? ==> sent == old(sent) + Members(members)
      ensures old(sent) <= sent <= old(sent) + Members(members)
      ensures forall k | old(offered) <= k < old(offered) + (|sent| - |old(sent)|) :: take(k).Taken?
      ensures !outcome.Taken? ==> take(old(offered) + (|sent| - |old(sent)|)) == outcome
    {
      assert members[..0] == [];
      for i := 0 to |members|
        invariant sent == old(sent) + Members(members[..i])
        invariant offered == old(offered) + (|sent| - |old(sent)|)
        invariant forall k | old(offered) <= k < offered :: take(k).Taken?
      {
        assert members[..i + 1][..i] == members[..i];
        MembersOfPrefix(members, i);
        if members[i].Some? {
          var offer := take(offered);
          offered := offered + 1;
          if !offer.Taken? {
            return offer;
          }
          sent := sent + [members[i].value];
        }
      }
      assert members[..|members|] == members;
      outcome := Taken;
    }

    /**
     A publication's members were all taken, or up to the one whose offer ended the stream; the
     consumer's closing ends it without an error. `before` and `first` are the items and offers before it.
     */
    ghost predicate EndOfOffers(end: Option<End>, data: Bytes, before: seq<T>, first: nat)
      reads this
    {
      match decode(data)
      case None => end == Some(Lost(BadPublication)) && sent == before
      case Some(members) =>
        && before <= sent <= before + Members(members)
        && (forall k | first <= k < first + (|sent| - |before|) :: take(k).Taken?)
        && match end
           case None => sent == before + Members(members)
           case Some(ConsumerClosed) => take(first + (|sent| - |before|)).ConsumerGone?
           case Some(Lost(error)) => error == QueueOverflow && take(first + (|sent| - |before|)).QueueFull?
           case _ => false
    }

    /** `incoming` is taken off the queue and not handled yet. */
    ghost predicate Owes(incoming: Incoming)
      reads this
    {
      && at <= |script|
      && Lastings(Arrived()) == Lastings(handled) + (if Lasting(incoming) then [incoming] else []) + Lastings(pending)
      && Pings(Arrived()) == Pings(handled) + (if incoming.Ping? then 1 else 0) + Pings(pending)
      && pongs == Pings(handled)
      && sent == Items(handled, decode)
      && noted == if subaccounts then Payloads(handled) else []
    }

    lemma OwedItems(incoming: Incoming)
      requires Owes(incoming)
      ensures Items(Arrived(), decode) == sent + ItemsOf(incoming, decode) + Items(pending, decode)
    {
      hide Items, ItemsOf, Lastings, Pings, Payloads, Decoded;
      SplitOff(incoming, pending, decode);
      NothingLost(Arrived(), handled, [incoming] + pending, decode);
    }

    method HandlePublication(incoming: Incoming) returns (end: Option<End>)
      requires Owes(incoming) && incoming.Publication?
      modifies this`sent, this`offered, this`noted, this`handled
      ensures old(sent) <= sent <= Items(Arrived(), decode)
      ensures end == None || KeepsAccounts(end.value) ==> Valid() && handled == old(handled) + [incoming]
      ensures end == Some(Lost(BadPublication)) <==> decode(incoming.data) == None
      ensures EndOfOffers(end, incoming.data, old(sent), old(offered))
      ensures written == old(written)
    {
      hide Items, ItemsOf, Lastings, Pings, Payloads, Decoded;
      OwedItems(incoming);
      if subaccounts {
        noted := noted + [incoming.data];
      }
      var members := decode(incoming.data);
      if members.None? {
        NothingInBad(incoming, decode);
        NoteHandled(incoming);
        return Some(Lost(BadPublication));
      }
      ItemsOfGood(incoming, decode);
      var outcome := Deliver(members.value);
      if outcome.QueueFull? {
        return Some(Lost(QueueOverflow));
      }
      if outcome.ConsumerGone? {
        return Some(ConsumerClosed);
      }
      NoteHandled(incoming);
      end := None;
    }

    /**
     Handles the next incoming held back; a reply goes to the renewal it answers, if any. An
     unsubscribe of this channel and a refusal that answers no renewal end the stream with just
     that error, a ping only when its pong cannot be written, and a publication only when it is
     malformed or the consumer's queue does not take all of it.
     */
    method HandleNext(renewals: TokenRenewer, now: Instant) returns (end: Option<End>)
      requires Valid() && pending != []
      modifies this, renewals
      ensures renewals.View()
           == match old(pending)[0]
              case Reply(id, error, expiry) =>
                Replied(old(renewals.View()), id, error.Some?, expiry, now, renewals.unit)
              case _ => old(renewals.View())
      ensures at == old(at) && pending == old(pending)[1..] && old(sent) <= sent <= Items(Arrived(), decode)
      ensures end == None || KeepsAccounts(end.value) ==> Valid() && handled == old(handled) + [old(pending)[0]]
      ensures match old(pending)[0]
              case Ping =>
                end == (if canWrite(old(written)) then None else Some(Lost(WriteFailed))) && sent == old(sent)
              case Publication(data) => EndOfOffers(end, data, old(sent), old(offered))
              case Unsubscribe(ended, code, reason) =>
                end == (if ended == [] || ended == channel then Some(Lost(ServerEnded(code, reason))) else None)
                && sent == old(sent)
              case Reply(id, error, _) =>
                end == (if error.Some? && id !in old(renewals.pending) then Some(Lost(Refused(error.value))) else None)
                && sent == old(sent)
    {
      hide Items, ItemsOf, Lastings, Pings, Payloads, Decoded;
      var next := pending[0];
      assert pending == [next] + pending[1..];
      SplitOff(next, pending[1..], decode);
      pending := pending[1..];
      assert Owes(next);
      if next.Publication? {
        end := HandlePublication(next);
        return;
      }
      NothingInBad(next, decode);
      OwedItems(next);
      if next.Ping? {
        var ok := Write();
        if !ok {
          return Some(Lost(WriteFailed));
        }
        pongs := pongs + 1;
      }
      NoteHandled(next);
      match next {
        case Unsubscribe(ended, code, reason) =>
          if ended == [] || ended == channel {
            return Some(Lost(ServerEnded(code, reason)));
          }
        case Reply(id, error, expiry) =>
          var taken := renewals.TakeReply(id, error.Some?, expiry, now);
          if taken.None? && error.Some? {
            return Some(Lost(Refused(error.value)));
          }
        case _ =>
      }
      end := None;
    }

    /** Reads the next message when nothing is held back. */
    method ReadFrame(renewals: TokenRenewer, now: Instant) returns (error: Option<StreamError>)
      requires Valid() && pending == []
      modifies this`at, this`pending, this`written, renewals
      ensures renewals.View()
           == if old(at) == |script| then old(renewals.View())
              else
                match script[old(at)]
                case RenewalDue => Renewal.Started(old(renewals.View()), now)
                case TokenFetched(kind, true) => Commanded(old(renewals.View()), kind)
                case _ => old(renewals.View())
      ensures Valid() && at == Min(old(at) + 1, |script|)
      ensures if old(at) == |script| then error == Some(ConnectionClosed)
              else
                match script[old(at)]
                case Binary(frame) => error == if DecodeReplies(frame).None? then Some(Undecodable) else None
                case Text => error == Some(UnexpectedText)
                case Close => error == Some(ConnectionClosed)
                case SocketPing => error == if canWrite(old(written)) then None else Some(WriteFailed)
                case TokenFetched(_, true) => error == if canWrite(old(written)) then None else Some(WriteFailed)
                case _ => error == None
      ensures error.Some? ==> pending == []
    {
      hide Items, Lastings, Pings, Payloads, Decoded, DecodeReplies;
      NoItems(decode);
      if at == |script| {
        return Some(ConnectionClosed);
      }
      var message := script[at];
      DecodedOneMore(script, 0, at);
      assert script[0..at] == script[..at] && script[0..at + 1] == script[..at + 1];
      ghost var before := Decoded(script[..at]);
      assert before + [] == before;
      at := at + 1;
      match message {
        case Binary(frame) =>
          var decoded := DecodeReplies(frame);
          if decoded.None? {
            return Some(Undecodable);
          }
          LastingsOfBoth(before, decoded.value);
          PingsOfBoth(before, decoded.value);
          pending := decoded.value;
          assert Arrived() == before + pending;
        case Text =>
          return Some(UnexpectedText);
        case Close =>
          return Some(ConnectionClosed);
        case SocketPing =>
          var ok := Write();
          if !ok {
            return Some(WriteFailed);
          }
        case RenewalDue =>
          var _, _ := renewals.StartDue(now);
        case TokenFetched(kind, fetched) =>
          if fetched {
            var _ := renewals.Command(kind);
            var ok := Write();
            if !ok {
              return Some(WriteFailed);
            }
          }
        case _ =>
      }
      error := None;
    }

    /** One turn of the loop: the next incoming held back or, when there is none, the next message. */
    method Turn(renewals: TokenRenewer, now: Instant) returns (end: Option<End>, ghost entry: Option<Entry>)
      requires Valid()
      modifies this, renewals
      ensures at <= |script| && old(sent) <= sent <= Items(Arrived(), decode)
      ensures end == None || KeepsAccounts(end.value) ==> Valid() && handled == old(handled) + IncomingOf(entry)
      ensures end.Some? && end.value.Lost? && AtRead(end.value.error) ==>
                pending == [] && sent == Items(Arrived(), decode)
      ensures entry.None? ==> at == old(at) == |script| && end == Some(Lost(ConnectionClosed))
      ensures old(at) <= at && script[old(at)..at] == MessageOf(entry) && end != Some(Stopped)
      ensures entry.Some? ==>
                && entry.value.now == now && Caused(end, entry.value, old(renewals.pending), channel, decode)
                && renewals.View() == AfterEntry(old(renewals.View()), entry.value, renewals.unit)
      ensures end.None? ==> old(at) < at || (at == old(at) && |pending| < |old(pending)|)
      ensures end == Some(Lost(ConnectionClosed)) ==> at == |script| || (at > 0 && script[at - 1].Close?)
    {
      hide Accounts, Items, Decoded, Caused, Replied, Commanded, Renewal.Started;
      Delivered();
      if pending != [] {
        ghost var next, awaited := pending[0], renewals.pending;
        entry := Some(Took(next, now));
        end := HandleNext(renewals, now);
        TookIsCaused(end, next, now, awaited, channel, decode);
        assert script[old(at)..at] == [];
      } else {
        ghost var awaited := renewals.pending;
        entry := if at < |script| then Some(Met(script[at], now)) else None;
        var error := ReadFrame(renewals, now);
        end := if error.Some? then Some(Lost(error.value)) else None;
        if entry.Some? {
          MetIsCaused(error, entry.value.message, now, awaited, channel, decode);
          assert script[old(at)..at] == [entry.value.message];
        }
        Delivered();
        NoItems(decode);
      }
    }

    /**
     The stream loop, with the renewals the setup replies call for. `stop` tells, per turn,
     whether the stop request is seen, `clock` the time; `log` records the turns.
     */
    method Stream(connected: Answer, subscribed: Answer, unit: nat, stop: nat -> bool, clock: nat -> Instant)
      returns (end: End, ghost log: seq<Entry>)
      requires Valid()
      modifies this
      ensures at <= |script| && old(sent) <= sent <= Items(Arrived(), decode)
      ensures KeepsAccounts(end) ==> Valid() && handled == old(handled) + TakenIn(log)
      ensures end.Lost? && AtRead(end.error) ==> pending == [] && sent == Items(Arrived(), decode)
      ensures old(at) <= at && MessagesIn(log) == script[old(at)..at]
      ensures forall i | 0 <= i < |log| :: log[i].now == clock(i) && !stop(i)
      ensures end == Stopped ==> stop(|log|)
      ensures EndsWhereCalledFor(end, log, Begun(connected, subscribed, unit), unit, channel, decode)
      ensures end == Lost(ConnectionClosed) ==> at == |script| || (at > 0 && script[at - 1].Close?)
    {
      hide Accounts, Items, Decoded, Renewed, Caused, AfterEntry, TakenIn, MessagesIn;
      hide NothingCalledFor, EndsWhereCalledFor, AwaitedAt;
      var renewals := new TokenRenewer(unit);
      renewals.Schedule(Connection, connected.at, connected.expiry);
      renewals.Schedule(Subscription, subscribed.at, subscribed.expiry);
      ghost var start := Begun(connected, subscribed, unit);
      log := [];
      RenewedByNothing(start, unit);
      NothingCalledForYet(start, unit, channel, decode);
      var turn := 0;
      while true
        invariant Valid() && old(sent) <= sent && old(at) <= at && renewals.unit == unit && turn == |log|
        invariant handled == old(handled) + TakenIn(log) && MessagesIn(log) == script[old(at)..at]
        invariant forall i | 0 <= i < |log| :: log[i].now == clock(i) && !stop(i)
        invariant renewals.View() == Renewed(start, log, unit)
        invariant NothingCalledFor(log, start, unit, channel, decode)
        decreases |script| - at, |pending|
      {
        Delivered();
        if stop(turn) {
          EndedAnyhow(Stopped, log, start, unit, channel, decode);
          return Stopped, log;
        }
        ghost var before, mark := log, at;
        var over, entry := Turn(renewals, clock(turn));
        Slices(script, old(at), mark, at);
        if entry.Some? {
          assert entry == Some(entry.value);
          log := log + [entry.value];
          LogOneMore(start, before, entry.value, unit);
          CalledForOneMore(over, before, entry.value, start, unit, channel, decode);
        } else {
          EndedAnyhow(over.value, log, start, unit, channel, decode);
        }
        if over.Some? {
          return over.value, log;
        }
        turn := turn + 1;
      }
    }

    /** So far every item that arrived was handed over or is held back. */
    lemma Delivered()
      requires Valid()
      ensures Items(Arrived(), decode) == sent + Items(pending, decode)
    {
      hide Items, Lastings, Pings, Payloads, Decoded;
      NothingLost(Arrived(), handled, pending, decode);
    }
  }

  /** An unsubscribe of this channel, or of no channel in particular. */
  predicate Ends(incoming: Incoming, channel: Bytes, code: u32, reason: Bytes) {
    incoming == Unsubscribe([], code, reason) || incoming == Unsubscribe(channel, code, reason)
  }

  /** A refusal with this error that answers none of the awaited renewals. */
  predicate Refuses(incoming: Incoming, awaited: map<u32, Kind>, error: ProtoError) {
    incoming.Reply? && incoming.error == Some(error) && incoming.id !in awaited
  }

  // ----- the turns of the loop -----

  /** One turn of the loop: an incoming taken up, or a message met. */
  datatype Entry = Took(incoming: Incoming, now: Instant) | Met(message: Message, now: Instant)

  function IncomingOf(entry: Option<Entry>): seq<Incoming> {
    if entry.Some? && entry.value.Took? then [entry.value.incoming] else []
  }

  function MessageOf(entry: Option<Entry>): seq<Message> {
    if entry.Some? && entry.value.Met? then [entry.value.message] else []
  }

  function TakenIn(log: seq<Entry>): seq<Incoming> {
    if log == [] then [] else TakenIn(log[..|log| - 1]) + IncomingOf(Some(log[|log| - 1]))
  }

  function MessagesIn(log: seq<Entry>): seq<Message> {
    if log == [] then [] else MessagesIn(log[..|log| - 1]) + MessageOf(Some(log[|log| - 1]))
  }

  function AfterEntry(r: Renewer, entry: Entry, unit: nat): Renewer {
    match entry
    case Took(Reply(id, error, expiry), now) => Replied(r, id, error.Some?, expiry, now, unit)
    case Met(RenewalDue, now) => Renewal.Started(r, now)
    case Met(TokenFetched(kind, true), _) => Commanded(r, kind)
    case _ => r
  }

  /** The renewals the setup replies call for. */
  function Begun(connected: Answer, subscribed: Answer, unit: nat): Renewer {
    Scheduled(Scheduled(NEW_RENEWER, Connection, connected.at, connected.expiry, unit),
              Subscription, subscribed.at, subscribed.expiry, unit)
  }

  function Renewed(start: Renewer, log: seq<Entry>, unit: nat): Renewer {
    if log == [] then start else AfterEntry(Renewed(start, log[..|log| - 1], unit), log[|log| - 1], unit)
  }

  /** The renewal commands awaiting a reply when turn `i` begins. */
  function AwaitedAt(start: Renewer, log: seq<Entry>, i: int, unit: nat): map<u32, Kind>
    requires 0 <= i <= |log|
  {
    Renewed(start, log[..i], unit).pending
  }

  /** What this turn meets calls for just this end of the stream. */
  predicate CallsFor<T>(entry: Entry, awaited: map<u32, Kind>, channel: Bytes, decode: Decoder<T>, end: End) {
    match end
    case Lost(ServerEnded(code, reason)) => entry.Took? && Ends(entry.incoming, channel, code, reason)
    case Lost(Refused(error)) => entry.Took? && Refuses(entry.incoming, awaited, error)
    case Lost(BadPublication) => entry.Took? && entry.incoming.Publication? && decode(entry.incoming.data) == None
    case Lost(error) => entry.Met? && Breaks(entry.message, error)
    case _ => false
  }

  /** The turn ended the stream just where it had to. */
  ghost predicate Caused<T>(
    end: Option<End>, entry: Entry, awaited: map<u32, Kind>, channel: Bytes, decode: Decoder<T>)
  {
    && (forall e | CallsFor(entry, awaited, channel, decode, e) :: end == Some(e))
    && (end.Some? && NeedsCause(end.value) ==> CallsFor(entry, awaited, channel, decode, end.value))
  }

  /** Ends that come only where something called for them. */
  ghost predicate NeedsCause(end: End) {
    end.Lost? && end.error != QueueOverflow && end.error != WriteFailed && end.error != ConnectionClosed
  }

  /** No turn so far called for an end. */
  ghost predicate NothingCalledFor<T>(
    log: seq<Entry>, start: Renewer, unit: nat, channel: Bytes, decode: Decoder<T>)
  {
    forall i, e | 0 <= i < |log| :: !CallsFor(log[i], AwaitedAt(start, log, i, unit), channel, decode, e)
  }

  /** The first turn that calls for an end is the last one and gets just that end, which comes nowhere else. */
  ghost predicate EndsWhereCalledFor<T>(
    end: End, log: seq<Entry>, start: Renewer, unit: nat, channel: Bytes, decode: Decoder<T>)
  {
    && (forall i, e | 0 <= i < |log| && CallsFor(log[i], AwaitedAt(start, log, i, unit), channel, decode, e) ::
          i == |log| - 1 && end == e)
    && (NeedsCause(end) ==>
          log != [] && CallsFor(log[|log| - 1], AwaitedAt(start, log, |log| - 1, unit), channel, decode, end))
  }

  lemma NothingCalledForYet<T>(start: Renewer, unit: nat, channel: Bytes, decode: Decoder<T>)
    ensures NothingCalledFor([], start, unit, channel, decode)
  {
  }

  lemma EndedAnyhow<T>(end: End, log: seq<Entry>, start: Renewer, unit: nat, channel: Bytes, decode: Decoder<T>)
    requires NothingCalledFor(log, start, unit, channel, decode) && !NeedsCause(end)
    ensures EndsWhereCalledFor(end, log, start, unit, channel, decode)
  {
    hide CallsFor, NeedsCause;
  }

  lemma CalledForOneMore<T>(
      end: Option<End>, log: seq<Entry>, last: Entry, start: Renewer, unit: nat, channel: Bytes, decode: Decoder<T>)
    requires NothingCalledFor(log, start, unit, channel, decode)
    requires Caused(end, last, Renewed(start, log, unit).pending, channel, decode)
    ensures end == None ==> NothingCalledFor(log + [last], start, unit, channel, decode)
    ensures end.Some? ==> EndsWhereCalledFor(end.value, log + [last], start, unit, channel, decode)
  {
    LogOneMore(start, log, last, unit);
    hide CallsFor, NeedsCause, AwaitedAt, Renewed;
  }

  lemma TookIsCaused<T>(
      end: Option<End>, incoming: Incoming, now: Instant, awaited: map<u32, Kind>, channel: Bytes, decode: Decoder<T>)
    requires match incoming
             case Unsubscribe(ended, code, reason) =>
               end == if ended == [] || ended == channel then Some(Lost(ServerEnded(code, reason))) else None
             case Reply(id, error, _) =>
               end == if error.Some? && id !in awaited then Some(Lost(Refused(error.value))) else None
             case Publication(data) =>
               if decode(data) == None then end == Some(Lost(BadPublication))
               else end in {None, Some(ConsumerClosed), Some(Lost(QueueOverflow))}
             case Ping => end in {None, Some(Lost(WriteFailed))}
    ensures Caused(end, Took(incoming, now), awaited, channel, decode)
  {
  }

  lemma MetIsCaused<T>(
      error: Option<StreamError>, message: Message, now: Instant,
      awaited: map<u32, Kind>, channel: Bytes, decode: Decoder<T>)
    requires match message
             case Binary(frame) => error == if DecodeReplies(frame).None? then Some(Undecodable) else None
             case Text => error == Some(UnexpectedText)
             case Close => error == Some(ConnectionClosed)
             case _ => error in {None, Some(WriteFailed)}
    ensures Caused(if error.Some? then Some(Lost(error.value)) else None, Met(message, now), awaited, channel, decode)
  {
    hide DecodeReplies;
  }

  lemma RenewedByNothing(start: Renewer, unit: nat)
    ensures Renewed(start, [], unit) == start && TakenIn([]) == [] && MessagesIn([]) == []
  {
  }

  lemma LogOneMore(start: Renewer, log: seq<Entry>, last: Entry, unit: nat)
    ensures var more := log + [last];
            && Renewed(start, more, unit) == AfterEntry(Renewed(start, log, unit), last, unit)
            && TakenIn(more) == TakenIn(log) + IncomingOf(Some(last))
            && MessagesIn(more) == MessagesIn(log) + MessageOf(Some(last))
            && (forall i | 0 <= i < |log| ::
                  more[i] == log[i] && AwaitedAt(start, more, i, unit) == AwaitedAt(start, log, i, unit))
            && more[|log|] == last && AwaitedAt(start, more, |log|, unit) == Renewed(start, log, unit).pending
  {
    var more := log + [last];
    assert more[..|log|] == log;
    assert forall i | 0 <= i < |log| :: more[..i] == log[..i];
  }

  /** Ends at which every incoming taken up was handled whole. */
  predicate KeepsAccounts(end: End) {
    end != ConsumerClosed && end != Lost(QueueOverflow) && end != Lost(WriteFailed)
  }

  // ----- while a setup reply is awaited -----

  predicate AnsweredIn(incomings: seq<Incoming>, id: u32) {
    exists incoming <- incomings :: incoming.Reply? && incoming.id == id
  }

  predicate RefusedIn(incomings: seq<Incoming>, id: u32) {
    exists incoming <- incomings :: incoming.Reply? && incoming.id == id && incoming.error.Some?
  }

  predicate RefusedWith(incomings: seq<Incoming>, id: u32, error: ProtoError) {
    exists incoming <- incomings :: incoming.Reply? && incoming.id == id && incoming.error == Some(error)
  }

  /** The message breaks the connection off, with this error. */
  predicate Breaks(message: Message, error: StreamError) {
    || (message.Text? && error == UnexpectedText)
    || (message.Close? && error == ConnectionClosed)
    || (message.Binary? && DecodeReplies(message.frame) == None && error == Undecodable)
  }

  /** The message neither breaks the connection off nor answers the setup command. */
  predicate Quiet(message: Message, id: u32) {
    && !message.Text? && !message.Close? && (message.Binary? ==> DecodeReplies(message.frame).Some?)
    && !AnsweredIn(InMessage(message), id)
  }

  /** Errors met when nothing is held back. */
  predicate AtRead(error: StreamError) {
    error.ConnectionClosed? || error.Undecodable? || error.UnexpectedText?
  }

  lemma SplitOff<T>(next: Incoming, rest: seq<Incoming>, decode: Decoder<T>)
    ensures Lastings([next] + rest) == (if Lasting(next) then [next] else []) + Lastings(rest)
    ensures Pings([next] + rest) == (if next.Ping? then 1 else 0) + Pings(rest)
    ensures Items([next] + rest, decode) == ItemsOf(next, decode) + Items(rest, decode)
  {
    hide Items, Lastings, Pings;
    LastingsOfBoth([next], rest);
    PingsOfBoth([next], rest);
    ItemsOfBoth([next], rest, decode);
    ItemsOfOne(next, decode);
  }

  lemma NothingInBad<T>(incoming: Incoming, decode: Decoder<T>)
    requires incoming.Publication? ==> decode(incoming.data) == None
    ensures ItemsOf(incoming, decode) == []
  {
  }

  lemma ItemsOfGood<T>(incoming: Incoming, decode: Decoder<T>)
    requires incoming.Publication? && decode(incoming.data).Some?
    ensures ItemsOf(incoming, decode) == Members(decode(incoming.data).value)
  {
  }

  lemma NoItems<T>(decode: Decoder<T>)
    ensures Items([], decode) == [] && Lastings([]) == [] && Pings([]) == 0
  {
  }

  lemma Slices<T>(s: seq<T>, i: nat, j: nat, k: nat)
    requires i <= j <= k <= |s|
    ensures s[i..k] == s[i..j] + s[j..k]
  {
  }

  lemma DecodedOneMore(script: seq<Message>, from: nat, at: nat)
    requires from <= at < |script|
    ensures Decoded(script[from..at + 1]) == Decoded(script[from..at]) + InMessage(script[at])
  {
    hide InMessage;
    assert script[from..at + 1][..at - from] == script[from..at];
  }

  lemma {:induction false} DecodedWithin(script: seq<Message>, from: nat, mid: nat, at: nat, incoming: Incoming)
    requires from <= mid <= at <= |script| && incoming in Decoded(script[from..mid])
    ensures incoming in Decoded(script[..at])
    decreases at
  {
    hide InMessage;
    if from < at {
      DecodedOneMore(script, 0, at - 1);
      assert script[0..at] == script[..at] && script[0..at - 1] == script[..at - 1];
      if mid < at {
        DecodedWithin(script, from, mid, at - 1, incoming);
      } else {
        DecodedOneMore(script, from, at - 1);
        if incoming in Decoded(script[from..at - 1]) {
          DecodedWithin(script, from, at - 1, at - 1, incoming);
        }
      }
    }
  }
}
