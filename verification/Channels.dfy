/** Which sub-account's access governs a realtime channel. */
module Channels {
  import opened Numbers
  import opened Ids

  const PREFIXES: seq<string> := [
    "private:ledger:balances:",
    "private:ledger:transfers:",
    "private:spot:trades:",
    "private:spot:triggers:events:",
    "private:spot:triggers:",
    "private:chain:lifecycle:flows:"]

  const PROTO := ":proto"

  /** What follows the first of the prefixes, from the `i`th on, that starts the channel. */
  function AfterPrefix(channel: string, i: nat): Option<string>
    requires i <= |PREFIXES|
    decreases |PREFIXES| - i
  {
    if i == |PREFIXES| then None
    else if PREFIXES[i] <= channel then Some(channel[|PREFIXES[i]|..])
    else AfterPrefix(channel, i + 1)
  }

  function WithoutProto(rest: string): string {
    if |rest| >= |PROTO| && rest[|rest| - |PROTO|..] == PROTO then rest[..|rest| - |PROTO|] else rest
  }

  ghost function SubaccountId(channel: string): Option<u64> {
    match AfterPrefix(channel, 0)
    case None => None
    case Some(rest) =>
      var text := WithoutProto(rest);
      if text == "" || ':' in text then None
      else
        match IdToU64(text)
        case Ok(id) => Some(id)
        case Err(_) => None
  }

  /** The channel of the `i`th kind for sub-account `id`, in either wire format. */
  function ChannelOf(i: nat, id: u64, proto: bool): string
    requires i < |PREFIXES|
  {
    PREFIXES[i] + FormatId(id) + if proto then PROTO else ""
  }

  lemma FormatIdHasNoColon(id: u64)
    ensures ':' !in FormatId(id) && FormatId(id) != ""
  {
    hide Base58ToU64, IdToU64;
    FormatIdIsShort(id);
    FormatIdIs(id);
    ToBaseReadsBack(id, 58);
    if id > 0 {
      var digits := ToBase(id, 58);
      forall k | 0 <= k < |FormatId(id)|
        ensures FormatId(id)[k] != ':'
      {
        Char58ReadsBack(digits[k]);
      }
    }
  }

  /** Where two of the prefixes part, if the one does not start the other. */
  function PartAt(j: nat, i: nat): nat
    requires j < i < |PREFIXES|
  {
    if j == 0 && i == 1 then 15 else if j == 2 && (i == 3 || i == 4) then 15 else 8
  }

  lemma PrefixesPart(j: nat, i: nat)
    requires j < i < |PREFIXES| && !(j == 3 && i == 4)
    ensures PartAt(j, i) < |PREFIXES[j]| && PartAt(j, i) < |PREFIXES[i]|
    ensures PREFIXES[j][PartAt(j, i)] != PREFIXES[i][PartAt(j, i)]
  {
  }

  lemma {:induction false} SkipsEarlier(i: nat, tail: string, j: nat)
    requires j <= i < |PREFIXES| && (i == 4 ==> !(PREFIXES[3] <= PREFIXES[4] + tail))
    ensures AfterPrefix(PREFIXES[i] + tail, j) == Some(tail)
    decreases i - j
  {
    var channel := PREFIXES[i] + tail;
    if j == i {
      assert channel[|PREFIXES[i]|..] == tail;
    } else {
      if !(j == 3 && i == 4) {
        PrefixesPart(j, i);
        var k := PartAt(j, i);
        assert channel[k] == PREFIXES[i][k];
      }
      assert !(PREFIXES[j] <= channel);
      SkipsEarlier(i, tail, j + 1);
    }
  }

  lemma EventsIsTheOnlyClash(text: string, proto: bool)
    requires ':' !in text
    ensures var tail := text + if proto then PROTO else "";
            PREFIXES[3] <= PREFIXES[4] + tail <==> proto && text == "events"
  {
    var tail := text + if proto then PROTO else "";
    assert PREFIXES[3] == PREFIXES[4] + "events:";
    if "events:" <= tail {
      assert tail[6] == ':';
      assert |text| == 6;
      assert text == tail[..6] == "events";
    }
    assert PREFIXES[3] <= PREFIXES[4] + tail <==> "events:" <= tail by {
      var p, q := PREFIXES[4], "events:";
      if p + q <= p + tail {
        assert forall k | 0 <= k < |q| :: tail[k] == (p + tail)[|p| + k] == (p + q)[|p| + k] == q[k];
      }
      if q <= tail {
        assert forall k | 0 <= k < |p + q| :: (p + q)[k] == (p + tail)[k];
      }
    }
  }

  /** The sub-account IDs written `events` and `proto`. */
  const EVENTS_ID: u64 := 24892348236
  const PROTO_ID: u64 := 541593548

  lemma OneMoreDigit(n: nat, quotient: nat, digit: nat)
    requires n == quotient * 58 + digit && digit < 58 && n > 0
    ensures ToBase(n, 58) == ToBase(quotient, 58) + [digit]
  {
    hide ToBase;
    assert n / 58 == quotient && n % 58 == digit;
    ToBaseUnfolds(n);
  }

  lemma ToBaseUnfolds(n: nat)
    requires n > 0
    ensures ToBase(n, 58) == ToBase(n / 58, 58) + [n % 58]
  {
  }

  lemma EventsDigits()
    ensures ToBase(EVENTS_ID, 58) == [37, 53, 37, 45, 51, 50]
  {
    assert ToBase(0, 58) == [];
    hide ToBase;
    OneMoreDigit(37, 0, 37);
    OneMoreDigit(2199, 37, 53);
    OneMoreDigit(127579, 2199, 37);
    OneMoreDigit(7399627, 127579, 45);
    OneMoreDigit(429178417, 7399627, 51);
    OneMoreDigit(24892348236, 429178417, 50);
  }

  lemma ProtoDigits()
    ensures ToBase(PROTO_ID, 58) == [47, 49, 46, 51, 46]
  {
    assert ToBase(0, 58) == [];
    hide ToBase;
    OneMoreDigit(47, 0, 47);
    OneMoreDigit(2775, 47, 49);
    OneMoreDigit(160996, 2775, 46);
    OneMoreDigit(9337819, 160996, 51);
    OneMoreDigit(541593548, 9337819, 46);
  }

  lemma BothAreIds()
    ensures FormatId(EVENTS_ID) == "events" && FormatId(PROTO_ID) == "proto"
  {
    hide FormatId, ToBase;
    FormatIdIs(EVENTS_ID);
    EventsDigits();
    FormatIdIs(PROTO_ID);
    ProtoDigits();
  }

  lemma ClashingText()
    ensures PREFIXES[4] + "events" + PROTO == "private:spot:triggers:events:proto"
    ensures PREFIXES[3] + "proto" == "private:spot:triggers:events:proto"
  {
  }

  /**
   The protobuf trigger channel of sub-account 24892348236 is `private:spot:triggers:events:proto`,
   which is read as the events channel of sub-account 541593548.
   */
  lemma EventsChannelClashes()
    ensures ChannelOf(4, EVENTS_ID, true) == "private:spot:triggers:events:proto"
    ensures SubaccountId("private:spot:triggers:events:proto") == Some(PROTO_ID)
  {
    hide FormatId, IdToU64, AfterPrefix;
    BothAreIds();
    ClashingText();
    SkipsEarlier(3, "proto", 0);
    assert WithoutProto("proto") == "proto";
    FormatIdHasNoColon(PROTO_ID);
    IdReadsBack(PROTO_ID);
  }

  lemma TextOfChannel(text: string, proto: bool)
    requires ':' !in text
    ensures WithoutProto(text + if proto then PROTO else "") == text
  {
    var rest := text + if proto then PROTO else "";
    if proto {
      assert rest[|rest| - |PROTO|..] == PROTO && rest[..|text|] == text;
    } else {
      assert rest == text;
      if |text| >= |PROTO| {
        assert text[|text| - |PROTO|..][0] == text[|text| - |PROTO|];
      }
    }
  }

  /**
   The channel of a sub-account leads back to its ID, for every kind, format and ID
   but one: the trigger channel, in protobuf, of the ID written `events`.
   */
  lemma ChannelNamesItsSubaccount(i: nat, id: u64, proto: bool)
    requires i < |PREFIXES|
    ensures SubaccountId(ChannelOf(i, id, proto)) == Some(id) <==> !(i == 4 && proto && id == EVENTS_ID)
  {
    hide FormatId, IdToU64, WithoutProto;
    var text := FormatId(id);
    var tail := text + if proto then PROTO else "";
    FormatIdHasNoColon(id);
    EventsIsTheOnlyClash(text, proto);
    BothAreIds();
    assert ChannelOf(i, id, proto) == PREFIXES[i] + tail;
    if i == 4 && proto && text == "events" {
      FormatIdIsInjective(id, EVENTS_ID);
      EventsChannelClashes();
    } else {
      SkipsEarlier(i, tail, 0);
      TextOfChannel(text, proto);
      IdReadsBack(id);
    }
  }

  /** The channels of a sub-account by name, with or without the suffix of the protobuf format. */
  lemma ChannelsByName(id: u64)
    ensures forall proto <- {"", ":proto"} ::
              && SubaccountId("private:ledger:balances:" + FormatId(id) + proto) == Some(id)
              && SubaccountId("private:ledger:transfers:" + FormatId(id) + proto) == Some(id)
              && SubaccountId("private:spot:trades:" + FormatId(id) + proto) == Some(id)
              && SubaccountId("private:spot:triggers:events:" + FormatId(id) + proto) == Some(id)
              && SubaccountId("private:chain:lifecycle:flows:" + FormatId(id) + proto) == Some(id)
    ensures SubaccountId("private:spot:triggers:" + FormatId(id) + "") == Some(id)
    ensures id != 24892348236 ==> SubaccountId("private:spot:triggers:" + FormatId(id) + ":proto") == Some(id)
  {
    hide FormatId, SubaccountId;
    NameOf(0, id);
    NameOf(1, id);
    NameOf(2, id);
    NameOf(3, id);
    NameOf(4, id);
    NameOf(5, id);
  }

  lemma NameOf(i: nat, id: u64)
    requires i < |PREFIXES|
    ensures SubaccountId(PREFIXES[i] + FormatId(id) + "") == Some(id)
    ensures !(i == 4 && id == 24892348236) ==> SubaccountId(PREFIXES[i] + FormatId(id) + ":proto") == Some(id)
  {
    hide FormatId, SubaccountId;
    ChannelNamesItsSubaccount(i, id, false);
    ChannelNamesItsSubaccount(i, id, true);
  }

  /** Any other channel is governed by no sub-account. */
  lemma OtherChannels(channel: string)
    requires !("private:ledger:balances:" <= channel) && !("private:ledger:transfers:" <= channel)
    requires !("private:spot:trades:" <= channel) && !("private:spot:triggers:events:" <= channel)
    requires !("private:spot:triggers:" <= channel) && !("private:chain:lifecycle:flows:" <= channel)
    ensures SubaccountId(channel) == None
  {
    assert AfterPrefix(channel, 6) == None;
    assert AfterPrefix(channel, 5) == None;
    assert AfterPrefix(channel, 4) == None;
    assert AfterPrefix(channel, 3) == None;
    assert AfterPrefix(channel, 2) == None;
    assert AfterPrefix(channel, 1) == None;
  }

  /** Behind the prefix stands one ID: not nothing, and nothing with a colon in it. */
  lemma OnlyOneId(i: nat, text: string)
    requires i < |PREFIXES| && i != 4 && (text == "" || ':' in text)
    ensures SubaccountId(PREFIXES[i] + (text + ":proto")) == None
    ensures text == "" ==> SubaccountId(PREFIXES[i] + text) == None
  {
    SkipsEarlier(i, text + PROTO, 0);
    SkipsEarlier(i, text, 0);
    hide AfterPrefix, IdToU64;
    var rest := text + PROTO;
    assert rest[|rest| - |PROTO|..] == PROTO && rest[..|text|] == text;
  }
}
