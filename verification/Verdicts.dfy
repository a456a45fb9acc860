/**
 What a failed call is reported as, by what the server said: which detail decides, what it
 decides, and what the caller may do. The cases are written out as the API names them.
 */
module Verdicts {
  import opened Numbers
  import opened Failure
  import opened Answers
  import Decimals

  // ----- which detail decides -----

  /** Connect codes that say no more than that the call failed. */
  predicate Failing(code: ConnectCode) {
    || code == Internal || code == Unknown || code == DataLoss || code == Canceled || code == Unavailable
    || code == DeadlineExceeded
  }

  predicate CodeIsSilent(detail: EnumCode, code: ConnectCode) {
    detail.Unset? || (detail.Unnamed? && Failing(code))
  }

  /** The detail decides nothing: no code, or one this SDK cannot name behind a mere failure. */
  predicate Silent(detail: Detail, code: ConnectCode) {
    match detail
    case RateLimit(empty) => empty
    case Auth(c) => CodeIsSilent(c, code)
    case Order(c, backoff) => if c.Unset? then backoff != Some(false) else CodeIsSilent(c, code)
    case Withdraw(c) => CodeIsSilent(c, code)
    case Ledger(c) => CodeIsSilent(c, code)
    case Transfer(c) => CodeIsSilent(c, code)
    case _ => true
  }

  /** Order codes for an unknown outcome come first, then final refusals, then all else. */
  function Rank(detail: Detail): nat {
    match detail
    case Order(c, _) => if IsOutcomeUnknown(Label(c)) then 0 else if IsFinalResource(Label(c)) then 1 else 2
    case _ => 2
  }

  /** The detail at `i` speaks, and comes before every other that does. */
  ghost predicate Decides(details: seq<Detail>, i: nat, code: ConnectCode) {
    && i < |details| && !Silent(details[i], code)
    && forall j | 0 <= j < |details| && j != i && !Silent(details[j], code) ::
         Rank(details[i]) < Rank(details[j]) || (Rank(details[i]) == Rank(details[j]) && i < j)
  }

  /** No marker of this SDK, and a message that does not settle the matter itself. */
  ghost predicate Plain(e: ConnectError) {
    && GatewayRejection !in e.details && BareHttp !in e.details && e.message != "TIMESTAMP_SKEW"
    && (IsOutcomeUnknown(e.message) ==> exists i | 0 <= i < |e.details| :: Rank(e.details[i]) == 0)
  }

  lemma SilentHasNoVerdict(detail: Detail, code: ConnectCode)
    ensures DetailVerdict(detail, code) == None <==> Silent(detail, code)
  {
    hide OrderVerdict, ServiceVerdict, AuthVerdict;
  }

  lemma {:induction false} FirstVerdictOfBoth(a: seq<Detail>, b: seq<Detail>, code: ConnectCode)
    ensures FirstVerdict(a + b, code)
         == if FirstVerdict(a, code).Some? then FirstVerdict(a, code) else FirstVerdict(b, code)
    decreases |a|
  {
    hide DetailVerdict;
    if a == [] {
      assert a + b == b;
    } else {
      assert (a + b)[1..] == a[1..] + b;
      FirstVerdictOfBoth(a[1..], b, code);
    }
  }

  lemma {:induction false} NoneOfRank(details: seq<Detail>, rank: nat, code: ConnectCode)
    requires forall j | 0 <= j < |details| && Rank(details[j]) == rank :: Silent(details[j], code)
    ensures FirstVerdict(WithPriority(details, rank), code) == None
    decreases |details|
  {
    hide DetailVerdict, Silent, IsOutcomeUnknown, IsFinalResource;
    if details != [] {
      NoneOfRank(details[1..], rank, code);
      if Rank(details[0]) == rank {
        SilentHasNoVerdict(details[0], code);
        assert ([details[0]] + WithPriority(details[1..], rank))[1..] == WithPriority(details[1..], rank);
      } else {
        assert [] + WithPriority(details[1..], rank) == WithPriority(details[1..], rank);
      }
    }
  }

  lemma {:induction false} FirstOfRank(details: seq<Detail>, i: nat, code: ConnectCode)
    requires i < |details| && !Silent(details[i], code)
    requires forall j | 0 <= j < i && Rank(details[j]) == Rank(details[i]) :: Silent(details[j], code)
    ensures FirstVerdict(WithPriority(details, Rank(details[i])), code) == DetailVerdict(details[i], code)
    decreases |details|
  {
    hide DetailVerdict, Silent, IsOutcomeUnknown, IsFinalResource;
    var rank := Rank(details[i]);
    SilentHasNoVerdict(details[0], code);
    var rest := WithPriority(details[1..], rank);
    if i > 0 {
      FirstOfRank(details[1..], i - 1, code);
      assert ([details[0]] + rest)[1..] == rest && [] + rest == rest;
    } else {
      assert WithPriority(details, rank)[0] == details[0];
    }
  }

  lemma RankIsPriority(detail: Detail)
    ensures Rank(detail) == Priority(detail) <= 2
  {
    hide IsOutcomeUnknown, IsFinalResource;
  }

  /** The verdict is that of the deciding detail, wherever it stands among the others. */
  lemma DecidingVerdict(details: seq<Detail>, i: nat, code: ConnectCode)
    requires Decides(details, i, code)
    ensures FirstVerdict(Sorted(details), code) == DetailVerdict(details[i], code)
  {
    hide DetailVerdict, Silent, Rank, WithPriority;
    var zero, one, two := WithPriority(details, 0), WithPriority(details, 1), WithPriority(details, 2);
    RankIsPriority(details[i]);
    FirstOfRank(details, i, code);
    if Rank(details[i]) > 0 {
      NoneOfRank(details, 0, code);
    }
    if Rank(details[i]) > 1 {
      NoneOfRank(details, 1, code);
    }
    SilentHasNoVerdict(details[i], code);
    FirstVerdictOfBoth(zero + one, two, code);
    FirstVerdictOfBoth(zero, one, code);
  }

  lemma NoVerdictAtAll(details: seq<Detail>, code: ConnectCode)
    requires forall j | 0 <= j < |details| :: Silent(details[j], code)
    ensures FirstVerdict(Sorted(details), code) == None
  {
    hide Silent, Rank, WithPriority;
    NoneOfRank(details, 0, code);
    NoneOfRank(details, 1, code);
    NoneOfRank(details, 2, code);
    FirstVerdictOfBoth(WithPriority(details, 0) + WithPriority(details, 1), WithPriority(details, 2), code);
    FirstVerdictOfBoth(WithPriority(details, 0), WithPriority(details, 1), code);
  }

  lemma {:induction false} SomeOfRankZero(details: seq<Detail>, i: nat)
    requires i < |details| && Rank(details[i]) == 0
    ensures WithPriority(details, 0) != [] && Rank(WithPriority(details, 0)[0]) == 0
    decreases |details|
  {
    hide Rank;
    RankIsPriority(details[0]);
    if Rank(details[0]) != 0 {
      SomeOfRankZero(details[1..], i - 1);
    }
  }

  /** Nothing comes before the details of a plain error. */
  lemma PlainGoesByDetails(e: ConnectError, names: Names, browserBan: bool)
    requires Plain(e)
    ensures MapError(e, names, browserBan)
         == match FirstVerdict(Sorted(e.details), e.code)
            case Some(error) => error
            case None => FromConnectCode(e, names, browserBan)
  {
    hide FirstVerdict, FromConnectCode, Rank, WithPriority;
    if IsOutcomeUnknown(e.message) {
      var i :| 0 <= i < |e.details| && Rank(e.details[i]) == 0;
      SomeOfRankZero(e.details, i);
      RankIsPriority(WithPriority(e.details, 0)[0]);
      assert Sorted(e.details)[0] == WithPriority(e.details, 0)[0];
    }
  }

  lemma DetailDecides(e: ConnectError, names: Names, browserBan: bool, i: nat)
    requires Plain(e) && Decides(e.details, i, e.code)
    ensures Some(MapError(e, names, browserBan)) == DetailVerdict(e.details[i], e.code)
  {
    hide DetailVerdict, FirstVerdict, FromConnectCode, Silent, Rank, MapError, Sorted;
    PlainGoesByDetails(e, names, browserBan);
    DecidingVerdict(e.details, i, e.code);
    SilentHasNoVerdict(e.details[i], e.code);
  }

  // ----- what it decides -----

  /** A rate-limit detail that says anything reports the call as rate limited. */
  lemma RateLimitDecides(e: ConnectError, names: Names, browserBan: bool, i: nat)
    requires Plain(e) && Decides(e.details, i, e.code) && e.details[i] == RateLimit(false)
    ensures MapError(e, names, browserBan) == RateLimited
  {
    hide MapError;
    DetailDecides(e, names, browserBan, i);
  }

  const KEY_FAULTS := {
    "SIGNATURE_INVALID", "MISSING_HEADERS", "KEY_EXPIRED", "KEY_DISABLED", "IP_NOT_ALLOWED", "API_KEY_NOT_ACCEPTED"}

  lemma FaultNames()
    ensures API_KEY_REJECTIONS == set fault | fault in KEY_FAULTS :: "AUTH_" + fault
  {
    assert "AUTH_" + "SIGNATURE_INVALID" == "AUTH_SIGNATURE_INVALID";
    assert "AUTH_" + "MISSING_HEADERS" == "AUTH_MISSING_HEADERS";
    assert "AUTH_" + "KEY_EXPIRED" == "AUTH_KEY_EXPIRED";
    assert "AUTH_" + "KEY_DISABLED" == "AUTH_KEY_DISABLED";
    assert "AUTH_" + "IP_NOT_ALLOWED" == "AUTH_IP_NOT_ALLOWED";
    assert "AUTH_" + "API_KEY_NOT_ACCEPTED" == "AUTH_API_KEY_NOT_ACCEPTED";
  }

  lemma FaultIsBare(fault: string)
    requires fault in KEY_FAULTS
    ensures WithoutPrefix("AUTH_" + fault, "AUTH_") == fault
  {
    assert fault[1] != 'U';
    assert ("AUTH_" + fault)[5..] == fault;
  }

  lemma FaultIsNoOther(fault: string)
    requires fault in KEY_FAULTS
    ensures "AUTH_" + fault != "AUTH_TIMESTAMP_SKEW" && "AUTH_" + fault != "AUTH_SESSION_KIND_NOT_ALLOWED"
  {
    var code := "AUTH_" + fault;
    assert code[5..] == fault && "AUTH_TIMESTAMP_SKEW"[5..] == "TIMESTAMP_SKEW";
    assert "AUTH_SESSION_KIND_NOT_ALLOWED"[5..] == "SESSION_KIND_NOT_ALLOWED";
  }

  /** An auth code with no error of its own. */
  ghost predicate IsPassedOn(code: EnumCode) {
    && code != Named("AUTH_TIMESTAMP_SKEW") && code != Named("AUTH_SESSION_KIND_NOT_ALLOWED")
    && forall fault <- KEY_FAULTS :: code != Named("AUTH_" + fault)
  }

  lemma AuthVerdictIs(code: EnumCode)
    ensures AuthVerdict(Named("AUTH_TIMESTAMP_SKEW")) == TimestampSkew
    ensures AuthVerdict(Named("AUTH_SESSION_KIND_NOT_ALLOWED")) == SessionRequired
    ensures forall fault <- KEY_FAULTS :: AuthVerdict(Named("AUTH_" + fault)) == ApiKeyRejected(fault)
    ensures IsPassedOn(code) ==> AuthVerdict(code) == Api(Label(code))
  {
    hide WithoutPrefix, Label;
    FaultNames();
    hide API_KEY_REJECTIONS, KEY_FAULTS;
    forall fault | fault in KEY_FAULTS
      ensures AuthVerdict(Named("AUTH_" + fault)) == ApiKeyRejected(fault)
    {
      FaultIsBare(fault);
      FaultIsNoOther(fault);
    }
  }

  /** The auth codes that have an error of their own; any other code is passed on. */
  lemma AuthDecides(e: ConnectError, names: Names, browserBan: bool, i: nat)
    requires Plain(e) && Decides(e.details, i, e.code) && e.details[i].Auth?
    ensures var code, error := e.details[i].authCode, MapError(e, names, browserBan);
            && (code == Named("AUTH_TIMESTAMP_SKEW") ==> error == TimestampSkew)
            && (code == Named("AUTH_SESSION_KIND_NOT_ALLOWED") ==> error == SessionRequired)
            && (forall fault <- KEY_FAULTS | code == Named("AUTH_" + fault) :: error == ApiKeyRejected(fault))
            && (IsPassedOn(code) ==> error == Api(Label(code)))
  {
    hide MapError, AuthVerdict, KEY_FAULTS, Label, OrderVerdict, ServiceVerdict, Rank;
    DetailDecides(e, names, browserBan, i);
    AuthVerdictIs(e.details[i].authCode);
  }

  /**
   An order code for capacity, or one with a backoff, is a rate limit, unless it leaves the outcome
   unknown or is final. When the service is unavailable, any other code that is neither those nor an
   invalid routing is an admission refusal or a failure. What is left reads like an authentication
   failure or is passed on.
   */
  lemma OrderDecides(e: ConnectError, names: Names, browserBan: bool, i: nat)
    requires Plain(e) && Decides(e.details, i, e.code) && e.details[i].Order?
    ensures var code, error := Label(e.details[i].orderCode), MapError(e, names, browserBan);
            var settled := IsOutcomeUnknown(code) || IsFinalResource(code);
            if !settled && (e.details[i].backoff.Some? || IsRetryableResource(code)) then error == RateLimited
            else if !settled && e.code == Unavailable && code != "ERROR_CODE_ACCOUNT_ROUTING_INVALID" then
              error == if IsAdmissionRefusal(code) then AdmissionUnavailable(code) else ServerError
            else error == if IsAuthLike(code) then AuthError else Api(code)
  {
    hide MapError, Label, IsAuthLike, IsOutcomeUnknown, IsFinalResource, IsRetryableResource, IsAdmissionRefusal, Rank;
    DetailDecides(e, names, browserBan, i);
  }

  /** A withdrawal, transfer or ledger code: only the first two know a rate limit. */
  lemma ServiceDecides(e: ConnectError, names: Names, browserBan: bool, i: nat)
    requires Plain(e) && Decides(e.details, i, e.code)
    requires e.details[i].Withdraw? || e.details[i].Transfer? || e.details[i].Ledger?
    ensures var detail, error := e.details[i], MapError(e, names, browserBan);
            var code := match detail
                        case Withdraw(c) => c
                        case Transfer(c) => c
                        case _ => detail.ledgerCode;
            if !detail.Ledger? && code == Named("ERROR_CODE_RATE_LIMIT_EXCEEDED") then error == RateLimited
            else if e.code == Unavailable then error == ServerError
            else error == if IsAuthLike(Label(code)) then AuthError else Api(Label(code))
  {
    hide MapError, Label, IsAuthLike, Rank, AuthVerdict, OrderVerdict;
    DetailDecides(e, names, browserBan, i);
  }

  // ----- when no detail decides -----

  /** No detail says anything; the code is the problem's, or else the message. */
  ghost predicate NoDetailDecides(e: ConnectError) {
    Plain(e) && forall j | 0 <= j < |e.details| :: Silent(e.details[j], e.code)
  }

  /** The code named is one the status or the Connect code gives a meaning of its own. */
  predicate Special(e: ConnectError, names: Names) {
    var code := OrderCodeFromName(NamedCode(e), names);
    || (e.code == Unavailable && e.status == 503
        && ((code != "ERROR_CODE_UNAVAILABLE" && IsAdmissionRefusal(code))
            || code == "ERROR_CODE_ACCOUNT_ROUTING_INVALID"))
    || IsOutcomeUnknown(NamedCode(e))
    || (e.code == ResourceExhausted && !IsRetryableResource(code)
        && (code in names.order || IsServiceCode(NamedCode(e))))
  }

  /** Such a code is passed on, save that at 503 an admission refusal is reported as one. */
  lemma SpecialIsPassedOn(e: ConnectError, names: Names, browserBan: bool)
    requires NoDetailDecides(e) && Special(e, names)
    ensures var code := OrderCodeFromName(NamedCode(e), names);
            MapError(e, names, browserBan)
              == if e.code == Unavailable && e.status == 503 && code != "ERROR_CODE_UNAVAILABLE"
                    && IsAdmissionRefusal(code)
                 then AdmissionUnavailable(code) else Api(code)
  {
    hide MapError, OrderCodeFromName, NamedCode, IsOutcomeUnknown, IsAdmissionRefusal, IsRetryableResource;
    hide IsServiceCode, Plain, Silent, FirstVerdict, Sorted;
    PlainGoesByDetails(e, names, browserBan);
    NoVerdictAtAll(e.details, e.code);
  }

  /** Without one, the Connect code alone says what happened, save for an edge's browser ban. */
  lemma ConnectCodeDecides(e: ConnectError, names: Names, browserBan: bool)
    requires NoDetailDecides(e) && !Special(e, names)
    ensures var error := MapError(e, names, browserBan);
            if browserBan || e.code == DeadlineExceeded then error == TransportError
            else if e.code == Unauthenticated || e.code == PermissionDenied then error == AuthError
            else if e.code == ResourceExhausted then error == RateLimited
            else if Failing(e.code) then error == ServerError
            else if e.code == Unimplemented then error == NotImplemented
            else error == Api(if ProblemCode(e.details).Some? then OrderCodeFromName(NamedCode(e), names)
                              else if e.code == InvalidArgument then "InvalidArgument"
                              else if e.code == NotFound then "NotFound"
                              else if e.code == AlreadyExists then "AlreadyExists"
                              else if e.code == FailedPrecondition then "FailedPrecondition"
                              else if e.code == Aborted then "Aborted"
                              else "OutOfRange")
  {
    hide MapError, OrderCodeFromName, NamedCode, IsOutcomeUnknown, IsAdmissionRefusal, IsRetryableResource;
    hide IsServiceCode, Plain, Silent, FirstVerdict, Sorted, ProblemCode;
    PlainGoesByDetails(e, names, browserBan);
    NoVerdictAtAll(e.details, e.code);
  }

  // ----- before any detail -----

  /** A marker of this SDK decides alone; then a message that is a time skew, and one that is an unknown outcome. */
  lemma MarkersDecide(e: ConnectError, names: Names, browserBan: bool)
    ensures var error := MapError(e, names, browserBan);
            if GatewayRejection in e.details then
              error == if e.message == "TIMESTAMP_SKEW" then TimestampSkew else ApiKeyRejected(e.message)
            else if BareHttp in e.details then
              error == if e.status == 404 then RouteNotFound
                       else if e.status == 504 then GatewayTimeout else NotImplemented
            else if e.message == "TIMESTAMP_SKEW" then error == TimestampSkew
            else if !Plain(e) then error == Api(OrderCodeFromName(e.message, names))
            else true
  {
    hide FirstVerdict, FromConnectCode, Rank, WithPriority, OrderCodeFromName;
    if !(exists i | 0 <= i < |e.details| :: Rank(e.details[i]) == 0) {
      NoRankZero(e.details);
      if Sorted(e.details) != [] {
        NotLedByZero(e.details);
      }
    }
  }

  lemma {:induction false} NoRankZero(details: seq<Detail>)
    requires forall i | 0 <= i < |details| :: Rank(details[i]) != 0
    ensures WithPriority(details, 0) == []
    decreases |details|
  {
    hide Rank;
    if details != [] {
      RankIsPriority(details[0]);
      NoRankZero(details[1..]);
    }
  }

  lemma {:induction false} AllOfRank(details: seq<Detail>, rank: nat)
    ensures forall detail <- WithPriority(details, rank) :: Rank(detail) == rank
    decreases |details|
  {
    hide Rank;
    if details != [] {
      RankIsPriority(details[0]);
      AllOfRank(details[1..], rank);
    }
  }

  lemma NotLedByZero(details: seq<Detail>)
    requires WithPriority(details, 0) == [] && Sorted(details) != []
    ensures Priority(Sorted(details)[0]) != 0
  {
    hide Rank, WithPriority;
    AllOfRank(details, 1);
    AllOfRank(details, 2);
    RankIsPriority(Sorted(details)[0]);
    assert Sorted(details)[0] in WithPriority(details, 1) || Sorted(details)[0] in WithPriority(details, 2);
  }

  // ----- what the caller may do -----

  /** A mutation may still have been applied exactly after these; nothing else leaves the outcome open. */
  lemma OutcomeUnknownExactly(error: Error)
    ensures MutationOutcomeUnknown(error)
       <==> || error == TransportError || error == ServerError || error == GatewayTimeout || error == RouteNotFound
            || exists action: string :: error == Api(action + "_OUTCOME_UNKNOWN")
  {
    if error.Api? && IsOutcomeUnknown(error.code) {
      var action := error.code[..|error.code| - |OUTCOME_UNKNOWN|];
      assert error.code == action + "_OUTCOME_UNKNOWN";
    }
    forall action: string | error == Api(action + "_OUTCOME_UNKNOWN")
      ensures MutationOutcomeUnknown(error)
    {
      assert error.code[|error.code| - |OUTCOME_UNKNOWN|..] == "_OUTCOME_UNKNOWN";
    }
  }

  /** A call may be tried again exactly after these, none of which leaves its outcome open. */
  lemma RetryableExactly(error: Error)
    ensures IsRetryable(error)
       <==> || error == RateLimited || error.AdmissionUnavailable? || error == TimestampSkew
            || error == Api("AUTH_TEMPORARILY_UNAVAILABLE") || error == Api("ERROR_CODE_ACCOUNT_REPAIRING")
    ensures !(IsRetryable(error) && MutationOutcomeUnknown(error))
  {
    EndsOtherwise("AUTH_TEMPORARILY_UNAVAILABLE");
    EndsOtherwise("ERROR_CODE_ACCOUNT_REPAIRING");
  }

  lemma EndsOtherwise(code: string)
    requires code != "" && code[|code| - 1] != 'N'
    ensures !IsOutcomeUnknown(code)
  {
    if IsOutcomeUnknown(code) {
      LastOf(code);
    }
  }

  // ----- the code lists -----

  lemma BareOnce(name: string)
    requires !("ERROR_CODE_" <= name)
    ensures Bare(name) == name && Bare("ERROR_CODE_" + name) == name
  {
    assert ("ERROR_CODE_" + name)[|PREFIX|..] == name;
  }

  /** The capacity codes that may be tried again, the final ones and the admission refusals, by name. */
  lemma ListedCodes(name: string)
    requires !("ERROR_CODE_" <= name)
    ensures IsRetryableResource("ERROR_CODE_" + name) == IsRetryableResource(name)
         == (name in {
               "OVERLOADED", "SYSTEM_RATE_LIMITED", "RATE_LIMIT_EXCEEDED", "PRICE_LEVELS_EXHAUSTED",
               "CLIENT_ORDER_IDS_EXHAUSTED", "CLIENT_ORDER_ID_CAPACITY_REACHED", "MARKET_LADDER_LIMIT_EXCEEDED",
               "MARKET_TRIGGER_LIMIT_EXCEEDED", "MARKET_TWAP_LIMIT_EXCEEDED", "NEW_ACCOUNT_CAPACITY_REACHED",
               "REQUEST_RECEIPTS_EXHAUSTED", "RESERVATION_CAPACITY_REACHED", "TRIGGER_CAPACITY_REACHED",
               "TRIGGER_CONTROL_SHARE_EXHAUSTED", "TWAP_CAPACITY_REACHED"})
    ensures IsFinalResource("ERROR_CODE_" + name) == IsFinalResource(name)
         == (name in {
               "ORDER_SEQUENCE_EXHAUSTED", "TRIGGER_FIRE_LIMIT_REACHED", "QUICKSWAP_CAPACITY_REACHED",
               "ACCOUNT_RESERVATION_LIMIT_REACHED", "TRIGGER_LIMIT_EXCEEDED"})
    ensures IsAdmissionRefusal("ERROR_CODE_" + name) == IsAdmissionRefusal(name)
         == (name in {
               "UNAVAILABLE", "FEE_SCHEDULE_UNAVAILABLE", "POLICY_UNAVAILABLE", "RATE_LIMIT_POLICY_UNAVAILABLE",
               "PAIR_BACKLOGGED", "SETTLEMENT_BACKLOGGED", "ORDER_MODIFY_IN_PROGRESS", "ORDER_PLACEMENT_PENDING",
               "TRIGGER_CONTROLS_BUSY", "TRIGGER_CONTROL_IN_PROGRESS", "QUICKSWAP_ACCOUNT_OWNER_UNKNOWN"})
  {
    BareOnce(name);
    hide Bare;
  }

  /** The first problem among the details names the code, else the message does; a placeholder names none. */
  lemma CodeIsNamed(e: ConnectError, i: nat, code: string)
    requires (forall j | 0 <= j < i && j < |e.details| :: !e.details[j].Problem?)
    requires if i < |e.details| then e.details[i] == Problem(code) else code == e.message
    ensures NamedCode(e)
         == if code == "UNSPECIFIED" || code == "ERROR_CODE_UNSPECIFIED" || code == "AUTH_UNSPECIFIED"
            then "" else code
  {
    ProblemIsFirst(e.details, i);
  }

  lemma {:induction false} ProblemIsFirst(details: seq<Detail>, i: nat)
    requires forall j | 0 <= j < i && j < |details| :: !details[j].Problem?
    requires i < |details| ==> details[i].Problem?
    ensures ProblemCode(details) == if i < |details| then Some(details[i].code) else None
    decreases |details|
  {
    if i > 0 && details != [] {
      ProblemIsFirst(details[1..], i - 1);
    }
  }

  // ----- answers with a known code -----

  /** A code of the API that no rule of its own takes out before the status is looked at. */
  ghost predicate KnownAnswer(a: Answer, code: string, names: Names) {
    && CodeIn(a) == Some(code) && ParseConnect(code) == None && (a.problem.Some? ==> a.problem == Some(code))
    && (IsRecognised(code, names) || (a.status == 429 && IsServiceCode(code)))
    && !IsOutcomeUnknown(OrderName(code)) && !IsRetryableResource(OrderName(code))
    && OrderName(code) != "ERROR_CODE_ORDER_SEQUENCE_EXHAUSTED" && code != "TIMESTAMP_SKEW"
    && code != "AUTH_SUBACCOUNT_OWNER_ROLE_LOCKED" && code != "AUTH_SESSION_KIND_NOT_ALLOWED"
    && var message := ProblemMessage(a.body.value, code);
    message != "TIMESTAMP_SKEW" && !IsOutcomeUnknown(message)
  }

  /** The status of an answer as a Connect code. */
  function CodeOfStatus(status: nat): ConnectCode {
    if status == 401 then Unauthenticated
    else if status == 403 then PermissionDenied
    else if status == 400 || status == 413 || status == 422 then InvalidArgument
    else if status == 404 then NotFound
    else if status == 409 then AlreadyExists
    else if status == 429 then ResourceExhausted
    else if status == 502 || status == 503 || status == 504 then Unavailable
    else if status == 501 then Unimplemented
    else if status >= 500 then Internal
    else FailedPrecondition
  }

  function ProblemPart(a: Answer): seq<Detail> {
    match a.problem
    case None => []
    case Some(code) => [Problem(code)]
  }

  lemma KnownIsClassified(a: Answer, code: string, names: Names)
    requires KnownAnswer(a, code, names)
    ensures var marker := if a.status == 401 || a.status == 403 then [GatewayRejection]
                          else if a.status == 501 || a.status == 504 then [BareHttp] else [];
            var message := if a.status == 401 || a.status == 403 then code else ProblemMessage(a.body.value, code);
            Classified(a, names)
              == Some(ConnectError(CodeOfStatus(a.status), message, a.status, marker + ProblemPart(a)))
  {
    hide ParseConnect, IsPlaceholderCode, IsRetryableResource, IsServiceCode, ProblemMessage, OrderName, IsRecognised;
    hide IsOutcomeUnknown;
    var message := ProblemMessage(a.body.value, code);
    assert FromServiceCode(a.status, code, message, names).Some?;
    assert forall marker: seq<Detail> :: marker + [] == marker;
  }

  lemma ProblemIsSilent(e: ConnectError, a: Answer)
    requires e.details == ProblemPart(a) && e.message != "TIMESTAMP_SKEW" && !IsOutcomeUnknown(e.message)
    ensures NoDetailDecides(e)
    ensures ProblemCode(e.details) == a.problem
  {
    hide IsOutcomeUnknown;
  }

  /** What a known code is reported as when no marker goes with it. */
  predicate ReportedAs(error: Error, status: nat, code: string, names: Names) {
    var named := OrderCodeFromName(code, names);
    if status == 503 && named != "ERROR_CODE_UNAVAILABLE" && IsAdmissionRefusal(named) then
      error == AdmissionUnavailable(named)
    else if status == 503 && named == "ERROR_CODE_ACCOUNT_ROUTING_INVALID" then error == Api(named)
    else if status >= 500 then error == ServerError
    else if status == 429 && (IsRetryableResource(named) || !(IsServiceCode(code) || named in names.order)) then
      error == RateLimited
    else error == Api(named)
  }

  lemma UnmarkedIsReported(e: ConnectError, code: string, names: Names)
    requires NoDetailDecides(e) && NamedCode(e) == code && ProblemCode(e.details).Some? && !IsOutcomeUnknown(code)
    requires e.code == CodeOfStatus(e.status) && e.status !in {401, 403, 501, 504}
    ensures ReportedAs(MapError(e, names, false), e.status, code, names)
  {
    hide NoDetailDecides, NamedCode, ProblemCode, IsOutcomeUnknown, MapError, IsServiceCode, OrderCodeFromName;
    hide IsRetryableResource, IsAdmissionRefusal;
    if Special(e, names) {
      SpecialIsPassedOn(e, names, false);
    } else {
      ConnectCodeDecides(e, names, false);
    }
  }

  /**
   A known code is reported by its status: 401 and 403 reject the key, 501 and 504 speak for
   themselves; otherwise, with the problem read, 429 passes the code on or is a rate limit, 503
   tells an admission refusal or an invalid routing from a failure, any other 5xx is a failure,
   and the rest pass the code on.
   */
  lemma KnownCodeAnswer(a: Answer, code: string, names: Names)
    requires KnownAnswer(a, code, names) && !IsOutcomeUnknown(code)
    ensures Classified(a, names).Some?
    ensures var error := MapError(Classified(a, names).value, names, false);
            if a.status == 401 || a.status == 403 then error == ApiKeyRejected(code)
            else if a.status == 501 then error == NotImplemented
            else if a.status == 504 then error == GatewayTimeout
            else a.problem.Some? ==> ReportedAs(error, a.status, code, names)
  {
    hide KnownAnswer, ProblemMessage, OrderCodeFromName, MapError, Classified, NoDetailDecides, ProblemCode, ReportedAs;
    KnownIsClassified(a, code, names);
    KnownIsNoSkew(a, code, names);
    var e := Classified(a, names).value;
    if a.status in {401, 403, 501, 504} {
      assert e.details[0] in e.details;
      MarkersDecide(e, names, false);
    } else if a.problem.Some? {
      assert e.details == ProblemPart(a) == [Problem(code)];
      ProblemIsSilent(e, a);
      CodeIsNamed(e, 0, code);
      UnmarkedIsReported(e, code, names);
    }
  }

  lemma KnownIsNoSkew(a: Answer, code: string, names: Names)
    requires KnownAnswer(a, code, names)
    ensures a.body.Some? && code != "TIMESTAMP_SKEW" && (a.problem.Some? ==> a.problem == Some(code))
    ensures var message := ProblemMessage(a.body.value, code); message != "TIMESTAMP_SKEW" && !IsOutcomeUnknown(message)
    ensures code != "UNSPECIFIED" && code != "ERROR_CODE_UNSPECIFIED" && code != "AUTH_UNSPECIFIED"
  {
    hide ProblemMessage, IsOutcomeUnknown, IsRecognised;
  }

  // ----- answers whose code has a rule of its own -----

  ghost predicate Coded(a: Answer, code: string) {
    && CodeIn(a) == Some(code) && ParseConnect(code) == None && (a.problem.Some? ==> a.problem == Some(code))
    && ProblemMessage(a.body.value, code) != "TIMESTAMP_SKEW" && !IsOutcomeUnknown(ProblemMessage(a.body.value, code))
  }

  lemma OrderDetailAlone(e: ConnectError, detail: Detail, a: Answer)
    requires e.details == [detail] + ProblemPart(a) && !detail.GatewayRejection? && !detail.BareHttp?
    requires e.message != "TIMESTAMP_SKEW" && !IsOutcomeUnknown(e.message) && !Silent(detail, e.code)
    ensures Plain(e) && Decides(e.details, 0, e.code) && e.details[0] == detail
  {
    hide IsOutcomeUnknown, Rank;
    assert forall j | 0 < j < |e.details| :: e.details[j].Problem? && Silent(e.details[j], e.code);
  }

  /**
   A capacity code this SDK knows is a rate limit at any status, and the exhausted order sequence is
   passed on; one it does not know is left to the transport library.
   */
  lemma CapacityAnswer(a: Answer, code: string, names: Names)
    requires Coded(a, code) && !IsOutcomeUnknown(OrderName(code))
    requires IsRetryableResource(OrderName(code)) || OrderName(code) == "ERROR_CODE_ORDER_SEQUENCE_EXHAUSTED"
    ensures Classified(a, names).Some? <==> OrderName(code) in names.order
    ensures OrderName(code) in names.order && !IsFinalResource(OrderName(code)) ==>
              MapError(Classified(a, names).value, names, false) == RateLimited
    ensures OrderName(code) in names.order && OrderName(code) == "ERROR_CODE_ORDER_SEQUENCE_EXHAUSTED" ==>
              MapError(Classified(a, names).value, names, false) == Api("ERROR_CODE_ORDER_SEQUENCE_EXHAUSTED")
  {
    hide ParseConnect, IsPlaceholderCode, IsRetryableResource, IsFinalResource, ProblemMessage, OrderName, MapError;
    hide IsOutcomeUnknown;
    if OrderName(code) in names.order {
      var e := Classified(a, names).value;
      var detail := Order(Named(OrderName(code)), None);
      assert [detail] + [] == [detail];
      assert e.details == [detail] + ProblemPart(a);
      OrderDetailAlone(e, detail, a);
      OrderDecides(e, names, false, 0);
      ExhaustedIsFinal();
    }
  }

  lemma ExhaustedIsFinal()
    ensures var code := "ERROR_CODE_ORDER_SEQUENCE_EXHAUSTED";
            IsFinalResource(code) && !IsAuthLike(code) && !IsOutcomeUnknown(code)
  {
    hide IsAuthLike, IsOutcomeUnknown, Bare;
    var code, name := "ERROR_CODE_ORDER_SEQUENCE_EXHAUSTED", "ORDER_SEQUENCE_EXHAUSTED";
    assert name[0] == 'O' && PREFIX[0] == 'E';
    assert code == "ERROR_CODE_" + name;
    BareOnce(name);
    EndsOtherwise(code);
    NotAuthLike(code);
  }

  /** Each of the five words has an `I`. */
  lemma NotAuthLike(code: string)
    requires 'I' !in code
    ensures !IsAuthLike(code)
  {
    hide Contains;
    if Contains(code, "UNAUTHENTICATED") {
      PartNeedsItsChars(code, "UNAUTHENTICATED", 9);
    }
    if Contains(code, "PERMISSION") {
      PartNeedsItsChars(code, "PERMISSION", 4);
    }
    if Contains(code, "API_KEY") {
      PartNeedsItsChars(code, "API_KEY", 2);
    }
    if Contains(code, "WALLET_BINDING") {
      PartNeedsItsChars(code, "WALLET_BINDING", 8);
    }
    if Contains(code, "POLICY") {
      PartNeedsItsChars(code, "POLICY", 3);
    }
  }

  /** The two auth codes with a rule of their own: the one says what is locked, the other which session is needed. */
  lemma AuthProblemAnswer(a: Answer, code: string, names: Names)
    requires Coded(a, code) && code in {"AUTH_SUBACCOUNT_OWNER_ROLE_LOCKED", "AUTH_SESSION_KIND_NOT_ALLOWED"}
    ensures Classified(a, names).Some?
    ensures MapError(Classified(a, names).value, names, false)
         == if code == "AUTH_SESSION_KIND_NOT_ALLOWED" then SessionRequired else Api(code)
  {
    hide ProblemMessage, MapError, IsOutcomeUnknown, AuthProblem;
    AuthProblemIsClassified(a, code, names);
    AuthProblemIs(code);
    var e := Classified(a, names).value;
    OrderDetailAlone(e, Auth(Named(code)), a);
    hide Plain, Decides, KEY_FAULTS, Classified, Coded;
    AuthDecides(e, names, false, 0);
    LockedIsPassedOn();
  }

  /** The Connect code of an auth problem. */
  function AuthProblem(code: string): ConnectCode {
    if code == "AUTH_SESSION_KIND_NOT_ALLOWED" then PermissionDenied else FailedPrecondition
  }

  lemma AuthProblemIs(code: string)
    ensures !Failing(AuthProblem(code))
  {
  }

  lemma AuthProblemIsClassified(a: Answer, code: string, names: Names)
    requires Coded(a, code) && code in {"AUTH_SUBACCOUNT_OWNER_ROLE_LOCKED", "AUTH_SESSION_KIND_NOT_ALLOWED"}
    ensures a.body.Some?
    ensures Classified(a, names)
         == Some(ConnectError(AuthProblem(code), ProblemMessage(a.body.value, code), a.status,
                              [Auth(Named(code))] + ProblemPart(a)))
  {
    hide ParseConnect, IsPlaceholderCode, ProblemMessage, IsOutcomeUnknown, IsRetryableResource, OrderName;
    OrdinaryCode(code);
    assert [Auth(Named(code))] + [] == [Auth(Named(code))];
  }

  lemma LockedIsPassedOn()
    ensures IsPassedOn(Named("AUTH_SUBACCOUNT_OWNER_ROLE_LOCKED"))
  {
    var locked := "AUTH_SUBACCOUNT_OWNER_ROLE_LOCKED";
    forall fault | fault in KEY_FAULTS
      ensures locked != "AUTH_" + fault
    {
      assert locked[5..] == "SUBACCOUNT_OWNER_ROLE_LOCKED";
      assert ("AUTH_" + fault)[5..] == fault;
    }
  }

  lemma CapacityInitials(code: string)
    requires IsRetryableResource(code)
    ensures var name := Bare(code);
            |name| > 1 && name[0] != 'A' && (name[0] == 'T' ==> name[1] != 'I')
  {
    hide Bare;
  }

  /** A code that starts otherwise than the capacity codes and ends otherwise than the unknown outcomes. */
  lemma OrdinaryCode(code: string)
    requires |code| > 1 && (code[0] == 'A' || (code[0] == 'T' && code[1] == 'I')) && code[|code| - 1] != 'N'
    ensures var name := OrderName(code);
            && !IsOutcomeUnknown(name) && !IsRetryableResource(name) && name != "ERROR_CODE_ORDER_SEQUENCE_EXHAUSTED"
  {
    hide IsOutcomeUnknown, IsRetryableResource, Bare;
    assert !("ERROR_CODE_" <= code) by {
      assert PREFIX[0] == 'E';
    }
    var name := OrderName(code);
    assert name == "ERROR_CODE_" + code;
    EndsOtherwise(name);
    BareOnce(code);
    if IsRetryableResource(name) {
      CapacityInitials(name);
    }
    assert name[11] == code[0];
    var exhausted := "ERROR_CODE_ORDER_SEQUENCE_EXHAUSTED";
    assert exhausted[11] == 'O';
  }

  /** A time skew named as the code is reported as one at any status. */
  lemma SkewAnswer(a: Answer, names: Names)
    requires CodeIn(a) == Some("TIMESTAMP_SKEW")
    ensures Classified(a, names).Some? && MapError(Classified(a, names).value, names, false) == TimestampSkew
  {
    SkewIsNoOther();
    OrdinaryCode("TIMESTAMP_SKEW");
    hide ParseConnect, IsPlaceholderCode, ProblemMessage, MapError, IsOutcomeUnknown, IsRetryableResource, OrderName;
    var e := Classified(a, names).value;
    assert e.details[0] == GatewayRejection;
    MarkersDecide(e, names, false);
  }

  lemma SkewIsNoOther()
    ensures ParseConnect("TIMESTAMP_SKEW") == None
  {
  }

  // ----- answers with a Connect code, or with none -----

  /** Of the answers with a Connect code only one that says nothing is read here, and only at 401 and 403. */
  lemma ConnectAnswer(a: Answer, code: string, names: Names)
    requires CodeIn(a) == Some(code) && ParseConnect(code).Some?
    ensures Classified(a, names).Some? <==>
              && code in {"unknown", "data_loss", "canceled"} && !HasServiceDetail(a)
              && (a.status == 401 || a.status == 403)
    ensures Classified(a, names).Some? ==>
              var e := Classified(a, names).value;
              && e.code == (if a.status == 401 then Unauthenticated else PermissionDenied)
              && e.message == BodyMessage(a) && e.details == ProblemPart(a)
  {
    ParsedNames(code);
    hide ParseConnect, IsPlaceholderCode, HasServiceDetail, BodyMessage;
    assert [] + ProblemPart(a) == ProblemPart(a);
  }

  lemma ParsedNames(code: string)
    ensures ParseConnect(code) == Some(Unknown) <==> code == "unknown"
    ensures ParseConnect(code) == Some(DataLoss) <==> code == "data_loss"
    ensures ParseConnect(code) == Some(Canceled) <==> code == "canceled"
  {
  }

  /** What a router answers for a path it does not know. */
  predicate RouterSays(message: string) {
    Lower(Decimals.Trim(message)) in {"not found", "404 page not found", "404 not found"}
  }

  /**
   An answer with no code goes by its status, unless its details say what happened or Connect reads
   it rightly. A 404 of a router reports the route missing; any other leaves the outcome unknown,
   save for a message that is a time skew.
   */
  lemma UncodedAnswer(a: Answer, names: Names)
    requires CodeIn(a) == None && (a.problem.Some? ==> IsPlaceholderCode(a.problem.value) || a.body.None?)
    ensures Classified(a, names).Some? <==>
              || a.status == 504
              || (!HasServiceDetail(a) && 400 <= a.status < 600 && a.status !in {401, 403, 429, 502, 503})
    ensures Classified(a, names).Some? ==>
              var error := MapError(Classified(a, names).value, names, false);
              if a.status == 504 then error == GatewayTimeout
              else if a.status == 404 && (!a.isJson || a.empty || RouterSays(BodyMessage(a))) then
                error == RouteNotFound
              else if BodyMessage(a) == "TIMESTAMP_SKEW" then error == TimestampSkew
              else MutationOutcomeUnknown(error) && !IsRetryable(error)
  {
    hide MapError, BodyMessage, HasServiceDetail, IsOutcomeUnknown, FutureDetails, Lower, IsPlaceholderCode;
    if Classified(a, names).Some? {
      var e := Classified(a, names).value;
      if a.status == 504 || (a.status == 404 && (!a.isJson || a.empty || RouterSays(BodyMessage(a)))) {
        assert e.details[0] == BareHttp;
        MarkersDecide(e, names, false);
      } else {
        FutureIsSilent(BodyDetails(a));
        InternalIsUnknown(e, names);
      }
    }
  }

  lemma {:induction false} FutureIsSilent(details: seq<Detail>)
    ensures forall detail <- FutureDetails(details) :: CodeOf(detail).Some? && CodeOf(detail).value.Unnamed?
    decreases |details|
  {
    if details != [] {
      FutureIsSilent(details[1..]);
    }
  }

  /** Details that are no more than codes this SDK cannot name, or a problem. */
  ghost predicate SayNothing(details: seq<Detail>) {
    forall detail <- details :: detail.Problem? || (CodeOf(detail).Some? && CodeOf(detail).value.Unnamed?)
  }

  lemma InternalIsUnknown(e: ConnectError, names: Names)
    requires e.code == Internal && SayNothing(e.details)
    ensures var error := MapError(e, names, false);
            if e.message == "TIMESTAMP_SKEW" then error == TimestampSkew
            else MutationOutcomeUnknown(error) && !IsRetryable(error)
  {
    hide MapError, IsOutcomeUnknown, Label, NamedCode, OrderCodeFromName, ProblemCode;
    assert GatewayRejection !in e.details && BareHttp !in e.details;
    MarkersDecide(e, names, false);
    NothingRanksFirst(e.details);
    if IsOutcomeUnknown(e.message) {
      PrefixedIsUnknown(e.message, names);
    } else if e.message != "TIMESTAMP_SKEW" {
      assert forall j | 0 <= j < |e.details| :: Silent(e.details[j], Internal) by {
        assert forall j | 0 <= j < |e.details| :: e.details[j] in e.details;
      }
      PrefixedIsUnknown(NamedCode(e), names);
      if Special(e, names) {
        SpecialIsPassedOn(e, names, false);
      } else {
        ConnectCodeDecides(e, names, false);
      }
    }
  }

  lemma PrefixedIsUnknown(code: string, names: Names)
    ensures IsOutcomeUnknown(code) ==> IsOutcomeUnknown(OrderCodeFromName(code, names))
  {
    if IsOutcomeUnknown(code) {
      var prefixed := PREFIX + code;
      assert prefixed[|prefixed| - |OUTCOME_UNKNOWN|..] == code[|code| - |OUTCOME_UNKNOWN|..];
    }
  }

  lemma NothingRanksFirst(details: seq<Detail>)
    requires SayNothing(details)
    ensures forall i | 0 <= i < |details| :: Rank(details[i]) != 0
  {
    hide IsOutcomeUnknown, Label;
    forall i | 0 <= i < |details|
      ensures Rank(details[i]) != 0
    {
      assert details[i] in details;
      if details[i].Order? {
        UnnamedIsNotUnknown(details[i].orderCode);
      }
    }
  }

  // ----- what reads like an authentication failure -----

  /** A code does when one of five words is in it. */
  lemma AuthLikeExactly(code: string)
    ensures IsAuthLike(code)
       <==> exists before, word, after ::
              word in {"UNAUTHENTICATED", "PERMISSION", "API_KEY", "WALLET_BINDING", "POLICY"}
              && code == before + word + after
  {
    hide IsAuthLike;
    if IsAuthLike(code) {
      AuthLikeHasWord(code);
    }
    forall before: string, word: string, after: string
      | word in {"UNAUTHENTICATED", "PERMISSION", "API_KEY", "WALLET_BINDING", "POLICY"}
        && code == before + word + after
      ensures IsAuthLike(code)
    {
      WordIsAuthLike(code, before, word, after);
    }
  }

  lemma ContainsIs(code: string, word: string)
    ensures Contains(code, word) <==> exists before, after :: code == before + word + after
  {
    if Contains(code, word) {
      var i :| 0 <= i <= |code| && word <= code[i..];
      assert code == code[..i] + word + code[i..][|word|..];
    }
    forall before: string, after: string | code == before + word + after
      ensures Contains(code, word)
    {
      assert code[|before|..] == word + after;
    }
  }

  lemma AuthLikeHasWord(code: string)
    requires IsAuthLike(code)
    ensures exists before, word, after ::
              word in {"UNAUTHENTICATED", "PERMISSION", "API_KEY", "WALLET_BINDING", "POLICY"}
              && code == before + word + after
  {
    hide Contains;
    ContainsIs(code, "UNAUTHENTICATED");
    ContainsIs(code, "PERMISSION");
    ContainsIs(code, "API_KEY");
    ContainsIs(code, "WALLET_BINDING");
    ContainsIs(code, "POLICY");
  }

  lemma WordIsAuthLike(code: string, before: string, word: string, after: string)
    requires word in {"UNAUTHENTICATED", "PERMISSION", "API_KEY", "WALLET_BINDING", "POLICY"}
    requires code == before + word + after
    ensures IsAuthLike(code)
  {
    ContainsIs(code, word);
    hide Contains;
  }
}
