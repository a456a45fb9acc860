/** A failed HTTP answer, read as the Connect error the SDK maps. */
module Answers {
  import opened Numbers
  import opened Failure
  import Decimals

  /** The JSON body of a failed answer; its details are already decoded. */
  datatype Body = Body(
    code: Option<string>,
    title: Option<string>,
    detail: Option<string>,
    message: Option<string>,
    details: seq<Detail>)

  /**
   `body` is the JSON answer, when it is sent as JSON and every field has its type; `bare` is
   the excerpt reported when no message is given. `problem` is the code of the REST problem the
   bytes read as, whatever their content type.
   */
  datatype HttpAnswer = HttpAnswer(
    status: nat,
    isJson: bool,
    empty: bool,
    body: Option<Body>,
    bare: string,
    problem: Option<string>)

  const BARE_START := "HTTP "

  /** Body and problem are read from the same bytes; the excerpt is headed by the status. */
  predicate OneReading(a: HttpAnswer) {
    && (a.body.Some? ==> a.isJson && !a.empty && (a.problem.Some? ==> a.body.value.code == a.problem))
    && (a.problem.Some? ==> a.problem.value != "" && !a.empty)
    && BARE_START <= a.bare
  }

  type Answer = a: HttpAnswer | OneReading(a) witness HttpAnswer(500, false, false, None, "HTTP 500", None)

  // ----- reading the body -----

  function ParseConnect(code: string): Option<ConnectCode> {
    if code == "canceled" then Some(Canceled)
    else if code == "unknown" then Some(Unknown)
    else if code == "invalid_argument" then Some(InvalidArgument)
    else if code == "deadline_exceeded" then Some(DeadlineExceeded)
    else if code == "not_found" then Some(NotFound)
    else if code == "already_exists" then Some(AlreadyExists)
    else if code == "permission_denied" then Some(PermissionDenied)
    else if code == "resource_exhausted" then Some(ResourceExhausted)
    else if code == "failed_precondition" then Some(FailedPrecondition)
    else if code == "aborted" then Some(Aborted)
    else if code == "out_of_range" then Some(OutOfRange)
    else if code == "unimplemented" then Some(Unimplemented)
    else if code == "internal" then Some(Internal)
    else if code == "unavailable" then Some(Unavailable)
    else if code == "data_loss" then Some(DataLoss)
    else if code == "unauthenticated" then Some(Unauthenticated)
    else None
  }

  function NonEmpty(text: Option<string>): Option<string> {
    if text == Some("") then None else text
  }

  /** The problem's detail, or its title when it has none, or the code. */
  function ProblemMessage(body: Body, code: string): string {
    match NonEmpty(if body.detail.Some? then body.detail else body.title)
    case Some(text) => text
    case None => code
  }

  function BodyMessage(a: Answer): string {
    match a.body
    case None => a.bare
    case Some(body) =>
      if NonEmpty(body.message).Some? then body.message.value
      else if NonEmpty(body.detail).Some? then body.detail.value
      else if NonEmpty(body.title).Some? then body.title.value
      else a.bare
  }

  function BodyDetails(a: Answer): seq<Detail> {
    match a.body
    case None => []
    case Some(body) => body.details
  }

  predicate CarriesContractCode(detail: Detail) {
    (detail.RateLimit? || CodeOf(detail).Some?) && !SaysNothing(detail) && !HasFutureCode(detail)
  }

  predicate HasServiceDetail(a: Answer) {
    exists i | 0 <= i < |BodyDetails(a)| :: CarriesContractCode(BodyDetails(a)[i])
  }

  /** The body's code, when it is one. */
  function CodeIn(a: Answer): Option<string> {
    match a.body
    case None => None
    case Some(body) =>
      if body.code.None? || body.code.value == "" || IsPlaceholderCode(body.code.value) then None else body.code
  }

  function OrderName(code: string): string {
    if PREFIX <= code then code else PREFIX + code
  }

  // ----- the error of each kind of answer -----

  function RefusalByStatus(status: nat, message: string): Option<ConnectError> {
    if status == 401 then Some(ConnectError(Unauthenticated, message, status, []))
    else if status == 403 then Some(ConnectError(PermissionDenied, message, status, []))
    else None
  }

  function RestAuthProblem(code: string, message: string, status: nat): Option<ConnectError> {
    if code == "AUTH_SUBACCOUNT_OWNER_ROLE_LOCKED" then
      Some(ConnectError(FailedPrecondition, message, status, [Auth(Named(code))]))
    else if code == "AUTH_SESSION_KIND_NOT_ALLOWED" then
      Some(ConnectError(PermissionDenied, message, status, [Auth(Named(code))]))
    else None
  }

  function FromGateway(status: nat, code: string): Option<ConnectError> {
    if code == TIMESTAMP_SKEW || status == 401 then
      Some(ConnectError(Unauthenticated, code, status, [GatewayRejection]))
    else if status == 403 then Some(ConnectError(PermissionDenied, code, status, [GatewayRejection]))
    else None
  }

  function NoRecognisedCode(status: nat, message: string): ConnectError {
    ConnectError(if status in {429, 502, 503} then Unavailable else Internal, message, status, [])
  }

  function KnownRefusal(status: nat, message: string): ConnectError {
    if status in {400, 413, 422} then ConnectError(InvalidArgument, message, status, [])
    else if status == 404 then ConnectError(NotFound, message, status, [])
    else if status == 409 then ConnectError(AlreadyExists, message, status, [])
    else if status == 412 then ConnectError(FailedPrecondition, message, status, [])
    else if status == 429 then ConnectError(ResourceExhausted, message, status, [])
    else if status in {502, 503} then ConnectError(Unavailable, message, status, [])
    else if status == 501 then ConnectError(Unimplemented, message, status, [BareHttp])
    else if status >= 500 then ConnectError(Internal, message, status, [])
    else ConnectError(FailedPrecondition, message, status, [])
  }

  /** The message of an answer whose code means nothing to this SDK. */
  function UnrecognisedMessage(code: string, message: string): string {
    if message == code then code else code + ": " + message
  }

  function FromServiceCode(status: nat, code: string, message: string, names: Names): Option<ConnectError> {
    var orderName := OrderName(code);
    if IsOutcomeUnknown(orderName) then
      Some(ConnectError(DeadlineExceeded, message, status,
                        if orderName in names.order then [Order(Named(orderName), None)] else []))
    else if IsRetryableResource(orderName) || orderName == "ERROR_CODE_ORDER_SEQUENCE_EXHAUSTED" then
      if orderName in names.order
      then Some(ConnectError(ResourceExhausted, message, status, [Order(Named(orderName), None)]))
      else None
    else if RestAuthProblem(code, message, status).Some? then RestAuthProblem(code, message, status)
    else if FromGateway(status, code).Some? then FromGateway(status, code)
    else if status == 504 then Some(ConnectError(Unavailable, message, status, [BareHttp]))
    else if !IsRecognised(code, names) && !(status == 429 && IsServiceCode(code)) then
      Some(NoRecognisedCode(status, UnrecognisedMessage(code, message)))
    else Some(KnownRefusal(status, message))
  }

  function Lower(s: string): string {
    if s == "" then ""
    else [if 'A' <= s[0] <= 'Z' then (s[0] as int + 32) as char else s[0]] + Lower(s[1..])
  }

  predicate IsRouteMissing(message: string) {
    Lower(Decimals.Trim(message)) in {"not found", "404 page not found", "404 not found"}
  }

  function FutureDetails(details: seq<Detail>): seq<Detail> {
    if details == [] then []
    else (if HasFutureCode(details[0]) then [details[0]] else []) + FutureDetails(details[1..])
  }

  function WithoutCode(a: Answer): Option<ConnectError> {
    if a.status == 504 then Some(ConnectError(Unavailable, a.bare, a.status, [BareHttp]))
    else if HasServiceDetail(a) || !(400 <= a.status < 600) || a.status in {401, 403, 429, 502, 503} then None
    else if a.status == 404 && (!a.isJson || a.empty || IsRouteMissing(BodyMessage(a))) then
      Some(ConnectError(Unimplemented, a.bare, a.status, [BareHttp]))
    else
      Some(NoRecognisedCode(a.status, BodyMessage(a)).(details := FutureDetails(BodyDetails(a))))
  }

  /** The Connect error of a failed answer; `None` leaves the answer to Connect's own reading. */
  function Classify(a: Answer, names: Names): Option<ConnectError> {
    match CodeIn(a)
    case None => WithoutCode(a)
    case Some(code) =>
      match ParseConnect(code)
      case Some(connect) =>
        if connect in {Unknown, DataLoss, Canceled} && !HasServiceDetail(a)
        then RefusalByStatus(a.status, BodyMessage(a))
        else None
      case None => FromServiceCode(a.status, code, ProblemMessage(a.body.value, code), names)
  }

  /** With the REST problem attached, when the bytes read as one. */
  function Classified(a: Answer, names: Names): Option<ConnectError> {
    match Classify(a, names)
    case None => None
    case Some(e) =>
      Some(if a.problem.Some? then e.(details := e.details + [Problem(a.problem.value)]) else e)
  }

  // ----- answers that leave the outcome unknown -----

  lemma EndsInN(code: string)
    requires code != "" && code[|code| - 1] == 'N'
    ensures ParseConnect(code) == None && !IsPlaceholderCode(code)
  {
  }

  lemma PrefixAlone()
    ensures !IsOutcomeUnknown(OrderName(""))
  {
    var name := OrderName("");
    assert name == PREFIX && name[|name| - 1] == '_';
    if IsOutcomeUnknown(name) {
      LastOf(name);
    }
  }

  lemma UnknownOutcomeCode(code: string)
    requires IsOutcomeUnknown(OrderName(code))
    ensures code != "" && !IsPlaceholderCode(code) && ParseConnect(code) == None
  {
    hide ParseConnect, IsPlaceholderCode, IsOutcomeUnknown;
    PrefixAlone();
    var name := OrderName(code);
    LastOf(name);
    assert name[|name| - 1] == code[|code| - 1];
    EndsInN(code);
  }

  lemma FirstOfOne(detail: Detail, rest: seq<Detail>)
    requires NamesUnknownOutcome(detail)
    ensures FirstUnknown([detail] + rest) == Some(detail.orderCode.name)
  {
  }

  lemma NoVerdict(details: seq<Detail>, code: ConnectCode)
    requires details == [] || exists p: string :: details == [Problem(p)]
    ensures FirstVerdict(Sorted(details), code) == None && !LeadsWithUnknown(Sorted(details))
  {
    if details != [] {
      assert details[1..] == [];
      assert WithPriority(details, 0) == [] && WithPriority(details, 1) == [] && WithPriority(details, 2) == details;
      assert Sorted(details) == details;
      assert DetailVerdict(details[0], code) == None;
    }
  }

  lemma PrefixedStaysUnknown(code: string, names: Names)
    requires IsOutcomeUnknown(code)
    ensures IsOutcomeUnknown(OrderCodeFromName(code, names))
  {
    var prefixed := PREFIX + code;
    assert prefixed[|prefixed| - |OUTCOME_UNKNOWN|..] == code[|code| - |OUTCOME_UNKNOWN|..];
  }

  /** An answer with nothing but a deadline leaves the outcome unknown, whatever it is called. */
  lemma BareDeadlineIsUnknown(e: ConnectError, names: Names, browserBan: bool)
    requires e.code == DeadlineExceeded && e.message != TIMESTAMP_SKEW
    requires e.details == [] || exists p: string :: e.details == [Problem(p)]
    ensures MutationOutcomeUnknown(MapError(e, names, browserBan))
  {
    hide Sorted, IsOutcomeUnknown, OrderCodeFromName, IsServiceCode, IsRetryableResource, IsAdmissionRefusal;
    NoVerdict(e.details, e.code);
    if IsOutcomeUnknown(e.message) {
      PrefixedStaysUnknown(e.message, names);
    }
    if IsOutcomeUnknown(NamedCode(e)) {
      PrefixedStaysUnknown(NamedCode(e), names);
    }
  }

  /**
   An answer whose code ends in `_OUTCOME_UNKNOWN` leaves the outcome unknown at
   any status, whether or not this SDK knows the code: exactly unless its message is
   `TIMESTAMP_SKEW` or the code is a known one that reads like an authentication failure.
   */
  lemma UnknownOutcomeAnswer(a: Answer, names: Names, browserBan: bool, code: string)
    requires a.body.Some? && a.body.value.code == Some(code) && IsOutcomeUnknown(OrderName(code))
    ensures Classified(a, names).Some?
    ensures var error := MapError(Classified(a, names).value, names, browserBan);
            && (MutationOutcomeUnknown(error) <==>
                  && ProblemMessage(a.body.value, code) != TIMESTAMP_SKEW
                  && !(OrderName(code) in names.order && IsAuthLike(OrderName(code))))
            && (MutationOutcomeUnknown(error) ==> !IsRetryable(error))
  {
    hide IsOutcomeUnknown, IsAuthLike, ProblemMessage, ParseConnect, IsPlaceholderCode, FromConnectCode, MapError;
    hide OrderName, FirstUnknown, NamesUnknownOutcome;
    UnknownOutcomeCode(code);
    var e := Classified(a, names).value;
    if OrderName(code) in names.order {
      var detail := Order(Named(OrderName(code)), None);
      OutcomeNamed(OrderName(code));
      FirstOfOne(detail, e.details[1..]);
      assert e.details == [detail] + e.details[1..];
      UnknownOutcomeWins(e, names, browserBan);
    } else if e.message != TIMESTAMP_SKEW {
      BareDeadlineIsUnknown(e, names, browserBan);
    } else {
      SkewComesFirst(e, names, browserBan);
    }
  }

  /** With the codes this SDK was generated with, exactly unless the message is `TIMESTAMP_SKEW`. */
  lemma KnownUnknownOutcomeAnswer(a: Answer, names: Names, browserBan: bool, code: string)
    requires a.body.Some? && a.body.value.code == Some(code) && IsOutcomeUnknown(OrderName(code)) && Generated(names)
    ensures Classified(a, names).Some?
    ensures var error := MapError(Classified(a, names).value, names, browserBan);
            MutationOutcomeUnknown(error) <==> ProblemMessage(a.body.value, code) != TIMESTAMP_SKEW
  {
    hide IsOutcomeUnknown, IsAuthLike, ProblemMessage, MapError, Classified, OrderName;
    UnknownOutcomeAnswer(a, names, browserBan, code);
    if OrderName(code) in names.order {
      assert IsGeneratedUnknown(OrderName(code));
      KnownUnknownIsNotAuthLike(OrderName(code));
    }
  }

  lemma OutcomeNamed(name: string)
    requires IsOutcomeUnknown(name)
    ensures NamesUnknownOutcome(Order(Named(name), None))
  {
  }

  lemma SkewComesFirst(e: ConnectError, names: Names, browserBan: bool)
    requires e.message == TIMESTAMP_SKEW && GatewayRejection !in e.details && BareHttp !in e.details
    ensures MapError(e, names, browserBan) == TimestampSkew
  {
  }

  // ----- answers with no recognised code -----

  /** A code that is neither Connect's nor the contract's, at a status that does not speak for itself. */
  ghost predicate Unrecognised(a: Answer, code: string, names: Names) {
    && CodeIn(a) == Some(code) && ParseConnect(code) == None
    && !IsRecognised(code, names) && !IsOutcomeUnknown(OrderName(code))
    && a.status != 401 && a.status != 403 && !(a.status == 429 && IsServiceCode(code))
  }

  /** The code at 503 is taken for an admission refusal or an invalid routing. */
  predicate TakenAt503(e: ConnectError, names: Names) {
    var normalised := OrderCodeFromName(NamedCode(e), names);
    && e.status == 503
    && ((normalised != "ERROR_CODE_UNAVAILABLE" && IsAdmissionRefusal(normalised))
        || (normalised == ROUTING_INVALID && !IsOutcomeUnknown(normalised)))
  }

  lemma NotANamedCode(code: string, names: Names)
    requires Generated(names) && code != "" && !IsPlaceholderCode(code) && !IsRecognised(code, names)
    ensures OrderName(code) !in names.order && PREFIX + code !in names.order && code !in names.order
    ensures RestAuthProblem(code, "", 0) == None
    ensures code != TIMESTAMP_SKEW && code != ROUTING_INVALID && code != "ERROR_CODE_UNAVAILABLE"
  {
    hide IsPlaceholderCode, IsOutcomeUnknown;
  }

  lemma UnrecognisedIsClassified(a: Answer, names: Names, code: string)
    requires Generated(names) && Unrecognised(a, code, names)
    ensures a.body.Some?
    ensures var message := ProblemMessage(a.body.value, code);
            Classify(a, names)
              == if IsRetryableResource(OrderName(code)) then None
                 else if a.status == 504 then Some(ConnectError(Unavailable, message, 504, [BareHttp]))
                 else Some(NoRecognisedCode(a.status, UnrecognisedMessage(code, message)))
  {
    hide ParseConnect, IsPlaceholderCode, IsRetryableResource, IsServiceCode, ProblemMessage, OrderName, IsRecognised;
    hide IsOutcomeUnknown;
    NotANamedCode(code, names);
  }

  lemma UnrecognisedIsNotSkew(code: string, message: string)
    requires code != TIMESTAMP_SKEW
    ensures UnrecognisedMessage(code, message) != TIMESTAMP_SKEW
  {
    var sent := UnrecognisedMessage(code, message);
    if message != code {
      assert sent[|code|] == ':';
    }
  }

  /** A server failure with no telling detail leaves the outcome unknown, save at 503 for the codes read there. */
  lemma BareServerFailure(e: ConnectError, names: Names, browserBan: bool)
    requires e.code == Unavailable || e.code == Internal
    requires (e.status == 503 ==> e.code == Unavailable) && e.message != TIMESTAMP_SKEW
    requires e.details == [] || exists p: string :: e.details == [Problem(p)]
    requires !IsOutcomeUnknown(e.message)
    ensures MutationOutcomeUnknown(MapError(e, names, browserBan)) <==> !TakenAt503(e, names)
    ensures var normalised := OrderCodeFromName(NamedCode(e), names);
            e.status == 503 && normalised != "ERROR_CODE_UNAVAILABLE" && IsAdmissionRefusal(normalised) ==>
              MapError(e, names, browserBan) == AdmissionUnavailable(normalised)
  {
    hide Sorted, IsOutcomeUnknown, IsServiceCode, IsRetryableResource, IsAdmissionRefusal, ProblemCode;
    NoVerdict(e.details, e.code);
    if IsOutcomeUnknown(NamedCode(e)) {
      PrefixedStaysUnknown(NamedCode(e), names);
    }
  }

  lemma TimeoutIsUnknown(e: ConnectError, names: Names, browserBan: bool)
    requires e.status == 504 && BareHttp in e.details && GatewayRejection !in e.details
    ensures MapError(e, names, browserBan) == GatewayTimeout
  {
  }

  lemma UnknownMessage(e: ConnectError, names: Names, browserBan: bool)
    requires IsOutcomeUnknown(e.message) && e.message != TIMESTAMP_SKEW
    requires e.details == [] || exists p: string :: e.details == [Problem(p)]
    ensures MutationOutcomeUnknown(MapError(e, names, browserBan))
  {
    hide Sorted, IsOutcomeUnknown;
    NoVerdict(e.details, e.code);
    PrefixedStaysUnknown(e.message, names);
  }

  // ----- what follows a colon -----

  lemma {:induction false} ColonStays(code: string)
    requires ':' in code
    ensures ':' in Bare(code)
    decreases |code|
  {
    if PREFIX <= code {
      var k :| 0 <= k < |code| && code[k] == ':';
      assert k < |PREFIX| ==> PREFIX[k] == ':';
      PrefixHasNoColon();
      assert code[|PREFIX|..][k - |PREFIX|] == ':';
      ColonStays(code[|PREFIX|..]);
    }
  }

  lemma PrefixHasNoColon()
    ensures ':' !in PREFIX && ':' !in ROUTING_INVALID && ':' !in OUTCOME_UNKNOWN
  {
  }

  lemma UnavailableHasNoColon(name: string)
    requires name in UNAVAILABLE_NAMES
    ensures ':' !in name
  {
  }

  lemma BusyHasNoColon(name: string)
    requires name in BUSY_NAMES
    ensures ':' !in name
  {
  }

  lemma AdmissionNameHasNoColon(name: string)
    requires AdmissionName(name)
    ensures ':' !in name
  {
    if name in UNAVAILABLE_NAMES {
      UnavailableHasNoColon(name);
    } else {
      BusyHasNoColon(name);
    }
  }

  lemma PlaceholderHasNoColon(code: string)
    requires IsPlaceholderCode(code)
    ensures ':' !in code
  {
  }

  lemma NoRefusalHasAColon(code: string)
    requires ':' in code
    ensures !IsAdmissionRefusal(code) && code != ROUTING_INVALID && !IsPlaceholderCode(code)
  {
    hide Bare, AdmissionName, IsPlaceholderCode;
    ColonStays(code);
    PrefixHasNoColon();
    if AdmissionName(Bare(code)) {
      AdmissionNameHasNoColon(Bare(code));
    }
    if IsPlaceholderCode(code) {
      PlaceholderHasNoColon(code);
    }
  }

  /** A text put behind a code and a colon names an unknown outcome exactly when it did before. */
  lemma SuffixBehindColon(code: string, message: string)
    ensures IsOutcomeUnknown(code + ": " + message) <==> IsOutcomeUnknown(message)
  {
    var text := code + ": " + message;
    var n := |OUTCOME_UNKNOWN|;
    if n <= |message| {
      assert text[|text| - n..] == message[|message| - n..];
    } else if n <= |text| && |message| >= n - 1 {
      assert text[|text| - n..][0] == ' ';
    } else if n <= |text| {
      PrefixHasNoColon();
      assert text[|code|] == ':' && |code| >= |text| - n ==> text[|text| - n..][|code| - (|text| - n)] == ':';
      assert text[|code| + 1] == ' ';
    }
  }

  // ----- the verdict on an unrecognised code -----

  /**
   At 503 the code, prefixes taken off, is read as an admission refusal unless the
   message names an unknown outcome.
   */
  predicate ReadAsRefusal(a: Answer, code: string)
    requires a.body.Some?
  {
    var message := ProblemMessage(a.body.value, code);
    a.status == 503 && IsAdmissionRefusal(code) && (a.problem.Some? || message == code) && !IsOutcomeUnknown(message)
  }

  /** The code lists are matched after taking the prefix off any number of times. */
  lemma PrefixesDoNotCount(code: string)
    ensures IsRetryableResource(PREFIX + code) == IsRetryableResource(code)
    ensures IsAdmissionRefusal(PREFIX + code) == IsAdmissionRefusal(code)
  {
    assert (PREFIX + code)[|PREFIX|..] == code;
    assert Bare(PREFIX + code) == Bare(code);
  }

  lemma CapacityUnderPrefix(code: string)
    ensures IsRetryableResource(OrderName(code)) == IsRetryableResource(code)
  {
    hide IsRetryableResource;
    if !(PREFIX <= code) {
      PrefixesDoNotCount(code);
    }
  }

  /** What an unrecognised code at 503 is taken for, when its error text names no unknown outcome. */
  lemma TakenExactly(a: Answer, names: Names, code: string)
    requires Generated(names) && Unrecognised(a, code, names)
    requires !IsRetryableResource(OrderName(code)) && a.status != 504
    ensures Classified(a, names).Some? && a.body.Some?
    ensures var e := Classified(a, names).value;
            var message := ProblemMessage(a.body.value, code);
            && (TakenAt503(e, names)
                <==> a.status == 503 && IsAdmissionRefusal(code) && (a.problem.Some? || message == code))
            && (TakenAt503(e, names) ==> OrderCodeFromName(NamedCode(e), names) == code)
  {
    hide ParseConnect, IsRetryableResource, IsServiceCode, ProblemMessage, OrderName, IsRecognised;
    hide IsOutcomeUnknown, Classify, IsAdmissionRefusal, Generated;
    UnrecognisedIsClassified(a, names, code);
    NotANamedCode(code, names);
    var e, message := Classified(a, names).value, ProblemMessage(a.body.value, code);
    if a.problem.Some? {
      assert e.details == [Problem(code)];
    } else if message != code {
      assert e.message[|code|] == ':';
      NoRefusalHasAColon(e.message);
      assert (PREFIX + e.message)[|PREFIX| + |code|] == ':';
      NoRefusalHasAColon(PREFIX + e.message);
    }
  }

  /**
   An answer with an unrecognised code is read by the SDK exactly when the code, its
   prefixes taken off, is none of the retryable capacity codes. It then leaves the outcome
   unknown and is not retryable, exactly unless it is read as an admission refusal.
   */
  lemma UnrecognisedAnswer(a: Answer, names: Names, browserBan: bool, code: string)
    requires Generated(names) && Unrecognised(a, code, names)
    ensures Classified(a, names).Some? <==> !IsRetryableResource(code)
    ensures Classified(a, names).Some? ==>
              var error := MapError(Classified(a, names).value, names, browserBan);
              if ReadAsRefusal(a, code) then error == AdmissionUnavailable(code) && IsRetryable(error)
              else MutationOutcomeUnknown(error) && !IsRetryable(error)
  {
    hide ParseConnect, IsPlaceholderCode, IsRetryableResource, IsServiceCode, ProblemMessage, OrderName, IsRecognised;
    hide IsOutcomeUnknown, MapError, Classify, OrderCodeFromName, IsAdmissionRefusal, NamedCode, Generated, TakenAt503;
    UnrecognisedIsClassified(a, names, code);
    CapacityUnderPrefix(code);
    NotANamedCode(code, names);
    var message := ProblemMessage(a.body.value, code);
    UnrecognisedIsNotSkew(code, message);
    SuffixBehindColon(code, message);
    if Classified(a, names).Some? {
      var e := Classified(a, names).value;
      if a.status == 504 {
        TimeoutIsUnknown(e, names, browserBan);
      } else {
        assert e.details == [] || e.details == [Problem(code)];
        if IsOutcomeUnknown(e.message) {
          UnknownMessage(e, names, browserBan);
        } else {
          TakenExactly(a, names, code);
          BareServerFailure(e, names, browserBan);
        }
      }
    }
  }

  // ----- codes with the prefix twice -----

  lemma RestOnlyHasNoPrefix(code: string)
    requires code in REST_ONLY_CODES
    ensures !(PREFIX <= code)
  {
    assert code[0] != 'E';
  }

  /** No generated name has the prefix twice, so such a code is recognised only by naming an unknown outcome. */
  lemma TwicePrefixedIsUnrecognised(names: Names, rest: string)
    requires Generated(names)
    ensures var code := PREFIX + (PREFIX + rest);
            IsRecognised(code, names) <==> IsOutcomeUnknown(code)
  {
    hide IsOutcomeUnknown, IsAdmissionRefusal;
    var code := PREFIX + (PREFIX + rest);
    assert code == PREFIX + PREFIX + rest && PREFIX + PREFIX <= code;
    assert PREFIX + code == PREFIX + PREFIX + (PREFIX + rest);
    assert PREFIX + PREFIX <= PREFIX + code;
    assert PREFIX <= code && "AUTH_" + code == "AUTH_" + PREFIX + (PREFIX + rest);
    assert |code| >= 2 * |PREFIX| && |PREFIX| == 11 && !IsPlaceholderCode(code) by {
      LongIsNoPlaceholder(code);
    }
    if code in REST_ONLY_CODES {
      RestOnlyHasNoPrefix(code);
    }
  }

  lemma LongIsNoPlaceholder(code: string)
    requires PREFIX + PREFIX <= code
    ensures code != "" && !IsPlaceholderCode(code) && PREFIX <= code
  {
    assert code[11] == (PREFIX + PREFIX)[11] == 'E';
    var unspecified := "ERROR_CODE_UNSPECIFIED";
    assert unspecified[11] == 'U';
    var plain, auth := "UNSPECIFIED", "AUTH_UNSPECIFIED";
    assert code[0] == 'E' && plain[0] == 'U' && auth[0] == 'A';
  }

  function TwicePrefixedCode(rest: string): string {
    PREFIX + (PREFIX + rest)
  }

  /** The JSON answer `{"code": code}` at `status`. */
  function BareAnswer(status: nat, code: string, excerpt: string): Answer
    requires code != ""
  {
    HttpAnswer(status, true, false, Some(Body(Some(code), None, None, None, [])), BARE_START + excerpt, Some(code))
  }

  lemma CapitalIsNotConnect(code: string)
    requires code != "" && code[0] == 'E'
    ensures ParseConnect(code) == None
  {
  }

  lemma TwicePrefixedAnswer(names: Names, rest: string, excerpt: string)
    requires Generated(names) && !IsOutcomeUnknown(TwicePrefixedCode(rest))
    ensures var code := TwicePrefixedCode(rest);
            && Unrecognised(BareAnswer(503, code, excerpt), code, names)
            && (ReadAsRefusal(BareAnswer(503, code, excerpt), code) <==> IsAdmissionRefusal(rest))
            && IsRetryableResource(code) == IsRetryableResource(rest)
  {
    hide IsOutcomeUnknown, IsAdmissionRefusal, IsRetryableResource, IsRecognised, IsPlaceholderCode, ParseConnect;
    hide Generated;
    var code := TwicePrefixedCode(rest);
    TwicePrefixedIsUnrecognised(names, rest);
    assert code == PREFIX + PREFIX + rest;
    LongIsNoPlaceholder(code);
    assert code[0] == PREFIX[0] == 'E';
    CapitalIsNotConnect(code);
    PrefixesDoNotCount(rest);
    PrefixesDoNotCount(PREFIX + rest);
    assert OrderName(code) == code;
  }

  lemma EndsInD(code: string)
    requires code != "" && code[|code| - 1] == 'D'
    ensures !IsOutcomeUnknown(code)
  {
    if IsOutcomeUnknown(code) {
      LastOf(code);
    }
  }

  lemma PlainNames()
    ensures IsAdmissionRefusal("PAIR_BACKLOGGED") && !IsRetryableResource("PAIR_BACKLOGGED")
    ensures IsRetryableResource("OVERLOADED")
  {
    var pair, over := "PAIR_BACKLOGGED", "OVERLOADED";
    assert pair[0] == 'P' && over[0] == 'O' && PREFIX[0] == 'E';
    assert Bare(pair) == pair && Bare(over) == over;
    assert pair[1] == 'A';
  }

  /**
   The unrecognised code `ERROR_CODE_ERROR_CODE_PAIR_BACKLOGGED` at 503 is reported as an
   admission refusal that may be retried; `ERROR_CODE_ERROR_CODE_OVERLOADED` is not read at all.
   */
  lemma TwicePrefixedCodesAreMisread(names: Names, browserBan: bool, excerpt: string)
    requires Generated(names)
    ensures var code := TwicePrefixedCode("PAIR_BACKLOGGED");
            var e := Classified(BareAnswer(503, code, excerpt), names);
            && !IsRecognised(code, names) && e.Some?
            && MapError(e.value, names, browserBan) == AdmissionUnavailable(code)
            && IsRetryable(MapError(e.value, names, browserBan))
    ensures var code := TwicePrefixedCode("OVERLOADED");
            !IsRecognised(code, names) && Classified(BareAnswer(503, code, excerpt), names) == None
  {
    hide IsOutcomeUnknown, IsAdmissionRefusal, IsRetryableResource, IsRecognised, Classified, MapError, Generated;
    hide ReadAsRefusal;
    PlainNames();
    var pair, over := TwicePrefixedCode("PAIR_BACKLOGGED"), TwicePrefixedCode("OVERLOADED");
    assert pair[|pair| - 1] == 'D' && over[|over| - 1] == 'D';
    EndsInD(pair);
    EndsInD(over);
    TwicePrefixedAnswer(names, "PAIR_BACKLOGGED", excerpt);
    TwicePrefixedAnswer(names, "OVERLOADED", excerpt);
    UnrecognisedAnswer(BareAnswer(503, pair, excerpt), names, browserBan, pair);
    UnrecognisedAnswer(BareAnswer(503, over, excerpt), names, browserBan, over);
  }

  // ----- answers whose body cannot be read -----

  lemma BareIsNotSkew(bare: string)
    requires BARE_START <= bare
    ensures bare != TIMESTAMP_SKEW
  {
    assert BARE_START[0] == 'H';
  }

  /**
   An answer whose body is not readable JSON is read by its status alone, and then always leaves
   the outcome unknown, whatever REST problem its bytes hold.
   */
  lemma UnreadAnswer(a: Answer, names: Names, browserBan: bool)
    requires a.body.None?
    ensures Classified(a, names).Some?
         <==> a.status == 504 || (400 <= a.status < 600 && a.status !in {401, 403, 429, 502, 503})
    ensures Classified(a, names).Some? ==>
              MutationOutcomeUnknown(MapError(Classified(a, names).value, names, browserBan))
  {
    hide IsOutcomeUnknown, IsRouteMissing, MapError, TakenAt503;
    if Classified(a, names).Some? {
      var e := Classified(a, names).value;
      BareIsNotSkew(a.bare);
      if a.status == 504 {
        TimeoutIsUnknown(e, names, browserBan);
      } else if BareHttp in e.details {
        MissingRouteIsReported(e, names, browserBan);
      } else if IsOutcomeUnknown(a.bare) {
        UnknownMessage(e, names, browserBan);
      } else {
        OnlyAt503(e, names);
        BareServerFailure(e, names, browserBan);
      }
    }
  }

  lemma MissingRouteIsReported(e: ConnectError, names: Names, browserBan: bool)
    requires e.status == 404 && BareHttp in e.details && GatewayRejection !in e.details
    ensures MapError(e, names, browserBan) == RouteNotFound
  {
  }

  lemma OnlyAt503(e: ConnectError, names: Names)
    requires e.status != 503
    ensures !TakenAt503(e, names)
  {
  }
}
