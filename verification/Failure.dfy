/**
 What a failed call tells: the error an answer is classified as, and whether the
 mutation behind it may still have been applied.
 */
module Failure {
  import opened Numbers
  import Digits
  import Decimals

  datatype ConnectCode =
    | Canceled | Unknown | InvalidArgument | DeadlineExceeded | NotFound | AlreadyExists | PermissionDenied
    | ResourceExhausted | FailedPrecondition | Aborted | OutOfRange | Unimplemented | Internal | Unavailable
    | DataLoss | Unauthenticated

  /** An enum value on the wire: the zero value, one this SDK can name, or one it cannot. */
  datatype EnumCode = Unset | Named(name: string) | Unnamed(raw: int)

  /** `backoff` is the rate-limit part of an order detail, true when it says nothing. */
  datatype Detail =
    | GatewayRejection
    | BareHttp
    | Problem(code: string)
    | Auth(authCode: EnumCode)
    | RateLimit(empty: bool)
    | Order(orderCode: EnumCode, backoff: Option<bool>)
    | Withdraw(withdrawCode: EnumCode)
    | Ledger(ledgerCode: EnumCode)
    | Transfer(transferCode: EnumCode)
    | Other

  datatype ConnectError = ConnectError(code: ConnectCode, message: string, status: nat, details: seq<Detail>)

  datatype Error =
    | TransportError
    | ServerError
    | GatewayTimeout
    | RouteNotFound
    | AuthError
    | Api(code: string)
    | RateLimited
    | AdmissionUnavailable(code: string)
    | TimestampSkew
    | SessionRequired
    | ApiKeyRejected(code: string)
    | NotImplemented

  /** The names each generated enum knows. */
  datatype Names = Names(
    order: set<string>, withdraw: set<string>, transfer: set<string>, ledger: set<string>, auth: set<string>)

  // ----- codes -----

  const PREFIX := "ERROR_CODE_"
  const OUTCOME_UNKNOWN := "_OUTCOME_UNKNOWN"
  const TIMESTAMP_SKEW := "TIMESTAMP_SKEW"
  const ROUTING_INVALID := "ERROR_CODE_ACCOUNT_ROUTING_INVALID"

  predicate EndsWith(s: string, suffix: string) {
    |suffix| <= |s| && s[|s| - |suffix|..] == suffix
  }

  predicate Contains(s: string, part: string) {
    exists i | 0 <= i <= |s| :: part <= s[i..]
  }

  /** `trim_start_matches`: the prefix is taken off as often as it is there. */
  function WithoutPrefix(code: string, prefix: string): string
    decreases |code|
  {
    if prefix != "" && prefix <= code then WithoutPrefix(code[|prefix|..], prefix) else code
  }

  function Bare(code: string): string {
    WithoutPrefix(code, PREFIX)
  }

  predicate IsOutcomeUnknown(code: string) {
    EndsWith(code, OUTCOME_UNKNOWN)
  }

  predicate IsPlaceholderCode(code: string) {
    code == "UNSPECIFIED" || code == "ERROR_CODE_UNSPECIFIED" || code == "AUTH_UNSPECIFIED"
  }

  predicate IsAuthLike(code: string) {
    || Contains(code, "UNAUTHENTICATED") || Contains(code, "PERMISSION") || Contains(code, "API_KEY")
    || Contains(code, "WALLET_BINDING") || Contains(code, "POLICY")
  }

  const UNAVAILABLE_NAMES := {
    "UNAVAILABLE", "FEE_SCHEDULE_UNAVAILABLE", "POLICY_UNAVAILABLE", "RATE_LIMIT_POLICY_UNAVAILABLE"}

  const BUSY_NAMES := {
    "PAIR_BACKLOGGED", "SETTLEMENT_BACKLOGGED", "ORDER_MODIFY_IN_PROGRESS", "ORDER_PLACEMENT_PENDING",
    "TRIGGER_CONTROLS_BUSY", "TRIGGER_CONTROL_IN_PROGRESS", "QUICKSWAP_ACCOUNT_OWNER_UNKNOWN"}

  predicate AdmissionName(name: string) {
    name in UNAVAILABLE_NAMES || name in BUSY_NAMES
  }

  predicate IsAdmissionRefusal(code: string) {
    AdmissionName(Bare(code))
  }

  predicate IsFinalResource(code: string) {
    Bare(code) in {
      "ORDER_SEQUENCE_EXHAUSTED", "TRIGGER_FIRE_LIMIT_REACHED", "QUICKSWAP_CAPACITY_REACHED",
      "ACCOUNT_RESERVATION_LIMIT_REACHED", "TRIGGER_LIMIT_EXCEEDED"}
  }

  predicate IsRetryableResource(code: string) {
    Bare(code) in {
      "OVERLOADED", "SYSTEM_RATE_LIMITED", "RATE_LIMIT_EXCEEDED", "PRICE_LEVELS_EXHAUSTED",
      "CLIENT_ORDER_IDS_EXHAUSTED", "CLIENT_ORDER_ID_CAPACITY_REACHED", "MARKET_LADDER_LIMIT_EXCEEDED",
      "MARKET_TRIGGER_LIMIT_EXCEEDED", "MARKET_TWAP_LIMIT_EXCEEDED", "NEW_ACCOUNT_CAPACITY_REACHED",
      "REQUEST_RECEIPTS_EXHAUSTED", "RESERVATION_CAPACITY_REACHED", "TRIGGER_CAPACITY_REACHED",
      "TRIGGER_CONTROL_SHARE_EXHAUSTED", "TWAP_CAPACITY_REACHED"}
  }

  const REST_ONLY_CODES := {
    "API_KEY_ACTION_DENY", "API_KEY_POLICY_NOT_FOUND", "INVALID_BEFORE_TS_NS", "INVALID_DEPTH", "INVALID_END_TIME",
    "INVALID_LIMIT", "INVALID_OFFSET", "INVALID_ORDER_STATUS", "INVALID_PAGE_TOKEN", "INVALID_START_TIME",
    "INVALID_SYMBOL", "INVALID_TRIGGER_ID", "INVALID_TRIGGER_STATUS", "ORDER_ID_REQUIRED", "REQUEST_TOO_LARGE",
    "ROLE_ACTION_DENY", "ROLE_SPOT_TRADE_DENY", "SERVER_ERROR", "SUBACCOUNT_POLICY_DENY",
    "TRAILING_STOP_ORDER_TYPE_UNSUPPORTED", "TRIGGER_ID_REQUIRED"}

  const API_KEY_REJECTIONS := {
    "AUTH_SIGNATURE_INVALID", "AUTH_MISSING_HEADERS", "AUTH_KEY_EXPIRED", "AUTH_KEY_DISABLED", "AUTH_IP_NOT_ALLOWED",
    "AUTH_API_KEY_NOT_ACCEPTED"}

  predicate KnownToServices(name: string, names: Names) {
    name in names.order || name in names.withdraw || name in names.transfer || name in names.ledger
  }

  predicate IsRecognised(code: string, names: Names) {
    && code != "" && !IsPlaceholderCode(code)
    && (|| IsOutcomeUnknown(code) || code in REST_ONLY_CODES
        || KnownToServices(code, names) || KnownToServices(PREFIX + code, names)
        || code in names.auth || "AUTH_" + code in names.auth)
  }

  predicate IsServiceCode(code: string) {
    && code != "" && 'A' <= code[0] <= 'Z'
    && forall i | 0 <= i < |code| :: 'A' <= code[i] <= 'Z' || '0' <= code[i] <= '9' || code[i] == '_'
  }

  function OrderCodeFromName(code: string, names: Names): string {
    if PREFIX + code in names.order then PREFIX + code else code
  }

  function Label(code: EnumCode): string {
    match code
    case Unset => "ERROR_CODE_UNSPECIFIED"
    case Named(name) => name
    case Unnamed(raw) => "UNKNOWN_ERROR_CODE(" + Decimals.Signed(raw, Digits.ToString(Decimals.Abs(raw))) + ")"
  }

  // ----- verdicts -----

  predicate MutationOutcomeUnknown(error: Error) {
    match error
    case TransportError => true
    case ServerError => true
    case GatewayTimeout => true
    case RouteNotFound => true
    case Api(code) => IsOutcomeUnknown(code)
    case _ => false
  }

  predicate IsRetryable(error: Error) {
    && !MutationOutcomeUnknown(error)
    && match error
       case RateLimited => true
       case AdmissionUnavailable(_) => true
       case TimestampSkew => true
       case Api(code) => code == "AUTH_TEMPORARILY_UNAVAILABLE" || code == "ERROR_CODE_ACCOUNT_REPAIRING"
       case _ => false
  }

  // ----- from a Connect error -----

  function CodeOf(detail: Detail): Option<EnumCode> {
    match detail
    case Auth(code) => Some(code)
    case Order(code, _) => Some(code)
    case Withdraw(code) => Some(code)
    case Ledger(code) => Some(code)
    case Transfer(code) => Some(code)
    case _ => None
  }

  predicate SaysNothing(detail: Detail) {
    match detail
    case RateLimit(empty) => empty
    case Order(code, backoff) => code.Unset? && backoff != Some(false)
    case _ => CodeOf(detail) == Some(Unset)
  }

  predicate HasFutureCode(detail: Detail) {
    CodeOf(detail).Some? && CodeOf(detail).value.Unnamed?
  }

  predicate ServerFailure(code: ConnectCode) {
    code in {Internal, Unknown, DataLoss, Canceled, Unavailable, DeadlineExceeded}
  }

  /** Unknown outcomes first, then final refusals, then the rest. */
  function Priority(detail: Detail): nat {
    if !detail.Order? then 2
    else if IsOutcomeUnknown(Label(detail.orderCode)) then 0
    else if IsFinalResource(Label(detail.orderCode)) then 1
    else 2
  }

  function WithPriority(details: seq<Detail>, priority: nat): seq<Detail> {
    if details == [] then []
    else (if Priority(details[0]) == priority then [details[0]] else []) + WithPriority(details[1..], priority)
  }

  /** The stable sort by priority. */
  function Sorted(details: seq<Detail>): seq<Detail> {
    WithPriority(details, 0) + WithPriority(details, 1) + WithPriority(details, 2)
  }

  function ServiceVerdict(code: EnumCode, unavailable: bool): Error {
    if unavailable then ServerError else if IsAuthLike(Label(code)) then AuthError else Api(Label(code))
  }

  function OrderVerdict(code: string, backoff: bool, unavailable: bool): Error {
    if (backoff || IsRetryableResource(code)) && !IsOutcomeUnknown(code) && !IsFinalResource(code) then RateLimited
    else if unavailable && !IsOutcomeUnknown(code) && code != ROUTING_INVALID && !IsFinalResource(code) then
      if IsAdmissionRefusal(code) then AdmissionUnavailable(code) else ServerError
    else if IsAuthLike(code) then AuthError
    else Api(code)
  }

  function AuthVerdict(code: EnumCode): Error {
    if code == Named("AUTH_TIMESTAMP_SKEW") then TimestampSkew
    else if code == Named("AUTH_SESSION_KIND_NOT_ALLOWED") then SessionRequired
    else if code.Named? && code.name in API_KEY_REJECTIONS then ApiKeyRejected(WithoutPrefix(code.name, "AUTH_"))
    else Api(Label(code))
  }

  /** What one detail decides, if anything. */
  function DetailVerdict(detail: Detail, code: ConnectCode): Option<Error> {
    if SaysNothing(detail) || (ServerFailure(code) && HasFutureCode(detail)) then None
    else
      var unavailable := code == Unavailable;
      match detail
      case Auth(authCode) => Some(AuthVerdict(authCode))
      case RateLimit(_) => Some(RateLimited)
      case Order(orderCode, backoff) => Some(OrderVerdict(Label(orderCode), backoff.Some?, unavailable))
      case Withdraw(c) =>
        Some(if c == Named("ERROR_CODE_RATE_LIMIT_EXCEEDED") then RateLimited else ServiceVerdict(c, unavailable))
      case Ledger(c) => Some(ServiceVerdict(c, unavailable))
      case Transfer(c) =>
        Some(if c == Named("ERROR_CODE_RATE_LIMIT_EXCEEDED") then RateLimited else ServiceVerdict(c, unavailable))
      case _ => None
  }

  function FirstVerdict(details: seq<Detail>, code: ConnectCode): Option<Error> {
    if details == [] then None
    else
      match DetailVerdict(details[0], code)
      case Some(error) => Some(error)
      case None => FirstVerdict(details[1..], code)
  }

  function ProblemCode(details: seq<Detail>): Option<string> {
    if details == [] then None
    else if details[0].Problem? then Some(details[0].code)
    else ProblemCode(details[1..])
  }

  /** The code the answer names when no detail decides: the problem's, else the message. */
  function NamedCode(e: ConnectError): string {
    var named := match ProblemCode(e.details) { case Some(code) => code case None => e.message };
    if IsPlaceholderCode(named) then "" else named
  }

  /** `browserBan` tells whether the text is the edge's browser ban. */
  function FromConnectCode(e: ConnectError, names: Names, browserBan: bool): Error {
    var named := NamedCode(e);
    var normalised := OrderCodeFromName(named, names);
    if e.code == Unavailable && e.status == 503
       && normalised != "ERROR_CODE_UNAVAILABLE" && IsAdmissionRefusal(normalised)
    then AdmissionUnavailable(normalised)
    else if (e.code == Unavailable && e.status == 503 && normalised == ROUTING_INVALID)
         || IsOutcomeUnknown(named)
         || (e.code == ResourceExhausted && (normalised in names.order || IsServiceCode(named))
             && !IsRetryableResource(normalised))
    then Api(normalised)
    else if browserBan then TransportError
    else
      match e.code
      case Unauthenticated => AuthError
      case PermissionDenied => AuthError
      case ResourceExhausted => RateLimited
      case DeadlineExceeded => TransportError
      case Unimplemented => NotImplemented
      case Unavailable => ServerError
      case Internal => ServerError
      case Unknown => ServerError
      case DataLoss => ServerError
      case Canceled => ServerError
      case _ => Api(if ProblemCode(e.details).Some? then normalised else CodeName(e.code))
  }

  function CodeName(code: ConnectCode): string {
    match code
    case InvalidArgument => "InvalidArgument"
    case NotFound => "NotFound"
    case AlreadyExists => "AlreadyExists"
    case FailedPrecondition => "FailedPrecondition"
    case Aborted => "Aborted"
    case _ => "OutOfRange"
  }

  predicate LeadsWithUnknown(details: seq<Detail>) {
    details != [] && Priority(details[0]) == 0
  }

  function MapError(e: ConnectError, names: Names, browserBan: bool): Error {
    if GatewayRejection in e.details then
      if e.message == TIMESTAMP_SKEW then TimestampSkew else ApiKeyRejected(e.message)
    else if BareHttp in e.details then
      if e.status == 404 then RouteNotFound else if e.status == 504 then GatewayTimeout else NotImplemented
    else if e.message == TIMESTAMP_SKEW then TimestampSkew
    else
      var details := Sorted(e.details);
      if IsOutcomeUnknown(e.message) && !LeadsWithUnknown(details) then Api(OrderCodeFromName(e.message, names))
      else
        match FirstVerdict(details, e.code)
        case Some(error) => error
        case None => FromConnectCode(e, names, browserBan)
  }

  /** `map_connect_error_inner`, going through the sorted details until one decides. */
  method MapConnectError(e: ConnectError, names: Names, browserBan: bool) returns (error: Error)
    ensures error == MapError(e, names, browserBan)
  {
    hide Sorted, FromConnectCode, DetailVerdict;
    if GatewayRejection in e.details {
      return if e.message == TIMESTAMP_SKEW then TimestampSkew else ApiKeyRejected(e.message);
    }
    if BareHttp in e.details {
      return if e.status == 404 then RouteNotFound else if e.status == 504 then GatewayTimeout else NotImplemented;
    }
    if e.message == TIMESTAMP_SKEW {
      return TimestampSkew;
    }
    var details := Sorted(e.details);
    if IsOutcomeUnknown(e.message) && !LeadsWithUnknown(details) {
      return Api(OrderCodeFromName(e.message, names));
    }
    for i := 0 to |details|
      invariant FirstVerdict(details, e.code) == FirstVerdict(details[i..], e.code)
    {
      var verdict := DetailVerdict(details[i], e.code);
      if verdict.Some? {
        return verdict.value;
      }
      assert details[i..][1..] == details[i + 1..];
    }
    error := FromConnectCode(e, names, browserBan);
  }

  // ----- an unknown outcome wins -----

  predicate NamesUnknownOutcome(detail: Detail) {
    detail.Order? && detail.orderCode.Named? && IsOutcomeUnknown(detail.orderCode.name)
  }

  /** The code of the first order detail that names an unknown outcome. */
  function FirstUnknown(details: seq<Detail>): Option<string> {
    if details == [] then None
    else if NamesUnknownOutcome(details[0]) then Some(details[0].orderCode.name)
    else FirstUnknown(details[1..])
  }

  lemma UnnamedIsNotUnknown(code: EnumCode)
    ensures IsOutcomeUnknown(Label(code)) ==> code.Named?
  {
    if code.Unnamed? {
      assert Label(code)[|Label(code)| - 1] == ')';
    } else if code.Unset? {
      var text := Label(code);
      assert text[|text| - 1] == 'D';
    }
    if IsOutcomeUnknown(Label(code)) {
      LastOf(Label(code));
    }
  }

  /** A code naming an unknown outcome ends in `N`. */
  lemma LastOf(code: string)
    requires IsOutcomeUnknown(code)
    ensures code != [] && code[|code| - 1] == 'N'
  {
    assert code[|code| - |OUTCOME_UNKNOWN|..][|OUTCOME_UNKNOWN| - 1] == code[|code| - 1];
  }

  lemma PriorityIsUnknown(detail: Detail)
    ensures Priority(detail) == 0 <==> NamesUnknownOutcome(detail)
  {
    hide IsOutcomeUnknown;
    if detail.Order? {
      UnnamedIsNotUnknown(detail.orderCode);
    }
  }

  lemma {:induction false} FirstIsFirst(details: seq<Detail>)
    ensures FirstUnknown(details) == None <==> WithPriority(details, 0) == []
    ensures FirstUnknown(details).Some? ==>
              var first := WithPriority(details, 0)[0];
              NamesUnknownOutcome(first) && first.orderCode.name == FirstUnknown(details).value
    decreases |details|
  {
    hide NamesUnknownOutcome, Priority;
    if details != [] {
      PriorityIsUnknown(details[0]);
      FirstIsFirst(details[1..]);
    }
  }

  lemma UnknownOutcomeDecides(detail: Detail, code: ConnectCode)
    requires NamesUnknownOutcome(detail)
    ensures DetailVerdict(detail, code)
         == Some(if IsAuthLike(detail.orderCode.name) then AuthError else Api(detail.orderCode.name))
  {
    hide IsOutcomeUnknown, IsAuthLike, IsFinalResource, IsRetryableResource, IsAdmissionRefusal;
  }

  /**
   With no SDK marker among the details, an order detail naming an unknown outcome
   makes the error one, exactly unless the message is `TIMESTAMP_SKEW`, which is
   matched first, or the code reads like an authentication failure.
   */
  lemma UnknownOutcomeWins(e: ConnectError, names: Names, browserBan: bool)
    requires GatewayRejection !in e.details && BareHttp !in e.details && FirstUnknown(e.details).Some?
    ensures var error := MapError(e, names, browserBan);
            && (MutationOutcomeUnknown(error) <==>
                  e.message != TIMESTAMP_SKEW && !IsAuthLike(FirstUnknown(e.details).value))
            && (MutationOutcomeUnknown(error) ==> error == Api(FirstUnknown(e.details).value) && !IsRetryable(error))
  {
    hide IsOutcomeUnknown, IsAuthLike, DetailVerdict, FromConnectCode, WithPriority, Priority, FirstUnknown;
    hide NamesUnknownOutcome;
    FirstIsFirst(e.details);
    var details := Sorted(e.details);
    var first := WithPriority(e.details, 0)[0];
    assert details[0] == first;
    PriorityIsUnknown(first);
    UnknownOutcomeDecides(first, e.code);
    NamedOutcome(first);
  }

  lemma NamedOutcome(detail: Detail)
    requires NamesUnknownOutcome(detail)
    ensures IsOutcomeUnknown(detail.orderCode.name)
  {
  }

  // ----- with the names this SDK was generated with -----

  const UNKNOWN_ACTIONS := {"ORDER_CREATE", "ORDER_CANCEL", "ORDER_MODIFY", "TRIGGER_CREATE", "TRIGGER_CONTROL"}

  /** One of the five order codes that name an unknown outcome. */
  predicate IsGeneratedUnknown(name: string) {
    exists action | action in UNKNOWN_ACTIONS :: name == PREFIX + action + OUTCOME_UNKNOWN
  }

  /** What the generated enums are known to hold. */
  ghost predicate Generated(names: Names) {
    && ROUTING_INVALID in names.order && "ERROR_CODE_UNAVAILABLE" in names.order
    && "ERROR_CODE_ORDER_SEQUENCE_EXHAUSTED" in names.order
    && "AUTH_SUBACCOUNT_OWNER_ROLE_LOCKED" in names.auth && "AUTH_SESSION_KIND_NOT_ALLOWED" in names.auth
    && "AUTH_" + TIMESTAMP_SKEW in names.auth
    && (forall name | name in names.order && IsOutcomeUnknown(name) :: IsGeneratedUnknown(name))
    && (forall name | KnownToServices(name, names) :: !TwicePrefixed(name))
    && (forall name | name in names.auth :: !(PREFIX <= name) && !("AUTH_" + PREFIX <= name))
  }

  predicate TwicePrefixed(name: string) {
    PREFIX + PREFIX <= name
  }

  const PLAIN_NAMES := {ROUTING_INVALID, "ERROR_CODE_UNAVAILABLE", "ERROR_CODE_ORDER_SEQUENCE_EXHAUSTED"}
  const AUTH_NAMES := {
    "AUTH_SUBACCOUNT_OWNER_ROLE_LOCKED", "AUTH_SESSION_KIND_NOT_ALLOWED", "AUTH_" + TIMESTAMP_SKEW}

  lemma PlainLetters(name: string)
    requires name in PLAIN_NAMES
    ensures |name| > 11 && name[11] in "AUO" && name[|name| - 1] in "DE"
  {
  }

  lemma AuthLetters(name: string)
    requires name in AUTH_NAMES
    ensures |name| > 5 && name[0] == 'A' && name[5] in "ST"
  {
  }

  lemma UnknownLetters(action: string)
    requires action in UNKNOWN_ACTIONS
    ensures action != "" && action[0] in "OT"
  {
  }

  lemma PlainIsPlain(name: string)
    requires name in PLAIN_NAMES
    ensures !IsOutcomeUnknown(name) && !TwicePrefixed(name)
  {
    PlainLetters(name);
    assert OUTCOME_UNKNOWN[15] == 'N' && (PREFIX + PREFIX)[11] == 'E';
  }

  lemma UnknownIsPlain(name: string)
    requires IsGeneratedUnknown(name)
    ensures !TwicePrefixed(name)
  {
    var action :| action in UNKNOWN_ACTIONS && name == PREFIX + action + OUTCOME_UNKNOWN;
    UnknownLetters(action);
    assert name[11] == action[0] && (PREFIX + PREFIX)[11] == 'E';
  }

  lemma AuthIsPlain(name: string)
    requires name in AUTH_NAMES
    ensures !(PREFIX <= name) && !("AUTH_" + PREFIX <= name)
  {
    AuthLetters(name);
    assert ("AUTH_" + PREFIX)[5] == 'E' && PREFIX[0] == 'E';
  }

  /** The enums can hold those names: the ones asked for and the five that name an unknown outcome do. */
  lemma GeneratedIsMet() returns (names: Names)
    ensures Generated(names)
    ensures forall action | action in UNKNOWN_ACTIONS :: PREFIX + action + OUTCOME_UNKNOWN in names.order
  {
    hide IsOutcomeUnknown, TwicePrefixed;
    var unknown := set action | action in UNKNOWN_ACTIONS :: PREFIX + action + OUTCOME_UNKNOWN;
    names := Names(unknown + PLAIN_NAMES, {}, {}, {}, AUTH_NAMES);
    forall name | name in names.order
      ensures !TwicePrefixed(name) && (IsOutcomeUnknown(name) ==> IsGeneratedUnknown(name))
    {
      if name in PLAIN_NAMES {
        PlainIsPlain(name);
      } else {
        UnknownIsPlain(name);
      }
    }
    forall name | name in AUTH_NAMES
      ensures !(PREFIX <= name) && !("AUTH_" + PREFIX <= name)
    {
      AuthIsPlain(name);
    }
  }

  lemma PartNeedsItsChars(code: string, part: string, k: nat)
    requires k < |part| && Contains(code, part)
    ensures part[k] in code
  {
    var i :| 0 <= i <= |code| && part <= code[i..];
    assert code[i + k] == code[i..][k] == part[k];
  }

  /** A letter of each part that marks an authentication failure. */
  predicate WithoutAuthLetters(code: string) {
    forall i | 0 <= i < |code| :: code[i] != 'H' && code[i] != 'S' && code[i] != 'P' && code[i] != 'B'
  }

  lemma NoAuthLetters(code: string)
    requires WithoutAuthLetters(code)
    ensures !IsAuthLike(code)
  {
    hide Contains;
    if Contains(code, "UNAUTHENTICATED") {
      PartNeedsItsChars(code, "UNAUTHENTICATED", 5);
    }
    if Contains(code, "PERMISSION") {
      PartNeedsItsChars(code, "PERMISSION", 0);
    }
    if Contains(code, "API_KEY") {
      PartNeedsItsChars(code, "API_KEY", 1);
    }
    if Contains(code, "WALLET_BINDING") {
      PartNeedsItsChars(code, "WALLET_BINDING", 7);
    }
    if Contains(code, "POLICY") {
      PartNeedsItsChars(code, "POLICY", 0);
    }
  }

  lemma LettersOfBoth(a: string, b: string)
    requires WithoutAuthLetters(a) && WithoutAuthLetters(b)
    ensures WithoutAuthLetters(a + b)
  {
  }

  lemma ActionLetters(action: string)
    requires action in UNKNOWN_ACTIONS
    ensures WithoutAuthLetters(action)
  {
  }

  lemma KnownUnknownIsNotAuthLike(name: string)
    requires IsGeneratedUnknown(name)
    ensures !IsAuthLike(name)
  {
    hide IsAuthLike;
    var action :| action in UNKNOWN_ACTIONS && name == PREFIX + action + OUTCOME_UNKNOWN;
    ActionLetters(action);
    assert WithoutAuthLetters(PREFIX) && WithoutAuthLetters(OUTCOME_UNKNOWN);
    hide WithoutAuthLetters;
    LettersOfBoth(PREFIX, action);
    LettersOfBoth(PREFIX + action, OUTCOME_UNKNOWN);
    NoAuthLetters(name);
  }

  /** Every order code named among the details is one this SDK knows. */
  ghost predicate NamesAreKnown(details: seq<Detail>, names: Names) {
    forall i | 0 <= i < |details| && details[i].Order? && details[i].orderCode.Named? ::
      details[i].orderCode.name in names.order
  }

  lemma {:induction false} FirstUnknownIsKnown(details: seq<Detail>, names: Names)
    requires NamesAreKnown(details, names) && FirstUnknown(details).Some?
    ensures FirstUnknown(details).value in names.order && IsOutcomeUnknown(FirstUnknown(details).value)
    decreases |details|
  {
    hide IsOutcomeUnknown;
    if NamesUnknownOutcome(details[0]) {
      NamedOutcome(details[0]);
    } else {
      FirstUnknownIsKnown(details[1..], names);
    }
  }

  /**
   With the codes this SDK was generated with, an order detail naming an unknown
   outcome makes the error one exactly unless the message is `TIMESTAMP_SKEW`.
   */
  lemma KnownUnknownOutcomeWins(e: ConnectError, names: Names, browserBan: bool)
    requires GatewayRejection !in e.details && BareHttp !in e.details && FirstUnknown(e.details).Some?
    requires Generated(names) && NamesAreKnown(e.details, names)
    ensures var error := MapError(e, names, browserBan);
            && (MutationOutcomeUnknown(error) <==> e.message != TIMESTAMP_SKEW)
            && (MutationOutcomeUnknown(error) ==> error == Api(FirstUnknown(e.details).value) && !IsRetryable(error))
  {
    hide IsAuthLike, MapError, FirstUnknown, IsGeneratedUnknown, IsOutcomeUnknown, NamesAreKnown;
    FirstUnknownIsKnown(e.details, names);
    KnownUnknownIsNotAuthLike(FirstUnknown(e.details).value);
    UnknownOutcomeWins(e, names, browserBan);
  }
}
