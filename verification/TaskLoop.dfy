/**
 The task behind one subscription: it connects, streams, and after each ending
 decides whether to connect again. What the network, the clock, the other
 subscriptions and the consumer do is given as a script; the claims hold of every script.
 */
module TaskLoop {
  import opened Numbers
  import opened Access

  /** A server unsubscribe code from here on asks for an ordinary reconnect. */
  const UNSUBSCRIBE_TEMPORARY_FROM := 2500

  /** `initialBackoff` is in nanoseconds. */
  datatype Limits = Limits(maxAttempts: nat, stableAfter: nat, initialBackoff: nat)

  datatype Reason =
    NotResubscribable | AccessRemoved | RetriesExhausted | ListRefused | NotListed | TokenRefused

  /** How one connection ended. The server can end only a connection that was set up. */
  datatype Outcome =
    | Finished(connected: Option<Instant>)
    | QueueFull(connected: Option<Instant>)
    | Unsubscribed(up: Instant, code: u32)
    | Failed(connected: Option<Instant>, refused: bool)

  /** A stop request can win before or after the list was asked for. */
  datatype ReadResult = ReadStopped(asked: bool) | ReadRefused | ReadFailed | ReadListed(named: bool)

  /** What one turn of a resume decision meets; `jitter` is the random number drawn for its delay. */
  datatype Look = Look(
    jitter: u64,
    removedAtHead: bool,
    delayStopped: bool,
    removedAfterDelay: bool,
    read: ReadResult,
    removedAfterRead: bool,
    slotStopped: bool,
    removedAtSlot: bool)

  datatype Turn = Turn(
    stoppedBefore: bool,
    outcome: Outcome,
    endedAt: Instant,
    stopped: bool,
    looks: nat -> Look,
    jitter: u64,
    backoffStopped: bool)

  datatype Budget = Budget(ready: bool, readyAt: Option<Instant>, attempts: nat, cap: nat)

  datatype Verdict = GiveUp(reason: Reason) | Subscribe | StopRequested

  datatype Event =
    | Ran(connected: Option<Instant>, endedAt: Instant, byServer: bool)
    | FreshBudget
    | KeptBudget
    | Waited(nanos: nat)
    | ListRead
    | Granted
    | BackedOff(millis: nat)
    | GaveUp(reason: Reason)

  // ----- waits -----

  /** `Duration::MAX`. */
  const MAX_NANOS: nat := (U64_MAX + 1) * 1_000_000_000 - 1
  const RECONNECT_INITIAL_CAP_MS: nat := 500
  const RECONNECT_MAX_CAP_MS: nat := 30_000

  /** The cap after it was doubled `k` times. */
  function CapAfter(initial: nat, k: nat): nat {
    if k == 0 then initial else Min(2 * CapAfter(initial, k - 1), MAX_NANOS)
  }

  /** `next_delay` of a resume attempt: half the cap, and at random up to the cap. */
  function AttemptDelay(cap: nat, jitter: u64): nat {
    cap / 2 + jitter % Max(1, Min(cap / 2, U64_MAX))
  }

  function Doubled(k: nat): nat {
    if k == 0 then 1 else 2 * Doubled(k - 1)
  }

  function ReconnectCap(failures: nat): nat {
    Min(RECONNECT_INITIAL_CAP_MS * Doubled(Min(failures, 16)), RECONNECT_MAX_CAP_MS)
  }

  /** `next_delay` of an ordinary reconnect. */
  function ReconnectDelay(failures: nat, jitter: u64): nat {
    var cap := ReconnectCap(failures);
    cap / 2 + jitter % (cap - cap / 2 + 1)
  }

  predicate AttemptDelayFits(delay: nat, cap: nat) {
    cap / 2 <= delay < cap / 2 + Max(1, cap / 2)
  }

  predicate ReconnectDelayFits(delay: nat, failures: nat) {
    ReconnectCap(failures) / 2 <= delay <= ReconnectCap(failures)
  }

  lemma DelaysFit(cap: nat, failures: nat, jitter: u64)
    ensures AttemptDelayFits(AttemptDelay(cap, jitter), cap)
    ensures ReconnectDelayFits(ReconnectDelay(failures, jitter), failures)
  {
    hide ReconnectCap;
    RemainderBelow(jitter, Max(1, Min(cap / 2, U64_MAX)));
    RemainderBelow(jitter, ReconnectCap(failures) - ReconnectCap(failures) / 2 + 1);
  }

  lemma RemainderBelow(n: nat, m: nat)
    requires m > 0
    ensures 0 <= n % m < m
  {
  }

  // ----- one resume decision -----

  /** Where one turn leads; `None` when the list could not be read. */
  function Settle(look: Look): Option<Verdict> {
    if look.delayStopped then Some(StopRequested)
    else if look.removedAfterDelay then Some(GiveUp(AccessRemoved))
    else
      match look.read
      case ReadStopped(_) => Some(StopRequested)
      case ReadRefused => Some(GiveUp(ListRefused))
      case ReadFailed => None
      case ReadListed(named) =>
        if look.removedAfterRead then Some(GiveUp(AccessRemoved))
        else if !named then Some(GiveUp(NotListed))
        else if look.slotStopped then Some(StopRequested)
        else if look.removedAtSlot then Some(GiveUp(AccessRemoved))
        else Some(Subscribe)
  }

  predicate ReadsTheList(look: Look) {
    !look.delayStopped && !look.removedAfterDelay && (look.read.ReadStopped? ==> look.read.asked)
  }

  /** A decision's verdict, the attempts made so far, the cap of the next delay, and the task's record. */
  datatype Decided = Decided(verdict: Verdict, attempts: nat, cap: nat, trace: seq<Event>)

  function Decision(looks: nat -> Look, at: nat, attempts: nat, cap: nat, trace: seq<Event>, max: nat): Decided
    decreases if attempts < max then max - attempts else 0
  {
    var look := looks(at);
    if look.removedAtHead then Decided(GiveUp(AccessRemoved), attempts, cap, trace)
    else if attempts >= max then Decided(GiveUp(RetriesExhausted), attempts, cap, trace)
    else
      var doubled := Min(2 * cap, MAX_NANOS);
      var waited := trace + [Waited(AttemptDelay(cap, look.jitter))];
      var asked := if ReadsTheList(look) then waited + [ListRead] else waited;
      match Settle(look)
      case Some(verdict) =>
        Decided(verdict, attempts + 1, doubled, if verdict.Subscribe? then asked + [Granted] else asked)
      case None => Decision(looks, at + 1, attempts + 1, doubled, asked, max)
  }

  function Resolve(looks: nat -> Look, resumable: bool, budget: Budget, trace: seq<Event>, max: nat): Decided {
    if resumable then Decision(looks, 0, budget.attempts, budget.cap, trace, max)
    else Decided(GiveUp(NotResubscribable), budget.attempts, budget.cap, trace)
  }

  /** `await_resume`: each turn costs one attempt, so it ends. */
  method AwaitResume(looks: nat -> Look, resumable: bool, budget: Budget, before: seq<Event>, max: nat)
    returns (verdict: Verdict, attempts: nat, cap: nat, trace: seq<Event>)
    ensures Decided(verdict, attempts, cap, trace) == Resolve(looks, resumable, budget, before, max)
  {
    attempts, cap, trace := budget.attempts, budget.cap, before;
    if !resumable {
      verdict := GiveUp(NotResubscribable);
      return;
    }
    var turn := 0;
    while true
      invariant Decision(looks, 0, budget.attempts, budget.cap, before, max)
             == Decision(looks, turn, attempts, cap, trace, max)
      decreases max - attempts
    {
      var look := looks(turn);
      if look.removedAtHead {
        verdict := GiveUp(AccessRemoved);
        return;
      }
      if attempts >= max {
        verdict := GiveUp(RetriesExhausted);
        return;
      }
      attempts := attempts + 1;
      var half := cap / 2;
      trace := trace + [Waited(half + look.jitter % Max(1, Min(half, U64_MAX)))];
      cap := Min(2 * cap, MAX_NANOS);
      if look.delayStopped {
        verdict := StopRequested;
        return;
      }
      if look.removedAfterDelay {
        verdict := GiveUp(AccessRemoved);
        return;
      }
      if look.read.ReadStopped? {
        if look.read.asked {
          trace := trace + [ListRead];
        }
        verdict := StopRequested;
        return;
      }
      trace := trace + [ListRead];
      match look.read {
        case ReadRefused =>
          verdict := GiveUp(ListRefused);
          return;
        case ReadListed(named) =>
          if look.removedAfterRead {
            verdict := GiveUp(AccessRemoved);
            return;
          }
          if !named {
            verdict := GiveUp(NotListed);
            return;
          }
          if look.slotStopped {
            verdict := StopRequested;
            return;
          }
          if look.removedAtSlot {
            verdict := GiveUp(AccessRemoved);
            return;
          }
          trace := trace + [Granted];
          verdict := Subscribe;
          return;
        case _ =>
      }
      turn := turn + 1;
    }
  }

  // ----- the record -----

  function Count(trace: seq<Event>, event: Event): nat {
    if trace == [] then 0
    else Count(trace[..|trace| - 1], event) + if trace[|trace| - 1] == event then 1 else 0
  }

  /** Events of this kind after the last fresh budget. */
  function Since(trace: seq<Event>, event: Event): nat {
    if trace == [] || trace[|trace| - 1].FreshBudget? then 0
    else Since(trace[..|trace| - 1], event) + if trace[|trace| - 1] == event then 1 else 0
  }

  ghost predicate WithinBudget(trace: seq<Event>, max: nat) {
    forall n | 0 <= n <= |trace| :: Since(trace[..n], ListRead) <= max && Since(trace[..n], Granted) <= max
  }

  /** Each run but the first is by a grant, or by an ordinary backoff that no server end led to. */
  ghost predicate RunsAllowed(trace: seq<Event>) {
    && (forall i | 0 < i < |trace| && trace[i].Ran? :: trace[i - 1].Granted? || trace[i - 1].BackedOff?)
    && (forall i | 0 <= i < |trace| && trace[i].BackedOff? :: OrdinaryEnd(trace, i - 1))
  }

  predicate OrdinaryEnd(trace: seq<Event>, i: int) {
    0 <= i < |trace| && trace[i].Ran? && !trace[i].byServer
  }

  /** Attempts begun since the last fresh budget. */
  function Waits(trace: seq<Event>): nat {
    if trace == [] || trace[|trace| - 1].FreshBudget? then 0
    else Waits(trace[..|trace| - 1]) + if trace[|trace| - 1].Waited? then 1 else 0
  }

  predicate RanConnected(trace: seq<Event>) {
    trace != [] && trace[|trace| - 1].Ran? && trace[|trace| - 1].connected.Some?
  }

  /** Backoffs since the last one that followed a connection that had been set up, that one included. */
  function Failures(trace: seq<Event>): nat
    decreases |trace|, 0
  {
    if trace == [] then 0
    else
      var before := trace[..|trace| - 1];
      if trace[|trace| - 1].BackedOff? then FailuresNow(before) + 1 else Failures(before)
  }

  /** The failures the next backoff counts. */
  function FailuresNow(trace: seq<Event>): nat
    decreases |trace|, 1
  {
    if RanConnected(trace) then 0 else Failures(trace)
  }

  /** Every wait has the length its place calls for. */
  ghost predicate Timed(trace: seq<Event>, initial: nat) {
    && (forall i | 0 <= i < |trace| && trace[i].Waited? ::
          AttemptDelayFits(trace[i].nanos, CapAfter(initial, Waits(trace[..i]))))
    && (forall i | 0 <= i < |trace| && trace[i].BackedOff? ::
          ReconnectDelayFits(trace[i].millis, FailuresNow(trace[..i])))
  }

  predicate NoFresh(trace: seq<Event>) {
    FreshBudget !in trace
  }

  /** A fresh budget is given exactly at the first server end and after a connection that stayed up. */
  ghost predicate FreshOnlyWhenEarned(trace: seq<Event>, stableAfter: nat) {
    forall i | 0 <= i < |trace| && (trace[i].FreshBudget? || trace[i].KeptBudget?) ::
      EarnedAt(trace, i, stableAfter)
  }

  predicate EarnedAt(trace: seq<Event>, i: nat, stableAfter: nat)
    requires i < |trace|
  {
    && i > 0 && trace[i - 1].Ran? && trace[i - 1].byServer && trace[i - 1].connected.Some?
    && (trace[i].FreshBudget? <==>
          NoFresh(trace[..i]) || trace[i - 1].endedAt - trace[i - 1].connected.value >= stableAfter)
  }

  /** Giving up is the last thing the task does. */
  ghost predicate GivesUpLast(trace: seq<Event>) {
    forall i | 0 <= i < |trace| - 1 :: !trace[i].GaveUp?
  }

  /** The record of a decision grew by these events, each list read and each grant paid for by an attempt. */
  ghost predicate Paid(before: seq<Event>, after: seq<Event>, attempts: nat, cap: nat, limits: Limits) {
    && before <= after
    && (forall i | |before| <= i < |after| :: after[i].Waited? || after[i].ListRead? || after[i].Granted?)
    && Since(after, ListRead) <= attempts && Since(after, Granted) <= attempts <= limits.maxAttempts
    && WithinBudget(after, limits.maxAttempts)
    && InStep(after, attempts, cap, limits)
  }

  /** The budget's counters say what the record says. */
  ghost predicate InStep(trace: seq<Event>, attempts: nat, cap: nat, limits: Limits) {
    && Timed(trace, limits.initialBackoff)
    && attempts == Waits(trace) && cap == CapAfter(limits.initialBackoff, attempts)
  }

  /** The next event, if it is a wait, has its proper length. */
  ghost predicate FitsNext(trace: seq<Event>, event: Event, initial: nat) {
    && (event.Waited? ==> AttemptDelayFits(event.nanos, CapAfter(initial, Waits(trace))))
    && (event.BackedOff? ==> ReconnectDelayFits(event.millis, FailuresNow(trace)))
  }

  lemma TimedOfOneMore(trace: seq<Event>, last: Event, initial: nat)
    requires Timed(trace, initial) && FitsNext(trace, last, initial)
    ensures Timed(trace + [last], initial)
  {
    hide Waits, FailuresNow, CapAfter, AttemptDelayFits, ReconnectDelayFits;
    var more := trace + [last];
    forall i | 0 <= i < |more|
      ensures more[i].Waited? ==> AttemptDelayFits(more[i].nanos, CapAfter(initial, Waits(more[..i])))
      ensures more[i].BackedOff? ==> ReconnectDelayFits(more[i].millis, FailuresNow(more[..i]))
    {
      if i < |trace| {
        assert more[..i] == trace[..i] && more[i] == trace[i];
      } else {
        assert more[..i] == trace;
      }
    }
  }

  lemma CountersOfOneMore(trace: seq<Event>, last: Event)
    ensures Waits(trace + [last])
         == if last.FreshBudget? then 0 else Waits(trace) + if last.Waited? then 1 else 0
    ensures Failures(trace + [last]) == if last.BackedOff? then FailuresNow(trace) + 1 else Failures(trace)
  {
    assert (trace + [last])[..|trace|] == trace;
  }

  lemma SinceOfOneMore(trace: seq<Event>, last: Event, event: Event)
    ensures Since(trace + [last], event)
         == if last.FreshBudget? then 0 else Since(trace, event) + if last == event then 1 else 0
  {
    assert (trace + [last])[..|trace|] == trace;
  }

  lemma WithinBudgetOfOneMore(trace: seq<Event>, last: Event, max: nat)
    requires WithinBudget(trace, max)
    requires Since(trace + [last], ListRead) <= max && Since(trace + [last], Granted) <= max
    ensures WithinBudget(trace + [last], max)
  {
    hide Since;
    var more := trace + [last];
    forall n | 0 <= n <= |more|
      ensures Since(more[..n], ListRead) <= max && Since(more[..n], Granted) <= max
    {
      if n <= |trace| {
        assert more[..n] == trace[..n];
      } else {
        assert more[..n] == more;
      }
    }
  }

  lemma PaidWait(before: seq<Event>, trace: seq<Event>, nanos: nat, attempts: nat, cap: nat, limits: Limits)
    requires Paid(before, trace, attempts, cap, limits) && attempts < limits.maxAttempts
    requires AttemptDelayFits(nanos, cap)
    ensures Paid(before, trace + [Waited(nanos)], attempts + 1, Min(2 * cap, MAX_NANOS), limits)
    ensures Since(trace + [Waited(nanos)], ListRead) <= attempts && Since(trace + [Waited(nanos)], Granted) <= attempts
  {
    hide WithinBudget, Since, Timed, Waits, AttemptDelayFits;
    var event := Waited(nanos);
    SinceOfOneMore(trace, event, ListRead);
    SinceOfOneMore(trace, event, Granted);
    WithinBudgetOfOneMore(trace, event, limits.maxAttempts);
    TimedOfOneMore(trace, event, limits.initialBackoff);
    CountersOfOneMore(trace, event);
  }

  lemma PaidOneMore(before: seq<Event>, trace: seq<Event>, event: Event, attempts: nat, cap: nat, limits: Limits)
    requires Paid(before, trace, attempts, cap, limits) && (event.ListRead? || event.Granted?)
    requires Since(trace, event) < attempts
    ensures Paid(before, trace + [event], attempts, cap, limits)
  {
    hide WithinBudget, Since, Timed, Waits, CapAfter;
    SinceOfOneMore(trace, event, ListRead);
    SinceOfOneMore(trace, event, Granted);
    WithinBudgetOfOneMore(trace, event, limits.maxAttempts);
    TimedOfOneMore(trace, event, limits.initialBackoff);
    CountersOfOneMore(trace, event);
  }

  /** One attempt pays for one wait, one list read and one grant. */
  lemma PaidAttempt(before: seq<Event>, trace: seq<Event>, nanos: nat, attempts: nat, cap: nat, limits: Limits)
    requires Paid(before, trace, attempts, cap, limits) && attempts < limits.maxAttempts
    requires AttemptDelayFits(nanos, cap)
    ensures var waited, doubled := trace + [Waited(nanos)], Min(2 * cap, MAX_NANOS);
            && Paid(before, waited, attempts + 1, doubled, limits)
            && Paid(before, waited + [ListRead], attempts + 1, doubled, limits)
            && Paid(before, waited + [ListRead] + [Granted], attempts + 1, doubled, limits)
  {
    hide Paid, Since, AttemptDelayFits;
    var waited, doubled := trace + [Waited(nanos)], Min(2 * cap, MAX_NANOS);
    PaidWait(before, trace, nanos, attempts, cap, limits);
    PaidOneMore(before, waited, ListRead, attempts + 1, doubled, limits);
    SinceOfOneMore(waited, ListRead, Granted);
    PaidOneMore(before, waited + [ListRead], Granted, attempts + 1, doubled, limits);
  }

  lemma {:induction false} DecisionIsPaid(
      looks: nat -> Look, at: nat, attempts: nat, cap: nat, before: seq<Event>, trace: seq<Event>, limits: Limits)
    requires Paid(before, trace, attempts, cap, limits)
    ensures var decided := Decision(looks, at, attempts, cap, trace, limits.maxAttempts);
            && Paid(before, decided.trace, decided.attempts, decided.cap, limits)
            && (decided.verdict.Subscribe? ==>
                  |decided.trace| > |before| && decided.trace[|decided.trace| - 1].Granted?)
    decreases if attempts < limits.maxAttempts then limits.maxAttempts - attempts else 0
  {
    hide Since, WithinBudget, InStep, AttemptDelay, AttemptDelayFits, ReconnectDelay, ReconnectDelayFits;
    var look := looks(at);
    if !look.removedAtHead && attempts < limits.maxAttempts {
      var nanos := AttemptDelay(cap, look.jitter);
      DelaysFit(cap, 0, look.jitter);
      PaidAttempt(before, trace, nanos, attempts, cap, limits);
      if Settle(look) == None {
        DecisionIsPaid(looks, at + 1, attempts + 1, Min(2 * cap, MAX_NANOS), before,
                       trace + [Waited(nanos)] + [ListRead], limits);
      }
    }
  }

  // ----- the task -----

  function ConnectedAt(outcome: Outcome): Option<Instant> {
    match outcome
    case Unsubscribed(up, _) => Some(up)
    case _ => outcome.connected
  }

  predicate ByServer(outcome: Outcome) {
    outcome.Unsubscribed? && outcome.code < UNSUBSCRIBE_TEMPORARY_FROM
  }

  predicate Keeps(budget: Budget, endedAt: Instant, stableAfter: nat) {
    !budget.ready || budget.readyAt.None? || endedAt - budget.readyAt.value < stableAfter
  }

  /** `attempt_after`: the budget goes on unless the resumed connection stayed up. */
  function BudgetAfter(current: Option<Budget>, endedAt: Instant, limits: Limits): Budget {
    if current.Some? && Keeps(current.value, endedAt, limits.stableAfter) then current.value.(ready := false)
    else Budget(false, None, 0, limits.initialBackoff)
  }

  /** The budget event a server end puts on the record. */
  function BudgetEvent(current: Option<Budget>, endedAt: Instant, stableAfter: nat): Event {
    if current.Some? && Keeps(current.value, endedAt, stableAfter) then KeptBudget else FreshBudget
  }

  function Connections(trace: seq<Event>): nat {
    if trace == [] then 0
    else
      var last := trace[|trace| - 1];
      Connections(trace[..|trace| - 1]) + if last.Ran? && last.connected.Some? then 1 else 0
  }

  lemma ConnectionsOfOneMore(trace: seq<Event>, last: Event)
    ensures Connections(trace + [last])
         == Connections(trace) + if last.Ran? && last.connected.Some? then 1 else 0
  {
    assert (trace + [last])[..|trace|] == trace;
  }

  lemma {:induction false} ConnectionsOfPaid(before: seq<Event>, after: seq<Event>)
    requires before <= after
    requires forall i | |before| <= i < |after| :: !after[i].Ran?
    ensures Connections(after) == Connections(before)
    decreases |after|
  {
    if |after| > |before| {
      ConnectionsOfPaid(before, after[..|after| - 1]);
    } else {
      assert after == before;
    }
  }

  /** What holds of the record between two turns; `budget` is what the last server end left. */
  ghost predicate Record(trace: seq<Event>, budget: Option<Budget>, limits: Limits) {
    && WithinBudget(trace, limits.maxAttempts)
    && RunsAllowed(trace)
    && FreshOnlyWhenEarned(trace, limits.stableAfter)
    && (forall i | 0 <= i < |trace| :: !trace[i].GaveUp?)
    && Timed(trace, limits.initialBackoff)
    && (budget.None? <==> NoFresh(trace))
    && (budget.None? ==> Since(trace, ListRead) == 0 && Since(trace, Granted) == 0)
    && (budget.Some? ==>
          && budget.value.attempts <= limits.maxAttempts
          && Since(trace, ListRead) <= budget.value.attempts
          && Since(trace, Granted) <= budget.value.attempts
          && InStep(trace, budget.value.attempts, budget.value.cap, limits))
  }

  /** A turn may begin: nothing has run yet, or the last event allows a run. */
  predicate MayRun(trace: seq<Event>) {
    trace == [] || trace[|trace| - 1].Granted? || trace[|trace| - 1].BackedOff?
  }

  lemma RecordOfRun(trace: seq<Event>, budget: Option<Budget>, limits: Limits, run: Event)
    requires Record(trace, budget, limits) && MayRun(trace) && run.Ran?
    ensures Record(trace + [run], budget, limits)
  {
    hide WithinBudget, Since, Timed, Waits, CapAfter;
    TimedOfOneMore(trace, run, limits.initialBackoff);
    CountersOfOneMore(trace, run);
    SinceOfOneMore(trace, run, ListRead);
    SinceOfOneMore(trace, run, Granted);
    WithinBudgetAlways(trace, limits.maxAttempts);
    WithinBudgetOfOneMore(trace, run, limits.maxAttempts);
    FreshOfOneMore(trace, run, limits.stableAfter);
  }

  lemma WithinBudgetAlways(trace: seq<Event>, max: nat)
    requires WithinBudget(trace, max)
    ensures Since(trace, ListRead) <= max && Since(trace, Granted) <= max
  {
    assert trace[..|trace|] == trace;
  }

  lemma FreshOfOneMore(trace: seq<Event>, last: Event, stableAfter: nat)
    requires FreshOnlyWhenEarned(trace, stableAfter)
    requires !last.FreshBudget? && !last.KeptBudget?
    ensures FreshOnlyWhenEarned(trace + [last], stableAfter)
  {
    FreshOfMore(trace, trace + [last], stableAfter);
  }

  lemma EarnedInMore(trace: seq<Event>, more: seq<Event>, i: nat, stableAfter: nat)
    requires i < |trace| && trace <= more && EarnedAt(trace, i, stableAfter)
    ensures EarnedAt(more, i, stableAfter)
  {
    assert more[..i] == trace[..i];
  }

  lemma FreshOfMore(trace: seq<Event>, more: seq<Event>, stableAfter: nat)
    requires FreshOnlyWhenEarned(trace, stableAfter) && trace <= more
    requires forall i | |trace| <= i < |more| :: !more[i].FreshBudget? && !more[i].KeptBudget?
    ensures FreshOnlyWhenEarned(more, stableAfter)
  {
    forall i | 0 <= i < |more| && (more[i].FreshBudget? || more[i].KeptBudget?)
      ensures EarnedAt(more, i, stableAfter)
    {
      EarnedInMore(trace, more, i, stableAfter);
    }
  }

  lemma RecordOfBackoff(trace: seq<Event>, budget: Option<Budget>, limits: Limits, millis: nat)
    requires Record(trace, budget, limits)
    requires trace != [] && trace[|trace| - 1].Ran? && !trace[|trace| - 1].byServer
    requires ReconnectDelayFits(millis, FailuresNow(trace))
    ensures Record(trace + [BackedOff(millis)], budget, limits)
  {
    hide WithinBudget, Since, Timed, Waits, CapAfter, FailuresNow, ReconnectDelayFits;
    var event := BackedOff(millis);
    TimedOfOneMore(trace, event, limits.initialBackoff);
    CountersOfOneMore(trace, event);
    SinceOfOneMore(trace, event, ListRead);
    SinceOfOneMore(trace, event, Granted);
    WithinBudgetAlways(trace, limits.maxAttempts);
    WithinBudgetOfOneMore(trace, event, limits.maxAttempts);
    FreshOfOneMore(trace, event, limits.stableAfter);
  }

  lemma RecordOfBudget(trace: seq<Event>, budget: Option<Budget>, limits: Limits)
    requires Record(trace, budget, limits)
    requires trace != [] && trace[|trace| - 1].Ran? && trace[|trace| - 1].byServer
    requires trace[|trace| - 1].connected.Some?
    requires budget.Some? ==> budget.value.ready && budget.value.readyAt == trace[|trace| - 1].connected
    ensures var endedAt := trace[|trace| - 1].endedAt;
            Record(trace + [BudgetEvent(budget, endedAt, limits.stableAfter)],
                   Some(BudgetAfter(budget, endedAt, limits)), limits)
  {
    hide WithinBudget, Since, EarnedAt, Timed, Waits;
    var event := BudgetEvent(budget, trace[|trace| - 1].endedAt, limits.stableAfter);
    var more := trace + [event];
    TimedOfOneMore(trace, event, limits.initialBackoff);
    CountersOfOneMore(trace, event);
    SinceOfOneMore(trace, event, ListRead);
    SinceOfOneMore(trace, event, Granted);
    WithinBudgetAlways(trace, limits.maxAttempts);
    WithinBudgetOfOneMore(trace, event, limits.maxAttempts);
    forall i | 0 <= i < |more| && (more[i].FreshBudget? || more[i].KeptBudget?)
      ensures EarnedAt(more, i, limits.stableAfter)
    {
      if i < |trace| {
        EarnedInMore(trace, more, i, limits.stableAfter);
      } else {
        EarnedNow(trace, budget, limits.stableAfter);
      }
    }
  }

  lemma EarnedNow(trace: seq<Event>, budget: Option<Budget>, stableAfter: nat)
    requires trace != [] && trace[|trace| - 1].Ran? && trace[|trace| - 1].byServer
    requires trace[|trace| - 1].connected.Some? && (budget.None? <==> NoFresh(trace))
    requires budget.Some? ==> budget.value.ready && budget.value.readyAt == trace[|trace| - 1].connected
    ensures EarnedAt(trace + [BudgetEvent(budget, trace[|trace| - 1].endedAt, stableAfter)], |trace|, stableAfter)
  {
    var event := BudgetEvent(budget, trace[|trace| - 1].endedAt, stableAfter);
    assert (trace + [event])[..|trace|] == trace;
  }

  lemma RecordOfPaid(trace: seq<Event>, budget: Budget, after: seq<Event>, paid: Budget, limits: Limits)
    requires Record(trace, Some(budget), limits) && Paid(trace, after, paid.attempts, paid.cap, limits)
    ensures Record(after, Some(paid), limits)
  {
    hide WithinBudget, Since, Timed, Waits, CapAfter;
    FreshOfMore(trace, after, limits.stableAfter);
    assert FreshBudget in trace;
  }

  /** What holds of the finished record. */
  ghost predicate Sound(trace: seq<Event>, limits: Limits) {
    && WithinBudget(trace, limits.maxAttempts)
    && RunsAllowed(trace)
    && FreshOnlyWhenEarned(trace, limits.stableAfter)
    && GivesUpLast(trace)
    && Timed(trace, limits.initialBackoff)
  }

  lemma SoundAfterGivingUp(trace: seq<Event>, budget: Option<Budget>, limits: Limits, reason: Reason)
    requires Record(trace, budget, limits)
    ensures Sound(trace + [GaveUp(reason)], limits)
  {
    hide WithinBudget, Since, Timed;
    TimedOfOneMore(trace, GaveUp(reason), limits.initialBackoff);
    SinceOfOneMore(trace, GaveUp(reason), ListRead);
    SinceOfOneMore(trace, GaveUp(reason), Granted);
    WithinBudgetAlways(trace, limits.maxAttempts);
    WithinBudgetOfOneMore(trace, GaveUp(reason), limits.maxAttempts);
    FreshOfOneMore(trace, GaveUp(reason), limits.stableAfter);
  }

  lemma RecordIsSound(trace: seq<Event>, budget: Option<Budget>, limits: Limits)
    requires Record(trace, budget, limits)
    ensures Sound(trace, limits)
  {
    hide WithinBudget, RunsAllowed, FreshOnlyWhenEarned, Timed;
  }

  /** A budget noted ready keeps its record. */
  lemma RecordOfReady(trace: seq<Event>, budget: Budget, ready: Budget, limits: Limits)
    requires Record(trace, Some(budget), limits) && ready.attempts == budget.attempts && ready.cap == budget.cap
    ensures Record(trace, Some(ready), limits)
  {
    hide WithinBudget, RunsAllowed, FreshOnlyWhenEarned, Since, InStep, Timed;
  }

  // ----- turns -----

  datatype Config = Config(autoReconnect: bool, resumable: bool, limits: Limits)

  /**
   `ready` until the first connection is set up; `gap` counts the connections set up after
   it, `failures` the ordinary backoffs since one was.
   */
  datatype Task = Task(
    trace: seq<Event>, budget: Option<Budget>, ready: bool, gap: nat, failures: nat, going: bool)

  const NEW_TASK := Task([], None, true, 0, 0, true)

  function Stopped(task: Task): Task {
    task.(going := false)
  }

  function AfterRun(task: Task, turn: Turn): Task {
    var connected := ConnectedAt(turn.outcome);
    var trace := task.trace + [Ran(connected, turn.endedAt, ByServer(turn.outcome))];
    if connected.None? then task.(trace := trace)
    else
      var budget := if task.budget.None? then None
                    else Some(task.budget.value.(ready := true, readyAt := connected));
      task.(trace := trace, budget := budget, ready := false, gap := if task.ready then 0 else task.gap + 1)
  }

  /** The task after a resume decision on `budget`. */
  function AfterDecision(task: Task, budget: Budget, looks: nat -> Look, config: Config): Task {
    var Decided(verdict, attempts, cap, trace) :=
      Resolve(looks, config.resumable, budget, task.trace, config.limits.maxAttempts);
    var after := task.(trace := trace, budget := Some(budget.(attempts := attempts, cap := cap)));
    match verdict
    case Subscribe => after
    case StopRequested => Stopped(after)
    case GiveUp(reason) => Stopped(after).(trace := trace + [GaveUp(reason)])
  }

  function AfterServerEnd(task: Task, turn: Turn, config: Config): Task {
    var event := BudgetEvent(task.budget, turn.endedAt, config.limits.stableAfter);
    AfterDecision(task.(trace := task.trace + [event]),
                  BudgetAfter(task.budget, turn.endedAt, config.limits), turn.looks, config)
  }

  function AfterTurn(task: Task, turn: Turn, config: Config): Task {
    if turn.stoppedBefore then Stopped(task)
    else
      var ran := AfterRun(task, turn);
      if turn.outcome.Finished? || turn.stopped || turn.outcome.QueueFull? then Stopped(ran)
      else if ByServer(turn.outcome) then
        if config.autoReconnect then AfterServerEnd(ran, turn, config) else Stopped(ran)
      else if ran.budget.Some? && !ran.budget.value.ready then
        if turn.outcome.Failed? && turn.outcome.refused
        then Stopped(ran).(trace := ran.trace + [GaveUp(TokenRefused)])
        else AfterDecision(ran, ran.budget.value, turn.looks, config)
      else if ran.ready || !config.autoReconnect || turn.backoffStopped then Stopped(ran)
      else
        var failures := if ConnectedAt(turn.outcome).Some? then 0 else ran.failures;
        ran.(trace := ran.trace + [BackedOff(ReconnectDelay(failures, turn.jitter))], failures := failures + 1)
  }

  function TaskAfter(turns: seq<Turn>, config: Config): Task {
    if turns == [] then NEW_TASK
    else
      var before := TaskAfter(turns[..|turns| - 1], config);
      if before.going then AfterTurn(before, turns[|turns| - 1], config) else before
  }

  /** The task of one subscription over a script of turns. */
  method RunTask(turns: seq<Turn>, config: Config) returns (trace: seq<Event>, gap: nat)
    ensures trace == TaskAfter(turns, config).trace && gap == TaskAfter(turns, config).gap
  {
    hide Resolve, ReconnectDelay;
    trace, gap := [], 0;
    var ready, failures, resume: Option<Budget> := true, 0, None;
    for n := 0 to |turns|
      invariant TaskAfter(turns[..n], config) == Task(trace, resume, ready, gap, failures, true)
    {
      var turn := turns[n];
      assert turns[..n + 1][..n] == turns[..n];
      StoppedStays(turns, n + 1, config);
      if turn.stoppedBefore {
        return;
      }
      var connected := ConnectedAt(turn.outcome);
      trace := trace + [Ran(connected, turn.endedAt, ByServer(turn.outcome))];
      if connected.Some? {
        if ready {
          ready, gap := false, 0;
        } else {
          gap := gap + 1;
        }
        if resume.Some? {
          resume := Some(resume.value.(ready := true, readyAt := connected));
        }
      }
      if turn.outcome.Finished? || turn.stopped || turn.outcome.QueueFull? {
        return;
      }
      if !ByServer(turn.outcome) && (resume.None? || resume.value.ready) {
        if ready || !config.autoReconnect || turn.backoffStopped {
          return;
        }
        if connected.Some? {
          failures := 0;
        }
        trace := trace + [BackedOff(ReconnectDelay(failures, turn.jitter))];
        failures := failures + 1;
      } else {
        if ByServer(turn.outcome) {
          if !config.autoReconnect {
            return;
          }
          trace := trace + [BudgetEvent(resume, turn.endedAt, config.limits.stableAfter)];
          resume := Some(BudgetAfter(resume, turn.endedAt, config.limits));
        } else if turn.outcome.Failed? && turn.outcome.refused {
          trace := trace + [GaveUp(TokenRefused)];
          return;
        }
        var verdict, attempts, cap;
        verdict, attempts, cap, trace := AwaitResume(
          turn.looks, config.resumable, resume.value, trace, config.limits.maxAttempts);
        resume := Some(resume.value.(attempts := attempts, cap := cap));
        if verdict.GiveUp? {
          trace := trace + [GaveUp(verdict.reason)];
        }
        if !verdict.Subscribe? {
          return;
        }
      }
    }
    assert turns[..|turns|] == turns;
  }

  lemma {:induction false} StoppedStays(turns: seq<Turn>, n: nat, config: Config)
    requires n <= |turns|
    ensures !TaskAfter(turns[..n], config).going ==> TaskAfter(turns, config) == TaskAfter(turns[..n], config)
    decreases |turns|
  {
    if n < |turns| {
      var shorter := turns[..|turns| - 1];
      assert shorter[..n] == turns[..n];
      StoppedStays(shorter, n, config);
    } else {
      assert turns[..n] == turns;
    }
  }

  // ----- every task keeps its record in order -----

  ghost predicate TaskOk(task: Task, limits: Limits) {
    && Sound(task.trace, limits)
    && (task.going ==>
          Record(task.trace, task.budget, limits) && MayRun(task.trace) && task.failures == Failures(task.trace))
    && task.gap == Max(0, Connections(task.trace) - 1) && (task.ready <==> Connections(task.trace) == 0)
  }

  lemma RunIsOk(task: Task, turn: Turn, limits: Limits)
    requires TaskOk(task, limits) && task.going
    ensures var ran := AfterRun(task, turn);
            && Sound(ran.trace, limits) && Record(ran.trace, ran.budget, limits)
            && ran.gap == Max(0, Connections(ran.trace) - 1) && (ran.ready <==> Connections(ran.trace) == 0)
            && ran.failures == Failures(ran.trace)
            && FailuresNow(ran.trace) == if ConnectedAt(turn.outcome).Some? then 0 else ran.failures
  {
    hide Record, Sound, Connections, Failures;
    var ran := AfterRun(task, turn);
    var event := Ran(ConnectedAt(turn.outcome), turn.endedAt, ByServer(turn.outcome));
    CountersOfOneMore(task.trace, event);
    RecordOfRun(task.trace, task.budget, limits, event);
    RecordIsSound(ran.trace, task.budget, limits);
    ConnectionsOfOneMore(task.trace, event);
    if task.budget.Some? && ConnectedAt(turn.outcome).Some? {
      RecordOfReady(ran.trace, task.budget.value, ran.budget.value, limits);
    }
  }

  lemma DecisionIsOk(task: Task, budget: Budget, looks: nat -> Look, config: Config)
    requires Record(task.trace, Some(budget), config.limits) && task.going
    ensures var after := AfterDecision(task, budget, looks, config);
            && Sound(after.trace, config.limits)
            && (after.going ==> Record(after.trace, after.budget, config.limits) && MayRun(after.trace))
            && Connections(after.trace) == Connections(task.trace)
            && (after.going ==> Failures(after.trace) == Failures(task.trace))
  {
    hide WithinBudget, RunsAllowed, FreshOnlyWhenEarned, Since, Connections, Sound, Decision, Failures, InStep, Timed;
    var limits := config.limits;
    var decided := Resolve(looks, config.resumable, budget, task.trace, limits.maxAttempts);
    DecisionIsPaid(looks, 0, budget.attempts, budget.cap, task.trace, task.trace, limits);
    var after := budget.(attempts := decided.attempts, cap := decided.cap);
    RecordOfPaid(task.trace, budget, decided.trace, after, limits);
    ConnectionsOfPaid(task.trace, decided.trace);
    FailuresOfPaid(task.trace, decided.trace);
    RecordIsSound(decided.trace, Some(after), limits);
    if decided.verdict.GiveUp? {
      SoundAfterGivingUp(decided.trace, Some(after), limits, decided.verdict.reason);
      ConnectionsOfOneMore(decided.trace, GaveUp(decided.verdict.reason));
    }
  }

  lemma ServerEndIsOk(task: Task, turn: Turn, config: Config)
    requires TaskOk(task, config.limits) && task.going && ByServer(turn.outcome)
    ensures TaskOk(AfterServerEnd(AfterRun(task, turn), turn, config), config.limits)
  {
    hide Record, Sound, Connections, AfterDecision, BudgetAfter, Failures, FailuresNow;
    var ran := AfterRun(task, turn);
    RunIsOk(task, turn, config.limits);
    var event := BudgetEvent(ran.budget, turn.endedAt, config.limits.stableAfter);
    RecordOfBudget(ran.trace, ran.budget, config.limits);
    ConnectionsOfOneMore(ran.trace, event);
    CountersOfOneMore(ran.trace, event);
    AfterDecisionKeeps(ran.(trace := ran.trace + [event]),
                       BudgetAfter(ran.budget, turn.endedAt, config.limits), turn.looks, config);
    DecisionIsOk(ran.(trace := ran.trace + [event]),
                 BudgetAfter(ran.budget, turn.endedAt, config.limits), turn.looks, config);
  }

  lemma AfterDecisionKeeps(task: Task, budget: Budget, looks: nat -> Look, config: Config)
    ensures AfterDecision(task, budget, looks, config).gap == task.gap
    ensures AfterDecision(task, budget, looks, config).ready == task.ready
    ensures AfterDecision(task, budget, looks, config).failures == task.failures
  {
    hide Resolve;
  }

  lemma TurnIsOk(task: Task, turn: Turn, config: Config)
    requires TaskOk(task, config.limits) && task.going
    ensures TaskOk(AfterTurn(task, turn, config), config.limits)
  {
    hide Record, Sound, Connections, AfterDecision, AfterServerEnd, AfterRun, Failures, FailuresNow, ReconnectDelay;
    var ran := AfterRun(task, turn);
    RunIsOk(task, turn, config.limits);
    AfterRunEnds(task, turn);
    if ByServer(turn.outcome) {
      ServerEndIsOk(task, turn, config);
    } else if ran.budget.Some? && !ran.budget.value.ready {
      DecisionIsOk(ran, ran.budget.value, turn.looks, config);
      AfterDecisionKeeps(ran, ran.budget.value, turn.looks, config);
      SoundAfterGivingUp(ran.trace, ran.budget, config.limits, TokenRefused);
      ConnectionsOfOneMore(ran.trace, GaveUp(TokenRefused));
    } else {
      var failures := FailuresNow(ran.trace);
      var millis := ReconnectDelay(failures, turn.jitter);
      DelaysFit(0, failures, turn.jitter);
      RecordOfBackoff(ran.trace, ran.budget, config.limits, millis);
      RecordIsSound(ran.trace + [BackedOff(millis)], ran.budget, config.limits);
      ConnectionsOfOneMore(ran.trace, BackedOff(millis));
      CountersOfOneMore(ran.trace, BackedOff(millis));
    }
  }

  lemma {:induction false} FailuresOfPaid(before: seq<Event>, after: seq<Event>)
    requires before <= after
    requires forall i | |before| <= i < |after| :: !after[i].BackedOff?
    ensures Failures(after) == Failures(before)
    decreases |after|
  {
    if |after| > |before| {
      FailuresOfPaid(before, after[..|after| - 1]);
    } else {
      assert after == before;
    }
  }

  lemma AfterRunEnds(task: Task, turn: Turn)
    ensures var ran := AfterRun(task, turn);
            && ran.trace == task.trace + [Ran(ConnectedAt(turn.outcome), turn.endedAt, ByServer(turn.outcome))]
            && ran.going == task.going
  {
  }

  lemma {:induction false} TaskIsOk(turns: seq<Turn>, config: Config)
    ensures TaskOk(TaskAfter(turns, config), config.limits)
    decreases |turns|
  {
    hide TaskOk, AfterTurn;
    if turns == [] {
      NewTaskIsOk(config.limits);
    } else {
      var before := turns[..|turns| - 1];
      TaskIsOk(before, config);
      if TaskAfter(before, config).going {
        TurnIsOk(TaskAfter(before, config), turns[|turns| - 1], config);
      }
    }
  }

  lemma NewTaskIsOk(limits: Limits)
    ensures TaskOk(NEW_TASK, limits)
  {
  }

  // ----- what the record says -----

  lemma {:induction false} CountWithoutFresh(trace: seq<Event>, i: nat, event: Event)
    requires i <= |trace| && NoFresh(trace[i..]) && !event.FreshBudget?
    ensures Count(trace[i..], event) <= Since(trace, event)
    decreases |trace|
  {
    if i < |trace| {
      var shorter := trace[..|trace| - 1];
      assert trace[i..][..|trace| - i - 1] == shorter[i..];
      assert trace[|trace| - 1] in trace[i..];
      CountWithoutFresh(shorter, i, event);
    }
  }

  /**
   Over any stretch of a task's record with no fresh budget in it, the list is
   read at most `maxAttempts` times and at most `maxAttempts` subscribes are granted.
   */
  lemma ResumptionIsBounded(turns: seq<Turn>, config: Config, i: nat, j: nat)
    requires i <= j <= |TaskAfter(turns, config).trace| && NoFresh(TaskAfter(turns, config).trace[i..j])
    ensures Count(TaskAfter(turns, config).trace[i..j], ListRead) <= config.limits.maxAttempts
    ensures Count(TaskAfter(turns, config).trace[i..j], Granted) <= config.limits.maxAttempts
  {
    hide TaskAfter, RunsAllowed, FreshOnlyWhenEarned, GivesUpLast, Since, Count, NoFresh, Record;
    TaskIsOk(turns, config);
    var trace := TaskAfter(turns, config).trace;
    assert trace[..j][i..] == trace[i..j];
    CountWithoutFresh(trace[..j], i, ListRead);
    CountWithoutFresh(trace[..j], i, Granted);
  }

  /**
   A budget event follows at once the connection the server ended. It is a fresh
   budget exactly at the first such end or when that connection had been up for `stableAfter`.
   */
  lemma FreshBudgetIsEarned(turns: seq<Turn>, config: Config, i: nat)
    requires i < |TaskAfter(turns, config).trace|
    requires TaskAfter(turns, config).trace[i].FreshBudget? || TaskAfter(turns, config).trace[i].KeptBudget?
    ensures var trace := TaskAfter(turns, config).trace;
            && i > 0 && trace[i - 1].Ran? && trace[i - 1].byServer && trace[i - 1].connected.Some?
            && (trace[i].FreshBudget? <==>
                  || FreshBudget !in trace[..i]
                  || trace[i - 1].endedAt - trace[i - 1].connected.value >= config.limits.stableAfter)
  {
    hide TaskAfter, RunsAllowed, WithinBudget, GivesUpLast, Record;
    TaskIsOk(turns, config);
    assert EarnedAt(TaskAfter(turns, config).trace, i, config.limits.stableAfter);
  }

  /** After the server ends a subscription, the task runs again only right after a grant. */
  lemma ServerEndNeedsGrant(turns: seq<Turn>, config: Config, i: nat, j: nat)
    requires i < j < |TaskAfter(turns, config).trace|
    requires var trace := TaskAfter(turns, config).trace;
             && trace[i].Ran? && trace[i].byServer && trace[j].Ran?
             && (forall k | i < k < j :: !trace[k].Ran?)
    ensures TaskAfter(turns, config).trace[j - 1].Granted? && i < j - 1
  {
    hide TaskAfter, WithinBudget, FreshOnlyWhenEarned, GivesUpLast, Record;
    TaskIsOk(turns, config);
    var trace := TaskAfter(turns, config).trace;
    assert trace[j - 1].BackedOff? ==> OrdinaryEnd(trace, j - 2);
  }

  /** Once the task gives up it does nothing more. */
  lemma GivingUpIsFinal(turns: seq<Turn>, config: Config, i: nat)
    requires i < |TaskAfter(turns, config).trace| && TaskAfter(turns, config).trace[i].GaveUp?
    ensures i == |TaskAfter(turns, config).trace| - 1
  {
    hide TaskAfter, WithinBudget, FreshOnlyWhenEarned, RunsAllowed, Record;
    TaskIsOk(turns, config);
  }

  /** The reported count of gaps is the number of connections set up after the first. */
  lemma GapCountsReconnections(turns: seq<Turn>, config: Config)
    ensures TaskAfter(turns, config).gap == Max(0, Connections(TaskAfter(turns, config).trace) - 1)
  {
    hide TaskAfter, Record, Sound;
    TaskIsOk(turns, config);
  }

  /**
   The wait of each resume attempt lies between half the cap and the cap, which starts at
   the initial backoff with each fresh budget and doubles per attempt. An ordinary wait lies between
   half its cap and the cap, 500 ms doubled per failure in a row, up to 30 s.
   */
  lemma WaitsAreInRange(turns: seq<Turn>, config: Config, i: nat)
    requires i < |TaskAfter(turns, config).trace|
    ensures var trace := TaskAfter(turns, config).trace;
            && (trace[i].Waited? ==>
                  var cap := CapAfter(config.limits.initialBackoff, Waits(trace[..i]));
                  cap / 2 <= trace[i].nanos < cap / 2 + Max(1, cap / 2))
            && (trace[i].BackedOff? ==>
                  var cap := ReconnectCap(FailuresNow(trace[..i]));
                  cap / 2 <= trace[i].millis <= cap && 500 <= cap <= 30_000)
  {
    hide TaskAfter, WithinBudget, FreshOnlyWhenEarned, RunsAllowed, Record, Waits, FailuresNow, CapAfter, ReconnectCap;
    TaskIsOk(turns, config);
    ReconnectCapRange(FailuresNow(TaskAfter(turns, config).trace[..i]));
  }

  lemma ReconnectCapRange(failures: nat)
    ensures 500 <= ReconnectCap(failures) <= 30_000
  {
    AtLeastOne(Min(failures, 16));
  }

  lemma {:induction false} AtLeastOne(k: nat)
    ensures Doubled(k) >= 1
  {
    if k > 0 {
      AtLeastOne(k - 1);
    }
  }

  // ----- what the turns say -----

  predicate SetUp(turn: Turn) {
    turn.outcome.Unsubscribed? || turn.outcome.connected.Some?
  }

  /** The server unsubscribed with a code that does not ask for an ordinary reconnect. */
  predicate Revoked(turn: Turn) {
    turn.outcome.Unsubscribed? && turn.outcome.code < 2500
  }

  /** The last of these turns whose connection was set up. */
  function LastSetUp(turns: seq<Turn>): Option<Turn> {
    if turns == [] then None
    else if SetUp(turns[|turns| - 1]) then Some(turns[|turns| - 1])
    else LastSetUp(turns[..|turns| - 1])
  }

  /** The last connection that was set up was ended by the server. */
  predicate AwaitsGrant(turns: seq<Turn>) {
    LastSetUp(turns).Some? && Revoked(LastSetUp(turns).value)
  }

  /** The task stands where its turns put it. */
  ghost predicate Stands(task: Task, turns: seq<Turn>, config: Config) {
    && (task.ready <==> LastSetUp(turns).None?)
    && (task.budget.Some? && !task.budget.value.ready <==> AwaitsGrant(turns))
    && (task.budget.Some? ==> config.autoReconnect)
  }

  lemma TurnStands(task: Task, before: seq<Turn>, turn: Turn, config: Config)
    requires task.going && Stands(task, before, config) && AfterTurn(task, turn, config).going
    ensures Stands(AfterTurn(task, turn, config), before + [turn], config)
  {
    hide AfterDecision, ReconnectDelay, BudgetEvent, Keeps, ConnectedAt, ByServer;
    assert (before + [turn])[..|before|] == before;
    ConnectedIsSetUp(turn);
    AfterDecisionOn(turn, config);
  }

  lemma ConnectedIsSetUp(turn: Turn)
    ensures ConnectedAt(turn.outcome).Some? <==> SetUp(turn)
    ensures ByServer(turn.outcome) <==> Revoked(turn)
  {
  }

  /** A decision keeps what the task stands on. */
  lemma AfterDecisionOn(turn: Turn, config: Config)
    ensures forall ran: Task, budget: Budget ::
              var after := AfterDecision(ran, budget, turn.looks, config);
              && after.ready == ran.ready && after.budget.Some? && after.budget.value.ready == budget.ready
  {
    hide Resolve;
  }

  lemma {:induction false} TaskStands(turns: seq<Turn>, config: Config)
    requires TaskAfter(turns, config).going
    ensures Stands(TaskAfter(turns, config), turns, config)
    decreases |turns|
  {
    hide AfterTurn, Stands;
    if turns != [] {
      var before, last := turns[..|turns| - 1], turns[|turns| - 1];
      TaskStands(before, config);
      TurnStands(TaskAfter(before, config), before, last, config);
      assert before + [last] == turns;
    } else {
      NewTaskStands(config);
    }
  }

  lemma NewTaskStands(config: Config)
    ensures Stands(NEW_TASK, [], config)
  {
  }

  /** What ends a task whatever came before. */
  predicate Quits(turn: Turn) {
    turn.outcome.Finished? || turn.outcome.QueueFull? || turn.stopped
  }

  /** The events of turn `n`, as far as the task got to it. */
  function EventsOf(turns: seq<Turn>, n: nat, config: Config): seq<Event>
    requires n < |turns|
  {
    var before, after := TaskAfter(turns[..n], config).trace, TaskAfter(turns[..n + 1], config).trace;
    if |before| <= |after| then after[|before|..] else []
  }

  /** Those behind the run itself. */
  function BehindRun(turns: seq<Turn>, n: nat, config: Config): seq<Event>
    requires n < |turns|
  {
    if EventsOf(turns, n, config) == [] then [] else EventsOf(turns, n, config)[1..]
  }

  /** Turn `n` is reached and the stop request is not seen before it. */
  predicate Runs(turns: seq<Turn>, n: nat, config: Config)
    requires n < |turns|
  {
    TaskAfter(turns[..n], config).going && !turns[n].stoppedBefore
  }

  predicate GoesOnAfter(turns: seq<Turn>, n: nat, config: Config)
    requires n < |turns|
  {
    TaskAfter(turns[..n + 1], config).going
  }

  /** The record of one run says when its connection was set up, when it ended and who ended it. */
  predicate RunEvent(event: Event, turn: Turn) {
    && event.Ran? && event.endedAt == turn.endedAt && (event.byServer <==> Revoked(turn))
    && event.connected == match turn.outcome { case Unsubscribed(up, _) => Some(up) case o => o.connected }
  }

  /** Waits, list reads and at most a grant at the end. */
  ghost predicate Resumes(events: seq<Event>) {
    forall i | 0 <= i < |events| ::
      events[i].Waited? || events[i].ListRead? || (events[i].Granted? && i == |events| - 1)
  }

  lemma TaskOneMore(turns: seq<Turn>, n: nat, config: Config)
    requires n < |turns|
    ensures TaskAfter(turns[..n + 1], config)
         == var before := TaskAfter(turns[..n], config);
            if before.going then AfterTurn(before, turns[n], config) else before
  {
    assert turns[..n + 1][..n] == turns[..n];
  }

  lemma {:induction false} DecisionResumes(
      looks: nat -> Look, at: nat, attempts: nat, cap: nat, trace: seq<Event>, max: nat)
    ensures var decided := Decision(looks, at, attempts, cap, trace, max);
            && trace <= decided.trace && Resumes(decided.trace[|trace|..])
            && (decided.verdict.Subscribe? <==>
                  |trace| < |decided.trace| && decided.trace[|decided.trace| - 1].Granted?)
    decreases if attempts < max then max - attempts else 0
  {
    var look := looks(at);
    if !look.removedAtHead && attempts < max && Settle(look) == None {
      var asked := trace + [Waited(AttemptDelay(cap, look.jitter))] + [ListRead];
      DecisionResumes(looks, at + 1, attempts + 1, Min(2 * cap, MAX_NANOS), asked, max);
      var decided := Decision(looks, at + 1, attempts + 1, Min(2 * cap, MAX_NANOS), asked, max);
      assert decided.trace[|trace|..] == asked[|trace|..] + decided.trace[|asked|..];
    }
  }

  /** A turn that runs records its run first. It goes no further when it ends for good. */
  lemma RunsAreRecorded(turns: seq<Turn>, n: nat, config: Config)
    requires n < |turns| && Runs(turns, n, config)
    ensures var events := EventsOf(turns, n, config);
            && TaskAfter(turns[..n + 1], config).trace == TaskAfter(turns[..n], config).trace + events
            && events != [] && RunEvent(events[0], turns[n])
            && (Quits(turns[n]) ==> |events| == 1 && !GoesOnAfter(turns, n, config))
  {
    hide Resolve, ReconnectDelay, TaskAfter, Resumes;
    TaskOneMore(turns, n, config);
    var task := TaskAfter(turns[..n], config);
    TurnExtends(task, turns[n], config);
    assert TaskAfter(turns[..n + 1], config).trace[|task.trace|..][0] == AfterRun(task, turns[n]).trace[|task.trace|];
  }

  lemma TurnExtends(task: Task, turn: Turn, config: Config)
    requires task.going && !turn.stoppedBefore
    ensures AfterRun(task, turn).trace <= AfterTurn(task, turn, config).trace
  {
    var ran := AfterRun(task, turn);
    hide Decision, ReconnectDelay;
    if ran.budget.Some? {
      var resumed := ran.budget.value;
      DecisionResumes(turn.looks, 0, resumed.attempts, resumed.cap, ran.trace, config.limits.maxAttempts);
    }
    var limits := config.limits;
    var event := BudgetEvent(ran.budget, turn.endedAt, limits.stableAfter);
    var budget := BudgetAfter(ran.budget, turn.endedAt, limits);
    DecisionResumes(turn.looks, 0, budget.attempts, budget.cap, ran.trace + [event], limits.maxAttempts);
  }

  /** What a turn adds behind its run while a server end awaits its grant. */
  ghost predicate Resumption(rest: seq<Event>, goesOn: bool, config: Config) {
    && (forall i | 0 <= i < |rest| ::
          rest[i].Waited? || rest[i].ListRead? || ((rest[i].Granted? || rest[i].GaveUp?) && i == |rest| - 1))
    && (goesOn <==> rest != [] && rest[|rest| - 1].Granted?)
    && (!config.resumable ==> rest == [GaveUp(NotResubscribable)])
  }

  lemma DecisionIsResumption(task: Task, budget: Budget, looks: nat -> Look, config: Config)
    requires task.going
    ensures var after := AfterDecision(task, budget, looks, config);
            task.trace <= after.trace && Resumption(after.trace[|task.trace|..], after.going, config)
  {
    hide Decision;
    DecisionResumes(looks, 0, budget.attempts, budget.cap, task.trace, config.limits.maxAttempts);
  }

  lemma RevokedTurn(task: Task, before: seq<Turn>, turn: Turn, config: Config)
    requires task.going && !turn.stoppedBefore && !Quits(turn) && Stands(task, before, config) && Revoked(turn)
    ensures var ran, after := AfterRun(task, turn).trace, AfterTurn(task, turn, config);
            if config.autoReconnect then
              && |ran| < |after.trace| && ran == after.trace[..|ran|]
              && (after.trace[|ran|].FreshBudget? || after.trace[|ran|].KeptBudget?)
              && Resumption(after.trace[|ran| + 1..], after.going, config)
            else after.trace == ran && !after.going
  {
    hide Resumption, AfterDecision, Keeps;
    var ran := AfterRun(task, turn);
    var event := BudgetEvent(ran.budget, turn.endedAt, config.limits.stableAfter);
    DecisionIsResumption(ran.(trace := ran.trace + [event]),
                         BudgetAfter(ran.budget, turn.endedAt, config.limits), turn.looks, config);
    assert (ran.trace + [event])[|ran.trace|] == event;
  }

  lemma FailedResume(task: Task, before: seq<Turn>, turn: Turn, config: Config)
    requires task.going && !turn.stoppedBefore && !Quits(turn) && Stands(task, before, config)
    requires AwaitsGrant(before + [turn]) && !Revoked(turn)
    ensures var ran, after := AfterRun(task, turn).trace, AfterTurn(task, turn, config);
            && ran <= after.trace
            && if turn.outcome.Failed? && turn.outcome.refused
               then after.trace[|ran|..] == [GaveUp(TokenRefused)] && !after.going
               else Resumption(after.trace[|ran|..], after.going, config)
  {
    hide Resumption, AfterDecision;
    assert (before + [turn])[..|before|] == before;
    var ran := AfterRun(task, turn);
    DecisionIsResumption(ran, ran.budget.value, turn.looks, config);
  }

  lemma OrdinaryTurn(task: Task, before: seq<Turn>, turn: Turn, config: Config)
    requires task.going && !turn.stoppedBefore && !Quits(turn) && Stands(task, before, config)
    requires !AwaitsGrant(before + [turn])
    ensures var ran, after := AfterRun(task, turn).trace, AfterTurn(task, turn, config);
            if LastSetUp(before + [turn]).None? || !config.autoReconnect || turn.backoffStopped
            then after.trace == ran && !after.going
            else |after.trace| == |ran| + 1 && ran == after.trace[..|ran|]
                 && after.trace[|ran|].BackedOff? && after.going
  {
    hide ReconnectDelay;
    assert (before + [turn])[..|before|] == before;
  }

  /**
   What a turn that does not quit adds behind its run. While the last connection set up was
   ended by the server, with a code below 2500, only a grant lets the task go on; otherwise the
   turn reads no list and touches no budget, and the task goes on after one ordinary backoff.
   */
  lemma TurnsFollowTheCode(turns: seq<Turn>, n: nat, config: Config)
    requires n < |turns| && Runs(turns, n, config) && !Quits(turns[n])
    ensures var rest, goesOn := BehindRun(turns, n, config), GoesOnAfter(turns, n, config);
            var turn, soFar := turns[n], turns[..n + 1];
            if !AwaitsGrant(soFar) then
              if LastSetUp(soFar).None? || !config.autoReconnect || turn.backoffStopped then rest == [] && !goesOn
              else |rest| == 1 && rest[0].BackedOff? && goesOn
            else if !config.autoReconnect then rest == [] && !goesOn
            else if Revoked(turn) then
              rest != [] && (rest[0].FreshBudget? || rest[0].KeptBudget?) && Resumption(rest[1..], goesOn, config)
            else if turn.outcome.Failed? && turn.outcome.refused then rest == [GaveUp(TokenRefused)] && !goesOn
            else Resumption(rest, goesOn, config)
  {
    hide Resolve, ReconnectDelay, TaskAfter, Resumption, AfterTurn, Stands;
    RunsAreRecorded(turns, n, config);
    TaskOneMore(turns, n, config);
    TaskStands(turns[..n], config);
    assert turns[..n + 1] == turns[..n] + [turns[n]];
    var task, turn := TaskAfter(turns[..n], config), turns[n];
    var ran, after := AfterRun(task, turn).trace, AfterTurn(task, turn, config);
    assert BehindRun(turns, n, config) == after.trace[|ran|..];
    if Revoked(turn) {
      RevokedTurn(task, turns[..n], turn, config);
    } else if AwaitsGrant(turns[..n + 1]) {
      FailedResume(task, turns[..n], turn, config);
      StandsReconnects(task, turns[..n], turn, config);
    } else {
      OrdinaryTurn(task, turns[..n], turn, config);
    }
  }

  lemma StandsReconnects(task: Task, before: seq<Turn>, turn: Turn, config: Config)
    requires Stands(task, before, config) && AwaitsGrant(before + [turn]) && !Revoked(turn)
    ensures config.autoReconnect
  {
    assert (before + [turn])[..|before|] == before;
  }

  /**
   Of two runs one after the other, the second comes right behind a grant when the last
   connection set up before it was ended by the server with a code below 2500, and otherwise
   right behind an ordinary backoff.
   */
  lemma NextRunComesBy(turns: seq<Turn>, n: nat, config: Config)
    requires n + 1 < |turns| && Runs(turns, n, config) && Runs(turns, n + 1, config)
    ensures var before, after := TaskAfter(turns[..n + 1], config).trace, TaskAfter(turns[..n + 2], config).trace;
            && 0 < |before| < |after| && before == after[..|before|] && RunEvent(after[|before|], turns[n + 1])
            && if AwaitsGrant(turns[..n + 1]) then before[|before| - 1].Granted? else before[|before| - 1].BackedOff?
  {
    hide TaskAfter, RunEvent;
    RunsAreRecorded(turns, n, config);
    TurnsFollowTheCode(turns, n, config);
    RunsAreRecorded(turns, n + 1, config);
  }

  // ----- the caps of the waits -----

  /** The cap doubles with each attempt, up to the longest duration there is. */
  lemma {:induction false} CapIsDoubled(initial: nat, k: nat)
    requires initial <= 18_446_744_073_709_551_615_999_999_999
    ensures CapAfter(initial, k) == Min(initial * Doubled(k), 18_446_744_073_709_551_615_999_999_999)
  {
    if k > 0 {
      CapIsDoubled(initial, k - 1);
      TwiceProduct(initial, Doubled(k - 1));
    }
  }

  lemma TwiceProduct(a: nat, b: nat)
    ensures a * (2 * b) == 2 * (a * b)
  {
  }

  /** The caps of ordinary backoffs, in milliseconds. */
  lemma ReconnectCaps(failures: nat)
    ensures ReconnectCap(failures)
         == if failures < 6 then [500, 1_000, 2_000, 4_000, 8_000, 16_000][failures] else 30_000
  {
    assert Doubled(6) == 64 && Doubled(5) == 32 && Doubled(4) == 16 && Doubled(3) == 8;
    if failures >= 6 {
      DoubledRises(6, Min(failures, 16));
    }
  }

  lemma {:induction false} DoubledRises(j: nat, k: nat)
    requires j <= k
    ensures Doubled(j) <= Doubled(k)
    decreases k
  {
    if j < k {
      DoubledRises(j, k - 1);
    }
  }

  /** Every wait in its range comes about by some random number. */
  lemma DelaysCoverTheirRange(cap: nat, delay: nat) returns (jitter: u64)
    ensures AttemptDelayFits(delay, cap) && cap / 2 <= 0xFFFF_FFFF_FFFF_FFFF ==> AttemptDelay(cap, jitter) == delay
  {
    jitter := if AttemptDelayFits(delay, cap) && cap / 2 <= U64_MAX then delay - cap / 2 else 0;
  }

  lemma SmallRemainder(n: nat, m: nat)
    requires n < m
    ensures n % m == n
  {
  }

  lemma ReconnectsCoverTheirRange(failures: nat, delay: nat) returns (jitter: u64)
    requires ReconnectDelayFits(delay, failures)
    ensures ReconnectDelay(failures, jitter) == delay
  {
    ReconnectCapRange(failures);
    hide ReconnectCap;
    var cap := ReconnectCap(failures);
    jitter := delay - cap / 2;
    SmallRemainder(jitter, cap - cap / 2 + 1);
  }
}
