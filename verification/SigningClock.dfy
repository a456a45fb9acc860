/**
 Unique signing timestamps from a shared atomic counter: any number of threads,
 a compare-exchange that may fail for no reason, and a clock that may jump.
 */
module SigningClock {
  import opened Numbers

  const MAX_SIGNING_FUTURE_SKEW_MS: u64 := 5_000

  datatype AllocError =
    | ClockOutOfRange
    | CeilingOverflow
    | SequenceExhausted
    | Capacity(waitMs: nat)

  // ----- the arithmetic of one attempt -----

  function Candidate(observed: u64, now: u64): nat {
    if observed < now then now else observed + 1
  }

  /** What a call does with a clock reading: keep going with `now`, or fail. */
  function Reading(clock: int): Result<u64, AllocError> {
    if clock < 0 || clock > U64_MAX then Err(ClockOutOfRange)
    else if clock + MAX_SIGNING_FUTURE_SKEW_MS > U64_MAX then Err(CeilingOverflow)
    else Ok(clock)
  }

  /** What a call does with the counter it loaded: the timestamp to try for, or an error. */
  function Choice(observed: u64, now: u64): Result<u64, AllocError> {
    if Candidate(observed, now) > U64_MAX then Err(SequenceExhausted)
    else if Candidate(observed, now) <= now + MAX_SIGNING_FUTURE_SKEW_MS then Ok(Candidate(observed, now))
    else Err(Capacity(Candidate(observed, now) - (now + MAX_SIGNING_FUTURE_SKEW_MS)))
  }

  lemma ChoiceAfterWait(observed: u64, now: u64, later: u64)
    requires Reading(now) == Ok(now) && Reading(later) == Ok(later)
    requires Choice(observed, now).Err? && Choice(observed, now).error.Capacity?
    ensures Choice(observed, later).Ok? <==> later >= now + Choice(observed, now).error.waitMs
    ensures Choice(observed, later).Ok? ==> Choice(observed, later).value == Candidate(observed, later)
    ensures Reading(now + Choice(observed, now).error.waitMs).Ok?
  {
  }

  /** The least timestamp at or above the clock and above `seen`. */
  predicate IsLeast(stamp: int, now: int, seen: int) {
    stamp == Max(now, seen + 1)
  }

  // ----- one call among others -----

  class SigningTimestampAllocator {
    var lastTimestampMs: u64

    constructor ()
      ensures lastTimestampMs == 0
    {
      lastTimestampMs := 0;
    }

    /** Other threads may issue timestamps at any moment: the counter only rises. */
    method Interference()
      modifies this
      ensures lastTimestampMs >= old(lastTimestampMs)
    {
      var risen: u64 :| risen >= lastTimestampMs;
      lastTimestampMs := risen;
    }

    method CompareExchangeWeak(observed: u64, candidate: u64) returns (ok: bool)
      modifies this
      ensures ok ==> old(lastTimestampMs) == observed && lastTimestampMs == candidate
      ensures !ok ==> lastTimestampMs == old(lastTimestampMs)
    {
      var spurious: bool := *;
      ok := lastTimestampMs == observed && !spurious;
      if ok {
        lastTimestampMs := candidate;
      }
    }

    /**
     One call over a run of clock readings. It returns `None` while every turn
     lost its compare-exchange; otherwise `turn` is the reading it finished on.
     The timestamp it stores is above everything stored before the call, and an
     error leaves the counter to the others.
     */
    method Next(clock: seq<int>) returns (result: Option<Result<u64, AllocError>>, turn: nat)
      modifies this
      ensures lastTimestampMs >= old(lastTimestampMs)
      ensures result.Some? ==> turn < |clock|
      ensures result.Some? && result.value.Ok? ==>
                && Reading(clock[turn]).Ok?
                && clock[turn] <= result.value.value <= clock[turn] + MAX_SIGNING_FUTURE_SKEW_MS
                && old(lastTimestampMs) < result.value.value <= lastTimestampMs
                && exists seen: u64 :: old(lastTimestampMs) <= seen && IsLeast(result.value.value, clock[turn], seen)
      ensures result.Some? && result.value.Err? ==>
                || Reading(clock[turn]) == Err(result.value.error)
                || (Reading(clock[turn]).Ok? && exists seen: u64 ::
                      && old(lastTimestampMs) <= seen <= lastTimestampMs
                      && Choice(seen, clock[turn]) == Err(result.value.error))
    {
      turn := 0;
      while turn < |clock|
        invariant lastTimestampMs >= old(lastTimestampMs)
        decreases |clock| - turn
      {
        var now := Reading(clock[turn]);
        if now.Err? {
          return Some(Err(now.error)), turn;
        }
        Interference();
        var observed := lastTimestampMs;
        var choice := Choice(observed, now.value);
        if choice.Err? {
          return Some(Err(choice.error)), turn;
        }
        Interference();
        var stored := CompareExchangeWeak(observed, choice.value);
        if stored {
          Interference();
          assert IsLeast(choice.value, clock[turn], observed);
          return Some(Ok(choice.value)), turn;
        }
        turn := turn + 1;
      }
      return None, turn;
    }
  }

  // ----- all calls together -----

  /** Where a thread stands inside its call. */
  datatype Call = Outside | Read(now: u64) | Loaded(now: u64, observed: u64, candidate: u64)

  datatype Issue = Issue(thread: nat, now: u64, stamp: u64)

  datatype State = State(last: u64, calls: map<nat, Call>, issued: seq<Issue>)

  datatype Step =
    | ReadClock(thread: nat, clock: int)
    | Load(thread: nat)
    | CompareExchange(thread: nat, spurious: bool)

  function CallOf(state: State, thread: nat): Call {
    if thread in state.calls then state.calls[thread] else Outside
  }

  /** One atomic step of one thread; a step that does not fit the thread's place changes nothing. */
  function After(state: State, step: Step): State {
    var thread := step.thread;
    var call := CallOf(state, thread);
    match step
    case ReadClock(_, clock) =>
      if call.Outside? && Reading(clock).Ok? then state.(calls := state.calls[thread := Read(clock)]) else state
    case Load(_) =>
      if !call.Read? then state
      else
        (match Choice(state.last, call.now)
         case Ok(candidate) => state.(calls := state.calls[thread := Loaded(call.now, state.last, candidate)])
         case Err(_) => state.(calls := state.calls[thread := Outside]))
    case CompareExchange(_, spurious) =>
      if !call.Loaded? then state
      else if spurious || state.last != call.observed then state.(calls := state.calls[thread := Outside])
      else State(call.candidate, state.calls[thread := Outside],
                 state.issued + [Issue(thread, call.now, call.candidate)])
  }

  function Run(state: State, steps: seq<Step>): State
    decreases |steps|
  {
    if steps == [] then state else Run(After(state, steps[0]), steps[1..])
  }

  /** Each timestamp is the least at or above its clock reading and above the one before. */
  ghost predicate Least(issued: seq<Issue>) {
    forall i | 0 <= i < |issued| ::
      issued[i].stamp == Max(issued[i].now, (if i == 0 then 0 else issued[i - 1].stamp) + 1)
  }

  ghost predicate LastIsIssued(state: State) {
    state.last == if state.issued == [] then 0 else state.issued[|state.issued| - 1].stamp
  }

  ghost predicate Rising(issued: seq<Issue>) {
    forall i, j | 0 <= i < j < |issued| :: issued[i].stamp < issued[j].stamp
  }

  ghost predicate NearItsClock(issue: Issue) {
    issue.now <= issue.stamp <= issue.now + MAX_SIGNING_FUTURE_SKEW_MS
  }

  ghost predicate Inv(state: State) {
    && Rising(state.issued)
    && (forall i | 0 <= i < |state.issued| :: NearItsClock(state.issued[i]) && state.issued[i].stamp <= state.last)
    && (forall t | t in state.calls && state.calls[t].Loaded? ::
          Choice(state.calls[t].observed, state.calls[t].now) == Ok(state.calls[t].candidate))
  }

  lemma StepKeepsInv(state: State, step: Step)
    requires Inv(state)
    ensures Inv(After(state, step))
    ensures state.last <= After(state, step).last && state.issued <= After(state, step).issued
  {
  }

  lemma {:induction false} RunKeepsInv(state: State, steps: seq<Step>)
    requires Inv(state)
    ensures Inv(Run(state, steps))
    ensures state.last <= Run(state, steps).last && state.issued <= Run(state, steps).issued
    decreases |steps|
  {
    if steps != [] {
      StepKeepsInv(state, steps[0]);
      RunKeepsInv(After(state, steps[0]), steps[1..]);
    }
  }

  lemma RunOneMore(state: State, step: Step, rest: seq<Step>)
    ensures Run(state, [step] + rest) == Run(After(state, step), rest)
  {
    assert ([step] + rest)[1..] == rest;
  }

  /** A thread that just loaded, and calls again once it read the clock at `later`, undisturbed. */
  function Again(thread: nat, later: int): seq<Step> {
    [Load(thread)] + ([ReadClock(thread, later)] + ([Load(thread)] + ([CompareExchange(thread, false)] + [])))
  }

  /**
   A call that meets a capacity error and, with no step of another thread between, calls
   again at a later reading, then issues one timestamp exactly when the clock can be
   used and has moved on by the returned wait; otherwise it issues none.
   */
  lemma WaitIsExact(state: State, thread: nat, later: int)
    requires CallOf(state, thread).Read? && Reading(CallOf(state, thread).now).Ok?
    requires Choice(state.last, CallOf(state, thread).now).Err?
    requires Choice(state.last, CallOf(state, thread).now).error.Capacity?
    ensures var now := CallOf(state, thread).now;
            var waited := later >= now + Choice(state.last, now).error.waitMs;
            var end := Run(state, Again(thread, later));
            && (waited && Reading(later).Ok? ==>
                  end.issued == state.issued + [Issue(thread, later, Candidate(state.last, later))])
            && (!(waited && Reading(later).Ok?) ==> end.issued == state.issued && end.last == state.last)
  {
    hide Run, Choice;
    var failed := After(state, Load(thread));
    var read := After(failed, ReadClock(thread, later));
    var loaded := After(read, Load(thread));
    var exchange := [CompareExchange(thread, false)] + [];
    RunOneMore(state, Load(thread), [ReadClock(thread, later)] + ([Load(thread)] + exchange));
    RunOneMore(failed, ReadClock(thread, later), [Load(thread)] + exchange);
    RunOneMore(read, Load(thread), exchange);
    RunOneMore(loaded, CompareExchange(thread, false), []);
    NoSteps(After(loaded, CompareExchange(thread, false)));
    if Reading(later).Ok? {
      ChoiceAfterWait(state.last, CallOf(state, thread).now, later);
    }
  }

  lemma NoSteps(state: State)
    ensures Run(state, []) == state
  {
  }

  /**
   Under every interleaving: timestamps of one key are distinct and rise in the
   order the exchanges took effect, and each lies within 5 s above its own clock reading.
   */
  lemma TimestampsAreUniqueAndNear(steps: seq<Step>)
    ensures var issued := Run(State(0, map[], []), steps).issued;
            && (forall i, j | 0 <= i < j < |issued| :: issued[i].stamp < issued[j].stamp)
            && (forall i | 0 <= i < |issued| ::
                  issued[i].now <= issued[i].stamp <= issued[i].now + MAX_SIGNING_FUTURE_SKEW_MS)
  {
    RunKeepsInv(State(0, map[], []), steps);
  }

  /** The timestamps issued on clock readings between `a` and `b`, in order. */
  function StampsBetween(issued: seq<Issue>, a: int, b: int): seq<int> {
    if issued == [] then []
    else
      var last := issued[|issued| - 1];
      StampsBetween(issued[..|issued| - 1], a, b) + if a <= last.now <= b then [last.stamp] else []
  }

  ghost predicate RisingWithin(stamps: seq<int>, low: int, high: int) {
    && (forall i | 0 <= i < |stamps| :: low <= stamps[i] <= high)
    && (forall i, j | 0 <= i < j < |stamps| :: stamps[i] < stamps[j])
  }

  lemma {:induction false} StampsRiseBetween(issued: seq<Issue>, a: int, b: int, top: int)
    requires Rising(issued) && forall i | 0 <= i < |issued| :: NearItsClock(issued[i]) && issued[i].stamp <= top
    ensures RisingWithin(StampsBetween(issued, a, b), a, Min(top, b + MAX_SIGNING_FUTURE_SKEW_MS))
    decreases |issued|
  {
    if issued != [] {
      var before, last := issued[..|issued| - 1], issued[|issued| - 1];
      assert NearItsClock(last);
      assert forall i | 0 <= i < |before| :: before[i] == issued[i] && before[i].stamp <= last.stamp - 1;
      StampsRiseBetween(before, a, b, last.stamp - 1);
    }
  }

  lemma {:induction false} RisingFitsItsRange(stamps: seq<int>, low: int, high: int)
    requires RisingWithin(stamps, low, high)
    ensures stamps != [] ==> |stamps| <= high - low + 1
    decreases |stamps|
  {
    if stamps != [] {
      var last := stamps[|stamps| - 1];
      assert low <= last <= high;
      RisingFitsItsRange(stamps[..|stamps| - 1], low, last - 1);
    }
  }

  /** However many threads, at most `b - a + 5001` timestamps come from clock readings in `[a, b]`. */
  lemma IssueRateIsBounded(steps: seq<Step>, a: int, b: int)
    requires a <= b
    ensures |StampsBetween(Run(State(0, map[], []), steps).issued, a, b)| <= b - a + 5001
  {
    RunKeepsInv(State(0, map[], []), steps);
    var issued := Run(State(0, map[], []), steps).issued;
    var top := b + MAX_SIGNING_FUTURE_SKEW_MS;
    assert forall i | 0 <= i < |issued| :: NearItsClock(issued[i]);
    StampsRiseBetween(issued, a, b, Run(State(0, map[], []), steps).last);
    RisingFitsItsRange(StampsBetween(issued, a, b), a, top);
  }

  lemma StepKeepsLeast(state: State, step: Step)
    requires Inv(state) && Least(state.issued) && LastIsIssued(state)
    ensures Least(After(state, step).issued) && LastIsIssued(After(state, step))
  {
    hide Reading;
    var after, call := After(state, step), CallOf(state, step.thread);
    if step.CompareExchange? && call.Loaded? && !step.spurious && state.last == call.observed {
      assert step.thread in state.calls && state.calls[step.thread].Loaded?;
      var issue := Issue(step.thread, call.now, call.candidate);
      assert after.issued == state.issued + [issue] && after.last == issue.stamp;
      assert issue.stamp == Max(issue.now, state.last + 1);
    } else {
      assert after.issued == state.issued && after.last == state.last;
    }
  }

  lemma {:induction false} RunKeepsLeast(state: State, steps: seq<Step>)
    requires Inv(state) && Least(state.issued) && LastIsIssued(state)
    ensures Least(Run(state, steps).issued)
    decreases |steps|
  {
    hide Inv, Least, LastIsIssued, After;
    if steps != [] {
      StepKeepsInv(state, steps[0]);
      StepKeepsLeast(state, steps[0]);
      RunKeepsLeast(After(state, steps[0]), steps[1..]);
    }
  }

  /** Under every interleaving no timestamp is higher than it must be: the clock's, or one above the last. */
  lemma TimestampsAreLeast(steps: seq<Step>)
    ensures var issued := Run(State(0, map[], []), steps).issued;
            forall i | 0 <= i < |issued| ::
              issued[i].stamp == Max(issued[i].now, (if i == 0 then 0 else issued[i - 1].stamp) + 1)
  {
    RunKeepsLeast(State(0, map[], []), steps);
  }

  /**
   An undisturbed call is issued that timestamp exactly when its clock can be used and the last
   timestamp lies less than 5 s ahead of it; otherwise it changes nothing.
   */
  lemma UndisturbedCall(state: State, thread: nat, clock: int)
    requires CallOf(state, thread).Outside?
    ensures var steps := [ReadClock(thread, clock)] + ([Load(thread)] + ([CompareExchange(thread, false)] + []));
            var end := Run(state, steps);
            if 0 <= clock && clock + 5_000 <= 0xFFFF_FFFF_FFFF_FFFF && state.last < clock + 5_000 then
              end.issued == state.issued + [Issue(thread, clock, Max(clock, state.last + 1))]
            else end.issued == state.issued && end.last == state.last
  {
    hide Run;
    var read := After(state, ReadClock(thread, clock));
    var loaded := After(read, Load(thread));
    RunOneMore(state, ReadClock(thread, clock), [Load(thread)] + ([CompareExchange(thread, false)] + []));
    RunOneMore(read, Load(thread), [CompareExchange(thread, false)] + []);
    RunOneMore(loaded, CompareExchange(thread, false), []);
    NoSteps(After(loaded, CompareExchange(thread, false)));
  }
}
