/**
 The two views of a resume decision are one: taken among all others step by step
 (`Resume`), each decision goes as the loop of its task goes (`TaskLoop`) on what it meets.
 */
module Decisions {
  import opened Numbers
  import opened Access
  import R = Resume
  import T = TaskLoop

  /** What one decision met turn by turn, and how often it asked for the list. */
  datatype Seen = Seen(looks: seq<T.Look>, asks: nat)

  const NOTHING_SEEN := Seen([], 0)

  // ----- what a decision meets -----

  /** A turn that has begun and met nothing yet. */
  function Opened(jitter: u64, removed: bool): T.Look {
    T.Look(jitter, removed, false, false, T.ReadFailed, false, false, false)
  }

  function Current(seen: Seen): T.Look {
    if seen.looks == [] then Opened(0, false) else seen.looks[|seen.looks| - 1]
  }

  /** The current turn with one more observation. */
  function Amend(seen: Seen, look: T.Look): Seen {
    if seen.looks == [] then seen else seen.(looks := seen.looks[..|seen.looks| - 1] + [look])
  }

  function ReadAs(answer: R.Answer, id: u64): T.ReadResult {
    match answer
    case Refused => T.ReadRefused
    case Failed => T.ReadFailed
    case Listed(ids) => T.ReadListed(id in ids)
  }

  function StoppedAt(phase: R.Phase, look: T.Look): T.Look {
    match phase
    case Delaying => look.(delayStopped := true)
    case Asking => look.(read := T.ReadStopped(false))
    case Waiting(_, _) => look.(read := T.ReadStopped(true))
    case _ => look.(slotStopped := true)
  }

  predicate IsAbout(step: R.Step, d: nat) {
    match step
    case Begin(e, _, _) => e == d
    case Attempt(e) => e == d
    case Wake(e) => e == d
    case Ask(e) => e == d
    case TakeAnswer(e) => e == d
    case Reserve(e) => e == d
    case FinalCheck(e) => e == d
    case Stop(e) => e == d
    case _ => false
  }

  /** What decision `d` meets in one step: removal marks, answers and stops; `draws` are its random numbers. */
  function Meets(seen: Seen, s: R.State, step: R.Step, d: nat, draws: nat -> u64): Seen
    requires R.Enabled(s, step) && d in s.decisions
  {
    var id, phase := s.decisions[d].id, s.decisions[d].phase;
    var removed := id in s.access.removed;
    if !IsAbout(step, d) then seen
    else
      match step
      case Attempt(_) => seen.(looks := seen.looks + [Opened(draws(|seen.looks|), removed)])
      case Wake(_) => Amend(seen, Current(seen).(removedAfterDelay := removed))
      case Ask(_) => seen.(asks := seen.asks + 1)
      case TakeAnswer(_) =>
        var answer := s.listReads[phase.read].answer;
        var taken := removed && answer.Listed?;
        Amend(seen, Current(seen).(read := ReadAs(answer, id), removedAfterRead := taken))
      case FinalCheck(_) => Amend(seen, Current(seen).(removedAtSlot := removed))
      case Stop(_) => Amend(seen, StoppedAt(phase, Current(seen)))
      case _ => seen
  }

  function Met(seen: Seen, s: R.State, steps: seq<R.Step>, timing: Timing, d: nat, draws: nat -> u64): Seen
    requires d in s.decisions
    decreases |steps|
  {
    if steps == [] then seen
    else if R.Enabled(s, steps[0])
    then Met(Meets(seen, s, steps[0], d, draws), R.After(s, steps[0], timing), steps[1..], timing, d, draws)
    else Met(seen, s, steps[1..], timing, d, draws)
  }

  // ----- a decision stands where its turns put it -----

  /** A turn that ends with the list unread. */
  predicate Unsettled(look: T.Look) {
    !look.removedAtHead && T.Settle(look) == None
  }

  ghost predicate AllUnsettled(looks: seq<T.Look>) {
    forall look <- looks :: Unsettled(look)
  }

  function ReasonOf(reason: R.Reason): T.Reason {
    match reason
    case AccessRemoved => T.AccessRemoved
    case RetriesExhausted => T.RetriesExhausted
    case ListRefused => T.ListRefused
    case NotListed => T.NotListed
  }

  function VerdictOf(phase: R.Phase): T.Verdict
    requires R.Final(phase)
  {
    match phase
    case Ended(reason) => T.GiveUp(ReasonOf(reason))
    case Granted => T.Subscribe
    case Stopped => T.StopRequested
  }

  /** The verdict of a decision whose last turn is `last`, after `spent` failed turns of at most `total`. */
  function Outcome(last: T.Look, spent: nat, total: nat): Option<T.Verdict> {
    if last.removedAtHead then Some(T.GiveUp(T.AccessRemoved))
    else if spent >= total then Some(T.GiveUp(T.RetriesExhausted))
    else T.Settle(last)
  }

  /** The attempts of that last turn, none or one, and its list reads. */
  function LastAttempt(last: T.Look, spent: nat, total: nat): nat {
    if last.removedAtHead || spent >= total then 0 else 1
  }

  function LastRead(last: T.Look, spent: nat, total: nat): nat {
    if LastAttempt(last, spent, total) == 1 && T.ReadsTheList(last) then 1 else 0
  }

  ghost predicate Tied(decision: R.Decision, seen: Seen, total: nat) {
    var looks, phase := seen.looks, decision.phase;
    if phase.Head? then AllUnsettled(looks) && |looks| + decision.left == total && seen.asks == |looks|
    else
      && looks != []
      && var spent, last := |looks| - 1, looks[|looks| - 1];
      && AllUnsettled(looks[..spent])
      && if R.Final(phase) then
           && spent <= total && Outcome(last, spent, total) == Some(VerdictOf(phase))
           && spent + LastAttempt(last, spent, total) + decision.left == total
           && seen.asks == spent + LastRead(last, spent, total)
         else
           && spent + 1 + decision.left == total
           && last == (if phase.Reserving? || phase.Pacing?
                       then Opened(last.jitter, false).(read := T.ReadListed(true))
                       else Opened(last.jitter, false))
           && seen.asks == if phase.Delaying? || phase.Asking? then spent else spent + 1
  }

  lemma OthersStepsChangeNothing(s: R.State, step: R.Step, timing: Timing, d: nat)
    requires R.Enabled(s, step) && d in s.decisions && !IsAbout(step, d)
    ensures d in R.After(s, step, timing).decisions
    ensures R.After(s, step, timing).decisions[d] == s.decisions[d]
  {
  }

  lemma AttemptKeepsTied(s: R.State, d: nat, seen: Seen, total: nat, draws: nat -> u64)
    requires R.At(s, d, R.Head) && Tied(s.decisions[d], seen, total)
    ensures d in R.AfterAttempt(s, d).decisions
    ensures Tied(R.AfterAttempt(s, d).decisions[d], Meets(seen, s, R.Attempt(d), d, draws), total)
  {
    hide Unsettled;
    var after := Meets(seen, s, R.Attempt(d), d, draws);
    assert after.looks[..|seen.looks|] == seen.looks;
  }

  /** The current turn settled by what it met last. */
  lemma SettledIsTied(before: R.Decision, after: R.Decision, seen: Seen, last: T.Look, total: nat)
    requires Tied(before, seen, total) && !R.Final(before.phase) && !before.phase.Head?
    requires R.Final(after.phase) && after.left == before.left
    requires !last.removedAtHead && T.Settle(last) == Some(VerdictOf(after.phase))
    requires T.ReadsTheList(last) <==> !before.phase.Delaying? && !before.phase.Asking?
    ensures Tied(after, Amend(seen, last), total)
  {
    var k := |seen.looks| - 1;
    assert (seen.looks[..k] + [last])[..k] == seen.looks[..k];
  }

  /** The list could not be read: the turn is over. */
  lemma UnreadIsTied(before: R.Decision, after: R.Decision, seen: Seen, total: nat)
    requires Tied(before, seen, total) && before.phase.Waiting? && after.phase.Head? && after.left == before.left
    ensures Tied(after, seen, total)
  {
    var k := |seen.looks| - 1;
    assert seen.looks == seen.looks[..k] + [seen.looks[k]];
    assert Unsettled(seen.looks[k]);
  }

  /** The turn goes on. */
  lemma OnwardIsTied(before: R.Decision, after: R.Decision, seen: Seen, asks: nat, last: T.Look, total: nat)
    requires Tied(before, seen, total) && !R.Final(before.phase) && !before.phase.Head?
    requires !R.Final(after.phase) && !after.phase.Head? && after.left == before.left
    requires last == if after.phase.Reserving? || after.phase.Pacing?
                     then Opened(last.jitter, false).(read := T.ReadListed(true))
                     else Opened(last.jitter, false)
    requires asks == if after.phase.Delaying? || after.phase.Asking? then |seen.looks| - 1 else |seen.looks|
    ensures Tied(after, Amend(seen, last).(asks := asks), total)
  {
    var k := |seen.looks| - 1;
    assert (seen.looks[..k] + [last])[..k] == seen.looks[..k];
  }

  lemma AmendCurrent(seen: Seen)
    ensures Amend(seen, Current(seen)) == seen
  {
    if seen.looks != [] {
      assert seen.looks[..|seen.looks| - 1] + [Current(seen)] == seen.looks;
    }
  }

  lemma DecisionStays(s: R.State, step: R.Step, timing: Timing, d: nat)
    requires R.Enabled(s, step) && d in s.decisions
    ensures d in R.After(s, step, timing).decisions
  {
  }

  lemma StopKeepsTied(s: R.State, timing: Timing, d: nat, seen: Seen, total: nat, draws: nat -> u64)
    requires R.Enabled(s, R.Stop(d)) && Tied(s.decisions[d], seen, total)
    ensures Tied(R.After(s, R.Stop(d), timing).decisions[d], Meets(seen, s, R.Stop(d), d, draws), total)
  {
    var met := Meets(seen, s, R.Stop(d), d, draws);
    SettledIsTied(s.decisions[d], R.After(s, R.Stop(d), timing).decisions[d], seen, Current(met), total);
  }

  lemma AnswerKeepsTied(s: R.State, timing: Timing, d: nat, seen: Seen, total: nat, draws: nat -> u64)
    requires R.Enabled(s, R.TakeAnswer(d)) && Tied(s.decisions[d], seen, total)
    ensures Tied(R.After(s, R.TakeAnswer(d), timing).decisions[d], Meets(seen, s, R.TakeAnswer(d), d, draws), total)
  {
    var before, after := s.decisions[d], R.After(s, R.TakeAnswer(d), timing).decisions[d];
    var met := Meets(seen, s, R.TakeAnswer(d), d, draws);
    AmendCurrent(seen);
    hide Unsettled, AllUnsettled;
    if R.Final(after.phase) {
      SettledIsTied(before, after, seen, Current(met), total);
    } else if after.phase.Head? {
      UnreadIsTied(before, after, seen, total);
    } else {
      OnwardIsTied(before, after, seen, met.asks, Current(met), total);
    }
  }

  lemma WakeKeepsTied(s: R.State, d: nat, seen: Seen, total: nat, draws: nat -> u64)
    requires R.Enabled(s, R.Wake(d)) && Tied(s.decisions[d], seen, total)
    ensures Tied(R.UnlessRemoved(s, d, R.Asking).decisions[d], Meets(seen, s, R.Wake(d), d, draws), total)
  {
    var before, after := s.decisions[d], R.UnlessRemoved(s, d, R.Asking).decisions[d];
    var met := Meets(seen, s, R.Wake(d), d, draws);
    AmendCurrent(seen);
    hide Unsettled, AllUnsettled, Amend;
    if R.Final(after.phase) {
      SettledIsTied(before, after, seen, Current(seen).(removedAfterDelay := true), total);
    } else {
      OnwardIsTied(before, after, seen, met.asks, Current(seen), total);
    }
  }

  lemma FinalCheckKeepsTied(s: R.State, d: nat, seen: Seen, total: nat, draws: nat -> u64)
    requires R.Enabled(s, R.FinalCheck(d)) && Tied(s.decisions[d], seen, total)
    ensures Tied(R.AfterFinalCheck(s, d).decisions[d], Meets(seen, s, R.FinalCheck(d), d, draws), total)
  {
    var before, after := s.decisions[d], R.AfterFinalCheck(s, d).decisions[d];
    var met := Meets(seen, s, R.FinalCheck(d), d, draws);
    AmendCurrent(seen);
    hide Unsettled, AllUnsettled, Amend;
    var removed := before.id in s.access.removed;
    SettledIsTied(before, after, seen, Current(seen).(removedAtSlot := removed), total);
  }

  lemma OnwardStepKeepsTied(
      s: R.State, step: R.Step, timing: Timing, d: nat, seen: Seen, total: nat, draws: nat -> u64)
    requires step == R.Ask(d) || step == R.Reserve(d)
    requires R.Enabled(s, step) && Tied(s.decisions[d], seen, total)
    ensures Tied(R.After(s, step, timing).decisions[d], Meets(seen, s, step, d, draws), total)
  {
    var before, after := s.decisions[d], R.After(s, step, timing).decisions[d];
    var met := Meets(seen, s, step, d, draws);
    AmendCurrent(seen);
    hide Unsettled, AllUnsettled;
    OnwardIsTied(before, after, seen, met.asks, Current(met), total);
  }

  lemma OwnStepKeepsTied(
      s: R.State, step: R.Step, timing: Timing, d: nat, seen: Seen, total: nat, draws: nat -> u64)
    requires R.Enabled(s, step) && d in s.decisions && Tied(s.decisions[d], seen, total)
    requires IsAbout(step, d) && !step.Begin?
    ensures d in R.After(s, step, timing).decisions
    ensures Tied(R.After(s, step, timing).decisions[d], Meets(seen, s, step, d, draws), total)
  {
    DecisionStays(s, step, timing, d);
    hide Tied, Meets;
    if step.Attempt? {
      AttemptKeepsTied(s, d, seen, total, draws);
    } else if step.Stop? {
      StopKeepsTied(s, timing, d, seen, total, draws);
    } else if step.TakeAnswer? {
      AnswerKeepsTied(s, timing, d, seen, total, draws);
    } else if step.Wake? {
      WakeKeepsTied(s, d, seen, total, draws);
    } else if step.FinalCheck? {
      FinalCheckKeepsTied(s, d, seen, total, draws);
    } else {
      OnwardStepKeepsTied(s, step, timing, d, seen, total, draws);
    }
  }

  lemma {:induction false} RunKeepsTied(
      s: R.State, steps: seq<R.Step>, timing: Timing, d: nat, seen: Seen, total: nat, draws: nat -> u64)
    requires d in s.decisions && Tied(s.decisions[d], seen, total)
    requires forall step <- steps :: step.Begin? ==> step.d != d
    ensures d in R.Run(s, steps, timing).decisions
    ensures Tied(R.Run(s, steps, timing).decisions[d], Met(seen, s, steps, timing, d, draws), total)
    decreases |steps|
  {
    hide Tied, Meets, R.After, R.Enabled;
    if steps != [] {
      if R.Enabled(s, steps[0]) {
        var t, met := R.After(s, steps[0], timing), Meets(seen, s, steps[0], d, draws);
        if IsAbout(steps[0], d) {
          OwnStepKeepsTied(s, steps[0], timing, d, seen, total, draws);
        } else {
          OthersStepsChangeNothing(s, steps[0], timing, d);
          OthersStepsAreUnseen(seen, s, steps[0], d, draws);
        }
        RunKeepsTied(t, steps[1..], timing, d, met, total, draws);
      } else {
        RunKeepsTied(s, steps[1..], timing, d, seen, total, draws);
      }
    }
  }

  lemma OthersStepsAreUnseen(seen: Seen, s: R.State, step: R.Step, d: nat, draws: nat -> u64)
    requires R.Enabled(s, step) && d in s.decisions && !IsAbout(step, d)
    ensures Meets(seen, s, step, d, draws) == seen
  {
  }

  // ----- the loop on those turns -----

  /** The turns as the loop of the task meets them. */
  function Script(looks: seq<T.Look>): nat -> T.Look {
    (k: nat) => if k < |looks| then looks[k] else Opened(0, false)
  }

  lemma CountOfOneMore(trace: seq<T.Event>, last: T.Event, event: T.Event)
    ensures T.Count(trace + [last], event) == T.Count(trace, event) + if last == event then 1 else 0
  {
    assert (trace + [last])[..|trace|] == trace;
  }

  lemma {:induction false} LoopDecides(
      looks: seq<T.Look>, k: nat, attempts: nat, cap: nat, trace: seq<T.Event>, max: nat)
    requires k < |looks| && AllUnsettled(looks[..|looks| - 1])
    requires var spent := |looks| - 1 - k;
             attempts + spent <= max && Outcome(looks[|looks| - 1], attempts + spent, max).Some?
    ensures var last, spent := looks[|looks| - 1], |looks| - 1 - k;
            var out := T.Decision(Script(looks), k, attempts, cap, trace, max);
            && Some(out.verdict) == Outcome(last, attempts + spent, max)
            && out.attempts == attempts + spent + LastAttempt(last, attempts + spent, max)
            && T.Count(out.trace, T.ListRead)
                 == T.Count(trace, T.ListRead) + spent + LastRead(last, attempts + spent, max)
    decreases |looks| - k
  {
    hide T.Count, T.AttemptDelay;
    var look := looks[k];
    var waited := trace + [T.Waited(T.AttemptDelay(cap, look.jitter))];
    CountOfOneMore(trace, T.Waited(T.AttemptDelay(cap, look.jitter)), T.ListRead);
    CountOfOneMore(waited, T.ListRead, T.ListRead);
    CountOfOneMore(waited, T.Granted, T.ListRead);
    CountOfOneMore(waited + [T.ListRead], T.Granted, T.ListRead);
    if k < |looks| - 1 {
      assert looks[k] in looks[..|looks| - 1];
      assert Unsettled(look);
      LoopDecides(looks, k + 1, attempts + 1, Min(2 * cap, T.MAX_NANOS), waited + [T.ListRead], max);
    }
  }

  /**
   Whatever the other decisions, the reads and the updates do in between, a decision begun with
   `left` attempts ends as the task's loop ends on what it met, with as many attempts spent and
   as many list reads asked for; until then each turn has spent one attempt.
   */
  lemma DecisionsAreLoops(
      s: R.State, steps: seq<R.Step>, timing: Timing, d: nat, draws: nat -> u64,
      budget: T.Budget, before: seq<T.Event>, max: nat)
    requires d in s.decisions && s.decisions[d].phase.Head? && budget.attempts + s.decisions[d].left == max
    requires forall step <- steps :: step.Begin? ==> step.d != d
    ensures d in R.Run(s, steps, timing).decisions
    ensures var decision, met := R.Run(s, steps, timing).decisions[d], Met(NOTHING_SEEN, s, steps, timing, d, draws);
            if R.Final(decision.phase) then
              var out := T.Resolve(Script(met.looks), true, budget, before, max);
              && out.verdict == VerdictOf(decision.phase) && out.attempts == max - decision.left
              && T.Count(out.trace, T.ListRead) == T.Count(before, T.ListRead) + met.asks
            else |met.looks| + decision.left == s.decisions[d].left
    ensures Met(NOTHING_SEEN, s, steps, timing, d, draws).asks <= s.decisions[d].left
  {
    hide Met, R.Run, T.Count, T.Decision;
    var total := s.decisions[d].left;
    RunKeepsTied(s, steps, timing, d, NOTHING_SEEN, total, draws);
    var decision, met := R.Run(s, steps, timing).decisions[d], Met(NOTHING_SEEN, s, steps, timing, d, draws);
    if R.Final(decision.phase) {
      LoopDecides(met.looks, 0, budget.attempts, budget.cap, before, max);
    }
  }
}
