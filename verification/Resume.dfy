/**
 Many subscriptions the server ended, deciding together whether to resume.
 Decisions, list reads and sub-account updates are interleaved step by step,
 one lock section or one wait at a time.
 */
module Resume {
  import opened Numbers
  import opened Access

  datatype Answer = Listed(ids: set<u64>) | Refused | Failed

  /** A list read: waiting for its turn, its request sent, or answered. */
  datatype Read = Sleeping(due: Instant) | InFlight(request: nat) | Answered(request: nat, answer: Answer)

  datatype Reason = AccessRemoved | RetriesExhausted | ListRefused | NotListed

  /** `asked` counts the list requests sent before this decision asked for a read. */
  datatype Phase =
    | Head
    | Delaying
    | Asking
    | Waiting(read: nat, asked: nat)
    | Reserving(read: nat, asked: nat)
    | Pacing(read: nat, asked: nat, slot: nat)
    | Ended(reason: Reason)
    | Granted
    | Stopped

  datatype Decision = Decision(id: u64, left: nat, phase: Phase)

  /** A subscribe allowed without a stop request; `heard` counts the updates seen at its final check. */
  datatype Grant = Grant(id: u64, read: nat, asked: nat, slot: nat, heard: nat, at: Instant)

  datatype State = State(
    now: Instant,
    access: Access,
    heard: seq<Update>,
    listReads: seq<Read>,
    requests: seq<Instant>,
    slots: seq<Instant>,
    decisions: map<nat, Decision>,
    grants: seq<Grant>)

  const START := State(0, NOTHING_KNOWN, [], [], [], [], map[], [])

  datatype Step =
    | Tick(elapsed: nat)
    | Hear(update: Update)
    | Begin(d: nat, id: u64, left: nat)
    | Attempt(d: nat)
    | Wake(d: nat)
    | Ask(d: nat)
    | SendRequest(read: nat)
    | Reply(read: nat, answer: Answer)
    | TakeAnswer(d: nat)
    | Reserve(d: nat)
    | FinalCheck(d: nat)
    | Stop(d: nat)

  // ----- one step -----

  predicate Final(phase: Phase) {
    phase.Ended? || phase.Granted? || phase.Stopped?
  }

  predicate At(s: State, d: nat, phase: Phase) {
    d in s.decisions && s.decisions[d].phase == phase
  }

  function Move(s: State, d: nat, phase: Phase): State
    requires d in s.decisions
  {
    s.(decisions := s.decisions[d := s.decisions[d].(phase := phase)])
  }

  /** Ends the decision when its sub-account is marked removed. */
  function UnlessRemoved(s: State, d: nat, phase: Phase): State
    requires d in s.decisions
  {
    Move(s, d, if s.decisions[d].id in s.access.removed then Ended(AccessRemoved) else phase)
  }

  function AfterAttempt(s: State, d: nat): State
    requires At(s, d, Head)
  {
    var decision := s.decisions[d];
    if decision.id in s.access.removed then Move(s, d, Ended(AccessRemoved))
    else if decision.left == 0 then Move(s, d, Ended(RetriesExhausted))
    else s.(decisions := s.decisions[d := Decision(decision.id, decision.left - 1, Delaying)])
  }

  function AfterAsk(s: State, d: nat, timing: Timing): State
    requires At(s, d, Asking)
  {
    match s.access.nextRead
    case Some(read) => Move(s, d, Waiting(read, |s.requests|))
    case None =>
      Move(s, d, Waiting(|s.listReads|, |s.requests|)).(
        listReads := s.listReads + [Sleeping(ReadDue(s.access, s.now, timing))],
        access := s.access.(nextRead := Some(|s.listReads|)))
  }

  function AfterRequest(s: State, read: nat): State
    requires read < |s.listReads| && s.listReads[read].Sleeping?
  {
    s.(listReads := s.listReads[read := InFlight(|s.requests|)],
       requests := s.requests + [s.now],
       access := ReadStarted(s.access, s.now))
  }

  function AfterAnswer(s: State, d: nat, answer: Answer): State
    requires d in s.decisions && s.decisions[d].phase.Waiting?
  {
    var Waiting(read, asked) := s.decisions[d].phase;
    match answer
    case Refused => Move(s, d, Ended(ListRefused))
    case Failed => Move(s, d, Head)
    case Listed(ids) =>
      UnlessRemoved(s, d, if s.decisions[d].id in ids then Reserving(read, asked) else Ended(NotListed))
  }

  function AfterReserve(s: State, d: nat, timing: Timing): State
    requires d in s.decisions && s.decisions[d].phase.Reserving?
  {
    var Reserving(read, asked) := s.decisions[d].phase;
    Move(s, d, Pacing(read, asked, |s.slots|)).(
      slots := s.slots + [SlotAt(s.access, s.now)],
      access := Reserved(s.access, s.now, timing))
  }

  function AfterFinalCheck(s: State, d: nat): State
    requires d in s.decisions && s.decisions[d].phase.Pacing?
  {
    var decision := s.decisions[d];
    var Pacing(read, asked, slot) := decision.phase;
    if decision.id in s.access.removed then Move(s, d, Ended(AccessRemoved))
    else Move(s, d, Granted).(
      grants := s.grants + [Grant(decision.id, read, asked, slot, |s.heard|, s.now)])
  }

  predicate Enabled(s: State, step: Step) {
    match step
    case Tick(_) => true
    case Hear(_) => true
    case Begin(d, _, _) => d !in s.decisions || Final(s.decisions[d].phase)
    case Attempt(d) => At(s, d, Head)
    case Wake(d) => At(s, d, Delaying)
    case Ask(d) => At(s, d, Asking)
    case SendRequest(read) => read < |s.listReads| && s.listReads[read].Sleeping? && s.listReads[read].due <= s.now
    case Reply(read, _) => read < |s.listReads| && s.listReads[read].InFlight?
    case TakeAnswer(d) =>
      d in s.decisions && s.decisions[d].phase.Waiting? && s.decisions[d].phase.read < |s.listReads|
      && s.listReads[s.decisions[d].phase.read].Answered?
    case Reserve(d) => d in s.decisions && s.decisions[d].phase.Reserving?
    case FinalCheck(d) =>
      d in s.decisions && s.decisions[d].phase.Pacing? && s.decisions[d].phase.slot < |s.slots|
      && s.slots[s.decisions[d].phase.slot] <= s.now
    case Stop(d) =>
      d in s.decisions
      && (s.decisions[d].phase.Delaying? || s.decisions[d].phase.Asking? || s.decisions[d].phase.Waiting?
          || s.decisions[d].phase.Pacing?)
  }

  function After(s: State, step: Step, timing: Timing): State
    requires Enabled(s, step)
  {
    match step
    case Tick(elapsed) => s.(now := s.now + elapsed)
    case Hear(update) => s.(heard := s.heard + [update], access := Noted(s.access, update))
    case Begin(d, id, left) => s.(decisions := s.decisions[d := Decision(id, left, Head)])
    case Attempt(d) => AfterAttempt(s, d)
    case Wake(d) => UnlessRemoved(s, d, Asking)
    case Ask(d) => AfterAsk(s, d, timing)
    case SendRequest(read) => AfterRequest(s, read)
    case Reply(read, answer) => s.(listReads := s.listReads[read := Answered(s.listReads[read].request, answer)])
    case TakeAnswer(d) => AfterAnswer(s, d, s.listReads[s.decisions[d].phase.read].answer)
    case Reserve(d) => AfterReserve(s, d, timing)
    case FinalCheck(d) => AfterFinalCheck(s, d)
    case Stop(d) => Move(s, d, Stopped)
  }

  /** The state after any list of steps; a step that is not possible changes nothing. */
  function Run(s: State, steps: seq<Step>, timing: Timing): State
    decreases |steps|
  {
    if steps == [] then s
    else Run(if Enabled(s, steps[0]) then After(s, steps[0], timing) else s, steps[1..], timing)
  }

  // ----- what every step keeps -----

  /** What the updates say of `id`, the last one counting; the id 0 names no sub-account. */
  predicate RemovedBy(heard: seq<Update>, id: u64) {
    if heard == [] || id == 0 then false
    else
      var last := heard[|heard| - 1];
      if last.id == id then last.removed else RemovedBy(heard[..|heard| - 1], id)
  }

  ghost predicate Spaced(times: seq<Instant>, gap: nat) {
    forall i, j | 0 <= i < j < |times| :: times[i] + gap <= times[j]
  }

  function Last(times: seq<Instant>): Option<Instant> {
    if times == [] then None else Some(times[|times| - 1])
  }

  ghost predicate ReadsOk(s: State, timing: Timing) {
    && Spaced(s.requests, timing.readInterval)
    && s.access.lastRead == Last(s.requests)
    && (s.requests != [] ==> s.requests[|s.requests| - 1] <= s.now)
    && (s.access.nextRead.Some? ==> s.access.nextRead.value < |s.listReads|)
    && (forall r | 0 <= r < |s.listReads| :: s.listReads[r].Sleeping? <==> s.access.nextRead == Some(r))
    && (forall r | 0 <= r < |s.listReads| :: ReadOk(s, s.listReads[r], timing))
  }

  ghost predicate ReadOk(s: State, read: Read, timing: Timing) {
    if read.Sleeping? then s.requests == [] || s.requests[|s.requests| - 1] + timing.readInterval <= read.due
    else read.request < |s.requests|
  }

  ghost predicate SlotsOk(s: State, timing: Timing) {
    && Spaced(s.slots, timing.attemptSpacing)
    && s.access.nextAttemptAt
         == if s.slots == [] then None else Some(s.slots[|s.slots| - 1] + timing.attemptSpacing)
  }

  ghost predicate RemovedOk(s: State) {
    forall id: u64 :: id in s.access.removed <==> RemovedBy(s.heard, id)
  }

  /** The read's request, if sent, was sent after the decision asked. */
  ghost predicate ReadAfter(s: State, read: nat, asked: nat) {
    && read < |s.listReads| && asked <= |s.requests|
    && (s.listReads[read].Sleeping? || asked <= s.listReads[read].request)
  }

  ghost predicate ListedIn(s: State, read: nat, asked: nat, id: u64) {
    && ReadAfter(s, read, asked)
    && s.listReads[read].Answered? && s.listReads[read].answer.Listed? && id in s.listReads[read].answer.ids
  }

  ghost predicate DecisionOk(s: State, decision: Decision) {
    match decision.phase
    case Waiting(read, asked) => ReadAfter(s, read, asked)
    case Reserving(read, asked) => ListedIn(s, read, asked, decision.id)
    case Pacing(read, asked, slot) => ListedIn(s, read, asked, decision.id) && slot < |s.slots|
    case _ => true
  }

  ghost predicate GrantOk(s: State, grant: Grant) {
    && ListedIn(s, grant.read, grant.asked, grant.id)
    && grant.slot < |s.slots| && s.slots[grant.slot] <= grant.at
    && grant.heard <= |s.heard| && !RemovedBy(s.heard[..grant.heard], grant.id)
  }

  /** No slot is held twice: by two waiting decisions, two granted subscribes, or one of each. */
  ghost predicate SlotsHeldOnce(s: State) {
    && (forall d, e | d in s.decisions && e in s.decisions && d != e
          && s.decisions[d].phase.Pacing? && s.decisions[e].phase.Pacing? ::
          s.decisions[d].phase.slot != s.decisions[e].phase.slot)
    && (forall d, i | d in s.decisions && s.decisions[d].phase.Pacing? && 0 <= i < |s.grants| ::
          s.decisions[d].phase.slot != s.grants[i].slot)
    && (forall i, j | 0 <= i < j < |s.grants| :: s.grants[i].slot != s.grants[j].slot)
  }

  ghost predicate Inv(s: State, timing: Timing) {
    && ReadsOk(s, timing)
    && SlotsOk(s, timing)
    && RemovedOk(s)
    && (forall d | d in s.decisions :: DecisionOk(s, s.decisions[d]))
    && (forall i | 0 <= i < |s.grants| :: GrantOk(s, s.grants[i]))
    && SlotsHeldOnce(s)
  }

  /** Everything recorded stays recorded, and a read only moves forward. */
  ghost predicate Grows(s: State, t: State) {
    && s.heard <= t.heard && s.requests <= t.requests && s.slots <= t.slots && |s.listReads| <= |t.listReads|
    && (forall r | 0 <= r < |s.listReads| :: ReadGrows(s, s.listReads[r], t.listReads[r]))
  }

  ghost predicate ReadGrows(s: State, before: Read, after: Read) {
    match before
    case Sleeping(_) => after.Sleeping? || (after.InFlight? && after.request >= |s.requests|)
    case InFlight(request) => !after.Sleeping? && after.request == request
    case Answered(_, _) => after == before
  }

  lemma DecisionSurvives(s: State, t: State, decision: Decision)
    requires DecisionOk(s, decision) && Grows(s, t)
    ensures DecisionOk(t, decision)
  {
  }

  lemma GrantSurvives(s: State, t: State, grant: Grant)
    requires GrantOk(s, grant) && Grows(s, t)
    ensures GrantOk(t, grant)
  {
    assert s.heard[..grant.heard] == t.heard[..grant.heard];
  }

  lemma StepGrows(s: State, step: Step, timing: Timing)
    requires Enabled(s, step)
    ensures Grows(s, After(s, step, timing))
  {
  }

  lemma RequestKeepsReads(s: State, read: nat, timing: Timing)
    requires ReadsOk(s, timing) && Enabled(s, SendRequest(read))
    ensures ReadsOk(AfterRequest(s, read), timing)
  {
  }

  lemma AskKeepsReads(s: State, d: nat, timing: Timing)
    requires ReadsOk(s, timing) && Enabled(s, Ask(d))
    ensures ReadsOk(AfterAsk(s, d, timing), timing)
  {
  }

  lemma ReplyKeepsReads(s: State, read: nat, answer: Answer, timing: Timing)
    requires ReadsOk(s, timing) && Enabled(s, Reply(read, answer))
    ensures ReadsOk(After(s, Reply(read, answer), timing), timing)
  {
  }

  lemma StepKeepsReads(s: State, step: Step, timing: Timing)
    requires ReadsOk(s, timing) && Enabled(s, step)
    ensures ReadsOk(After(s, step, timing), timing)
  {
    match step
    case SendRequest(read) => RequestKeepsReads(s, read, timing);
    case Ask(d) => AskKeepsReads(s, d, timing);
    case Reply(read, answer) => ReplyKeepsReads(s, read, answer, timing);
    case _ =>
      hide Spaced;
      var t := After(s, step, timing);
      assert t.requests == s.requests && t.listReads == s.listReads;
      assert t.access.lastRead == s.access.lastRead && t.access.nextRead == s.access.nextRead;
  }

  lemma StepKeepsSlots(s: State, step: Step, timing: Timing)
    requires SlotsOk(s, timing) && Enabled(s, step)
    ensures SlotsOk(After(s, step, timing), timing)
  {
  }

  lemma StepKeepsRemoved(s: State, step: Step, timing: Timing)
    requires RemovedOk(s) && Enabled(s, step)
    ensures RemovedOk(After(s, step, timing))
  {
    if step.Hear? {
      assert (s.heard + [step.update])[..|s.heard|] == s.heard;
    }
  }

  /** The decision a step is about is in order after it. */
  lemma StepKeepsItsDecision(s: State, step: Step, timing: Timing, d: nat)
    requires Inv(s, timing) && Enabled(s, step)
    requires d in After(s, step, timing).decisions
    ensures DecisionOk(After(s, step, timing), After(s, step, timing).decisions[d])
  {
    hide RemovedOk, SlotsHeldOnce, SlotsOk, Spaced;
    var t := After(s, step, timing);
    StepGrows(s, step, timing);
    if d in s.decisions && t.decisions[d] == s.decisions[d] {
      DecisionSurvives(s, t, s.decisions[d]);
    } else if d in s.decisions {
      assert DecisionOk(s, s.decisions[d]);
    }
  }

  lemma StepKeepsGrants(s: State, step: Step, timing: Timing, i: nat)
    requires Inv(s, timing) && Enabled(s, step)
    requires i < |After(s, step, timing).grants|
    ensures GrantOk(After(s, step, timing), After(s, step, timing).grants[i])
  {
    hide SlotsHeldOnce, SlotsOk, Spaced;
    var t := After(s, step, timing);
    StepGrows(s, step, timing);
    if i < |s.grants| {
      assert t.grants[i] == s.grants[i];
      GrantSurvives(s, t, s.grants[i]);
    } else {
      assert step.FinalCheck? && DecisionOk(s, s.decisions[step.d]);
      assert s.heard[..|s.heard|] == s.heard;
    }
  }

  /** The slot a decision or a grant holds is one of those reserved so far. */
  ghost predicate HeldSlotsExist(s: State) {
    && (forall d | d in s.decisions && s.decisions[d].phase.Pacing? :: s.decisions[d].phase.slot < |s.slots|)
    && (forall i | 0 <= i < |s.grants| :: s.grants[i].slot < |s.slots|)
  }

  lemma HeldSlotsAreReserved(s: State, timing: Timing)
    requires Inv(s, timing)
    ensures HeldSlotsExist(s)
  {
    hide RemovedOk, SlotsOk, ReadsOk, SlotsHeldOnce, ListedIn;
    assert forall d | d in s.decisions && s.decisions[d].phase.Pacing? :: DecisionOk(s, s.decisions[d]);
    assert forall i | 0 <= i < |s.grants| :: GrantOk(s, s.grants[i]);
  }

  lemma ReserveKeepsSlotsHeldOnce(s: State, d: nat, timing: Timing)
    requires SlotsHeldOnce(s) && HeldSlotsExist(s) && Enabled(s, Reserve(d))
    ensures SlotsHeldOnce(AfterReserve(s, d, timing))
  {
  }

  lemma FinalCheckKeepsSlotsHeldOnce(s: State, d: nat)
    requires SlotsHeldOnce(s) && Enabled(s, FinalCheck(d))
    ensures SlotsHeldOnce(AfterFinalCheck(s, d))
  {
  }

  lemma StepKeepsSlotsHeldOnce(s: State, step: Step, timing: Timing)
    requires SlotsHeldOnce(s) && HeldSlotsExist(s) && Enabled(s, step)
    ensures SlotsHeldOnce(After(s, step, timing))
  {
    match step
    case Reserve(d) => ReserveKeepsSlotsHeldOnce(s, d, timing);
    case FinalCheck(d) => FinalCheckKeepsSlotsHeldOnce(s, d);
    case _ =>
      hide HeldSlotsExist;
      var t := After(s, step, timing);
      assert t.grants == s.grants;
      assert forall d | d in t.decisions && t.decisions[d].phase.Pacing? ::
          d in s.decisions && s.decisions[d].phase == t.decisions[d].phase;
  }

  lemma StepKeepsInv(s: State, step: Step, timing: Timing)
    requires Inv(s, timing) && Enabled(s, step)
    ensures Inv(After(s, step, timing), timing)
  {
    hide RemovedOk, SlotsHeldOnce, HeldSlotsExist, SlotsOk, ReadsOk, GrantOk, DecisionOk, After, Enabled;
    StepKeepsReads(s, step, timing);
    StepKeepsSlots(s, step, timing);
    StepKeepsRemoved(s, step, timing);
    HeldSlotsAreReserved(s, timing);
    StepKeepsSlotsHeldOnce(s, step, timing);
    var t := After(s, step, timing);
    forall d | d in t.decisions
      ensures DecisionOk(t, t.decisions[d])
    {
      StepKeepsItsDecision(s, step, timing, d);
    }
    forall i | 0 <= i < |t.grants|
      ensures GrantOk(t, t.grants[i])
    {
      StepKeepsGrants(s, step, timing, i);
    }
  }

  lemma {:induction false} RunKeepsInv(s: State, steps: seq<Step>, timing: Timing)
    requires Inv(s, timing)
    ensures Inv(Run(s, steps, timing), timing)
    decreases |steps|
  {
    hide Inv, After, Enabled;
    if steps != [] {
      if Enabled(s, steps[0]) {
        StepKeepsInv(s, steps[0], timing);
        RunKeepsInv(After(s, steps[0], timing), steps[1..], timing);
      } else {
        RunKeepsInv(s, steps[1..], timing);
      }
    }
  }

  // ----- what holds of every run -----

  /**
   Whenever a subscribe is allowed without a stop request, the last update heard
   before the final check did not remove the sub-account, the list that named it
   answered a request sent after the decision asked, and its slot has come.
   */
  lemma GrantsAreSafe(steps: seq<Step>, timing: Timing, i: nat)
    requires i < |Run(START, steps, timing).grants|
    ensures var s := Run(START, steps, timing);
            var grant := s.grants[i];
            && grant.heard <= |s.heard| && !RemovedBy(s.heard[..grant.heard], grant.id)
            && grant.read < |s.listReads| && s.listReads[grant.read].Answered?
            && grant.asked <= s.listReads[grant.read].request < |s.requests|
            && s.listReads[grant.read].answer.Listed? && grant.id in s.listReads[grant.read].answer.ids
            && grant.slot < |s.slots| && s.slots[grant.slot] <= grant.at
  {
    hide Run;
    RunKeepsInv(START, steps, timing);
    var s := Run(START, steps, timing);
    assert GrantOk(s, s.grants[i]);
    assert ReadOk(s, s.listReads[s.grants[i].read], timing);
  }

  /** List requests of one client are at least `readInterval` apart, however many decisions ask. */
  lemma RequestsArePaced(steps: seq<Step>, timing: Timing)
    ensures Spaced(Run(START, steps, timing).requests, timing.readInterval)
  {
    hide Run;
    RunKeepsInv(START, steps, timing);
  }

  /** Reserved slots are at least `attemptSpacing` apart, and no two granted subscribes share one. */
  lemma GrantsArePaced(steps: seq<Step>, timing: Timing)
    ensures Spaced(Run(START, steps, timing).slots, timing.attemptSpacing)
    ensures var grants := Run(START, steps, timing).grants;
            forall i, j | 0 <= i < j < |grants| :: grants[i].slot != grants[j].slot
  {
    hide Run;
    RunKeepsInv(START, steps, timing);
  }

  lemma {:induction false} LastUpdateCounts(heard: seq<Update>, id: u64, k: nat)
    requires id != 0 && k < |heard| && heard[k] == Update(id, true)
    requires forall j | k < j < |heard| :: heard[j].id != id
    ensures RemovedBy(heard, id)
    decreases |heard|
  {
    if k < |heard| - 1 {
      LastUpdateCounts(heard[..|heard| - 1], id, k);
    }
  }

  /** A removal wins: with no later update of that sub-account, no decision that checks after hearing it subscribes. */
  lemma RemovalWins(steps: seq<Step>, timing: Timing, k: nat, i: nat)
    requires var s := Run(START, steps, timing);
             && k < |s.heard| && s.heard[k].removed && s.heard[k].id != 0
             && (forall j | k < j < |s.heard| :: s.heard[j].id != s.heard[k].id)
             && i < |s.grants| && k < s.grants[i].heard
    ensures var s := Run(START, steps, timing);
            s.grants[i].id != s.heard[k].id
  {
    hide Run;
    GrantsAreSafe(steps, timing, i);
    var s := Run(START, steps, timing);
    if s.grants[i].id == s.heard[k].id {
      LastUpdateCounts(s.heard[..s.grants[i].heard], s.heard[k].id, k);
    }
  }

  /**
   What each check of a decision comes to in any run, by the updates heard so far: a removal ends
   it wherever it looks; otherwise it goes on, is out of attempts, is refused, or subscribes.
   */
  lemma ChecksGoByUpdates(steps: seq<Step>, timing: Timing, step: Step)
    requires Enabled(Run(START, steps, timing), step)
    requires step.Attempt? || step.Wake? || step.TakeAnswer? || step.FinalCheck?
    ensures var s := Run(START, steps, timing);
            var before, after := s.decisions[step.d], After(s, step, timing).decisions[step.d];
            var removed := RemovedBy(s.heard, before.id);
            match step
            case Attempt(_) =>
              if removed then after.phase == Ended(AccessRemoved)
              else if before.left == 0 then after.phase == Ended(RetriesExhausted)
              else after.phase == Delaying && after.left == before.left - 1
            case Wake(_) => after.phase == if removed then Ended(AccessRemoved) else Asking
            case TakeAnswer(_) =>
              (match s.listReads[before.phase.read].answer
               case Refused => after.phase == Ended(ListRefused)
               case Failed => after.phase == Head
               case Listed(ids) =>
                 if removed then after.phase == Ended(AccessRemoved)
                 else if before.id in ids then after.phase.Reserving?
                 else after.phase == Ended(NotListed))
            case FinalCheck(_) => after.phase == if removed then Ended(AccessRemoved) else Granted
            case _ => true
  {
    hide Run;
    RunKeepsInv(START, steps, timing);
  }

  /** A slot is the earliest there may be: now, or a spacing after the one before. */
  lemma SlotsAreEarliest(steps: seq<Step>, timing: Timing, d: nat)
    requires Enabled(Run(START, steps, timing), Reserve(d))
    ensures var s := Run(START, steps, timing);
            After(s, Reserve(d), timing).slots
              == s.slots + [if s.slots == [] then s.now
                            else Max(s.now, s.slots[|s.slots| - 1] + timing.attemptSpacing)]
  {
    hide Run;
    RunKeepsInv(START, steps, timing);
  }

  /** A list read is joined while it waits; a new one is due as early as the interval lets it. */
  lemma ReadsAreEarliest(steps: seq<Step>, timing: Timing, d: nat)
    requires Enabled(Run(START, steps, timing), Ask(d))
    ensures var s := Run(START, steps, timing);
            var due := if s.requests == [] then s.now
                       else Max(s.now, s.requests[|s.requests| - 1] + timing.readInterval);
            var created := if exists r | 0 <= r < |s.listReads| :: s.listReads[r].Sleeping? then []
                           else [Sleeping(due)];
            After(s, Ask(d), timing).listReads == s.listReads + created
  {
    RunKeepsInv(START, steps, timing);
    hide Run, SlotsOk, RemovedOk, SlotsHeldOnce, DecisionOk, GrantOk;
  }
}
