/**
 One connection's token renewal against the server's deadlines, step by step:
 time passes, tokens are fetched, commands and replies travel, in any interleaving. The
 server may answer commands out of order; its replies arrive in the order it gave them.
 */
module RenewalRuns {
  import opened Numbers
  import opened Access
  import opened Renewal

  /**
   `grace` is how long after its TTL the server still accepts a token; `latency` bounds the way
   of a reply; `delay` bounds the time from a due renewal to the server's receipt of its command.
   */
  datatype Bounds = Bounds(unit: nat, grace: nat, latency: nat, delay: nat)

  datatype Fetched = Fetched(kind: Kind, ok: bool)
  datatype Command = Command(n: nat, kind: Kind)
  datatype Reply = Reply(n: nat, kind: Kind, refused: bool, expiry: Option<u32>)

  /**
   Where one token's renewal stands; `n` numbers its command. `Unheard` when the reply
   to it came and was not taken for one.
   */
  datatype Stage =
    | Idle
    | Due(at: Instant)
    | Fetching(at: Instant)
    | InHand(at: Instant, ok: bool)
    | Sent(at: Instant, n: nat)
    | Answered(received: Instant, n: nat, refused: bool, expiry: Option<u32>)
    | Lost
    | Unheard

  datatype State = State(
    now: Instant,
    renewer: Renewer,
    fetching: set<Kind>,
    results: seq<Fetched>,
    commands: seq<Command>,
    replies: seq<Reply>,
    deadlines: map<Kind, Instant>,
    issued: nat,
    connection: Stage,
    subscription: Stage)

  function StageOf(s: State, kind: Kind): Stage {
    if kind == Connection then s.connection else s.subscription
  }

  function WithStage(s: State, kind: Kind, stage: Stage): State {
    if kind == Connection then s.(connection := stage) else s.(subscription := stage)
  }

  function WithDeadline(deadlines: map<Kind, Instant>, kind: Kind, from: Instant, expiry: Option<u32>, b: Bounds)
    : map<Kind, Instant>
  {
    match expiry
    case Some(ttl) => deadlines[kind := from + b.unit * ttl + b.grace]
    case None => deadlines - {kind}
  }

  function StageFrom(answered: Instant, expiry: Option<u32>, b: Bounds): Stage {
    match expiry
    case Some(ttl) => Due(answered + b.unit * ttl)
    case None => Idle
  }

  // ----- the handshake -----

  /** When the server granted each token and its reply arrived, and the expiry the reply named. */
  datatype Handshake = Handshake(
    connectGranted: Instant, connected: Instant, connectExpiry: Option<u32>,
    subscribeGranted: Instant, subscribed: Instant, subscribeExpiry: Option<u32>)

  /** Both renewals are scheduled once setup is over, each from the arrival of its own reply. */
  function Begun(h: Handshake, b: Bounds): State {
    var deadlines := WithDeadline(map[], Connection, h.connectGranted, h.connectExpiry, b);
    State(
      h.subscribed,
      Scheduled(Scheduled(NEW_RENEWER, Connection, h.connected, h.connectExpiry, b.unit),
                Subscription, h.subscribed, h.subscribeExpiry, b.unit),
      {}, [], [], [],
      WithDeadline(deadlines, Subscription, h.subscribeGranted, h.subscribeExpiry, b),
      0,
      StageFrom(h.connected, h.connectExpiry, b),
      StageFrom(h.subscribed, h.subscribeExpiry, b))
  }

  /** The handshake kept the bounds; what is left of it after the connect reply counts as delay. */
  predicate InBounds(h: Handshake, b: Bounds) {
    && h.connectGranted <= h.connected <= h.connectGranted + b.latency
    && h.connected <= h.subscribed && h.subscribeGranted <= h.subscribed <= h.subscribeGranted + b.latency
    && InTime(StageFrom(h.connected, h.connectExpiry, b), h.subscribed, b)
  }

  // ----- steps -----

  datatype Step =
    | Tick(elapsed: nat)
    | StartDue
    | FetchDone(kind: Kind, ok: bool)
    | TakeFetched
    | ServerTakes(i: nat, refused: bool, expiry: Option<u32>)
    | ClientTakes

  predicate Failed(stage: Stage) {
    stage.Lost? || (stage.InHand? && !stage.ok) || (stage.Answered? && stage.refused)
  }

  /** At time `t` this renewal has not overrun its bound. */
  predicate InTime(stage: Stage, t: Instant, b: Bounds) {
    Failed(stage) ||
    match stage
    case Due(at) => t <= at + b.delay
    case Fetching(at) => t <= at + b.delay
    case InHand(at, _) => t <= at + b.delay
    case Sent(at, _) => t <= at + b.delay
    case Answered(received, _, _, _) => t <= received + b.latency
    case _ => true
  }

  predicate Enabled(s: State, step: Step, b: Bounds) {
    match step
    case Tick(elapsed) =>
      InTime(s.connection, s.now + elapsed, b) && InTime(s.subscription, s.now + elapsed, b)
    case StartDue => true
    case FetchDone(kind, _) => kind in s.fetching
    case TakeFetched => s.results != []
    case ServerTakes(i, _, _) => i < |s.commands|
    case ClientTakes => s.replies != []
  }

  function Begins(stage: Stage, due: bool): Stage {
    if due && stage.Due? then Fetching(stage.at) else stage
  }

  function AfterStartDue(s: State): State {
    var started := DueKinds(s.renewer, s.now);
    s.(renewer := Renewal.Started(s.renewer, s.now),
       fetching := s.fetching + started,
       connection := Begins(s.connection, Connection in started),
       subscription := Begins(s.subscription, Subscription in started))
  }

  function AfterFetchDone(s: State, kind: Kind, ok: bool): State {
    var stage := StageOf(s, kind);
    WithStage(s, kind, if stage.Fetching? then InHand(stage.at, ok) else stage).(
      fetching := s.fetching - {kind},
      results := s.results + [Fetched(kind, ok)])
  }

  function AfterTakeFetched(s: State): State
    requires s.results != []
  {
    var Fetched(kind, ok) := s.results[0];
    var stage := StageOf(s, kind);
    var taken := s.(results := s.results[1..]);
    if !ok then WithStage(taken, kind, Lost)
    else
      WithStage(taken, kind, if stage.InHand? then Sent(stage.at, s.issued) else stage).(
        renewer := Commanded(s.renewer, kind),
        commands := s.commands + [Command(s.issued, kind)],
        issued := s.issued + 1)
  }

  /** The server answers any command that has reached it, not only the first. */
  function AfterServerTakes(s: State, i: nat, refused: bool, expiry: Option<u32>, b: Bounds): State
    requires i < |s.commands|
  {
    var Command(n, kind) := s.commands[i];
    var stage := StageOf(s, kind);
    WithStage(s, kind, if stage.Sent? && stage.n == n then Answered(s.now, n, refused, expiry) else stage).(
      commands := s.commands[..i] + s.commands[i + 1..],
      replies := s.replies + [Reply(n, kind, refused, expiry)],
      deadlines := if refused then s.deadlines else WithDeadline(s.deadlines, kind, s.now, expiry, b))
  }

  /** The client goes by the ID alone; a token whose reply it takes for another's, or for none, is left unheard. */
  function AfterClientTakes(s: State, b: Bounds): State
    requires s.replies != []
  {
    var Reply(n, kind, refused, expiry) := s.replies[0];
    var id := NthId(n);
    var stage := StageOf(s, kind);
    var taken := WithStage(s, kind, if stage.Answered? && stage.n == n then Unheard else stage).(
      replies := s.replies[1..],
      renewer := Replied(s.renewer, id, refused, expiry, s.now, b.unit));
    if id !in s.renewer.pending then taken
    else WithStage(taken, s.renewer.pending[id], if refused then Lost else StageFrom(s.now, expiry, b))
  }

  function After(s: State, step: Step, b: Bounds): State
    requires Enabled(s, step, b)
  {
    match step
    case Tick(elapsed) => s.(now := s.now + elapsed)
    case StartDue => AfterStartDue(s)
    case FetchDone(kind, ok) => AfterFetchDone(s, kind, ok)
    case TakeFetched => AfterTakeFetched(s)
    case ServerTakes(i, refused, expiry) => AfterServerTakes(s, i, refused, expiry, b)
    case ClientTakes => AfterClientTakes(s, b)
  }

  /** The state after any list of steps; a step that is not possible changes nothing. */
  function Run(s: State, steps: seq<Step>, b: Bounds): State
    decreases |steps|
  {
    if steps == [] then s
    else Run(if Enabled(s, steps[0], b) then After(s, steps[0], b) else s, steps[1..], b)
  }

  // ----- one place per token -----

  predicate Awaits(stage: Stage, n: nat) {
    (stage.Sent? || stage.Answered?) && stage.n == n
  }

  /** The client's fields hold each token exactly where its stage says. */
  ghost predicate DueTracked(s: State) {
    forall kind: Kind ::
      && (kind in s.renewer.due <==> StageOf(s, kind).Due?)
      && (kind in s.renewer.due ==> s.renewer.due[kind] == StageOf(s, kind).at)
      && (kind in s.fetching <==> StageOf(s, kind).Fetching?)
  }

  ghost predicate ResultsTracked(s: State) {
    && (forall i | 0 <= i < |s.results| ::
          StageOf(s, s.results[i].kind).InHand? && StageOf(s, s.results[i].kind).ok == s.results[i].ok)
    && (forall i, j | 0 <= i < j < |s.results| :: s.results[i].kind != s.results[j].kind)
  }

  ghost predicate PendingTracked(s: State) {
    && s.renewer.nextId == NthId(s.issued)
    && (forall id | id in s.renewer.pending ::
          var stage := StageOf(s, s.renewer.pending[id]);
          (stage.Sent? || stage.Answered?) && stage.n < s.issued && NthId(stage.n) == id)
    && (forall kind: Kind | StageOf(s, kind).Sent? || StageOf(s, kind).Answered? ::
          && StageOf(s, kind).n < s.issued
          && NthId(StageOf(s, kind).n) in s.renewer.pending
          && s.renewer.pending[NthId(StageOf(s, kind).n)] == kind)
  }

  ghost predicate CommandsTracked(s: State) {
    && (forall i | 0 <= i < |s.commands| ::
          StageOf(s, s.commands[i].kind).Sent? && StageOf(s, s.commands[i].kind).n == s.commands[i].n)
    && (forall i, j | 0 <= i < j < |s.commands| :: s.commands[i].kind != s.commands[j].kind)
  }

  ghost predicate RepliesTracked(s: State) {
    && (forall i | 0 <= i < |s.replies| :: ReplyTracked(s, s.replies[i]))
    && (forall i, j | 0 <= i < j < |s.replies| :: s.replies[i].n != s.replies[j].n)
  }

  ghost predicate ReplyTracked(s: State, reply: Reply) {
    && NthId(reply.n) in s.renewer.pending && s.renewer.pending[NthId(reply.n)] == reply.kind
    && var stage := StageOf(s, reply.kind);
    stage.Answered? && stage.n == reply.n && stage.refused == reply.refused && stage.expiry == reply.expiry
  }

  ghost predicate Tracks(s: State) {
    DueTracked(s) && ResultsTracked(s) && PendingTracked(s) && CommandsTracked(s) && RepliesTracked(s)
  }

  // ----- deadlines -----

  /** The server's deadline leaves this renewal the grace, less the way its last reply took. */
  predicate Timely(s: State, kind: Kind, b: Bounds) {
    var stage := StageOf(s, kind);
    Failed(stage) || (
      && InTime(stage, s.now, b)
      && match stage
         case Idle => kind !in s.deadlines
         case Answered(received, _, _, expiry) =>
           (match expiry
            case Some(ttl) => kind in s.deadlines && s.deadlines[kind] == received + b.unit * ttl + b.grace
            case None => kind !in s.deadlines)
         case Lost => true
         case Unheard => false
         case _ => kind in s.deadlines && stage.at + b.grace <= s.deadlines[kind] + b.latency)
  }

  ghost predicate Inv(s: State, b: Bounds) {
    Tracks(s) && Timely(s, Connection, b) && Timely(s, Subscription, b)
  }

  /** A command this step sends takes an ID that no earlier command still holds. */
  predicate TakesFreeId(s: State, step: Step) {
    step.TakeFetched? && s.results != [] && s.results[0].ok ==> s.renewer.nextId !in s.renewer.pending
  }

  /** No command of the run takes the ID of one that still awaits its reply. */
  predicate NoIdReused(s: State, steps: seq<Step>, b: Bounds)
    decreases |steps|
  {
    steps == [] || (
      && (Enabled(s, steps[0], b) ==> TakesFreeId(s, steps[0]))
      && NoIdReused(if Enabled(s, steps[0], b) then After(s, steps[0], b) else s, steps[1..], b))
  }

  lemma FreshId(s: State)
    requires PendingTracked(s) && s.issued < PERIOD
    ensures s.renewer.nextId !in s.renewer.pending
  {
    forall id | id in s.renewer.pending
      ensures id != s.renewer.nextId
    {
      IdsAreDistinct(StageOf(s, s.renewer.pending[id]).n, s.issued);
    }
  }

  predicate Waits(stage: Stage) {
    stage.Due? || stage.Fetching?
  }

  lemma DueKept(s: State, t: State)
    requires DueTracked(s) && t.renewer.due == s.renewer.due && t.fetching == s.fetching
    requires forall kind ::
        StageOf(t, kind) == StageOf(s, kind) || !(Waits(StageOf(s, kind)) || Waits(StageOf(t, kind)))
    ensures DueTracked(t)
  {
    hide StageOf;
  }

  lemma ResultsKept(s: State, t: State)
    requires ResultsTracked(s) && t.results == s.results
    requires forall kind :: StageOf(s, kind).InHand? ==> StageOf(t, kind) == StageOf(s, kind)
    ensures ResultsTracked(t)
  {
    hide StageOf;
  }

  lemma PendingKept(s: State, t: State)
    requires PendingTracked(s) && t.renewer.pending == s.renewer.pending
    requires t.renewer.nextId == s.renewer.nextId && t.issued == s.issued
    requires forall kind, n :: Awaits(StageOf(s, kind), n) <==> Awaits(StageOf(t, kind), n)
    ensures PendingTracked(t)
  {
    hide StageOf, NthId;
    assert forall kind | StageOf(s, kind).Sent? || StageOf(s, kind).Answered? ::
        Awaits(StageOf(t, kind), StageOf(s, kind).n);
    assert forall kind | StageOf(t, kind).Sent? || StageOf(t, kind).Answered? ::
        Awaits(StageOf(t, kind), StageOf(t, kind).n);
  }

  lemma CommandsKept(s: State, t: State)
    requires CommandsTracked(s) && t.commands == s.commands
    requires forall kind :: StageOf(s, kind).Sent? ==> StageOf(t, kind) == StageOf(s, kind)
    ensures CommandsTracked(t)
  {
    hide StageOf;
  }

  lemma RepliesKept(s: State, t: State)
    requires RepliesTracked(s) && t.replies == s.replies
    requires forall id | id in s.renewer.pending ::
        id in t.renewer.pending && t.renewer.pending[id] == s.renewer.pending[id]
    requires forall kind :: StageOf(s, kind).Answered? ==> StageOf(t, kind) == StageOf(s, kind)
    ensures RepliesTracked(t)
  {
    hide StageOf, NthId;
    forall i | 0 <= i < |t.replies|
      ensures ReplyTracked(t, t.replies[i])
    {
      assert ReplyTracked(s, s.replies[i]);
    }
  }

  lemma StartDueKeeps(s: State)
    requires Tracks(s)
    ensures Tracks(AfterStartDue(s))
  {
    hide NthId, ResultsTracked, PendingTracked, CommandsTracked, RepliesTracked;
    var t := AfterStartDue(s);
    ResultsKept(s, t);
    PendingKept(s, t);
    CommandsKept(s, t);
    RepliesKept(s, t);
  }

  lemma FetchDoneKeeps(s: State, kind: Kind, ok: bool)
    requires Tracks(s) && kind in s.fetching
    ensures Tracks(AfterFetchDone(s, kind, ok))
  {
    hide NthId, PendingTracked, CommandsTracked, RepliesTracked;
    var t := AfterFetchDone(s, kind, ok);
    PendingKept(s, t);
    CommandsKept(s, t);
    RepliesKept(s, t);
  }

  lemma NextIdAfter(s: State)
    requires s.renewer.nextId == NthId(s.issued)
    ensures IdAfter(s.renewer.nextId) == NthId(s.issued + 1)
  {
  }

  lemma TakeFetchedDoes(s: State)
    requires ResultsTracked(s) && s.results != []
    ensures var t, kind := AfterTakeFetched(s), s.results[0].kind;
            && t.results == s.results[1..] && t.replies == s.replies && t.fetching == s.fetching
            && t.now == s.now && t.deadlines == s.deadlines
            && StageOf(s, kind).InHand?
            && (forall other :: other != kind ==> StageOf(t, other) == StageOf(s, other))
            && if s.results[0].ok
               then && t.renewer == Commanded(s.renewer, kind) && t.issued == s.issued + 1
                    && t.commands == s.commands + [Command(s.issued, kind)]
                    && StageOf(t, kind) == Sent(StageOf(s, kind).at, s.issued)
               else && t.renewer == s.renewer && t.issued == s.issued && t.commands == s.commands
                    && StageOf(t, kind) == Lost
  {
  }

  lemma TakeFetchedKeepsPending(s: State)
    requires Tracks(s) && s.results != [] && TakesFreeId(s, TakeFetched)
    ensures PendingTracked(AfterTakeFetched(s))
  {
    hide NthId, IdAfter, DueTracked, CommandsTracked, RepliesTracked, AfterTakeFetched, StageOf;
    TakeFetchedDoes(s);
    NextIdAfter(s);
  }

  lemma TakeFetchedKeepsCommands(s: State)
    requires ResultsTracked(s) && CommandsTracked(s) && s.results != []
    ensures CommandsTracked(AfterTakeFetched(s)) && ResultsTracked(AfterTakeFetched(s))
  {
    hide NthId, IdAfter, AfterTakeFetched, StageOf;
    TakeFetchedDoes(s);
  }

  lemma TakeFetchedKeeps(s: State)
    requires Tracks(s) && s.results != [] && TakesFreeId(s, TakeFetched)
    ensures Tracks(AfterTakeFetched(s))
  {
    TakeFetchedKeepsPending(s);
    TakeFetchedKeepsCommands(s);
    TakeFetchedDoes(s);
    hide NthId, IdAfter, DueTracked, ResultsTracked, PendingTracked, CommandsTracked, RepliesTracked;
    hide AfterTakeFetched, StageOf;
    var t := AfterTakeFetched(s);
    DueKept(s, t);
    RepliesKept(s, t);
  }

  lemma ServerTakesKeepsReplies(s: State, i: nat, refused: bool, expiry: Option<u32>, b: Bounds)
    requires Tracks(s) && i < |s.commands|
    ensures RepliesTracked(AfterServerTakes(s, i, refused, expiry, b))
  {
    hide NthId, DueTracked, ResultsTracked, WithDeadline;
    var t := AfterServerTakes(s, i, refused, expiry, b);
    var Command(n, kind) := s.commands[i];
    assert StageOf(s, kind).Sent? && s.renewer.pending[NthId(n)] == kind;
    forall i | 0 <= i < |s.replies|
      ensures ReplyTracked(t, s.replies[i]) && s.replies[i].n != n
    {
      assert ReplyTracked(s, s.replies[i]);
    }
  }

  lemma ServerTakesKeeps(s: State, i: nat, refused: bool, expiry: Option<u32>, b: Bounds)
    requires Tracks(s) && i < |s.commands|
    ensures Tracks(AfterServerTakes(s, i, refused, expiry, b))
  {
    hide NthId, DueTracked, ResultsTracked, PendingTracked, RepliesTracked, WithDeadline;
    ServerTakesKeepsReplies(s, i, refused, expiry, b);
    var t := AfterServerTakes(s, i, refused, expiry, b);
    assert StageOf(s, s.commands[i].kind).Sent?;
    DueKept(s, t);
    ResultsKept(s, t);
    PendingKept(s, t);
  }

  lemma ClientTakesDoes(s: State, b: Bounds)
    requires RepliesTracked(s) && s.replies != []
    ensures var t, id := AfterClientTakes(s, b), NthId(s.replies[0].n);
            && id in s.renewer.pending
            && var kind := s.renewer.pending[id];
            && t.results == s.results && t.replies == s.replies[1..] && t.commands == s.commands
            && t.fetching == s.fetching && t.issued == s.issued && t.now == s.now && t.deadlines == s.deadlines
            && t.renewer == Replied(s.renewer, id, s.replies[0].refused, s.replies[0].expiry, s.now, b.unit)
            && StageOf(s, kind)
                 == Answered(StageOf(s, kind).received, s.replies[0].n, s.replies[0].refused, s.replies[0].expiry)
            && StageOf(t, kind) == (if s.replies[0].refused then Lost else StageFrom(s.now, s.replies[0].expiry, b))
            && (forall other :: other != kind ==> StageOf(t, other) == StageOf(s, other))
  {
    hide NthId, Replied, StageFrom;
    assert ReplyTracked(s, s.replies[0]);
  }

  lemma ClientTakesKeepsPending(s: State, b: Bounds)
    requires Tracks(s) && s.replies != []
    ensures PendingTracked(AfterClientTakes(s, b))
  {
    hide NthId, DueTracked, ResultsTracked, CommandsTracked, RepliesTracked, AfterClientTakes, StageOf;
    ClientTakesDoes(s, b);
  }

  lemma ClientTakesKeepsReplies(s: State, b: Bounds)
    requires Tracks(s) && s.replies != []
    ensures RepliesTracked(AfterClientTakes(s, b))
  {
    hide NthId, DueTracked, ResultsTracked, CommandsTracked, AfterClientTakes, StageOf;
    ClientTakesDoes(s, b);
    var t := AfterClientTakes(s, b);
    forall i | 0 <= i < |t.replies|
      ensures ReplyTracked(t, t.replies[i])
    {
      assert t.replies[i] == s.replies[i + 1];
      assert ReplyTracked(s, s.replies[i + 1]);
    }
  }

  lemma ClientTakesKeepsDue(s: State, b: Bounds)
    requires Tracks(s) && s.replies != []
    ensures DueTracked(AfterClientTakes(s, b))
  {
    hide NthId, ResultsTracked, PendingTracked, CommandsTracked, RepliesTracked, AfterClientTakes, StageOf;
    ClientTakesDoes(s, b);
  }

  lemma ClientTakesKeeps(s: State, b: Bounds)
    requires Tracks(s) && s.replies != []
    ensures Tracks(AfterClientTakes(s, b))
  {
    ClientTakesKeepsPending(s, b);
    ClientTakesKeepsReplies(s, b);
    ClientTakesKeepsDue(s, b);
    ClientTakesDoes(s, b);
    hide NthId, DueTracked, ResultsTracked, PendingTracked, CommandsTracked, RepliesTracked, AfterClientTakes, StageOf;
    var t := AfterClientTakes(s, b);
    ResultsKept(s, t);
    CommandsKept(s, t);
  }

  // ----- every step keeps the deadlines ahead -----

  lemma ServerTakesKeepsTimely(s: State, i: nat, refused: bool, expiry: Option<u32>, b: Bounds, kind: Kind)
    requires Tracks(s) && i < |s.commands| && Timely(s, kind, b)
    ensures Timely(AfterServerTakes(s, i, refused, expiry, b), kind, b)
  {
    hide NthId, DueTracked, ResultsTracked, PendingTracked, RepliesTracked;
    assert StageOf(s, s.commands[i].kind).Sent?;
  }

  lemma ClientTakesKeepsTimely(s: State, b: Bounds, kind: Kind)
    requires Tracks(s) && s.replies != [] && Timely(s, kind, b)
    ensures Timely(AfterClientTakes(s, b), kind, b)
  {
    hide NthId, DueTracked, ResultsTracked, PendingTracked, CommandsTracked, RepliesTracked;
    hide AfterClientTakes, StageOf, Replied;
    ClientTakesDoes(s, b);
    if s.replies[0].expiry.Some? {
      assert b.unit * s.replies[0].expiry.value >= 0;
    }
  }

  lemma TakeFetchedKeepsTimely(s: State, b: Bounds, kind: Kind)
    requires Tracks(s) && s.results != [] && Timely(s, kind, b)
    ensures Timely(AfterTakeFetched(s), kind, b)
  {
    TakeFetchedDoes(s);
    hide NthId, DueTracked, PendingTracked, CommandsTracked, RepliesTracked, AfterTakeFetched, StageOf;
  }

  lemma StepKeepsTimely(s: State, step: Step, b: Bounds, kind: Kind)
    requires Tracks(s) && Timely(s, kind, b) && Enabled(s, step, b)
    ensures Timely(After(s, step, b), kind, b)
  {
    hide NthId;
    match step
    case ServerTakes(i, refused, expiry) => ServerTakesKeepsTimely(s, i, refused, expiry, b, kind);
    case ClientTakes => ClientTakesKeepsTimely(s, b, kind);
    case TakeFetched => TakeFetchedKeepsTimely(s, b, kind);
    case _ =>
      hide DueTracked, ResultsTracked, PendingTracked, CommandsTracked, RepliesTracked;
  }

  lemma TickKeepsTracks(s: State, elapsed: nat)
    requires Tracks(s)
    ensures Tracks(s.(now := s.now + elapsed))
  {
    hide NthId;
    var t := s.(now := s.now + elapsed);
    DueKept(s, t);
    ResultsKept(s, t);
    PendingKept(s, t);
    CommandsKept(s, t);
    RepliesKept(s, t);
  }

  lemma StepKeepsInv(s: State, step: Step, b: Bounds)
    requires Inv(s, b) && Enabled(s, step, b) && TakesFreeId(s, step)
    ensures Inv(After(s, step, b), b)
  {
    hide Tracks, Timely, Replied, Commanded;
    StepKeepsTimely(s, step, b, Connection);
    StepKeepsTimely(s, step, b, Subscription);
    match step
    case Tick(elapsed) => TickKeepsTracks(s, elapsed);
    case StartDue => StartDueKeeps(s);
    case FetchDone(kind, ok) => FetchDoneKeeps(s, kind, ok);
    case TakeFetched => TakeFetchedKeeps(s);
    case ServerTakes(i, refused, expiry) => ServerTakesKeeps(s, i, refused, expiry, b);
    case ClientTakes => ClientTakesKeeps(s, b);
  }

  lemma {:induction false} RunKeepsInv(s: State, steps: seq<Step>, b: Bounds)
    requires Inv(s, b) && NoIdReused(s, steps, b)
    ensures Inv(Run(s, steps, b), b)
    decreases |steps|
  {
    hide Inv, After, Enabled, TakesFreeId;
    if steps != [] {
      if Enabled(s, steps[0], b) {
        StepKeepsInv(s, steps[0], b);
        RunKeepsInv(After(s, steps[0], b), steps[1..], b);
      } else {
        RunKeepsInv(s, steps[1..], b);
      }
    }
  }

  lemma StepIssues(s: State, step: Step, b: Bounds)
    requires Enabled(s, step, b)
    ensures After(s, step, b).issued
         == if step.TakeFetched? && s.results[0].ok then s.issued + 1 else s.issued
  {
  }

  lemma {:induction false} RunIssues(s: State, steps: seq<Step>, b: Bounds)
    ensures s.issued <= Run(s, steps, b).issued
    decreases |steps|
  {
    hide After, Enabled;
    if steps != [] {
      if Enabled(s, steps[0], b) {
        StepIssues(s, steps[0], b);
        RunIssues(After(s, steps[0], b), steps[1..], b);
      } else {
        RunIssues(s, steps[1..], b);
      }
    }
  }

  /** The first 2^32 - 3 commands of a connection reuse no ID at all. */
  lemma {:induction false} FirstPeriodReusesNothing(s: State, steps: seq<Step>, b: Bounds)
    requires Inv(s, b) && Run(s, steps, b).issued <= PERIOD
    ensures NoIdReused(s, steps, b)
    decreases |steps|
  {
    hide After, Enabled, Timely, DueTracked, ResultsTracked, PendingTracked, CommandsTracked, RepliesTracked;
    if steps != [] {
      if Enabled(s, steps[0], b) {
        var t := After(s, steps[0], b);
        StepIssues(s, steps[0], b);
        RunIssues(t, steps[1..], b);
        if steps[0].TakeFetched? && s.issued < PERIOD {
          FreshId(s);
        }
        StepKeepsInv(s, steps[0], b);
        FirstPeriodReusesNothing(t, steps[1..], b);
      } else {
        FirstPeriodReusesNothing(s, steps[1..], b);
      }
    }
  }

  // ----- a server that answers in order -----

  ghost predicate InOrder(steps: seq<Step>) {
    forall step <- steps :: step.ServerTakes? ==> step.i == 0
  }

  /** The number of the oldest command or reply on its way. */
  function Oldest(s: State): int {
    s.issued - |s.commands| - |s.replies|
  }

  /** Replies and commands on their way are numbered through, and nothing older is awaited. */
  ghost predicate Queued(s: State) {
    && (forall i | 0 <= i < |s.replies| :: s.replies[i].n == Oldest(s) + i)
    && (forall i | 0 <= i < |s.commands| :: s.commands[i].n == Oldest(s) + |s.replies| + i)
    && (forall kind: Kind | StageOf(s, kind).Sent? || StageOf(s, kind).Answered? :: StageOf(s, kind).n >= Oldest(s))
  }

  function OnTheWay(s: State): seq<Kind> {
    seq(|s.commands|, i requires 0 <= i < |s.commands| => s.commands[i].kind)
    + seq(|s.replies|, i requires 0 <= i < |s.replies| => s.replies[i].kind)
  }

  lemma AtMostTwo(s: State)
    requires CommandsTracked(s) && RepliesTracked(s)
    ensures |s.commands| + |s.replies| <= 2
  {
    hide NthId;
    var kinds := OnTheWay(s);
    forall i, j | 0 <= i < j < |kinds|
      ensures kinds[i] != kinds[j]
    {
      if j >= |s.commands| {
        assert ReplyTracked(s, s.replies[j - |s.commands|]);
        if i >= |s.commands| {
          assert ReplyTracked(s, s.replies[i - |s.commands|]);
        }
      }
    }
    assert |kinds| > 2 ==> kinds[0] != kinds[1] && kinds[1] != kinds[2] && kinds[0] != kinds[2];
  }

  lemma QueuedTakesFree(s: State)
    requires Tracks(s) && Queued(s)
    ensures s.renewer.nextId !in s.renewer.pending
  {
    hide NthId, DueTracked, ResultsTracked, CommandsTracked, RepliesTracked;
    AtMostTwo(s);
    forall id | id in s.renewer.pending
      ensures id != s.renewer.nextId
    {
      IdsAreDistinct(StageOf(s, s.renewer.pending[id]).n, s.issued);
    }
  }

  lemma QueuedKept(s: State, t: State)
    requires Queued(s) && t.commands == s.commands && t.replies == s.replies && t.issued == s.issued
    requires forall kind, n :: Awaits(StageOf(t, kind), n) ==> Awaits(StageOf(s, kind), n)
    ensures Queued(t)
  {
    hide StageOf;
    assert forall kind | StageOf(t, kind).Sent? || StageOf(t, kind).Answered? ::
        Awaits(StageOf(t, kind), StageOf(t, kind).n);
  }

  lemma ClientTakesKeepsQueued(s: State, b: Bounds)
    requires Tracks(s) && Queued(s) && s.replies != []
    ensures Queued(AfterClientTakes(s, b))
  {
    ClientTakesDoes(s, b);
    hide NthId, DueTracked, ResultsTracked, CommandsTracked, RepliesTracked, AfterClientTakes, StageOf, Replied;
    hide StageFrom;
    var t := AfterClientTakes(s, b);
    assert Oldest(t) == Oldest(s) + 1 == s.replies[0].n + 1;
    forall kind: Kind | StageOf(t, kind).Sent? || StageOf(t, kind).Answered?
      ensures StageOf(t, kind).n >= Oldest(t)
    {
      assert s.renewer.pending[NthId(StageOf(s, kind).n)] == kind;
    }
  }

  lemma TakeFetchedKeepsQueued(s: State)
    requires ResultsTracked(s) && Queued(s) && s.results != []
    ensures Queued(AfterTakeFetched(s))
  {
    TakeFetchedDoes(s);
    hide StageOf, AfterTakeFetched, ResultsTracked, Commanded;
  }

  lemma ServerTakesKeepsQueued(s: State, refused: bool, expiry: Option<u32>, b: Bounds)
    requires Queued(s) && s.commands != []
    ensures Queued(AfterServerTakes(s, 0, refused, expiry, b))
  {
    hide WithDeadline;
    var t := AfterServerTakes(s, 0, refused, expiry, b);
    assert t.commands == s.commands[1..] && t.replies[..|s.replies|] == s.replies;
    forall kind: Kind | StageOf(t, kind).Sent? || StageOf(t, kind).Answered?
      ensures StageOf(t, kind).n >= Oldest(t)
    {
      assert StageOf(s, kind).Sent? || StageOf(s, kind).Answered?;
    }
  }

  lemma StepKeepsQueued(s: State, step: Step, b: Bounds)
    requires Tracks(s) && Queued(s) && Enabled(s, step, b) && (step.ServerTakes? ==> step.i == 0)
    ensures Queued(After(s, step, b))
  {
    match step
    case ClientTakes => ClientTakesKeepsQueued(s, b);
    case TakeFetched => TakeFetchedKeepsQueued(s);
    case ServerTakes(_, refused, expiry) => ServerTakesKeepsQueued(s, refused, expiry, b);
    case _ =>
      hide Queued, NthId, DueTracked, ResultsTracked, PendingTracked, CommandsTracked, RepliesTracked;
      QueuedKept(s, After(s, step, b));
  }

  lemma {:induction false} QueuedReusesNothing(s: State, steps: seq<Step>, b: Bounds)
    requires Inv(s, b) && Queued(s) && InOrder(steps)
    ensures NoIdReused(s, steps, b)
    decreases |steps|
  {
    hide After, Enabled, Timely, DueTracked, ResultsTracked, PendingTracked, CommandsTracked, RepliesTracked, Queued;
    if steps != [] {
      if Enabled(s, steps[0], b) {
        QueuedTakesFree(s);
        StepKeepsInv(s, steps[0], b);
        StepKeepsQueued(s, steps[0], b);
        QueuedReusesNothing(After(s, steps[0], b), steps[1..], b);
      } else {
        QueuedReusesNothing(s, steps[1..], b);
      }
    }
  }

  /** While the server answers commands in the order they were sent, no run of any length reuses an ID. */
  lemma InOrderReusesNothing(h: Handshake, steps: seq<Step>, b: Bounds)
    requires InBounds(h, b) && InOrder(steps)
    ensures NoIdReused(Begun(h, b), steps, b)
  {
    hide Inv;
    BegunIsInOrder(h, b);
    QueuedReusesNothing(Begun(h, b), steps, b);
  }

  lemma BegunIsInOrder(h: Handshake, b: Bounds)
    requires InBounds(h, b)
    ensures Inv(Begun(h, b), b)
  {
    hide NthId;
    assert NthId(0) == FIRST_ID by {
      NthIdIs(0);
    }
    if h.connectExpiry.Some? {
      assert b.unit * h.connectExpiry.value >= 0;
    }
    if h.subscribeExpiry.Some? {
      assert b.unit * h.subscribeExpiry.value >= 0;
    }
  }

  // ----- what holds of every run -----

  function ResultsOf(s: State, kind: Kind): set<nat> {
    set i: nat | i < |s.results| && s.results[i].kind == kind
  }

  function One(holds: bool): nat {
    if holds then 1 else 0
  }

  lemma AtMostOne<T>(items: set<T>)
    requires forall a, b | a in items && b in items :: a == b
    ensures |items| <= 1
  {
    if a :| a in items {
      assert items == {a};
    }
  }

  function PendingOf(s: State, kind: Kind): set<u32> {
    set id | id in s.renewer.pending && s.renewer.pending[id] == kind
  }

  /** On the client's books no token is in two places. */
  ghost predicate Placed(s: State) {
    PlacedIn(s.renewer, s.fetching, s.results)
  }

  ghost predicate PlacedIn(r: Renewer, fetching: set<Kind>, results: seq<Fetched>) {
    && r.due.Keys !! fetching
    && (forall i | 0 <= i < |results| :: results[i].kind !in r.due && results[i].kind !in fetching)
    && (forall i, j | 0 <= i < j < |results| :: results[i].kind != results[j].kind)
    && (forall id | id in r.pending :: NotElsewhere(r, fetching, results, r.pending[id]))
    && (forall id, other | id in r.pending && other in r.pending && id != other :: r.pending[id] != r.pending[other])
  }

  ghost predicate NotElsewhere(r: Renewer, fetching: set<Kind>, results: seq<Fetched>, kind: Kind) {
    kind !in r.due && kind !in fetching && forall i | 0 <= i < |results| :: results[i].kind != kind
  }

  lemma CommandKeepsPlaced(r: Renewer, fetching: set<Kind>, results: seq<Fetched>)
    requires PlacedIn(r, fetching, results) && results != []
    ensures PlacedIn(r, fetching, results[1..])
    ensures PlacedIn(Commanded(r, results[0].kind), fetching, results[1..])
  {
    hide IdAfter;
    assert forall i | 0 <= i < |results| - 1 :: results[1..][i] == results[i + 1];
  }

  lemma ReplyKeepsPlaced(
      r: Renewer, fetching: set<Kind>, results: seq<Fetched>,
      id: u32, refused: bool, expiry: Option<u32>, now: Instant, unit: nat)
    requires PlacedIn(r, fetching, results)
    ensures PlacedIn(Replied(r, id, refused, expiry, now, unit), fetching, results)
  {
    if id in r.pending {
      assert NotElsewhere(r, fetching, results, r.pending[id]);
    }
  }

  lemma FetchKeepsPlaced(r: Renewer, fetching: set<Kind>, results: seq<Fetched>, kind: Kind, ok: bool)
    requires PlacedIn(r, fetching, results) && kind in fetching
    ensures PlacedIn(r, fetching - {kind}, results + [Fetched(kind, ok)])
  {
    forall id | id in r.pending
      ensures NotElsewhere(r, fetching - {kind}, results + [Fetched(kind, ok)], r.pending[id])
    {
      assert NotElsewhere(r, fetching, results, r.pending[id]);
    }
  }

  lemma StartKeepsPlaced(r: Renewer, fetching: set<Kind>, results: seq<Fetched>, now: Instant)
    requires PlacedIn(r, fetching, results)
    ensures PlacedIn(Renewal.Started(r, now), fetching + DueKinds(r, now), results)
  {
  }

  lemma ClientTakesKeepsPlaced(s: State, b: Bounds)
    requires Placed(s) && s.replies != []
    ensures Placed(AfterClientTakes(s, b))
  {
    hide PlacedIn, Replied, NthId, StageOf, StageFrom;
    var Reply(n, _, refused, expiry) := s.replies[0];
    ReplyKeepsPlaced(s.renewer, s.fetching, s.results, NthId(n), refused, expiry, s.now, b.unit);
  }

  lemma StepKeepsPlaced(s: State, step: Step, b: Bounds)
    requires Placed(s) && Enabled(s, step, b)
    ensures Placed(After(s, step, b))
  {
    hide InTime, WithDeadline, NthId, StageOf, StageFrom, Begins;
    match step
    case TakeFetched =>
      CommandKeepsPlaced(s.renewer, s.fetching, s.results);
      hide PlacedIn, Commanded;
    case ClientTakes => ClientTakesKeepsPlaced(s, b);
    case FetchDone(kind, ok) =>
      FetchKeepsPlaced(s.renewer, s.fetching, s.results, kind, ok);
      hide PlacedIn;
    case StartDue =>
      StartKeepsPlaced(s.renewer, s.fetching, s.results, s.now);
      hide PlacedIn, Renewal.Started, DueKinds;
    case _ => hide PlacedIn;
  }

  lemma {:induction false} RunKeepsPlaced(s: State, steps: seq<Step>, b: Bounds)
    requires Placed(s)
    ensures Placed(Run(s, steps, b))
    decreases |steps|
  {
    hide Placed, After, Enabled;
    if steps != [] {
      if Enabled(s, steps[0], b) {
        StepKeepsPlaced(s, steps[0], b);
        RunKeepsPlaced(After(s, steps[0], b), steps[1..], b);
      } else {
        RunKeepsPlaced(s, steps[1..], b);
      }
    }
  }

  /**
   In every run, whatever the server does, each token is in at most one place on the client's
   books: scheduled, being fetched, fetched and waiting, or in one command that awaits its reply.
   */
  lemma OnePlacePerToken(h: Handshake, steps: seq<Step>, b: Bounds, kind: Kind)
    ensures var s := Run(Begun(h, b), steps, b);
            One(kind in s.renewer.due) + One(kind in s.fetching) + |ResultsOf(s, kind)| + |PendingOf(s, kind)| <= 1
  {
    RunKeepsPlaced(Begun(h, b), steps, b);
    hide Run, Begun;
    var s := Run(Begun(h, b), steps, b);
    AtMostOne(ResultsOf(s, kind));
    AtMostOne(PendingOf(s, kind));
  }

  predicate CanExpire(s: State, kind: Kind) {
    kind in s.deadlines && s.deadlines[kind] <= s.now
  }

  /**
   When a reply's way and the delay of a due renewal together stay below the
   server's grace, no token expires unless its fetch failed or the server refused it.
   */
  lemma NoTokenExpires(h: Handshake, steps: seq<Step>, b: Bounds, kind: Kind)
    requires InBounds(h, b) && b.latency + b.delay < b.grace
    requires NoIdReused(Begun(h, b), steps, b)
    ensures var s := Run(Begun(h, b), steps, b);
            CanExpire(s, kind) ==> Failed(StageOf(s, kind))
  {
    hide Run, Begun, Tracks, NthId, NoIdReused;
    BegunIsInOrder(h, b);
    RunKeepsInv(Begun(h, b), steps, b);
    var s := Run(Begun(h, b), steps, b);
    assert Timely(s, kind, b);
    if StageOf(s, kind).Answered? && StageOf(s, kind).expiry.Some? {
      assert b.unit * StageOf(s, kind).expiry.value >= 0;
    }
  }

  /** While no ID is reused, the client takes each reply to a renewal for just that. */
  lemma EveryReplyIsHeard(h: Handshake, steps: seq<Step>, b: Bounds, kind: Kind)
    requires InBounds(h, b) && NoIdReused(Begun(h, b), steps, b)
    ensures !StageOf(Run(Begun(h, b), steps, b), kind).Unheard?
  {
    hide Run, Begun, Tracks, NthId, NoIdReused;
    BegunIsInOrder(h, b);
    RunKeepsInv(Begun(h, b), steps, b);
    assert Timely(Run(Begun(h, b), steps, b), kind, b);
  }

  /** The bound is exact: at or beyond the grace, some run within the bounds lets a token expire that nobody refused. */
  lemma GraceIsNeeded(b: Bounds) returns (h: Handshake, steps: seq<Step>)
    requires b.latency + b.delay >= b.grace
    ensures InBounds(h, b) && NoIdReused(Begun(h, b), steps, b)
    ensures CanExpire(Run(Begun(h, b), steps, b), Connection)
    ensures !Failed(StageOf(Run(Begun(h, b), steps, b), Connection))
  {
    h := Handshake(0, b.latency, Some(1), b.latency, b.latency, None);
    var wait := Tick(b.unit + b.delay);
    steps := [wait];
    var s := Begun(h, b);
    assert b.unit * 1 == b.unit;
    assert Enabled(s, wait, b);
    var t := After(s, wait, b);
    assert steps[1..] == [];
    assert Run(t, [], b) == t;
  }

  // ----- a reused ID -----

  lemma {:induction false} RunOfBoth(s: State, first: seq<Step>, second: seq<Step>, b: Bounds)
    ensures Run(s, first + second, b) == Run(Run(s, first, b), second, b)
    decreases |first|
  {
    hide After, Enabled;
    if first == [] {
      assert first + second == second;
    } else {
      assert (first + second)[1..] == first[1..] + second;
      RunOfBoth(if Enabled(s, first[0], b) then After(s, first[0], b) else s, first[1..], second, b);
    }
  }

  function Next(s: State, step: Step, b: Bounds): State {
    if Enabled(s, step, b) then After(s, step, b) else s
  }

  lemma OneStep(s: State, steps: seq<Step>, k: nat, b: Bounds)
    requires k < |steps|
    ensures Run(s, steps[k..], b) == Run(Next(s, steps[k], b), steps[k + 1..], b)
  {
    hide Enabled, After;
    assert steps[k..][0] == steps[k] && steps[k..][1..] == steps[k + 1..];
  }

  lemma FiveSteps(s: State, steps: seq<Step>, b: Bounds)
    requires |steps| == 5
    ensures Run(s, steps, b)
         == Next(Next(Next(Next(Next(s, steps[0], b), steps[1], b), steps[2], b), steps[3], b), steps[4], b)
  {
    hide Next;
    assert steps[0..] == steps && steps[5..] == [];
    OneStep(s, steps, 0, b);
    var s1 := Next(s, steps[0], b);
    OneStep(s1, steps, 1, b);
    var s2 := Next(s1, steps[1], b);
    OneStep(s2, steps, 2, b);
    var s3 := Next(s2, steps[2], b);
    OneStep(s3, steps, 3, b);
    var s4 := Next(s3, steps[3], b);
    OneStep(s4, steps, 4, b);
  }

  /** Both tokens are granted a TTL of 0 at once. */
  const BRISK := Handshake(0, 0, Some(0), 0, 0, Some(0))

  const OPENING := [StartDue, FetchDone(Connection, true), TakeFetched]

  /** The subscription token is renewed, its command answered before the connection's. */
  const ROUND := [FetchDone(Subscription, true), TakeFetched, ServerTakes(1, false, Some(0)), ClientTakes, StartDue]

  function Rounds(k: nat): seq<Step> {
    if k == 0 then [] else Rounds(k - 1) + ROUND
  }

  /** The connection's command is unanswered after `k` rounds. */
  function AfterRounds(k: nat, b: Bounds): State {
    State(
      0, Renewer(map[], map[FIRST_ID := Connection], NthId(k + 1)), {Subscription}, [],
      [Command(0, Connection)], [], map[Connection := b.grace, Subscription := b.grace], k + 1,
      Sent(0, 0), Fetching(0))
  }

  lemma OpeningLeads(b: Bounds)
    ensures InBounds(BRISK, b) && Run(Begun(BRISK, b), OPENING, b) == AfterRounds(0, b)
  {
    var s := Begun(BRISK, b);
    assert b.unit * 0 == 0;
    var s1 := After(s, StartDue, b);
    assert DueKinds(s.renewer, 0) == {Connection, Subscription};
    assert s1.renewer.due == map[];
    var s2 := After(s1, FetchDone(Connection, true), b);
    var s3 := After(s2, TakeFetched, b);
    assert s3.results == [];
  }

  /** The subscription's next command is sent. */
  function RoundSent(k: nat, b: Bounds): State {
    AfterRounds(k, b).(
      renewer := Renewer(map[], map[FIRST_ID := Connection][NthId(k + 1) := Subscription], NthId(k + 2)),
      fetching := {}, commands := [Command(0, Connection), Command(k + 1, Subscription)], issued := k + 2,
      subscription := Sent(0, k + 1))
  }

  lemma RoundIsSent(k: nat, b: Bounds)
    ensures Next(Next(AfterRounds(k, b), FetchDone(Subscription, true), b), TakeFetched, b) == RoundSent(k, b)
  {
    NextIdAfter(AfterRounds(k, b));
    hide NthId, IdAfter;
    var t := Next(AfterRounds(k, b), FetchDone(Subscription, true), b);
    assert t.fetching == {} && t.results == [Fetched(Subscription, true)];
    assert t.results[1..] == [];
  }

  /** The subscription's command is answered first, and the answer taken. */
  function RoundAnswered(k: nat, expiry: Option<u32>, b: Bounds): State {
    var deadlines := map[Connection := b.grace];
    RoundSent(k, b).(
      renewer := Renewer(
        if expiry.Some? then map[Subscription := b.unit * expiry.value] else map[],
        map[FIRST_ID := Connection] - {NthId(k + 1)}, NthId(k + 2)),
      commands := [Command(0, Connection)],
      deadlines := if expiry.Some? then deadlines[Subscription := b.unit * expiry.value + b.grace] else deadlines,
      subscription := StageFrom(0, expiry, b))
  }

  lemma RoundIsAnswered(k: nat, expiry: Option<u32>, b: Bounds)
    ensures Next(Next(RoundSent(k, b), ServerTakes(1, false, expiry), b), ClientTakes, b)
         == RoundAnswered(k, expiry, b)
  {
    hide NthId;
    var s := RoundSent(k, b);
    var t := Next(s, ServerTakes(1, false, expiry), b);
    assert s.commands[..1] + s.commands[2..] == [Command(0, Connection)];
    assert t.commands == [Command(0, Connection)] && t.replies == [Reply(k + 1, Subscription, false, expiry)];
    assert t.subscription == Answered(0, k + 1, false, expiry);
    assert WithDeadline(s.deadlines, Subscription, 0, expiry, b) == RoundAnswered(k, expiry, b).deadlines;
    assert map[FIRST_ID := Connection][NthId(k + 1) := Subscription] - {NthId(k + 1)}
        == map[FIRST_ID := Connection] - {NthId(k + 1)};
  }

  lemma RoundBeginsAnew(k: nat, b: Bounds)
    requires k + 1 < PERIOD
    ensures Next(RoundAnswered(k, Some(0), b), StartDue, b) == AfterRounds(k + 1, b)
  {
    IdsAreDistinct(0, k + 1);
    hide NthId;
    assert b.unit * 0 == 0;
    assert map[FIRST_ID := Connection] - {NthId(k + 1)} == map[FIRST_ID := Connection];
    assert DueKinds(Renewer(map[Subscription := 0], map[FIRST_ID := Connection], NthId(k + 2)), 0) == {Subscription};
    assert map[Subscription := 0] - {Subscription} == map[];
  }

  lemma RoundLeads(k: nat, b: Bounds)
    requires k + 1 < PERIOD
    ensures Run(AfterRounds(k, b), ROUND, b) == AfterRounds(k + 1, b)
  {
    hide Next, AfterRounds, RoundSent, RoundAnswered, Run;
    RoundIsSent(k, b);
    RoundIsAnswered(k, Some(0), b);
    RoundBeginsAnew(k, b);
    FiveSteps(AfterRounds(k, b), ROUND, b);
  }

  lemma {:induction false} RoundsLead(k: nat, b: Bounds)
    requires k < PERIOD
    ensures Run(AfterRounds(0, b), Rounds(k), b) == AfterRounds(k, b)
  {
    hide AfterRounds, ROUND;
    if k > 0 {
      RoundsLead(k - 1, b);
      RunOfBoth(AfterRounds(0, b), Rounds(k - 1), ROUND, b);
      RoundLeads(k - 1, b);
    }
  }

  /** The subscription's last command takes the connection's ID; both are answered, and time passes. */
  function Closing(b: Bounds): seq<Step> {
    [FetchDone(Subscription, true), TakeFetched, ServerTakes(1, false, None), ClientTakes,
     ServerTakes(0, false, Some(0))]
  }

  function Ending(b: Bounds): seq<Step> {
    [ClientTakes, Tick(b.grace)]
  }

  lemma ConnectionGoesUnheard(b: Bounds)
    ensures var t := Next(Next(RoundAnswered(PERIOD - 1, None, b), ServerTakes(0, false, Some(0)), b), ClientTakes, b);
            && t.connection == Unheard && t.subscription == Idle && t.now == 0
            && t.deadlines == map[Connection := b.grace] && t.issued == PERIOD + 1
  {
    IdsAreDistinct(0, PERIOD);
    assert NthId(0) == FIRST_ID && NthId(PERIOD) == FIRST_ID;
    hide NthId;
    var s := RoundAnswered(PERIOD - 1, None, b);
    assert b.unit * 0 == 0;
    assert s.renewer.pending == map[];
    var t := Next(s, ServerTakes(0, false, Some(0)), b);
    assert t.replies == [Reply(0, Connection, false, Some(0))];
    assert t.deadlines == map[Connection := b.grace];
  }

  function LongRun(b: Bounds): seq<Step> {
    OPENING + (Rounds(PERIOD - 1) + (Closing(b) + Ending(b)))
  }

  lemma ClosingLeads(b: Bounds)
    ensures var t := Run(AfterRounds(PERIOD - 1, b), Closing(b) + Ending(b), b);
            && t.connection == Unheard && t.now == b.grace
            && t.deadlines == map[Connection := b.grace] && t.issued == PERIOD + 1
  {
    RoundIsSent(PERIOD - 1, b);
    RoundIsAnswered(PERIOD - 1, None, b);
    ConnectionGoesUnheard(b);
    var s := AfterRounds(PERIOD - 1, b);
    hide AfterRounds, RoundSent, RoundAnswered, NthId;
    RunOfBoth(s, Closing(b), Ending(b), b);
    FiveSteps(s, Closing(b), b);
    var t := Run(s, Closing(b), b);
    assert Ending(b)[0..] == Ending(b) && Ending(b)[2..] == [];
    OneStep(t, Ending(b), 0, b);
    OneStep(Next(t, ClientTakes, b), Ending(b), 1, b);
    hide AfterClientTakes, AfterTakeFetched, AfterServerTakes, AfterFetchDone, Run;
  }

  /**
   Answered out of order, the first command that can reuse an ID does: after 2^32 - 3 commands
   the client misses the answer to one of them, and a token that was
   neither refused nor failed to fetch expires. The steps are all within any bounds.
   */
  lemma ReusedIdLosesAToken(b: Bounds) returns (h: Handshake, steps: seq<Step>)
    ensures InBounds(h, b) && !NoIdReused(Begun(h, b), steps, b)
    ensures var s := Run(Begun(h, b), steps, b);
            s.issued == PERIOD + 1 && CanExpire(s, Connection) && !Failed(StageOf(s, Connection))
  {
    h, steps := BRISK, LongRun(b);
    var s := Begun(h, b);
    OpeningLeads(b);
    RoundsLead(PERIOD - 1, b);
    ClosingLeads(b);
    hide Begun, AfterRounds, OPENING, Rounds, Closing, Ending, InBounds;
    RunOfBoth(s, OPENING, Rounds(PERIOD - 1) + (Closing(b) + Ending(b)), b);
    RunOfBoth(AfterRounds(0, b), Rounds(PERIOD - 1), Closing(b) + Ending(b), b);
    hide Run, LongRun, NoIdReused;
    if NoIdReused(s, steps, b) {
      EveryReplyIsHeard(h, steps, b, Connection);
    }
  }
}
