/** handleDial's remote branch in cmd/gui/handlers.go: the trunk preparation of TrunkCodec and the call session of
    CallSession at work together on one connected pair. A handler prepares the trunks, adds its batch to the
    pair's session, and lets the pair go again when the batch is over, or at once if it started nothing. */
module RemoteDial {
  import CS = CallSession
  import CSS = CallSessionSafety
  import CSR = CallSessionRuns
  import TC = TrunkCodec

  /** What became of a ticket: it is another pair's, or its handler has just prepared it, or its batch runs in
      the session, or it started no calls. */
  datatype Use = Elsewhere | Prepared | Bound(b: nat) | Unused

  /** `made` gives each batch of the session its ticket. */
  datatype State = State(session: CS.State, trunk: TC.State, uses: seq<Use>, made: seq<nat>)

  datatype Step =
    | Prepare(codec: string, luck: (TC.Luck, TC.Luck))
    | Start(t: nat, n: nat, callers: seq<string>, callees: seq<string>, sendMedia: bool)
    | LetGo(t: nat)
    | InSession(step: CS.Step)
    | PrepareElsewhere(q: TC.Pair, codec: string, luck: (TC.Luck, TC.Luck))
    | LetGoElsewhere(t: nat)

  function Reserving(s: State, step: Step): CS.Step
    requires step.Start? && step.t < |s.trunk.tickets|
  {
    var codec := s.trunk.tickets[step.t].codec;
    CS.Reserve(step.n, step.callers, step.callees, codec, codec, step.sendMedia)
  }

  ghost predicate Enabled(net: TC.Net, p: TC.Pair, s: State, step: Step) {
    |s.uses| == |s.trunk.tickets| &&
    match step
    case Prepare(_, _) => true
    case Start(t, _, _, _, _) => t < |s.uses| && s.uses[t].Prepared? && CS.Enabled(s.session, Reserving(s, step))
    case LetGo(t) =>
      t < |s.uses| && !s.trunk.tickets[t].released &&
      (s.uses[t].Unused? ||
       (s.uses[t].Bound? && s.uses[t].b < |s.session.batches| && s.session.batches[s.uses[t].b].deliveries != []))
    case InSession(step) => !step.Reserve? && CS.Enabled(s.session, step)
    case PrepareElsewhere(q, codec, _) => q != p && TC.Harmless(net, s.trunk, p, q, codec)
    case LetGoElsewhere(t) => t < |s.uses| && s.uses[t].Elsewhere?
  }

  function AfterPrepare(net: TC.Net, s: State, q: TC.Pair, codec: string, luck: (TC.Luck, TC.Luck), use: Use): State {
    var prepared := TC.Prepare(net, s.trunk, q, codec, luck);
    s.(trunk := prepared.s, uses := if prepared.granted then s.uses + [use] else s.uses)
  }

  ghost function Next(net: TC.Net, p: TC.Pair, s: State, step: Step): State
    requires Enabled(net, p, s, step)
  {
    match step
    case Prepare(codec, luck) => AfterPrepare(net, s, p, codec, luck, Prepared)
    case Start(t, _, _, _, _) =>
      var next := CS.Next(s.session, Reserving(s, step));
      if |next.batches| == |s.session.batches| then s.(session := next, uses := s.uses[t := Unused])
      else s.(session := next, uses := s.uses[t := Bound(|s.session.batches|)], made := s.made + [t])
    case LetGo(t) => s.(trunk := TC.Release(s.trunk, t))
    case InSession(step) => s.(session := CS.Next(s.session, step))
    case PrepareElsewhere(q, codec, luck) => AfterPrepare(net, s, q, codec, luck, Elsewhere)
    case LetGoElsewhere(t) => s.(trunk := TC.Release(s.trunk, t))
  }

  // ---------------------------------------------------------------------------------------------
  // What every step keeps
  // ---------------------------------------------------------------------------------------------

  ghost predicate UseFits(p: TC.Pair, batches: seq<CS.Batch>, k: TC.Ticket, use: Use) {
    match use
    case Elsewhere => k.pair != p
    case Prepared => k.pair == p && !k.released
    case Unused => k.pair == p
    case Bound(b) => k.pair == p && b < |batches| && (k.released ==> batches[b].deliveries != [])
  }

  ghost predicate CallFits(tickets: seq<TC.Ticket>, made: seq<nat>, job: CS.Job) {
    && job.batch < |made| && made[job.batch] < |tickets|
    && job.codec == job.calleeCodec == tickets[made[job.batch]].codec
  }

  ghost predicate Linked(p: TC.Pair, session: CS.State, tickets: seq<TC.Ticket>, uses: seq<Use>, made: seq<nat>) {
    && |uses| == |tickets| && |made| == |session.batches|
    && (forall t | 0 <= t < |uses| :: UseFits(p, session.batches, tickets[t], uses[t]))
    && (forall b | 0 <= b < |made| :: made[b] < |uses| && uses[made[b]] == Bound(b))
    && (forall i | 0 <= i < |session.tasks| :: CallFits(tickets, made, session.tasks[i].job))
  }

  ghost predicate LinkedIn(p: TC.Pair, s: State) { Linked(p, s.session, s.trunk.tickets, s.uses, s.made) }

  ghost predicate Inv(net: TC.Net, p: TC.Pair, s: State) {
    && CSS.Inv(s.session) && TC.Inv(net, s.trunk) && TC.OrderHeld(net, s.trunk, p) && LinkedIn(p, s)
  }

  // ---------------------------------------------------------------------------------------------
  // Each step keeps it
  // ---------------------------------------------------------------------------------------------

  lemma {:induction false} LinkedTicket(
    p: TC.Pair, session: CS.State, tickets: seq<TC.Ticket>, uses: seq<Use>, made: seq<nat>, k: TC.Ticket, use: Use)
    requires Linked(p, session, tickets, uses, made) && UseFits(p, session.batches, k, use)
    ensures Linked(p, session, tickets + [k], uses + [use], made)
  {
    forall i | 0 <= i < |session.tasks| ensures CallFits(tickets + [k], made, session.tasks[i].job) {
      assert CallFits(tickets, made, session.tasks[i].job);
    }
  }

  lemma {:induction false} LinkedRelease(
    p: TC.Pair, session: CS.State, tickets: seq<TC.Ticket>, uses: seq<Use>, made: seq<nat>, t: nat)
    requires Linked(p, session, tickets, uses, made) && t < |tickets|
    requires UseFits(p, session.batches, tickets[t].(released := true), uses[t])
    ensures Linked(p, session, tickets[t := tickets[t].(released := true)], uses, made)
  {
    var after := tickets[t := tickets[t].(released := true)];
    forall i | 0 <= i < |session.tasks| ensures CallFits(after, made, session.tasks[i].job) {
      assert CallFits(tickets, made, session.tasks[i].job);
    }
    forall u | 0 <= u < |uses| ensures UseFits(p, session.batches, after[u], uses[u]) {
      assert UseFits(p, session.batches, tickets[u], uses[u]);
    }
  }

  /** What a session step other than a reservation leaves alone. */
  ghost predicate SessionGoesOn(was: CS.State, now: CS.State) {
    && |now.batches| == |was.batches| && |now.tasks| == |was.tasks|
    && (forall b | 0 <= b < |was.batches| && was.batches[b].deliveries != [] :: now.batches[b].deliveries != [])
    && (forall i | 0 <= i < |was.tasks| :: now.tasks[i].job == was.tasks[i].job)
  }

  lemma {:induction false} StepGoesOn(s: CS.State, step: CS.Step)
    requires CS.Enabled(s, step) && !step.Reserve?
    ensures SessionGoesOn(s, CS.Next(s, step))
  {}

  lemma {:induction false} LinkedGoesOn(
    p: TC.Pair, was: CS.State, now: CS.State, tickets: seq<TC.Ticket>, uses: seq<Use>, made: seq<nat>)
    requires Linked(p, was, tickets, uses, made) && SessionGoesOn(was, now)
    ensures Linked(p, now, tickets, uses, made)
  {
    forall t | 0 <= t < |uses| ensures UseFits(p, now.batches, tickets[t], uses[t]) {
      assert UseFits(p, was.batches, tickets[t], uses[t]);
    }
    forall i | 0 <= i < |now.tasks| ensures CallFits(tickets, made, now.tasks[i].job) {
      assert CallFits(tickets, made, was.tasks[i].job);
    }
  }

  /** What a reservation that made a batch did. */
  ghost predicate OneMore(was: CS.State, now: CS.State, codec: string) {
    && |now.batches| == |was.batches| + 1 && was.batches <= now.batches
    && |now.tasks| >= |was.tasks|
    && (forall i | 0 <= i < |was.tasks| :: now.tasks[i].job == was.tasks[i].job)
    && (forall i | |was.tasks| <= i < |now.tasks| ::
          now.tasks[i].job.batch == |was.batches| && now.tasks[i].job.codec == now.tasks[i].job.calleeCodec == codec)
  }

  lemma {:induction false} ReserveMakes(s: CS.State, step: CS.Step)
    requires CS.Enabled(s, step) && step.Reserve? && step.codec == step.calleeCodec
    ensures var t := CS.Next(s, step); t == s || OneMore(s, t, step.codec)
  {
    var pairs := CS.Pairs(s.pools.local, step.n, step.callers, step.callees);
    var more := CS.NewTasks(|s.batches|, pairs, step.codec, step.calleeCodec, step.sendMedia);
    assert forall i | 0 <= i < |more| :: more[i].job.batch == |s.batches| && more[i].job.codec == step.codec;
  }

  lemma {:induction false} LinkedStart(
    p: TC.Pair, was: CS.State, now: CS.State, tickets: seq<TC.Ticket>, uses: seq<Use>, made: seq<nat>, t: nat)
    requires Linked(p, was, tickets, uses, made) && t < |uses| && uses[t].Prepared?
    requires OneMore(was, now, tickets[t].codec)
    ensures Linked(p, now, tickets, uses[t := Bound(|was.batches|)], made + [t])
  {
    var next, more := uses[t := Bound(|was.batches|)], made + [t];
    forall u | 0 <= u < |next| ensures UseFits(p, now.batches, tickets[u], next[u]) {
      assert UseFits(p, was.batches, tickets[u], uses[u]);
    }
    forall i | 0 <= i < |now.tasks| ensures CallFits(tickets, more, now.tasks[i].job) {
      assert i < |was.tasks| ==> CallFits(tickets, made, was.tasks[i].job);
    }
  }

  lemma {:induction false} LinkedUnused(
    p: TC.Pair, session: CS.State, tickets: seq<TC.Ticket>, uses: seq<Use>, made: seq<nat>, t: nat)
    requires Linked(p, session, tickets, uses, made) && t < |uses| && uses[t].Prepared?
    ensures Linked(p, session, tickets, uses[t := Unused], made)
  {
    var next := uses[t := Unused];
    forall u | 0 <= u < |next| ensures UseFits(p, session.batches, tickets[u], next[u]) {
      assert UseFits(p, session.batches, tickets[u], uses[u]);
    }
  }

  lemma {:induction false} LinkedPrepare(
    net: TC.Net, p: TC.Pair, s: State, q: TC.Pair, codec: string, luck: (TC.Luck, TC.Luck), use: Use)
    requires LinkedIn(p, s) && (if q == p then use.Prepared? else use.Elsewhere?)
    ensures LinkedIn(p, AfterPrepare(net, s, q, codec, luck, use))
  {
    LinkedTicket(p, s.session, s.trunk.tickets, s.uses, s.made, TC.Ticket(q, codec, false), use);
  }

  lemma {:induction false} LinkedLetGo(p: TC.Pair, s: State, t: nat)
    requires LinkedIn(p, s) && t < |s.trunk.tickets|
    requires UseFits(p, s.session.batches, s.trunk.tickets[t].(released := true), s.uses[t])
    ensures LinkedIn(p, s.(trunk := TC.Release(s.trunk, t)))
  {
    LinkedRelease(p, s.session, s.trunk.tickets, s.uses, s.made, t);
    assert s.trunk.tickets[t].released ==> s.trunk.tickets[t := s.trunk.tickets[t]] == s.trunk.tickets;
  }

  lemma {:induction false} LinkedStep(net: TC.Net, p: TC.Pair, s: State, step: Step)
    requires LinkedIn(p, s) && Enabled(net, p, s, step)
    ensures LinkedIn(p, Next(net, p, s, step))
  {
    match step {
      case Prepare(codec, luck) => LinkedPrepare(net, p, s, p, codec, luck, Prepared);
      case PrepareElsewhere(q, codec, luck) => LinkedPrepare(net, p, s, q, codec, luck, Elsewhere);
      case Start(t, _, _, _, _) =>
        var next := CS.Next(s.session, Reserving(s, step));
        ReserveMakes(s.session, Reserving(s, step));
        if next == s.session {
          LinkedUnused(p, s.session, s.trunk.tickets, s.uses, s.made, t);
        } else {
          LinkedStart(p, s.session, next, s.trunk.tickets, s.uses, s.made, t);
        }
      case LetGo(t) => LinkedLetGo(p, s, t);
      case LetGoElsewhere(t) => LinkedLetGo(p, s, t);
      case InSession(inner) =>
        StepGoesOn(s.session, inner);
        LinkedGoesOn(p, s.session, CS.Next(s.session, inner), s.trunk.tickets, s.uses, s.made);
    }
  }

  lemma {:induction false} TrunkStep(net: TC.Net, p: TC.Pair, s: State, step: Step)
    requires TC.Inv(net, s.trunk) && TC.OrderHeld(net, s.trunk, p) && Enabled(net, p, s, step)
    ensures var t := Next(net, p, s, step).trunk; TC.Inv(net, t) && TC.OrderHeld(net, t, p)
  {
    match step {
      case Prepare(codec, luck) =>
        TC.InvPrepare(net, s.trunk, p, codec, luck);
        TC.OwnPairKeeps(net, s.trunk, p, codec, luck);
      case PrepareElsewhere(q, codec, luck) =>
        TC.InvPrepare(net, s.trunk, q, codec, luck);
        if TC.Entry(s.trunk, p).running > 0 { TC.HarmlessKeeps(net, s.trunk, p, q, codec, luck); }
      case LetGo(t) =>
        TC.InvRelease(net, s.trunk, t);
        TC.ReleaseKeeps(net, s.trunk, t, p);
      case LetGoElsewhere(t) =>
        TC.InvRelease(net, s.trunk, t);
        TC.ReleaseKeeps(net, s.trunk, t, p);
      case Start(_, _, _, _, _) =>
      case InSession(_) =>
    }
  }

  lemma {:induction false} SessionStep(net: TC.Net, p: TC.Pair, s: State, step: Step)
    requires CSS.Inv(s.session) && Enabled(net, p, s, step)
    ensures CSS.Inv(Next(net, p, s, step).session)
  {
    match step {
      case Start(_, _, _, _, _) => CSS.InvStep(s.session, Reserving(s, step));
      case InSession(inner) => CSS.InvStep(s.session, inner);
      case _ =>
    }
  }

  lemma {:induction false} InvStep(net: TC.Net, p: TC.Pair, s: State, step: Step)
    requires Inv(net, p, s) && Enabled(net, p, s, step)
    ensures Inv(net, p, Next(net, p, s, step))
  {
    LinkedStep(net, p, s, step);
    TrunkStep(net, p, s, step);
    SessionStep(net, p, s, step);
  }

  // ---------------------------------------------------------------------------------------------
  // Main results, for every run
  // ---------------------------------------------------------------------------------------------

  /** A new session, trunks in any order, nothing prepared. */
  function Init(callers: set<string>, callees: set<string>, orders: map<string, seq<string>>): State {
    State(CS.Init(false, callers, callees), TC.State(map[], [], orders), [], [])
  }

  ghost predicate CanRun(net: TC.Net, p: TC.Pair, s: State, steps: seq<Step>)
    decreases |steps|
  {
    steps == [] || (Enabled(net, p, s, steps[0]) && CanRun(net, p, Next(net, p, s, steps[0]), steps[1..]))
  }

  ghost function Run(net: TC.Net, p: TC.Pair, s: State, steps: seq<Step>): State
    requires CanRun(net, p, s, steps)
    decreases |steps|
  {
    if steps == [] then s else Run(net, p, Next(net, p, s, steps[0]), steps[1..])
  }

  lemma {:induction false} InvRun(net: TC.Net, p: TC.Pair, s: State, steps: seq<Step>)
    requires Inv(net, p, s) && CanRun(net, p, s, steps)
    ensures Inv(net, p, Run(net, p, s, steps))
    decreases |steps|
  {
    if steps != [] {
      InvStep(net, p, s, steps[0]);
      InvRun(net, p, Next(net, p, s, steps[0]), steps[1..]);
    }
  }

  /** Every server with a trunk has an order for it. */
  ghost predicate Wired(net: TC.Net, orders: map<string, seq<string>>) {
    forall id | TC.Trunked(net, id) :: id in orders
  }

  ghost predicate Reaches(
    net: TC.Net, p: TC.Pair, callers: set<string>, callees: set<string>, orders: map<string, seq<string>>,
    steps: seq<Step>, s: State)
  {
    Wired(net, orders) && CanRun(net, p, Init(callers, callees, orders), steps) &&
    s == Run(net, p, Init(callers, callees, orders), steps)
  }

  lemma {:induction false} ReachableInv(
    net: TC.Net, p: TC.Pair, callers: set<string>, callees: set<string>, orders: map<string, seq<string>>,
    steps: seq<Step>, s: State)
    requires Reaches(net, p, callers, callees, orders, steps, s)
    ensures Inv(net, p, s)
  {
    CSS.InvInit(false, callers, callees);
    InvRun(net, p, Init(callers, callees, orders), steps);
  }

  /** As long as a call has not ended, whatever other batches, releases and harmless preparations of other pairs
      happen meanwhile, its pair counts its batch, and both trunks are in the order of its own codec. */
  lemma {:induction false} TrunksSuitEveryCall(
    net: TC.Net, p: TC.Pair, callers: set<string>, callees: set<string>, orders: map<string, seq<string>>,
    steps: seq<Step>, s: State, i: nat)
    requires Reaches(net, p, callers, callees, orders, steps, s)
    requires i < |s.session.tasks| && !s.session.tasks[i].at.Finished?
    ensures TC.Entry(s.trunk, p).running > 0 && TC.Entry(s.trunk, p).codec == s.session.tasks[i].job.codec
    ensures TC.InOrder(net, s.trunk, p.0, s.session.tasks[i].job.codec)
    ensures TC.InOrder(net, s.trunk, p.1, s.session.tasks[i].job.codec)
  {
    ReachableInv(net, p, callers, callees, orders, steps, s);
    CallKeepsTicket(p, s, i);
    var t := s.made[s.session.tasks[i].job.batch];
    assert TC.TicketFits(s.trunk, t);
    TC.OpenHas(s.trunk.tickets, t, p);
    assert TC.Entry(s.trunk, p).running == TC.Open(s.trunk.tickets, p);
  }

  lemma {:induction false} CallKeepsTicket(p: TC.Pair, s: State, i: nat)
    requires CSS.Inv(s.session) && LinkedIn(p, s)
    requires i < |s.session.tasks| && !s.session.tasks[i].at.Finished?
    ensures var job := s.session.tasks[i].job;
      && job.batch < |s.made| && s.made[job.batch] < |s.trunk.tickets|
      && s.trunk.tickets[s.made[job.batch]].pair == p && !s.trunk.tickets[s.made[job.batch]].released
      && s.trunk.tickets[s.made[job.batch]].codec == job.codec
  {
    var job := s.session.tasks[i].job;
    assert CallFits(s.trunk.tickets, s.made, job);
    var b, t := job.batch, s.made[job.batch];
    assert UseFits(p, s.session.batches, s.trunk.tickets[t], s.uses[t]);
    if s.session.batches[b].deliveries != [] { CSR.BatchDoneInv(s.session, b); }
  }

  /** No handler of the pair has anything left to do. */
  ghost predicate HandlersDone(net: TC.Net, p: TC.Pair, s: State) {
    forall t | 0 <= t < |s.uses| :: !s.uses[t].Prepared? && !Enabled(net, p, s, LetGo(t))
  }

  /** Every batch is let go: once the session is quiet and no handler has anything left to do, the pair runs
      nothing, so a batch of any codec is accepted again. */
  lemma {:induction false} AllLetGo(
    net: TC.Net, p: TC.Pair, callers: set<string>, callees: set<string>, orders: map<string, seq<string>>,
    steps: seq<Step>, s: State, codec: string)
    requires Reaches(net, p, callers, callees, orders, steps, s)
    requires CSR.Quiet(s.session) && HandlersDone(net, p, s)
    ensures TC.Entry(s.trunk, p).running == 0
    ensures TC.Refused(s.trunk, p, codec) <==> codec !in TC.CODECS
  {
    ReachableInv(net, p, callers, callees, orders, steps, s);
    forall t | 0 <= t < |s.trunk.tickets| && s.trunk.tickets[t].pair == p ensures s.trunk.tickets[t].released {
      assert UseFits(p, s.session.batches, s.trunk.tickets[t], s.uses[t]);
      assert !Enabled(net, p, s, LetGo(t));
    }
    TC.OpenNone(s.trunk.tickets, p);
    assert TC.Entry(s.trunk, p).running == TC.Open(s.trunk.tickets, p);
  }

  /** While the pair is held, something that has been started can go on: a handler, or the session itself. */
  lemma {:induction false} NeverHeldForNothing(net: TC.Net, p: TC.Pair, s: State) returns (t: nat)
    requires Inv(net, p, s) && TC.Entry(s.trunk, p).running > 0 && CSR.Quiet(s.session)
    ensures t < |s.uses| && (s.uses[t].Prepared? || Enabled(net, p, s, LetGo(t)))
  {
    assert TC.Entry(s.trunk, p).running == TC.Open(s.trunk.tickets, p);
    if forall u | 0 <= u < |s.trunk.tickets| && s.trunk.tickets[u].pair == p :: s.trunk.tickets[u].released {
      TC.OpenNone(s.trunk.tickets, p);
    }
    t :| 0 <= t < |s.trunk.tickets| && s.trunk.tickets[t].pair == p && !s.trunk.tickets[t].released;
    assert UseFits(p, s.session.batches, s.trunk.tickets[t], s.uses[t]);
  }

  // ---------------------------------------------------------------------------------------------
  // The pair drains
  // ---------------------------------------------------------------------------------------------

  lemma {:induction false} OrderOf(aors: set<string>) returns (order: seq<string>)
    ensures forall i, j :: 0 <= i < j < |order| ==> order[i] != order[j]
    ensures forall a :: a in order <==> a in aors
  {
    order := [];
    if aors != {} {
      var a :| a in aors;
      var rest := OrderOf(aors - {a});
      order := rest + [a];
    }
  }

  lemma {:induction false} FreeOrderExists(available: map<CS.Ext, bool>, answering: bool) returns (order: seq<string>)
    ensures CS.FreeOrder(available, answering, order)
  {
    order := OrderOf(set e | e in available && e.answering == answering && available[e] :: e.aor);
    forall a ensures a in order <==> CS.Ext(answering, a) in available && available[CS.Ext(answering, a)] {
      if CS.Ext(answering, a) in available && available[CS.Ext(answering, a)] {
        assert CS.Ext(answering, a).aor == a;
      }
    }
  }

  lemma {:induction false} FreeListsExist(pools: CS.Pools) returns (callers: seq<string>, callees: seq<string>)
    ensures CS.FreeLists(pools, callers, callees)
  {
    callers := FreeOrderExists(pools.available, false);
    callees := callers;
    if !pools.local { callees := FreeOrderExists(pools.available, true); }
  }

  /** What finishes what has been started: a handler that has prepared adds the calls it was asked for, the session
      goes on, or a handler lets its batch go. */
  predicate Finishing(step: Step, asked: nat -> nat) {
    match step
    case Start(t, n, _, _, _) => n == asked(t)
    case InSession(inner) => CSR.Finishing(inner)
    case LetGo(_) => true
    case _ => false
  }

  function CountPrepared(uses: seq<Use>): nat {
    if uses == [] then 0
    else CountPrepared(uses[..|uses| - 1]) + if uses[|uses| - 1].Prepared? then 1 else 0
  }

  lemma {:induction false} PreparedUsed(uses: seq<Use>, t: nat, use: Use)
    requires t < |uses| && uses[t].Prepared? && !use.Prepared?
    ensures CountPrepared(uses[t := use]) < CountPrepared(uses)
  {
    var n := |uses| - 1;
    var after := uses[t := use];
    if t == n {
      assert after[..n] == uses[..n];
    } else {
      assert after[..n] == uses[..n][t := use];
      PreparedUsed(uses[..n], t, use);
    }
  }

  /** Nothing is running and nothing is left to do. */
  ghost predicate Rests(p: TC.Pair, s: State) {
    && CSR.Quiet(s.session) && TC.Entry(s.trunk, p).running == 0
    && forall t | 0 <= t < |s.uses| :: !s.uses[t].Prepared?
  }

  /** Until it rests, a pair has a finishing step to make. */
  lemma {:induction false} Progress(net: TC.Net, p: TC.Pair, s: State, asked: nat -> nat) returns (step: Step)
    requires Inv(net, p, s) && !Rests(p, s)
    ensures Enabled(net, p, s, step) && Finishing(step, asked)
    ensures step.LetGo? ==> s.trunk.tickets[step.t].pair == p
  {
    if t :| 0 <= t < |s.uses| && s.uses[t].Prepared? {
      var callers, callees := FreeListsExist(s.session.pools);
      step := Start(t, asked(t), callers, callees, true);
    } else if !CSR.Quiet(s.session) {
      var inner := CSR.Progress(s.session);
      step := InSession(inner);
    } else {
      assert TC.Entry(s.trunk, p).running == TC.Open(s.trunk.tickets, p);
      var t := NeverHeldForNothing(net, p, s);
      assert UseFits(p, s.session.batches, s.trunk.tickets[t], s.uses[t]);
      step := LetGo(t);
    }
  }

  lemma {:induction false} StartShrinks(net: TC.Net, p: TC.Pair, s: State, step: Step)
    requires Enabled(net, p, s, step) && step.Start?
    ensures CountPrepared(Next(net, p, s, step).uses) < CountPrepared(s.uses)
  {
    PreparedUsed(s.uses, step.t, Unused);
    PreparedUsed(s.uses, step.t, Bound(|s.session.batches|));
  }

  lemma {:induction false} LetGoShrinks(s: State, p: TC.Pair, t: nat)
    requires t < |s.trunk.tickets| && !s.trunk.tickets[t].released && s.trunk.tickets[t].pair == p
    ensures TC.Open(TC.Release(s.trunk, t).tickets, p) < TC.Open(s.trunk.tickets, p)
  {
    TC.OpenUpdate(s.trunk.tickets, t, s.trunk.tickets[t].(released := true), p);
  }

  /** Handlers that have not started, then the session's work, then batches to let go. */
  ghost predicate Nearer(p: TC.Pair, t: State, s: State) {
    CountPrepared(t.uses) < CountPrepared(s.uses) ||
    (t.uses == s.uses &&
     (CSR.Work(t.session) < CSR.Work(s.session) ||
      (t.session == s.session && TC.Open(t.trunk.tickets, p) < TC.Open(s.trunk.tickets, p))))
  }

  lemma {:induction false} StepShrinks(net: TC.Net, p: TC.Pair, s: State, step: Step, asked: nat -> nat)
    requires Enabled(net, p, s, step) && Finishing(step, asked)
    requires step.LetGo? ==> s.trunk.tickets[step.t].pair == p
    ensures Nearer(p, Next(net, p, s, step), s)
  {
    match step {
      case Start(_, _, _, _, _) => StartShrinks(net, p, s, step);
      case InSession(inner) => CSR.WorkShrinks(s.session, inner);
      case LetGo(t) => LetGoShrinks(s, p, t);
    }
  }

  lemma {:induction false} DrainStep(net: TC.Net, p: TC.Pair, s: State, asked: nat -> nat) returns (step: Step)
    requires Inv(net, p, s) && !Rests(p, s)
    ensures Enabled(net, p, s, step) && Finishing(step, asked)
    ensures Inv(net, p, Next(net, p, s, step)) && Nearer(p, Next(net, p, s, step), s)
  {
    step := Progress(net, p, s, asked);
    InvStep(net, p, s, step);
    StepShrinks(net, p, s, step, asked);
  }

  /** The steps are finishing ones and lead to rest. */
  ghost predicate LeadsToRest(net: TC.Net, p: TC.Pair, s: State, steps: seq<Step>, asked: nat -> nat)
    decreases |steps|
  {
    if steps == [] then Rests(p, s)
    else
      Enabled(net, p, s, steps[0]) && Finishing(steps[0], asked) &&
      LeadsToRest(net, p, Next(net, p, s, steps[0]), steps[1..], asked)
  }

  lemma {:induction false} LeadingRuns(net: TC.Net, p: TC.Pair, s: State, steps: seq<Step>, asked: nat -> nat)
    requires LeadsToRest(net, p, s, steps, asked)
    ensures CanRun(net, p, s, steps) && Rests(p, Run(net, p, s, steps))
    ensures forall k | 0 <= k < |steps| :: Finishing(steps[k], asked)
    decreases |steps|
  {
    if steps != [] {
      LeadingRuns(net, p, Next(net, p, s, steps[0]), steps[1..], asked);
      assert forall k | 0 < k < |steps| :: steps[k] == steps[1..][k - 1];
    }
  }

  lemma {:induction false} LeadsOn(
    net: TC.Net, p: TC.Pair, s: State, step: Step, rest: seq<Step>, asked: nat -> nat)
    requires Enabled(net, p, s, step) && Finishing(step, asked)
    requires LeadsToRest(net, p, Next(net, p, s, step), rest, asked)
    ensures LeadsToRest(net, p, s, [step] + rest, asked)
  {
    assert ([step] + rest)[1..] == rest;
  }

  lemma {:induction false} LeadingSteps(net: TC.Net, p: TC.Pair, s: State, asked: nat -> nat) returns (steps: seq<Step>)
    requires Inv(net, p, s)
    ensures LeadsToRest(net, p, s, steps, asked)
    decreases CountPrepared(s.uses), CSR.Work(s.session), TC.Open(s.trunk.tickets, p)
  {
    if Rests(p, s) {
      steps := [];
    } else {
      var step := DrainStep(net, p, s, asked);
      var rest := LeadingSteps(net, p, Next(net, p, s, step), asked);
      LeadsOn(net, p, s, step, rest, asked);
      steps := [step] + rest;
    }
  }

  /** From every reachable state the finishing steps alone, however many calls the handlers were asked for, bring the
      session to rest and let the pair go. */
  lemma {:induction false} Drains(
    net: TC.Net, p: TC.Pair, callers: set<string>, callees: set<string>, orders: map<string, seq<string>>,
    before: seq<Step>, s: State, asked: nat -> nat)
    returns (steps: seq<Step>)
    requires Reaches(net, p, callers, callees, orders, before, s)
    ensures CanRun(net, p, s, steps) && forall k | 0 <= k < |steps| :: Finishing(steps[k], asked)
    ensures CSR.Quiet(Run(net, p, s, steps).session) && TC.Entry(Run(net, p, s, steps).trunk, p).running == 0
  {
    ReachableInv(net, p, callers, callees, orders, before, s);
    steps := LeadingSteps(net, p, s, asked);
    LeadingRuns(net, p, s, steps, asked);
  }
}
