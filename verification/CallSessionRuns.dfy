/** The promises of a call session over whole runs: every interleaving of batches, stops and cancellation. */
module CallSessionRuns {
  import opened MapSums
  import opened CallSession
  import opened CallSessionSafety

  // ---------------------------------------------------------------------------------------------
  // In every reachable state
  // ---------------------------------------------------------------------------------------------

  /** `s` is reached from a fresh local or remote session. */
  ghost predicate Reaches(local: bool, callers: set<Aor>, callees: set<Aor>, steps: seq<Step>, s: State) {
    CanRun(Init(local, callers, callees), steps) && s == Run(Init(local, callers, callees), steps)
  }

  lemma {:induction false} ReachableInv(local: bool, callers: set<Aor>, callees: set<Aor>, steps: seq<Step>, s: State)
    requires Reaches(local, callers, callees, steps, s)
    ensures Inv(s)
  {
    InvInit(local, callers, callees);
    InvRun(Init(local, callers, callees), steps);
  }

  /** A run that starts with `step`. */
  lemma {:induction false} RunCons(s: State, step: Step, rest: seq<Step>)
    requires Enabled(s, step) && CanRun(Next(s, step), rest)
    ensures CanRun(s, [step] + rest) && Run(s, [step] + rest) == Run(Next(s, step), rest)
  {
    assert ([step] + rest)[1..] == rest;
  }

  lemma {:induction false} ExtensionsStep(s: State, step: Step)
    requires Inv(s) && Enabled(s, step)
    ensures Next(s, step).pools.available.Keys == s.pools.available.Keys
    ensures Next(s, step).pools.local == s.pools.local
  {
    if step.Go? {
      var i := step.i;
      HoldsUntilRelease(s.listed.nextCallID, s.tasks[i].at, step.act);
      if Holds(s.tasks[i].at) {
        assert InUse(s.pools.local, s.tasks, CallerExt(s.tasks[i].job), i);
        assert InUse(s.pools.local, s.tasks, CalleeExt(s.pools.local, s.tasks[i].job), i);
      }
    }
  }

  lemma {:induction false} ExtensionsStay(s: State, steps: seq<Step>)
    requires Inv(s) && CanRun(s, steps)
    ensures Run(s, steps).pools.available.Keys == s.pools.available.Keys
    ensures Run(s, steps).pools.local == s.pools.local
    decreases |steps|
  {
    if steps != [] {
      InvStep(s, steps[0]);
      ExtensionsStep(s, steps[0]);
      ExtensionsStay(Next(s, steps[0]), steps[1..]);
    }
  }

  /** No extension is ever lost or booked twice, and a call never dials itself. */
  lemma {:induction false} NoDoubleBooking(
    local: bool, callers: set<Aor>, callees: set<Aor>, steps: seq<Step>, s: State)
    requires Reaches(local, callers, callees, steps, s)
    ensures s.pools.available.Keys == Init(local, callers, callees).pools.available.Keys
    ensures forall e | e in s.pools.available ::
      !s.pools.available[e] <==> exists i :: InUse(local, s.tasks, e, i)
    ensures forall e, i, j :: InUse(local, s.tasks, e, i) && InUse(local, s.tasks, e, j) ==> i == j
    ensures forall i | 0 <= i < |s.tasks| && Holds(s.tasks[i].at) ::
      CallerExt(s.tasks[i].job) != CalleeExt(local, s.tasks[i].job)
  {
    ReachableInv(local, callers, callees, steps, s);
    InvInit(local, callers, callees);
    ExtensionsStay(Init(local, callers, callees), steps);
  }

  /** While a call is being dialled or talks, its callee's phone answers with the call's own codec. */
  lemma {:induction false} CalleeAnswersWithItsCallsCodec(
    local: bool, callers: set<Aor>, callees: set<Aor>, steps: seq<Step>, s: State, i: nat)
    requires Reaches(local, callers, callees, steps, s)
    requires i < |s.tasks| && CodecChosen(s.tasks[i].at)
    ensures var e := Ext(!local, s.tasks[i].job.callee);
      e in s.pools.preferred && s.pools.preferred[e] == s.tasks[i].job.calleeCodec
  {
    ReachableInv(local, callers, callees, steps, s);
    InvInit(local, callers, callees);
    ExtensionsStay(Init(local, callers, callees), steps);
  }

  function CountUnresolved(tasks: seq<Task>): nat {
    if tasks == [] then 0 else CountUnresolved(tasks[..|tasks| - 1]) + One(Unresolved(tasks[|tasks| - 1].at))
  }

  lemma {:induction false} OutcomesPartition(tasks: seq<Task>)
    ensures Total(tasks, MStarted) ==
      Total(tasks, MAnswered) + Total(tasks, MFailed) + Total(tasks, MCancelled) + CountUnresolved(tasks)
  {
    if tasks != [] {
      OutcomesPartition(tasks[..|tasks| - 1]);
      assert Share(tasks[|tasks| - 1], MStarted) ==
          Share(tasks[|tasks| - 1], MAnswered) + Share(tasks[|tasks| - 1], MFailed) +
          Share(tasks[|tasks| - 1], MCancelled) + One(Unresolved(tasks[|tasks| - 1].at));
    }
  }

  /** Every started call is answered, failed, cancelled or still unresolved, and counted as just one of them. */
  lemma {:induction false} CallsConserved(local: bool, callers: set<Aor>, callees: set<Aor>, steps: seq<Step>, s: State)
    requires Reaches(local, callers, callees, steps, s)
    ensures s.stats.started == s.stats.answered + s.stats.failed + s.stats.cancelled + CountUnresolved(s.tasks)
  {
    ReachableInv(local, callers, callees, steps, s);
    assert Counter(s, MStarted) == Total(s.tasks, MStarted);
    assert Counter(s, MAnswered) == Total(s.tasks, MAnswered);
    assert Counter(s, MFailed) == Total(s.tasks, MFailed);
    assert Counter(s, MCancelled) == Total(s.tasks, MCancelled);
    OutcomesPartition(s.tasks);
  }

  // ---------------------------------------------------------------------------------------------
  // The callback of a batch
  // ---------------------------------------------------------------------------------------------

  /** The records of the calls of batch `b` that were not cancelled, in no order. */
  function RecordsOf(tasks: seq<Task>, b: nat): multiset<Record> {
    if tasks == [] then multiset{} else
      var t := tasks[|tasks| - 1];
      RecordsOf(tasks[..|tasks| - 1], b) +
      (if t.job.batch == b && Result(t.at).Some? then multiset{Record(t.job, Result(t.at).value)} else multiset{})
  }

  lemma {:induction false} RecordsCounted(tasks: seq<Task>, b: nat, r: Record)
    ensures RecordsOf(tasks, b)[r] == Total(tasks, MRecord(b, r))
  {
    if tasks != [] { RecordsCounted(tasks[..|tasks| - 1], b, r); }
  }

  lemma {:induction false} TotalDone(tasks: seq<Task>, b: nat)
    requires Total(tasks, MWaiting(b)) == 0
    ensures Total(tasks, MSize(b)) == Total(tasks, MBatchAnswered(b)) + Total(tasks, MBatchFailed(b))
  {
    if tasks != [] { TotalDone(tasks[..|tasks| - 1], b); }
  }

  /** When onBatchDone runs, every call of the batch has left and has released its extensions; it is handed
      one record for each call that was not cancelled, and the batch's two counts add up to its pairs. */
  lemma {:induction false} BatchDone(
    local: bool, callers: set<Aor>, callees: set<Aor>, steps: seq<Step>, s: State, b: nat)
    requires Reaches(local, callers, callees, steps, s)
    requires b < |s.batches| && s.batches[b].deliveries != []
    ensures forall i | 0 <= i < |s.tasks| && s.tasks[i].job.batch == b :: s.tasks[i].at.Finished?
    ensures |s.batches[b].deliveries| == 1
    ensures multiset(s.batches[b].deliveries[0]) == RecordsOf(s.tasks, b)
    ensures s.batches[b].answered + s.batches[b].failed == s.batches[b].size == Total(s.tasks, MSize(b))
  {
    ReachableInv(local, callers, callees, steps, s);
    BatchDoneInv(s, b);
  }

  lemma {:induction false} BatchDoneInv(s: State, b: nat)
    requires Inv(s) && b < |s.batches| && s.batches[b].deliveries != []
    ensures forall i | 0 <= i < |s.tasks| && s.tasks[i].job.batch == b :: s.tasks[i].at.Finished?
    ensures |s.batches[b].deliveries| == 1
    ensures multiset(s.batches[b].deliveries[0]) == RecordsOf(s.tasks, b)
    ensures s.batches[b].answered + s.batches[b].failed == s.batches[b].size == Total(s.tasks, MSize(b))
  {
    assert BatchFits(s.stops.current, s.batches[b]);
    forall i | 0 <= i < |s.tasks| && s.tasks[i].job.batch == b
      ensures s.tasks[i].at.Finished?
    {
      if !s.tasks[i].at.Finished? { WaitedFor(s, i); }
    }
    forall r: Record ensures multiset(s.batches[b].records)[r] == RecordsOf(s.tasks, b)[r] {
      assert Counter(s, MRecord(b, r)) == Total(s.tasks, MRecord(b, r));
      RecordsCounted(s.tasks, b, r);
    }
    assert Counter(s, MWaiting(b)) == Total(s.tasks, MWaiting(b));
    assert Counter(s, MSize(b)) == Total(s.tasks, MSize(b));
    assert Counter(s, MBatchAnswered(b)) == Total(s.tasks, MBatchAnswered(b));
    assert Counter(s, MBatchFailed(b)) == Total(s.tasks, MBatchFailed(b));
    TotalDone(s.tasks, b);
  }

  lemma {:induction false} DeliveryStep(s: State, step: Step, b: nat)
    requires Enabled(s, step) && b < |s.batches| && s.batches[b].deliveries != []
    ensures b < |Next(s, step).batches| && Next(s, step).batches[b].deliveries == s.batches[b].deliveries
  {}

  /** A delivery is never repeated, withdrawn or changed by anything that happens later. */
  lemma {:induction false} DeliveredForGood(s: State, steps: seq<Step>, b: nat)
    requires CanRun(s, steps) && b < |s.batches| && s.batches[b].deliveries != []
    ensures b < |Run(s, steps).batches| && Run(s, steps).batches[b].deliveries == s.batches[b].deliveries
    decreases |steps|
  {
    if steps != [] {
      DeliveryStep(s, steps[0], b);
      DeliveredForGood(Next(s, steps[0]), steps[1..], b);
    }
  }

  // ---------------------------------------------------------------------------------------------
  // A quiet session
  // ---------------------------------------------------------------------------------------------

  ghost predicate Quiet(s: State) {
    && (forall i | 0 <= i < |s.tasks| :: s.tasks[i].at.Finished?)
    && (forall b | 0 <= b < |s.batches| :: s.batches[b].deliveries != [])
    && s.stops.closing == {}
  }

  lemma {:induction false} NoneUnresolved(tasks: seq<Task>)
    requires forall i | 0 <= i < |tasks| :: tasks[i].at.Finished?
    ensures CountUnresolved(tasks) == 0
    ensures Total(tasks, MCauses) == Total(tasks, MFailed)
  {
    if tasks != [] { NoneUnresolved(tasks[..|tasks| - 1]); }
  }

  /** When everything has ended, every extension is free again, no call is listed, the outcomes add up,
      the failure causes add up to the failed calls, and every batch has had its one callback. */
  lemma {:induction false} QuietSession(local: bool, callers: set<Aor>, callees: set<Aor>, steps: seq<Step>, s: State)
    requires Reaches(local, callers, callees, steps, s) && Quiet(s)
    ensures s.pools.available == Init(local, callers, callees).pools.available
    ensures s.listed.calls == map[]
    ensures s.stats.started == s.stats.answered + s.stats.failed + s.stats.cancelled
    ensures SumOf(s.stats.failures) == s.stats.failed
    ensures forall b | 0 <= b < |s.batches| :: |s.batches[b].deliveries| == 1
    ensures forall c: nat | c < s.stops.current :: s.stops.closed[c] == 1
  {
    ReachableInv(local, callers, callees, steps, s);
    InvInit(local, callers, callees);
    ExtensionsStay(Init(local, callers, callees), steps);
    CallsConserved(local, callers, callees, steps, s);
    NoneUnresolved(s.tasks);
    assert Counter(s, MCauses) == Total(s.tasks, MCauses);
    assert Counter(s, MFailed) == Total(s.tasks, MFailed);
    assert forall e | e in s.pools.available :: s.pools.available[e];
    assert s.listed.calls.Keys == {};
    forall b | 0 <= b < |s.batches| ensures |s.batches[b].deliveries| == 1 {
      assert BatchFits(s.stops.current, s.batches[b]);
    }
  }

  // ---------------------------------------------------------------------------------------------
  // Every session drains
  // ---------------------------------------------------------------------------------------------

  function Rank(at: Place): nat {
    match at
    case Held => 16
    case Ramping => 15
    case SetCodec => 14
    case Dialing => 13
    case AnswerCount => 12
    case AnswerId => 11
    case AnswerPublish(_) => 10
    case Talking(_) => 9
    case EndHealth(_, _) => 8
    case EndSent(_, _) => 7
    case EndRecv(_, _) => 6
    case EndUnpublish(_, _) => 5
    case EndRelease(_) => 4
    case FailHealth(_) => 6
    case FailCount(_) => 5
    case FailRelease(_) => 4
    case CancelRelease => 4
    case CancelCount => 3
    case CancelTally => 2
    case Append(_) => 3
    case Tally(_) => 2
    case Leaving(_) => 1
    case Finished(_) => 0
  }

  function CallWork(tasks: seq<Task>): nat {
    if tasks == [] then 0 else CallWork(tasks[..|tasks| - 1]) + Rank(tasks[|tasks| - 1].at)
  }

  lemma {:induction false} CallWorkUpdate(tasks: seq<Task>, i: nat, t: Task)
    requires i < |tasks|
    ensures CallWork(tasks[i := t]) == CallWork(tasks) - Rank(tasks[i].at) + Rank(t.at)
  {
    var last := |tasks| - 1;
    if i == last {
      assert tasks[i := t][..last] == tasks[..last];
    } else {
      assert tasks[i := t][..last] == tasks[..last][i := t];
      CallWorkUpdate(tasks[..last], i, t);
    }
  }

  function BatchRank(b: Batch): nat { One(b.stop.None?) + One(!b.logged) + One(b.deliveries == []) }

  function BatchWork(batches: seq<Batch>): nat {
    if batches == [] then 0 else BatchWork(batches[..|batches| - 1]) + BatchRank(batches[|batches| - 1])
  }

  lemma {:induction false} BatchWorkUpdate(batches: seq<Batch>, i: nat, b: Batch)
    requires i < |batches|
    ensures BatchWork(batches[i := b]) == BatchWork(batches) - BatchRank(batches[i]) + BatchRank(b)
  {
    var last := |batches| - 1;
    if i == last {
      assert batches[i := b][..last] == batches[..last];
    } else {
      assert batches[i := b][..last] == batches[..last][i := b];
      BatchWorkUpdate(batches[..last], i, b);
    }
  }

  /** The steps that finish what has been started: all but a new batch, a new Stop and the cancellation. */
  predicate Finishing(step: Step) { !step.Reserve? && !step.StopSwap? && !step.CancelContext? }

  function Work(s: State): nat { CallWork(s.tasks) + BatchWork(s.batches) + |s.stops.closing| }

  lemma {:induction false} RankFalls(k: Stops, nextCallID: nat, b: Batch, t: Task, act: Act)
    requires MayGo(k, b, t.at, act)
    ensures Rank(Target(nextCallID, t.at, act)) < Rank(t.at)
    ensures BatchRank(BatchAfter(b, t)) == BatchRank(b)
  {}

  lemma {:induction false} WorkShrinksGo(s: State, i: nat, act: Act)
    requires MayGoAt(s, i, act)
    ensures Work(GoNext(s, i, act)) < Work(s)
  {
    var t := s.tasks[i];
    var b := s.batches[t.job.batch];
    RankFalls(s.stops, s.listed.nextCallID, b, t, act);
    CallWorkUpdate(s.tasks, i, Task(t.job, Target(s.listed.nextCallID, t.at, act)));
    BatchWorkUpdate(s.batches, t.job.batch, BatchAfter(b, t));
  }

  lemma {:induction false} WorkShrinks(s: State, step: Step)
    requires Enabled(s, step) && Finishing(step)
    ensures Work(Next(s, step)) < Work(s)
  {
    match step
    case Go(i, act) => WorkShrinksGo(s, i, act);
    case Snapshot(b) => BatchWorkUpdate(s.batches, b, Next(s, step).batches[b]);
    case WaitDone(b) => BatchWorkUpdate(s.batches, b, Next(s, step).batches[b]);
    case Deliver(b) => BatchWorkUpdate(s.batches, b, Next(s, step).batches[b]);
    case StopClose(c) =>
  }

  /** However the goroutines interleave, what has been started ends within `Work(s)` steps. */
  lemma {:induction false} FinishesInTime(s: State, steps: seq<Step>)
    requires CanRun(s, steps) && forall k | 0 <= k < |steps| :: Finishing(steps[k])
    ensures |steps| + Work(Run(s, steps)) <= Work(s)
    decreases |steps|
  {
    if steps != [] {
      WorkShrinks(s, steps[0]);
      FinishesInTime(Next(s, steps[0]), steps[1..]);
    }
  }

  /** How an unfinished call goes on; `patient` calls wait for their delay to pass. */
  function WayOn(at: Place): Act {
    match at
    case Ramping => LeaveRamp(Elapsed)
    case Dialing => DialAnswers
    case Talking(_) => HangUp(Elapsed, 0, 0)
    case _ => Straight
  }

  lemma {:induction false} TotalFinished(tasks: seq<Task>, b: nat)
    requires forall i | 0 <= i < |tasks| :: tasks[i].at.Finished?
    ensures Total(tasks, MWaiting(b)) == 0
  {
    if tasks != [] { TotalFinished(tasks[..|tasks| - 1], b); }
  }

  lemma {:induction false} BatchHasCall(tasks: seq<Task>, b: nat) returns (i: nat)
    requires Total(tasks, MSize(b)) > 0
    ensures i < |tasks| && tasks[i].job.batch == b
  {
    var last := |tasks| - 1;
    if tasks[last].job.batch == b { i := last; } else { i := BatchHasCall(tasks[..last], b); }
  }

  /** No session ever gets stuck: until it is quiet, some started thing can go on. */
  lemma {:induction false} Progress(s: State) returns (step: Step)
    requires Inv(s) && !Quiet(s)
    ensures Enabled(s, step) && Finishing(step)
  {
    if i :| 0 <= i < |s.tasks| && !s.tasks[i].at.Finished? {
      var b := s.tasks[i].job.batch;
      WaitedFor(s, i);
      step := if s.tasks[i].at.Held? && s.batches[b].stop.None? then Snapshot(b) else Go(i, WayOn(s.tasks[i].at));
    } else if b :| 0 <= b < |s.batches| && s.batches[b].deliveries == [] {
      assert BatchFits(s.stops.current, s.batches[b]);
      assert Counter(s, MSize(b)) == Total(s.tasks, MSize(b));
      assert Counter(s, MWaiting(b)) == Total(s.tasks, MWaiting(b));
      var i := BatchHasCall(s.tasks, b);
      TotalFinished(s.tasks, b);
      step := if s.batches[b].logged then Deliver(b) else WaitDone(b);
    } else {
      var c :| c in s.stops.closing;
      step := StopClose(c);
    }
  }

  /** A run of finishing steps that cannot be continued ends in a quiet session. */
  lemma {:induction false} StuckOnlyWhenQuiet(s: State, steps: seq<Step>)
    requires Inv(s) && CanRun(s, steps)
    requires forall step | Finishing(step) :: !Enabled(Run(s, steps), step)
    ensures Quiet(Run(s, steps))
  {
    InvRun(s, steps);
    if !Quiet(Run(s, steps)) { var step := Progress(Run(s, steps)); }
  }

  /** From every reachable state the session can be brought to rest without a new batch, Stop or cancellation. */
  lemma {:induction false} Drains(s: State) returns (steps: seq<Step>)
    requires Inv(s)
    ensures CanRun(s, steps) && Quiet(Run(s, steps)) && |steps| <= Work(s)
    ensures forall k | 0 <= k < |steps| :: Finishing(steps[k])
    decreases Work(s)
  {
    if Quiet(s) {
      steps := [];
    } else {
      var step := Progress(s);
      InvStep(s, step);
      WorkShrinks(s, step);
      var rest := Drains(Next(s, step));
      RunCons(s, step, rest);
      steps := [step] + rest;
    }
  }

  // ---------------------------------------------------------------------------------------------
  // Stop
  // ---------------------------------------------------------------------------------------------

  /** The state before step `k` of a run. */
  ghost function StateAt(s: State, steps: seq<Step>, k: nat): State
    requires CanRun(s, steps) && k <= |steps|
    decreases k
  {
    if k == 0 then s else StateAt(Next(s, steps[0]), steps[1..], k - 1)
  }

  /** A batch is stopped only by a Stop that replaced the channel it snapshotted, after it did so. */
  lemma {:induction false} StoppedByItsOwnStop(s: State, steps: seq<Step>, b: nat, c: nat) returns (k: nat)
    requires Inv(s) && CanRun(s, steps)
    requires b < |s.batches| ==> s.batches[b].stop.None? || (s.batches[b].stop == Some(c) && s.stops.current == c)
    requires b < |Run(s, steps).batches| && Run(s, steps).batches[b].stop == Some(c)
    requires c in Run(s, steps).stops.closed
    ensures k < |steps| && steps[k].StopSwap?
    ensures var t := StateAt(s, steps, k);
      b < |t.batches| && t.batches[b].stop == Some(c) && t.stops.current == c
    decreases |steps|
  {
    if steps == [] {
      assert false;
    } else if steps[0].StopSwap? && b < |s.batches| && s.batches[b].stop.Some? {
      k := 0;
    } else {
      var t := Next(s, steps[0]);
      InvStep(s, steps[0]);
      if b < |t.batches| && t.batches[b].stop.Some? && t.batches[b].stop != Some(c) {
        SnapshotStays(t, steps[1..], b);
        assert false;
      }
      var k' := StoppedByItsOwnStop(t, steps[1..], b, c);
      k := k' + 1;
    }
  }

  lemma {:induction false} SnapshotStep(s: State, step: Step, b: nat)
    requires Enabled(s, step) && b < |s.batches| && s.batches[b].stop.Some?
    ensures b < |Next(s, step).batches| && Next(s, step).batches[b].stop == s.batches[b].stop
  {}

  lemma {:induction false} SnapshotStays(s: State, steps: seq<Step>, b: nat)
    requires CanRun(s, steps) && b < |s.batches| && s.batches[b].stop.Some?
    ensures b < |Run(s, steps).batches| && Run(s, steps).batches[b].stop == s.batches[b].stop
    decreases |steps|
  {
    if steps != [] {
      SnapshotStep(s, steps[0], b);
      SnapshotStays(Next(s, steps[0]), steps[1..], b);
    }
  }

  /** Past its start and not in the middle of dialling. */
  predicate CanBeStopped(at: Place) { !at.Held? && !at.SetCodec? && !at.Dialing? }

  ghost predicate StopOrders(s: State, i: nat) {
    i < |s.tasks| && s.tasks[i].job.batch < |s.batches| &&
    (Fires(s.stops, s.batches[s.tasks[i].job.batch], Stopped) || s.stops.ctxDone)
  }

  /** The steps of call `i` alone, none of which waits for a delay, a dial or the far side. */
  predicate OwnAndPrompt(step: Step, i: nat) {
    step.Go? && step.i == i && !step.act.DialFails? && !step.act.DialAnswers? &&
    (step.act.LeaveRamp? ==> step.act.why.Stopped? || step.act.why.Context?) &&
    (step.act.HangUp? ==> step.act.why.Stopped? || step.act.why.Context?)
  }

  /** One prompt step of a stopped call. */
  function PromptAct(k: Stops, at: Place): Act {
    var why := if k.ctxDone then Context else Stopped;
    if at.Ramping? then LeaveRamp(why) else if at.Talking? then HangUp(why, 0, 0) else Straight
  }

  lemma {:induction false} PromptStep(s: State, i: nat)
    requires Inv(s) && StopOrders(s, i) && CanBeStopped(s.tasks[i].at) && !s.tasks[i].at.Finished?
    ensures MayGoAt(s, i, PromptAct(s.stops, s.tasks[i].at))
    ensures var t := GoNext(s, i, PromptAct(s.stops, s.tasks[i].at));
      Inv(t) && StopOrders(t, i) && CanBeStopped(t.tasks[i].at) && Rank(t.tasks[i].at) < Rank(s.tasks[i].at)
  {
    var act := PromptAct(s.stops, s.tasks[i].at);
    WaitedFor(s, i);
    InvGo(s, i, act);
    RankFalls(s.stops, s.listed.nextCallID, s.batches[s.tasks[i].job.batch], s.tasks[i], act);
  }

  lemma {:induction false} StoppedCallSteps(s: State, i: nat) returns (steps: seq<Step>)
    requires Inv(s) && StopOrders(s, i) && CanBeStopped(s.tasks[i].at)
    ensures CanRun(s, steps) && forall k | 0 <= k < |steps| :: OwnAndPrompt(steps[k], i)
    ensures var t := Run(s, steps);
      |t.tasks| == |s.tasks| && t.tasks[i].at.Finished? &&
      forall j | 0 <= j < |s.tasks| && j != i :: t.tasks[j] == s.tasks[j]
    decreases Rank(s.tasks[i].at)
  {
    if s.tasks[i].at.Finished? {
      steps := [];
    } else {
      PromptStep(s, i);
      var act := PromptAct(s.stops, s.tasks[i].at);
      var rest := StoppedCallSteps(GoNext(s, i, act), i);
      RunCons(s, Go(i, act), rest);
      steps := [Go(i, act)] + rest;
    }
  }

  /** Once its batch is stopped, a ramping or answered call can always end by its own prompt steps alone,
      and then the extensions it held are free. */
  lemma {:induction false} StoppedCallEnds(s: State, i: nat) returns (steps: seq<Step>)
    requires Inv(s) && StopOrders(s, i) && CanBeStopped(s.tasks[i].at)
    ensures CanRun(s, steps) && forall k | 0 <= k < |steps| :: OwnAndPrompt(steps[k], i)
    ensures var t := Run(s, steps);
      |t.tasks| == |s.tasks| && t.tasks[i].at.Finished? &&
      forall e :: InUse(s.pools.local, s.tasks, e, i) ==> e in t.pools.available && t.pools.available[e]
  {
    steps := StoppedCallSteps(s, i);
    InvRun(s, steps);
    ExtensionsStay(s, steps);
    var t := Run(s, steps);
    forall e | InUse(s.pools.local, s.tasks, e, i)
      ensures e in t.pools.available && t.pools.available[e]
    {
      if !t.pools.available[e] {
        var j :| InUse(t.pools.local, t.tasks, e, j);
        assert InUse(s.pools.local, s.tasks, e, j);
      }
    }
  }
}
