/** The story of each call: what happened to it over a run decides how it ends and what is counted. */
module CallSessionStories {
  import opened MapSums
  import opened CallSession
  import opened CallSessionSafety
  import opened CallSessionRuns

  // ---------------------------------------------------------------------------------------------
  // How a call ends
  // ---------------------------------------------------------------------------------------------

  function ActOf(step: Step, i: nat): seq<Act> {
    if step.Go? && step.i == i && !step.act.Straight? then [step.act] else []
  }

  /** What happened to call `i` in these steps: the cases its selects took and how its dial ended, in order. */
  function Acts(steps: seq<Step>, i: nat): seq<Act> {
    if steps == [] then [] else ActOf(steps[0], i) + Acts(steps[1..], i)
  }

  predicate ToldToStop(why: Why) { why.Context? || why.Stopped? }

  /** The story of a call that was told to stop before its ramp delay had passed. */
  predicate Cancelled(acts: seq<Act>) { |acts| == 1 && acts[0].LeaveRamp? && ToldToStop(acts[0].why) }

  /** The story of a call that was dialled, and whose dial has not ended, failed with a cause, or was answered. */
  predicate Dialled(acts: seq<Act>) { acts == [LeaveRamp(Elapsed)] }

  predicate FailedWith(acts: seq<Act>, key: FailKey) { acts == [LeaveRamp(Elapsed), DialFails(key)] }

  predicate Talks(acts: seq<Act>) { acts == [LeaveRamp(Elapsed), DialAnswers] }

  /** The story of an answered call that has ended with that report. */
  predicate HungUp(acts: seq<Act>, talk: Talk) {
    && |acts| == 3 && acts[..2] == [LeaveRamp(Elapsed), DialAnswers]
    && acts[2].HangUp? && acts[2].sent == talk.sent && acts[2].recv == talk.recv
    && (talk.dropped <==> acts[2].why.RemoteHangup?)
  }

  predicate EndedSo(end: Option<Outcome>, acts: seq<Act>) {
    match end
    case None => Cancelled(acts)
    case Some(Failed(key)) => FailedWith(acts, key)
    case Some(Answered(talk)) => HungUp(acts, talk)
  }

  /** A call's place fits its story so far. */
  predicate Fits(at: Place, acts: seq<Act>) {
    match at
    case Held => acts == []
    case Ramping => acts == []
    case CancelRelease => Cancelled(acts)
    case CancelCount => Cancelled(acts)
    case CancelTally => Cancelled(acts)
    case SetCodec => Dialled(acts)
    case Dialing => Dialled(acts)
    case FailHealth(key) => FailedWith(acts, key)
    case FailCount(key) => FailedWith(acts, key)
    case FailRelease(key) => FailedWith(acts, key)
    case AnswerCount => Talks(acts)
    case AnswerId => Talks(acts)
    case AnswerPublish(_) => Talks(acts)
    case Talking(_) => Talks(acts)
    case EndHealth(_, talk) => HungUp(acts, talk)
    case EndSent(_, talk) => HungUp(acts, talk)
    case EndRecv(_, talk) => HungUp(acts, talk)
    case EndUnpublish(_, talk) => HungUp(acts, talk)
    case EndRelease(talk) => HungUp(acts, talk)
    case Append(out) => EndedSo(Some(out), acts)
    case Tally(out) => EndedSo(Some(out), acts)
    case Leaving(end) => EndedSo(end, acts)
    case Finished(end) => EndedSo(end, acts)
  }

  lemma {:induction false} FitsOn(k: Stops, b: Batch, nextCallID: nat, at: Place, act: Act, acts: seq<Act>)
    requires MayGo(k, b, at, act) && Fits(at, acts)
    ensures Fits(Target(nextCallID, at, act), if act.Straight? then acts else acts + [act])
  {}

  /** The place of call `i`, if it exists yet, fits what happened to it. */
  predicate FitsAt(s: State, i: nat, acts: seq<Act>) {
    if i < |s.tasks| then Fits(s.tasks[i].at, acts) else acts == []
  }

  lemma {:induction false} FitsStep(s: State, step: Step, i: nat, acts: seq<Act>)
    requires Enabled(s, step) && FitsAt(s, i, acts)
    ensures FitsAt(Next(s, step), i, acts + ActOf(step, i))
  {
    assert acts + [] == acts;
    if step.Go? && step.i == i {
      var t := s.tasks[i];
      FitsOn(s.stops, s.batches[t.job.batch], s.listed.nextCallID, t.at, step.act, acts);
    }
  }

  lemma {:induction false} Joined(a: seq<Act>, b: seq<Act>, c: seq<Act>)
    ensures a + b + c == a + (b + c)
  {}

  lemma {:induction false} FitsRun(s: State, steps: seq<Step>, i: nat, acts: seq<Act>)
    requires CanRun(s, steps) && FitsAt(s, i, acts)
    ensures FitsAt(Run(s, steps), i, acts + Acts(steps, i))
    decreases |steps|
  {
    if steps == [] {
      assert acts + [] == acts;
    } else {
      FitsStep(s, steps[0], i, acts);
      FitsRun(Next(s, steps[0]), steps[1..], i, acts + ActOf(steps[0], i));
      Joined(acts, ActOf(steps[0], i), Acts(steps[1..], i));
    }
  }

  lemma {:induction false} ActsAre(steps: seq<Step>, i: nat, act: Act)
    requires !act.Straight?
    ensures act in Acts(steps, i) <==> Go(i, act) in steps
  {
    if steps != [] { ActsAre(steps[1..], i, act); }
  }

  /** The call's last select ended it with this report. */
  predicate HangsUp(acts: seq<Act>, talk: Talk) {
    if talk.dropped then HangUp(RemoteHangup, talk.sent, talk.recv) in acts
    else
      HangUp(Context, talk.sent, talk.recv) in acts || HangUp(Stopped, talk.sent, talk.recv) in acts ||
      HangUp(Elapsed, talk.sent, talk.recv) in acts
  }

  lemma {:induction false} StoryDecides(end: Option<Outcome>, acts: seq<Act>)
    requires EndedSo(end, acts)
    ensures end == None <==> LeaveRamp(Context) in acts || LeaveRamp(Stopped) in acts
    ensures forall key :: end == Some(Failed(key)) <==> DialFails(key) in acts
    ensures forall talk :: end == Some(Answered(talk)) <==> DialAnswers in acts && HangsUp(acts, talk)
  {
    match end
    case None => assert acts == [acts[0]];
    case Some(Failed(key)) =>
    case Some(Answered(talk)) => assert acts == [LeaveRamp(Elapsed), DialAnswers, acts[2]];
  }

  /** The same, said of the steps of the run. */
  predicate EndedBy(steps: seq<Step>, i: nat, talk: Talk) {
    if talk.dropped then Go(i, HangUp(RemoteHangup, talk.sent, talk.recv)) in steps
    else
      Go(i, HangUp(Context, talk.sent, talk.recv)) in steps || Go(i, HangUp(Stopped, talk.sent, talk.recv)) in steps ||
      Go(i, HangUp(Elapsed, talk.sent, talk.recv)) in steps
  }

  /** A call that is over was cancelled if and only if it was told to stop while it waited for its turn, failed with
      a cause if and only if its dial failed with it, and was answered if and only if its dial was; and then the
      report of its end is that of the case that ended it, a drop being a hangup from the far side. */
  lemma {:induction false} EndsExactly(
    local: bool, callers: set<Aor>, callees: set<Aor>, steps: seq<Step>, s: State, i: nat)
    requires Reaches(local, callers, callees, steps, s) && i < |s.tasks| && s.tasks[i].at.Finished?
    ensures s.tasks[i].at.end == None <==> Go(i, LeaveRamp(Context)) in steps || Go(i, LeaveRamp(Stopped)) in steps
    ensures forall key :: s.tasks[i].at.end == Some(Failed(key)) <==> Go(i, DialFails(key)) in steps
    ensures forall talk ::
      s.tasks[i].at.end == Some(Answered(talk)) <==> Go(i, DialAnswers) in steps && EndedBy(steps, i, talk)
  {
    CallStory(local, callers, callees, steps, s, i);
    var acts := Acts(steps, i);
    StoryDecides(s.tasks[i].at.end, acts);
    forall act: Act | !act.Straight? ensures act in acts <==> Go(i, act) in steps { ActsAre(steps, i, act); }
  }

  /** What happened to a call is exactly what its end says, in that order and nothing else. */
  lemma {:induction false} CallStory(
    local: bool, callers: set<Aor>, callees: set<Aor>, steps: seq<Step>, s: State, i: nat)
    requires Reaches(local, callers, callees, steps, s) && i < |s.tasks| && s.tasks[i].at.Finished?
    ensures EndedSo(s.tasks[i].at.end, Acts(steps, i))
  {
    FitsRun(Init(local, callers, callees), steps, i, []);
    assert [] + Acts(steps, i) == Acts(steps, i);
  }

  // ---------------------------------------------------------------------------------------------
  // What is counted
  // ---------------------------------------------------------------------------------------------

  /** What one event of a call is to add to a total of the session. */
  function Worth(job: Job, act: Act, m: Metric): nat {
    match m
    case MAnswered => One(act.DialAnswers?)
    case MFailed => One(act.DialFails?)
    case MCauses => One(act.DialFails?)
    case MCause(key) => One(act == DialFails(key))
    case MCancelled => One(act.LeaveRamp? && ToldToStop(act.why))
    case MDropped => One(act.HangUp? && act.why.RemoteHangup?)
    case MNoAudio => One(act.HangUp? && job.sendMedia && act.sent > 0 && act.recv == 0)
    case MSent => if act.HangUp? then act.sent else 0
    case MRecv => if act.HangUp? then act.recv else 0
    case _ => 0
  }

  /** All events of a run together. */
  ghost function Events(s: State, steps: seq<Step>, m: Metric): nat
    requires CanRun(s, steps)
    decreases |steps|
  {
    if steps == [] then 0
    else
      (if steps[0].Go? then Worth(s.tasks[steps[0].i].job, steps[0].act, m) else 0) +
      Events(Next(s, steps[0]), steps[1..], m)
  }

  predicate OfEvents(m: Metric) { !OfBatch(m) && !m.MStarted? }

  /** How a call will end, once that is decided. */
  function Decided(at: Place): Option<Option<Outcome>> {
    match at
    case CancelRelease => Some(None)
    case CancelCount => Some(None)
    case CancelTally => Some(None)
    case FailHealth(key) => Some(Some(Failed(key)))
    case FailCount(key) => Some(Some(Failed(key)))
    case FailRelease(key) => Some(Some(Failed(key)))
    case EndHealth(_, talk) => Some(Some(Answered(talk)))
    case EndSent(_, talk) => Some(Some(Answered(talk)))
    case EndRecv(_, talk) => Some(Some(Answered(talk)))
    case EndUnpublish(_, talk) => Some(Some(Answered(talk)))
    case EndRelease(talk) => Some(Some(Answered(talk)))
    case Append(out) => Some(Some(out))
    case Tally(out) => Some(Some(out))
    case Leaving(end) => Some(end)
    case Finished(end) => Some(end)
    case _ => None
  }

  predicate InTalk(at: Place) { at.AnswerCount? || at.AnswerId? || at.AnswerPublish? || at.Talking? }

  /** What a call will have added to a total once it is over, of what has happened to it so far. */
  function Due(t: Task, m: Metric): nat {
    match Decided(t.at)
    case Some(end) => Share(Task(t.job, Finished(end)), m)
    case None => One(m.MAnswered? && InTalk(t.at))
  }

  lemma {:induction false} DecidedGo(k: Stops, b: Batch, nextCallID: nat, at: Place, act: Act)
    requires MayGo(k, b, at, act)
    ensures var to := Target(nextCallID, at, act);
      match act
      case Straight => Decided(to) == Decided(at) && InTalk(to) == InTalk(at)
      case LeaveRamp(why) =>
        Decided(at) == None && !InTalk(at) && !InTalk(to) && Decided(to) == if ToldToStop(why) then Some(None) else None
      case DialFails(key) => Decided(at) == None && !InTalk(at) && Decided(to) == Some(Some(Failed(key)))
      case DialAnswers => Decided(at) == None && !InTalk(at) && Decided(to) == None && InTalk(to)
      case HangUp(why, sent, recv) =>
        Decided(at) == None && InTalk(at) && Decided(to) == Some(Some(Answered(Talk(why.RemoteHangup?, sent, recv))))
  {}

  function DueTotal(tasks: seq<Task>, m: Metric): nat {
    if tasks == [] then 0 else DueTotal(tasks[..|tasks| - 1], m) + Due(tasks[|tasks| - 1], m)
  }

  lemma {:induction false} DueTotalUpdate(tasks: seq<Task>, i: nat, t: Task, m: Metric)
    requires i < |tasks|
    ensures DueTotal(tasks[i := t], m) == DueTotal(tasks, m) - Due(tasks[i], m) + Due(t, m)
  {
    var last := |tasks| - 1;
    if i == last {
      assert tasks[i := t][..last] == tasks[..last];
    } else {
      assert tasks[i := t][..last] == tasks[..last][i := t];
      DueTotalUpdate(tasks[..last], i, t, m);
    }
  }

  lemma {:induction false} DueTotalHeld(tasks: seq<Task>, added: seq<Task>, m: Metric)
    requires forall i | 0 <= i < |added| :: added[i].at.Held?
    ensures DueTotal(tasks + added, m) == DueTotal(tasks, m)
  {
    if added == [] {
      assert tasks + added == tasks;
    } else {
      assert (tasks + added)[..|tasks + added| - 1] == tasks + added[..|added| - 1];
      DueTotalHeld(tasks, added[..|added| - 1], m);
    }
  }

  lemma {:induction false} DueTotalFinished(tasks: seq<Task>, m: Metric)
    requires forall i | 0 <= i < |tasks| :: tasks[i].at.Finished?
    ensures DueTotal(tasks, m) == Total(tasks, m)
  {
    if tasks != [] { DueTotalFinished(tasks[..|tasks| - 1], m); }
  }

  /** Each event makes due just what it is worth. */
  lemma {:induction false} DueGo(k: Stops, b: Batch, nextCallID: nat, t: Task, act: Act, m: Metric)
    requires MayGo(k, b, t.at, act) && OfEvents(m)
    ensures Due(Task(t.job, Target(nextCallID, t.at, act)), m) == Due(t, m) + Worth(t.job, act, m)
  {
    DecidedGo(k, b, nextCallID, t.at, act);
    match act
    case Straight =>
    case LeaveRamp(_) =>
    case DialFails(_) =>
    case DialAnswers =>
    case HangUp(why, sent, recv) => WorthOfEnd(t.job, why, sent, recv, m);
  }

  lemma {:induction false} WorthOfEnd(job: Job, why: Why, sent: nat, recv: nat, m: Metric)
    requires OfEvents(m)
    ensures Share(Task(job, Finished(Some(Answered(Talk(why.RemoteHangup?, sent, recv))))), m) ==
            One(m.MAnswered?) + Worth(job, HangUp(why, sent, recv), m)
  {}

  lemma {:induction false} DueStep(s: State, step: Step, m: Metric)
    requires Enabled(s, step) && OfEvents(m)
    ensures DueTotal(Next(s, step).tasks, m) ==
            DueTotal(s.tasks, m) + if step.Go? then Worth(s.tasks[step.i].job, step.act, m) else 0
  {
    if step.Go? {
      var t := s.tasks[step.i];
      var u := Task(t.job, Target(s.listed.nextCallID, t.at, step.act));
      DueGo(s.stops, s.batches[t.job.batch], s.listed.nextCallID, t, step.act, m);
      DueTotalUpdate(s.tasks, step.i, u, m);
    } else if step.Reserve? {
      var pairs := Pairs(s.pools.local, step.n, step.callers, step.callees);
      var added := NewTasks(|s.batches|, pairs, step.codec, step.calleeCodec, step.sendMedia);
      DueTotalHeld(s.tasks, added, m);
    }
  }

  lemma {:induction false} DueRun(s: State, steps: seq<Step>, m: Metric)
    requires CanRun(s, steps) && OfEvents(m)
    ensures DueTotal(Run(s, steps).tasks, m) == DueTotal(s.tasks, m) + Events(s, steps, m)
    decreases |steps|
  {
    if steps != [] {
      DueStep(s, steps[0], m);
      DueRun(Next(s, steps[0]), steps[1..], m);
    }
  }

  /** When everything has ended, each total of the session is what the events of the run are worth together: the calls
      answered, failed, by each cause, cancelled, dropped and without audio, and the packets sent and received. */
  lemma {:induction false} TotalsTellTheRun(
    local: bool, callers: set<Aor>, callees: set<Aor>, steps: seq<Step>, s: State, m: Metric)
    requires Reaches(local, callers, callees, steps, s) && Quiet(s) && OfEvents(m)
    ensures StatsCounter(s.stats, m) == Events(Init(local, callers, callees), steps, m)
  {
    ReachableInv(local, callers, callees, steps, s);
    assert Counter(s, m) == Total(s.tasks, m);
    DueRun(Init(local, callers, callees), steps, m);
    DueTotalFinished(s.tasks, m);
  }

  // ---------------------------------------------------------------------------------------------
  // Nothing stops by itself
  // ---------------------------------------------------------------------------------------------

  predicate GivesWay(act: Act, why: Why) { (act.LeaveRamp? || act.HangUp?) && act.why == why }

  /** The signals of a state that nobody gave yet. */
  lemma {:induction false} SignalsGiven(s: State, steps: seq<Step>, k: nat)
    requires CanRun(s, steps) && k < |steps| && steps[k].Go?
    ensures GivesWay(steps[k].act, Context) ==> s.stops.ctxDone || CancelContext in steps[..k]
    ensures GivesWay(steps[k].act, Stopped) ==>
      s.stops.closed != multiset{} || exists c :: StopClose(c) in steps[..k]
    decreases |steps|
  {
    if k > 0 {
      SignalsGiven(Next(s, steps[0]), steps[1..], k - 1);
      assert steps[..k] == [steps[0]] + steps[1..][..k - 1];
    }
  }

  /** No call ends early unless the run has the reason for it before: the cancellation of the session, or a Stop that
      has closed its channel. */
  lemma {:induction false} NothingStopsUnasked(
    local: bool, callers: set<Aor>, callees: set<Aor>, steps: seq<Step>, k: nat)
    requires CanRun(Init(local, callers, callees), steps) && k < |steps| && steps[k].Go?
    ensures GivesWay(steps[k].act, Context) ==> CancelContext in steps[..k]
    ensures GivesWay(steps[k].act, Stopped) ==> exists c :: StopClose(c) in steps[..k]
  {
    SignalsGiven(Init(local, callers, callees), steps, k);
  }

  // ---------------------------------------------------------------------------------------------
  // How many calls are taken, and which
  // ---------------------------------------------------------------------------------------------

  predicate Free(p: Pools, e: Ext) { e in p.available && p.available[e] }

  lemma {:induction false} TakenLocally(p: Pools, n: nat, callers: seq<Aor>, callees: seq<Aor>, k: nat)
    requires FreeLists(p, callers, callees) && p.local && k < |callers|
    ensures var pairs := Pairs(p.local, n, callers, callees);
      k < 2 * |pairs| ==> Among(p.local, pairs, Ext(false, callers[k]))
  {
    var pairs := Pairs(p.local, n, callers, callees);
    if k < 2 * |pairs| { assert pairs[k / 2] == (callers[k - k % 2], callers[k - k % 2 + 1]); }
  }

  lemma {:induction false} TakenRemotely(p: Pools, n: nat, callers: seq<Aor>, callees: seq<Aor>, k: nat)
    requires FreeLists(p, callers, callees) && !p.local
    ensures var pairs := Pairs(p.local, n, callers, callees);
      k < |pairs| ==> k < |callers| && k < |callees| &&
                      Among(p.local, pairs, Ext(false, callers[k])) && Among(p.local, pairs, Ext(true, callees[k]))
  {
    var pairs := Pairs(p.local, n, callers, callees);
    if k < |pairs| { assert pairs[k] == (callers[k], callees[k]); }
  }

  lemma {:induction false} TakenFrom(p: Pools, n: nat, callers: seq<Aor>, callees: seq<Aor>, e: Ext)
    requires FreeLists(p, callers, callees)
    ensures var pairs := Pairs(p.local, n, callers, callees);
      Free(Reserved(p, pairs), e) && !e.answering ==>
        exists k :: 0 <= k < |callers| && callers[k] == e.aor && k >= if p.local then 2 * |pairs| else |pairs|
    ensures var pairs := Pairs(p.local, n, callers, callees);
      Free(Reserved(p, pairs), e) && e.answering && !p.local ==>
        exists k :: |pairs| <= k < |callees| && callees[k] == e.aor
  {
    var pairs := Pairs(p.local, n, callers, callees);
    if Free(Reserved(p, pairs), e) && !e.answering {
      assert e == Ext(false, e.aor);
      var k :| 0 <= k < |callers| && callers[k] == e.aor;
      if p.local { TakenLocally(p, n, callers, callees, k); } else { TakenRemotely(p, n, callers, callees, k); }
    }
    if Free(Reserved(p, pairs), e) && e.answering && !p.local {
      assert e == Ext(true, e.aor);
      var k :| 0 <= k < |callees| && callees[k] == e.aor;
      TakenRemotely(p, n, callers, callees, k);
    }
  }

  /** A reservation takes as many pairs as it was asked for, or it leaves too few extensions for another pair: at most
      one in a local session, and none on one side of a remote one. */
  lemma {:induction false} TakesAsMany(p: Pools, n: nat, callers: seq<Aor>, callees: seq<Aor>)
    requires FreeLists(p, callers, callees)
    ensures |Pairs(p.local, n, callers, callees)| <= n
    ensures var q := Reserved(p, Pairs(p.local, n, callers, callees));
      |Pairs(p.local, n, callers, callees)| == n ||
      (if p.local then forall a, b | Free(q, Ext(false, a)) && Free(q, Ext(false, b)) :: a == b
       else (forall a :: !Free(q, Ext(false, a))) || (forall a :: !Free(q, Ext(true, a))))
  {
    forall e: Ext {
      TakenFrom(p, n, callers, callees, e);
    }
  }

  /** Call `i` has the codecs and the media of the reservation it comes from. */
  predicate AskedFor(job: Job, step: Step) {
    step.Reserve? && job.codec == step.codec && job.calleeCodec == step.calleeCodec && job.sendMedia == step.sendMedia
  }

  lemma {:induction false} AskedForBy(s: State, steps: seq<Step>, i: nat)
    requires CanRun(s, steps) && i < |Run(s, steps).tasks|
    ensures if i < |s.tasks| then Run(s, steps).tasks[i].job == s.tasks[i].job
            else exists k :: 0 <= k < |steps| && AskedFor(Run(s, steps).tasks[i].job, steps[k])
    decreases |steps|
  {
    if steps != [] {
      var t := Next(s, steps[0]);
      AskedForBy(t, steps[1..], i);
      if i >= |t.tasks| {
        var k :| 0 <= k < |steps| - 1 && AskedFor(Run(s, steps).tasks[i].job, steps[1..][k]);
        assert AskedFor(Run(s, steps).tasks[i].job, steps[k + 1]);
      } else if i >= |s.tasks| {
        assert AskedFor(t.tasks[i].job, steps[0]);
      }
    }
  }

  /** Every call of a session is placed, answered and played as some reservation of the run asked. */
  lemma {:induction false} CallsAreAsAsked(
    local: bool, callers: set<Aor>, callees: set<Aor>, steps: seq<Step>, s: State, i: nat)
    requires Reaches(local, callers, callees, steps, s) && i < |s.tasks|
    ensures exists k :: 0 <= k < |steps| && AskedFor(s.tasks[i].job, steps[k])
  {
    AskedForBy(Init(local, callers, callees), steps, i);
  }

  // ---------------------------------------------------------------------------------------------
  // A batch's two counts
  // ---------------------------------------------------------------------------------------------

  /** How many calls of a batch ended with an answer, or without one. */
  function EndedWith(tasks: seq<Task>, b: nat, answered: bool): nat {
    if tasks == [] then 0
    else
      var t := tasks[|tasks| - 1];
      EndedWith(tasks[..|tasks| - 1], b, answered) +
      One(t.job.batch == b && t.at.Finished? && answered == (t.at.end.Some? && t.at.end.value.Answered?))
  }

  lemma {:induction false} EndsCounted(tasks: seq<Task>, b: nat)
    requires forall i | 0 <= i < |tasks| && tasks[i].job.batch == b :: tasks[i].at.Finished?
    ensures Total(tasks, MBatchAnswered(b)) == EndedWith(tasks, b, true)
    ensures Total(tasks, MBatchFailed(b)) == EndedWith(tasks, b, false)
  {
    if tasks != [] { EndsCounted(tasks[..|tasks| - 1], b); }
  }

  /** When a batch's callback has run, its counts are those of its calls that ended with an answer and of the others. */
  lemma {:induction false} BatchCounts(
    local: bool, callers: set<Aor>, callees: set<Aor>, steps: seq<Step>, s: State, b: nat)
    requires Reaches(local, callers, callees, steps, s)
    requires b < |s.batches| && s.batches[b].deliveries != []
    ensures s.batches[b].answered == EndedWith(s.tasks, b, true)
    ensures s.batches[b].failed == EndedWith(s.tasks, b, false)
  {
    ReachableInv(local, callers, callees, steps, s);
    BatchDoneInv(s, b);
    EndsCounted(s.tasks, b);
    assert Counter(s, MBatchAnswered(b)) == Total(s.tasks, MBatchAnswered(b));
    assert Counter(s, MBatchFailed(b)) == Total(s.tasks, MBatchFailed(b));
  }

  /** A dial can end in any way, and an answered call is ended by the far side or by its duration at any moment, with
      whatever its packet counts are then. */
  lemma {:induction false} OutsideDecides(s: State, i: nat, key: FailKey, sent: nat, recv: nat)
    requires Inv(s) && i < |s.tasks|
    ensures s.tasks[i].at.Ramping? ==> MayGoAt(s, i, LeaveRamp(Elapsed))
    ensures s.tasks[i].at.Dialing? ==> MayGoAt(s, i, DialFails(key)) && MayGoAt(s, i, DialAnswers)
    ensures s.tasks[i].at.Talking? ==>
      MayGoAt(s, i, HangUp(RemoteHangup, sent, recv)) && MayGoAt(s, i, HangUp(Elapsed, sent, recv))
  {
    assert s.tasks[i].job.batch < |s.batches|;
  }

  /** The cancellation of the session reaches every call of a batch that has its channel, and so does a Stop that swaps
      out that channel and closes it. */
  lemma {:induction false} StopReaches(s: State, i: nat)
    requires Inv(s) && i < |s.tasks| && !s.tasks[i].at.Held?
    ensures StopOrders(Next(s, CancelContext), i)
    ensures s.batches[s.tasks[i].job.batch].stop == Some(s.stops.current) ==>
      var swapped := Next(s, StopSwap);
      Enabled(swapped, StopClose(s.stops.current)) && StopOrders(Next(swapped, StopClose(s.stops.current)), i)
  {
    assert s.tasks[i].job.batch < |s.batches|;
  }
}
