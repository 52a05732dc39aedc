/** The call session of internal/orchestrator/session.go as a transition system.

    One step stands for one critical section, one atomic counter operation or one blocking select of
    the goroutines that `AddCallsWithCallee`, `runCall` and `Stop` start. A run is any sequence of enabled
    steps, so it is any interleaving of any number of batches, stops and the cancellation of the session.

    Every counter of the session is explained by the calls themselves: `Counter(s, m)` reads a counter out
    of the state and `Total(s.tasks, m)` adds up what each call, at its own place in `runCall`, has
    contributed to it. `Balanced` says the two agree for every counter at once. */
module CallSession {
  import opened MapSums

  type Aor = string
  type Codec = string
  type FailKey = string

  datatype Option<+T> = None | Some(value: T)

  // ---------------------------------------------------------------------------------------------
  // State
  // ---------------------------------------------------------------------------------------------

  /** One extension of one pool. A local session has only the pool with `answering == false`. */
  datatype Ext = Ext(answering: bool, aor: Aor)

  /** The arguments with which one goroutine of a batch was started. */
  datatype Job = Job(batch: nat, caller: Aor, callee: Aor, codec: Codec, calleeCodec: Codec, sendMedia: bool)

  /** What the call's RTP session and its select reported when the call ended. */
  datatype Talk = Talk(dropped: bool, sent: nat, recv: nat)

  datatype Outcome = Failed(key: FailKey) | Answered(talk: Talk)

  datatype Record = Record(job: Job, outcome: Outcome)

  /** Where a call's goroutine stands. A constructor named after an operation stands just before it. */
  datatype Place =
    | Held                               // reserved by AddCallsWithCallee, goroutine not started
    | Ramping                            // select on the ramp delay, the context and the stop channel
    | CancelRelease | CancelCount | CancelTally
    | SetCodec | Dialing
    | FailHealth(key: FailKey) | FailCount(key: FailKey) | FailRelease(key: FailKey)
    | AnswerCount | AnswerId | AnswerPublish(id: nat)
    | Talking(id: nat)                   // select on the context, the stop channel, the duration, a BYE
    | EndHealth(id: nat, talk: Talk) | EndSent(id: nat, talk: Talk) | EndRecv(id: nat, talk: Talk)
    | EndUnpublish(id: nat, talk: Talk) | EndRelease(talk: Talk)
    | Append(out: Outcome) | Tally(out: Outcome)
    | Leaving(end: Option<Outcome>)      // just before wg.Done; None is a call cancelled while ramping
    | Finished(end: Option<Outcome>)

  datatype Task = Task(job: Job, at: Place)

  datatype Batch = Batch(
    size: nat,
    stop: Option<nat>,                   // the stop channel it snapshotted
    answered: nat, failed: nat,          // batchAnswered, batchFailed
    wg: nat,                             // the WaitGroup's counter
    records: seq<Record>,
    logged: bool,                        // wg.Wait has returned and "batch_done" is logged
    deliveries: seq<seq<Record>>)        // every call of onBatchDone, with its argument

  /** The two pools' `available` maps and their phones' preferred codecs. */
  datatype Pools = Pools(local: bool, available: map<Ext, bool>, preferred: map<Ext, Codec>)

  /** The stop channels, numbered in the order they are made, and the session's context. */
  datatype Stops = Stops(
    current: nat,
    closing: set<nat>,                   // replaced by a Stop that has not closed them yet
    closed: multiset<nat>,               // every close of a channel
    ctxDone: bool)

  datatype Listed = Listed(calls: map<nat, (Aor, Aor)>, nextCallID: nat)

  datatype Stats = Stats(
    started: nat, answered: nat, failed: nat, cancelled: nat,
    failures: map<FailKey, nat>, dropped: nat, noAudio: nat, rtpSent: nat, rtpRecv: nat)

  datatype State = State(
    pools: Pools, stops: Stops, listed: Listed, stats: Stats, batches: seq<Batch>, tasks: seq<Task>)

  function CallerExt(job: Job): Ext { Ext(false, job.caller) }

  function CalleeExt(local: bool, job: Job): Ext { Ext(!local, job.callee) }

  /** The call owns its two extensions: reserved and not yet released. */
  predicate Holds(at: Place) {
    !at.CancelCount? && !at.CancelTally? && !at.Append? && !at.Tally? && !at.Leaving? && !at.Finished?
  }

  /** The call has set its callee's preferred codec and still owns the callee. */
  predicate CodecChosen(at: Place) {
    Holds(at) && !at.Held? && !at.Ramping? && !at.CancelRelease? && !at.SetCodec?
  }

  /** The call is in the session's `calls` map. */
  predicate Published(at: Place) {
    at.Talking? || at.EndHealth? || at.EndSent? || at.EndRecv? || at.EndUnpublish?
  }

  predicate HasId(at: Place) { at.AnswerPublish? || Published(at) }

  // ---------------------------------------------------------------------------------------------
  // Reserving and releasing extensions
  // ---------------------------------------------------------------------------------------------

  /** `order` is `freeList` of one pool, in whatever order the map iteration produced. */
  ghost predicate FreeOrder(available: map<Ext, bool>, answering: bool, order: seq<Aor>) {
    && (forall i, j :: 0 <= i < j < |order| ==> order[i] != order[j])
    && (forall a :: a in order <==> Ext(answering, a) in available && available[Ext(answering, a)])
  }

  /** The free lists `reservePairs` draws from; a local session has one list for both sides. */
  ghost predicate FreeLists(p: Pools, callers: seq<Aor>, callees: seq<Aor>) {
    && FreeOrder(p.available, false, callers)
    && (if p.local then callees == callers else FreeOrder(p.available, true, callees))
  }

  function PairCount(local: bool, n: nat, callers: nat, callees: nat): nat {
    var m := if local then callers / 2 else if callers < callees then callers else callees;
    if m < n then m else n
  }

  /** The pairs `reservePairs` makes of the two free lists. */
  function Pairs(local: bool, n: nat, callers: seq<Aor>, callees: seq<Aor>): seq<(Aor, Aor)> {
    seq(PairCount(local, n, |callers|, |callees|), i requires 0 <= i < PairCount(local, n, |callers|, |callees|) =>
      if local then (callers[2 * i], callers[2 * i + 1]) else (callers[i], callees[i]))
  }

  /** The extension is one of a list of pairs. */
  predicate Among(local: bool, pairs: seq<(Aor, Aor)>, e: Ext) {
    exists i | 0 <= i < |pairs| :: e == Ext(false, pairs[i].0) || e == Ext(!local, pairs[i].1)
  }

  function Reserved(p: Pools, pairs: seq<(Aor, Aor)>): Pools {
    p.(available := map e | e in p.available :: p.available[e] && !Among(p.local, pairs, e))
  }

  function Released(p: Pools, caller: Aor, callee: Aor): Pools {
    p.(available := p.available[Ext(false, caller) := true][Ext(!p.local, callee) := true])
  }

  function Bump(m: map<FailKey, nat>, key: FailKey): map<FailKey, nat> {
    m[key := At(m, key) + 1]
  }

  // ---------------------------------------------------------------------------------------------
  // One call's operations: what leaving a place does to each part of the shared state
  // ---------------------------------------------------------------------------------------------

  function PoolsAfter(p: Pools, t: Task): Pools {
    if t.at.CancelRelease? || t.at.FailRelease? || t.at.EndRelease? then Released(p, t.job.caller, t.job.callee)
    else if t.at.SetCodec? then p.(preferred := p.preferred[CalleeExt(p.local, t.job) := t.job.calleeCodec])
    else p
  }

  function ListedAfter(l: Listed, t: Task): Listed {
    match t.at
    case AnswerId => l.(nextCallID := l.nextCallID + 1)
    case AnswerPublish(id) => l.(calls := l.calls[id := (t.job.caller, t.job.callee)])
    case EndUnpublish(id, _) => l.(calls := l.calls - {id})
    case _ => l
  }

  predicate Silent(job: Job, talk: Talk) { job.sendMedia && talk.sent > 0 && talk.recv == 0 }

  function StatsAfter(c: Stats, t: Task): Stats {
    match t.at
    case Held => c.(started := c.started + 1)
    case CancelCount => c.(cancelled := c.cancelled + 1)
    case FailHealth(key) => c.(failures := Bump(c.failures, key))
    case FailCount(_) => c.(failed := c.failed + 1)
    case AnswerCount => c.(answered := c.answered + 1)
    case EndHealth(_, talk) =>
      c.(dropped := c.dropped + One(talk.dropped), noAudio := c.noAudio + One(Silent(t.job, talk)))
    case EndSent(_, talk) => c.(rtpSent := c.rtpSent + talk.sent)
    case EndRecv(_, talk) => c.(rtpRecv := c.rtpRecv + talk.recv)
    case _ => c
  }

  /** WaitGroup.Done below zero panics, so leaving needs a positive counter. */
  function BatchAfter(b: Batch, t: Task): Batch
    requires t.at.Leaving? ==> b.wg > 0
  {
    match t.at
    case CancelTally => b.(failed := b.failed + 1)
    case Append(out) => b.(records := b.records + [Record(t.job, out)])
    case Tally(out) => if out.Answered? then b.(answered := b.answered + 1) else b.(failed := b.failed + 1)
    case Leaving(_) => b.(wg := b.wg - 1)
    case _ => b
  }

  // ---------------------------------------------------------------------------------------------
  // Steps
  // ---------------------------------------------------------------------------------------------

  datatype Why = Context | Stopped | Elapsed | RemoteHangup

  /** How a call goes on: by itself, or by one of the cases it is waiting for. */
  datatype Act =
    | Straight
    | LeaveRamp(why: Why)
    | DialFails(key: FailKey) | DialAnswers
    | HangUp(why: Why, sent: nat, recv: nat)

  datatype Step =
    | Reserve(n: nat, callers: seq<Aor>, callees: seq<Aor>, codec: Codec, calleeCodec: Codec, sendMedia: bool)
    | Snapshot(b: nat)
    | Go(i: nat, act: Act)
    | WaitDone(b: nat)
    | Deliver(b: nat)
    | StopSwap
    | StopClose(c: nat)
    | CancelContext

  /** A select of a call of batch `b` may take this case. */
  predicate Fires(k: Stops, b: Batch, why: Why) {
    match why
    case Context => k.ctxDone
    case Stopped => b.stop.Some? && b.stop.value in k.closed
    case Elapsed => true
    case RemoteHangup => true
  }

  predicate MayGo(k: Stops, b: Batch, at: Place, act: Act) {
    match act
    case Straight => !at.Ramping? && !at.Dialing? && !at.Talking? && !at.Finished? &&
                     (at.Held? ==> b.stop.Some?) && (at.Leaving? ==> b.wg > 0)
    case LeaveRamp(why) => at.Ramping? && !why.RemoteHangup? && Fires(k, b, why)
    case DialFails(_) => at.Dialing?
    case DialAnswers => at.Dialing?
    case HangUp(why, _, _) => at.Talking? && Fires(k, b, why)
  }

  /** The place a call goes to. */
  function Target(nextCallID: nat, at: Place, act: Act): Place {
    match at
    case Held => Ramping
    case Ramping => if act.LeaveRamp? && act.why.Elapsed? then SetCodec else CancelRelease
    case CancelRelease => CancelCount
    case CancelCount => CancelTally
    case CancelTally => Leaving(None)
    case SetCodec => Dialing
    case Dialing => if act.DialFails? then FailHealth(act.key) else AnswerCount
    case FailHealth(key) => FailCount(key)
    case FailCount(key) => FailRelease(key)
    case FailRelease(key) => Append(Failed(key))
    case AnswerCount => AnswerId
    case AnswerId => AnswerPublish(nextCallID + 1)
    case AnswerPublish(id) => Talking(id)
    case Talking(id) =>
      if act.HangUp? then EndHealth(id, Talk(act.why.RemoteHangup?, act.sent, act.recv)) else at
    case EndHealth(id, talk) => EndSent(id, talk)
    case EndSent(id, talk) => EndRecv(id, talk)
    case EndRecv(id, talk) => EndUnpublish(id, talk)
    case EndUnpublish(id, talk) => EndRelease(talk)
    case EndRelease(talk) => Append(Answered(talk))
    case Append(out) => Tally(out)
    case Tally(out) => Leaving(Some(out))
    case Leaving(end) => Finished(end)
    case Finished(end) => at
  }

  predicate MayGoAt(s: State, i: nat, act: Act) {
    i < |s.tasks| && s.tasks[i].job.batch < |s.batches| &&
    MayGo(s.stops, s.batches[s.tasks[i].job.batch], s.tasks[i].at, act)
  }

  function GoNext(s: State, i: nat, act: Act): State
    requires MayGoAt(s, i, act)
  {
    var t := s.tasks[i];
    var b := t.job.batch;
    State(PoolsAfter(s.pools, t), s.stops, ListedAfter(s.listed, t), StatsAfter(s.stats, t),
          s.batches[b := BatchAfter(s.batches[b], t)],
          s.tasks[i := Task(t.job, Target(s.listed.nextCallID, t.at, act))])
  }

  function ReserveNext(s: State, step: Step): State
    requires step.Reserve?
  {
    var pairs := Pairs(s.pools.local, step.n, step.callers, step.callees);
    if pairs == [] then s else
      s.(pools := Reserved(s.pools, pairs),
         batches := s.batches + [Batch(|pairs|, None, 0, 0, |pairs|, [], false, [])],
         tasks := s.tasks + NewTasks(|s.batches|, pairs, step.codec, step.calleeCodec, step.sendMedia))
  }

  function NewTasks(b: nat, pairs: seq<(Aor, Aor)>, codec: Codec, calleeCodec: Codec, sendMedia: bool): seq<Task> {
    seq(|pairs|, i requires 0 <= i < |pairs| =>
      Task(Job(b, pairs[i].0, pairs[i].1, codec, calleeCodec, sendMedia), Held))
  }

  ghost predicate Enabled(s: State, step: Step) {
    match step
    case Reserve(_, callers, callees, _, _, _) => FreeLists(s.pools, callers, callees)
    case Snapshot(b) => b < |s.batches| && s.batches[b].stop.None?
    case Go(i, act) => MayGoAt(s, i, act)
    case WaitDone(b) => b < |s.batches| && s.batches[b].stop.Some? && s.batches[b].wg == 0 && !s.batches[b].logged
    case Deliver(b) => b < |s.batches| && s.batches[b].logged && s.batches[b].deliveries == []
    case StopSwap => true
    case StopClose(c) => c in s.stops.closing
    case CancelContext => true
  }

  ghost function Next(s: State, step: Step): State
    requires Enabled(s, step)
  {
    match step
    case Reserve(_, _, _, _, _, _) => ReserveNext(s, step)
    case Snapshot(b) => s.(batches := s.batches[b := s.batches[b].(stop := Some(s.stops.current))])
    case Go(i, act) => GoNext(s, i, act)
    case WaitDone(b) => s.(batches := s.batches[b := s.batches[b].(logged := true)])
    case Deliver(b) => s.(batches := s.batches[b := s.batches[b].(deliveries := [s.batches[b].records])])
    case StopSwap => s.(stops := Swapped(s.stops))
    case StopClose(c) => s.(stops := Closed(s.stops, c))
    case CancelContext => s.(stops := s.stops.(ctxDone := true))
  }

  function Swapped(k: Stops): Stops { k.(closing := k.closing + {k.current}, current := k.current + 1) }

  function Closed(k: Stops, c: nat): Stops { k.(closing := k.closing - {c}, closed := k.closed + multiset{c}) }

  // ---------------------------------------------------------------------------------------------
  // Runs
  // ---------------------------------------------------------------------------------------------

  /** A session as NewSession (local) or NewRemoteSession leaves it. */
  function Init(local: bool, callers: set<Aor>, callees: set<Aor>): State {
    var exts := (set a | a in callers :: Ext(false, a)) + (if local then {} else set a | a in callees :: Ext(true, a));
    State(Pools(local, map e | e in exts :: true, map[]), Stops(0, {}, multiset{}, false), Listed(map[], 0),
          Stats(0, 0, 0, 0, map[], 0, 0, 0, 0), [], [])
  }

  ghost predicate CanRun(s: State, steps: seq<Step>)
    decreases |steps|
  {
    steps == [] || (Enabled(s, steps[0]) && CanRun(Next(s, steps[0]), steps[1..]))
  }

  ghost function Run(s: State, steps: seq<Step>): State
    requires CanRun(s, steps)
    decreases |steps|
  {
    if steps == [] then s else Run(Next(s, steps[0]), steps[1..])
  }

  // ---------------------------------------------------------------------------------------------
  // What each call has contributed to each counter
  // ---------------------------------------------------------------------------------------------

  datatype Metric =
    | MStarted | MAnswered | MFailed | MCancelled
    | MCause(key: FailKey) | MCauses | MDropped | MNoAudio | MSent | MRecv
    | MSize(b: nat) | MWaiting(b: nat) | MBatchAnswered(b: nat) | MBatchFailed(b: nat)
    | MRecord(b: nat, r: Record)

  /** The metric counts something of one batch rather than of the whole session. */
  predicate OfBatch(m: Metric) { m.MSize? || m.MWaiting? || m.MBatchAnswered? || m.MBatchFailed? || m.MRecord? }

  ghost function StatsCounter(c: Stats, m: Metric): nat
    requires !OfBatch(m)
  {
    match m
    case MStarted => c.started
    case MAnswered => c.answered
    case MFailed => c.failed
    case MCancelled => c.cancelled
    case MCause(key) => At(c.failures, key)
    case MCauses => SumOf(c.failures)
    case MDropped => c.dropped
    case MNoAudio => c.noAudio
    case MSent => c.rtpSent
    case MRecv => c.rtpRecv
  }

  function BatchCounter(b: Batch, m: Metric): nat
    requires OfBatch(m)
  {
    match m
    case MSize(_) => b.size
    case MWaiting(_) => b.wg
    case MBatchAnswered(_) => b.answered
    case MBatchFailed(_) => b.failed
    case MRecord(_, r) => multiset(b.records)[r]
  }

  ghost function Counter(s: State, m: Metric): nat {
    if !OfBatch(m) then StatsCounter(s.stats, m)
    else if m.b < |s.batches| then BatchCounter(s.batches[m.b], m)
    else 0
  }

  function One(p: bool): nat { if p then 1 else 0 }

  /** The failure cause this call has noted in the session's health, if any. */
  function NotedCause(at: Place): Option<FailKey> {
    match at
    case FailCount(key) => Some(key)
    case FailRelease(key) => Some(key)
    case Append(Failed(key)) => Some(key)
    case Tally(Failed(key)) => Some(key)
    case Leaving(Some(Failed(key))) => Some(key)
    case Finished(Some(Failed(key))) => Some(key)
    case _ => None
  }

  /** The result this call has handed to its batch, if it got that far. */
  function Result(at: Place): Option<Outcome> {
    match at
    case Tally(out) => Some(out)
    case Leaving(end) => end
    case Finished(end) => end
    case _ => None
  }

  /** The end of an answered call, once the given number of its closing operations is done. */
  function Ended(at: Place, done: nat): Option<Talk> {
    match at
    case EndSent(_, talk) => if done <= 1 then Some(talk) else None
    case EndRecv(_, talk) => if done <= 2 then Some(talk) else None
    case EndUnpublish(_, talk) => Some(talk)
    case EndRelease(talk) => Some(talk)
    case Append(Answered(talk)) => Some(talk)
    case Tally(Answered(talk)) => Some(talk)
    case Leaving(Some(Answered(talk))) => Some(talk)
    case Finished(Some(Answered(talk))) => Some(talk)
    case _ => None
  }

  predicate CountedAnswered(at: Place) {
    at.AnswerId? || HasId(at) || at.EndRelease? || (at.Append? && at.out.Answered?) ||
    (Result(at).Some? && Result(at).value.Answered?)
  }

  predicate CountedFailed(at: Place) {
    at.FailRelease? || (at.Append? && at.out.Failed?) || (Result(at).Some? && Result(at).value.Failed?)
  }

  predicate CountedCancelled(at: Place) {
    at.CancelTally? || (at.Leaving? && at.end.None?) || (at.Finished? && at.end.None?)
  }

  /** Started, and not yet counted as answered, failed or cancelled. */
  predicate Unresolved(at: Place) {
    !at.Held? && !CountedAnswered(at) && !CountedFailed(at) && !CountedCancelled(at)
  }

  function Share(t: Task, m: Metric): nat {
    match m
    case MStarted => One(!t.at.Held?)
    case MAnswered => One(CountedAnswered(t.at))
    case MFailed => One(CountedFailed(t.at))
    case MCancelled => One(CountedCancelled(t.at))
    case MCause(key) => One(NotedCause(t.at) == Some(key))
    case MCauses => One(NotedCause(t.at).Some?)
    case MDropped => One(Ended(t.at, 1).Some? && Ended(t.at, 1).value.dropped)
    case MNoAudio => One(Ended(t.at, 1).Some? && Silent(t.job, Ended(t.at, 1).value))
    case MSent => if Ended(t.at, 2).Some? then Ended(t.at, 2).value.sent else 0
    case MRecv => if Ended(t.at, 3).Some? then Ended(t.at, 3).value.recv else 0
    case MSize(b) => One(t.job.batch == b)
    case MWaiting(b) => One(t.job.batch == b && !t.at.Finished?)
    case MBatchAnswered(b) =>
      One(t.job.batch == b && !t.at.Tally? && Result(t.at).Some? && Result(t.at).value.Answered?)
    case MBatchFailed(b) =>
      One(t.job.batch == b && (t.at.Leaving? || t.at.Finished?) &&
          !(Result(t.at).Some? && Result(t.at).value.Answered?))
    case MRecord(b, r) => One(t.job.batch == b && Result(t.at).Some? && Record(t.job, Result(t.at).value) == r)
  }

  function Total(tasks: seq<Task>, m: Metric): nat {
    if tasks == [] then 0 else Total(tasks[..|tasks| - 1], m) + Share(tasks[|tasks| - 1], m)
  }

  lemma {:induction false} TotalConcat(a: seq<Task>, b: seq<Task>, m: Metric)
    ensures Total(a + b, m) == Total(a, m) + Total(b, m)
  {
    if b == [] {
      assert a + b == a;
    } else {
      assert (a + b)[..|a + b| - 1] == a + b[..|b| - 1];
      TotalConcat(a, b[..|b| - 1], m);
    }
  }

  lemma {:induction false} TotalUpdate(tasks: seq<Task>, i: nat, t: Task, m: Metric)
    requires i < |tasks|
    ensures Total(tasks[i := t], m) == Total(tasks, m) - Share(tasks[i], m) + Share(t, m)
  {
    var last := |tasks| - 1;
    if i == last {
      assert tasks[i := t][..last] == tasks[..last];
    } else {
      assert tasks[i := t][..last] == tasks[..last][i := t];
      TotalUpdate(tasks[..last], i, t, m);
    }
  }

  /** No call's share is larger than the total. */
  lemma {:induction false} ShareAtMostTotal(tasks: seq<Task>, m: Metric, i: nat)
    requires i < |tasks|
    ensures Share(tasks[i], m) <= Total(tasks, m)
  {
    if i < |tasks| - 1 { ShareAtMostTotal(tasks[..|tasks| - 1], m, i); }
  }
}
