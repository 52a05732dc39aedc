/** What every step of a call session keeps, and so what holds in every reachable state. */
module CallSessionSafety {
  import opened MapSums
  import opened CallSession

  // ---------------------------------------------------------------------------------------------
  // Ownership of the extensions
  // ---------------------------------------------------------------------------------------------

  predicate Owns(local: bool, t: Task, e: Ext) {
    Holds(t.at) && (e == CallerExt(t.job) || e == CalleeExt(local, t.job))
  }

  predicate InUse(local: bool, tasks: seq<Task>, e: Ext, i: int) {
    0 <= i < |tasks| && Owns(local, tasks[i], e)
  }

  /** An extension is unavailable exactly when one unreleased call holds it, and no call holds one twice. */
  ghost predicate Ownership(p: Pools, tasks: seq<Task>) {
    && (forall i | 0 <= i < |tasks| && Holds(tasks[i].at) ::
          CallerExt(tasks[i].job) != CalleeExt(p.local, tasks[i].job))
    && (forall i, e :: InUse(p.local, tasks, e, i) ==> e in p.available && !p.available[e])
    && (forall i, j, e :: InUse(p.local, tasks, e, i) && InUse(p.local, tasks, e, j) ==> i == j)
    && (forall e | e in p.available && !p.available[e] :: exists i :: InUse(p.local, tasks, e, i))
  }

  /** Places of the free lists name extensions that are free and different. */
  lemma {:induction false} PairsApart(p: Pools, n: nat, callers: seq<Aor>, callees: seq<Aor>, i: nat, j: nat)
    requires FreeLists(p, callers, callees)
    requires i < |Pairs(p.local, n, callers, callees)| && j < |Pairs(p.local, n, callers, callees)|
    ensures var a, b := Pairs(p.local, n, callers, callees)[i], Pairs(p.local, n, callers, callees)[j];
      && Ext(false, a.0) in p.available && p.available[Ext(false, a.0)]
      && Ext(!p.local, a.1) in p.available && p.available[Ext(!p.local, a.1)]
      && Ext(false, a.0) != Ext(!p.local, b.1)
      && (i != j ==> a.0 != b.0 && a.1 != b.1)
  {
    var a := Pairs(p.local, n, callers, callees)[i];
    assert a.0 in callers && a.1 in callees;
  }

  /** The pairs are made of free extensions, all different. */
  ghost predicate FreshPairs(p: Pools, pairs: seq<(Aor, Aor)>) {
    forall i, j | 0 <= i < |pairs| && 0 <= j < |pairs| ::
      && Ext(false, pairs[i].0) in p.available && p.available[Ext(false, pairs[i].0)]
      && Ext(!p.local, pairs[i].1) in p.available && p.available[Ext(!p.local, pairs[i].1)]
      && Ext(false, pairs[i].0) != Ext(!p.local, pairs[j].1)
      && (i != j ==> pairs[i].0 != pairs[j].0 && pairs[i].1 != pairs[j].1)
  }

  lemma {:induction false} PairsFresh(p: Pools, n: nat, callers: seq<Aor>, callees: seq<Aor>)
    requires FreeLists(p, callers, callees)
    ensures FreshPairs(p, Pairs(p.local, n, callers, callees))
  {
    var pairs := Pairs(p.local, n, callers, callees);
    forall i, j | 0 <= i < |pairs| && 0 <= j < |pairs|
      ensures
        && Ext(false, pairs[i].0) in p.available && p.available[Ext(false, pairs[i].0)]
        && Ext(!p.local, pairs[i].1) in p.available && p.available[Ext(!p.local, pairs[i].1)]
        && Ext(false, pairs[i].0) != Ext(!p.local, pairs[j].1)
        && (i != j ==> pairs[i].0 != pairs[j].0 && pairs[i].1 != pairs[j].1)
    {
      PairsApart(p, n, callers, callees, i, j);
    }
  }

  lemma {:induction false} OwnershipReserve(p: Pools, tasks: seq<Task>, pairs: seq<(Aor, Aor)>, added: seq<Task>)
    requires Ownership(p, tasks) && FreshPairs(p, pairs) && |added| == |pairs|
    requires forall i | 0 <= i < |pairs| ::
      added[i].job.caller == pairs[i].0 && added[i].job.callee == pairs[i].1 && added[i].at.Held?
    ensures Ownership(Reserved(p, pairs), tasks + added)
  {
    var q, all, prior := Reserved(p, pairs), tasks + added, |tasks|;
    forall i, e
      ensures InUse(p.local, all, e, i) ==>
        if i < prior then InUse(p.local, tasks, e, i)
        else e == Ext(false, pairs[i - prior].0) || e == Ext(!p.local, pairs[i - prior].1)
      ensures InUse(p.local, all, e, i) && i >= prior ==> Among(p.local, pairs, e)
    {}
    forall e | e in q.available && !q.available[e]
      ensures exists i :: InUse(p.local, all, e, i)
    {
      var i := HolderAfterReserve(p, tasks, pairs, added, e);
    }
  }

  lemma {:induction false} HolderAfterReserve(
    p: Pools, tasks: seq<Task>, pairs: seq<(Aor, Aor)>, added: seq<Task>, e: Ext)
    returns (i: nat)
    requires Ownership(p, tasks) && |added| == |pairs|
    requires forall i | 0 <= i < |pairs| ::
      added[i].job.caller == pairs[i].0 && added[i].job.callee == pairs[i].1 && added[i].at.Held?
    requires e in p.available && (!p.available[e] || Among(p.local, pairs, e))
    ensures InUse(p.local, tasks + added, e, i)
  {
    if !p.available[e] {
      i :| InUse(p.local, tasks, e, i);
    } else {
      var k :| 0 <= k < |pairs| && (e == Ext(false, pairs[k].0) || e == Ext(!p.local, pairs[k].1));
      i := |tasks| + k;
      assert (tasks + added)[i] == added[k];
    }
  }

  lemma {:induction false} OwnershipRelease(p: Pools, tasks: seq<Task>, i: nat, t: Task)
    requires Ownership(p, tasks) && i < |tasks| && Holds(tasks[i].at) && !Holds(t.at)
    ensures Ownership(Released(p, tasks[i].job.caller, tasks[i].job.callee), tasks[i := t])
  {
    var q, after := Released(p, tasks[i].job.caller, tasks[i].job.callee), tasks[i := t];
    assert InUse(p.local, tasks, CallerExt(tasks[i].job), i);
    assert InUse(p.local, tasks, CalleeExt(p.local, tasks[i].job), i);
    forall j, e ensures InUse(p.local, after, e, j) <==> j != i && InUse(p.local, tasks, e, j) {}
    forall e | e in q.available && !q.available[e]
      ensures exists j :: InUse(p.local, after, e, j)
    {
      var j :| InUse(p.local, tasks, e, j);
      assert InUse(p.local, after, e, j);
    }
  }

  lemma {:induction false} OwnershipSame(p: Pools, q: Pools, tasks: seq<Task>, i: nat, t: Task)
    requires Ownership(p, tasks) && q.local == p.local && q.available == p.available
    requires i < |tasks| && t.job == tasks[i].job && Holds(t.at) == Holds(tasks[i].at)
    ensures Ownership(q, tasks[i := t])
  {
    var after := tasks[i := t];
    forall j, e ensures InUse(p.local, after, e, j) <==> InUse(p.local, tasks, e, j) {}
    forall e | e in q.available && !q.available[e]
      ensures exists j :: InUse(q.local, after, e, j)
    {
      var j :| InUse(p.local, tasks, e, j);
      assert InUse(q.local, after, e, j);
    }
  }

  /** A call gives up its extensions exactly with its own release. */
  lemma {:induction false} HoldsUntilRelease(nextCallID: nat, at: Place, act: Act)
    ensures var releases := at.CancelRelease? || at.FailRelease? || at.EndRelease?;
      if releases then Holds(at) && !Holds(Target(nextCallID, at, act))
      else Holds(Target(nextCallID, at, act)) == Holds(at)
  {}

  lemma {:induction false} OwnershipGo(s: State, i: nat, act: Act)
    requires Ownership(s.pools, s.tasks) && MayGoAt(s, i, act)
    ensures Ownership(GoNext(s, i, act).pools, GoNext(s, i, act).tasks)
  {
    var t := s.tasks[i];
    var u := Task(t.job, Target(s.listed.nextCallID, t.at, act));
    HoldsUntilRelease(s.listed.nextCallID, t.at, act);
    if t.at.CancelRelease? || t.at.FailRelease? || t.at.EndRelease? {
      OwnershipRelease(s.pools, s.tasks, i, u);
    } else {
      OwnershipSame(s.pools, PoolsAfter(s.pools, t), s.tasks, i, u);
    }
  }

  /** A callee's preferred codec is its own call's from the moment that call sets it until it releases it. */
  ghost predicate CodecsKept(p: Pools, tasks: seq<Task>) {
    forall i | 0 <= i < |tasks| && CodecChosen(tasks[i].at) ::
      CalleeExt(p.local, tasks[i].job) in p.preferred &&
      p.preferred[CalleeExt(p.local, tasks[i].job)] == tasks[i].job.calleeCodec
  }

  lemma {:induction false} CodecsKeptGo(s: State, i: nat, act: Act)
    requires Ownership(s.pools, s.tasks) && CodecsKept(s.pools, s.tasks) && MayGoAt(s, i, act)
    ensures CodecsKept(GoNext(s, i, act).pools, GoNext(s, i, act).tasks)
  {
    var p, t := s.pools, s.tasks[i];
    var q, tasks := GoNext(s, i, act).pools, GoNext(s, i, act).tasks;
    forall j | 0 <= j < |tasks| && CodecChosen(tasks[j].at)
      ensures CalleeExt(q.local, tasks[j].job) in q.preferred &&
        q.preferred[CalleeExt(q.local, tasks[j].job)] == tasks[j].job.calleeCodec
    {
      if j != i {
        assert InUse(p.local, s.tasks, CalleeExt(p.local, s.tasks[j].job), j);
        if t.at.SetCodec? { assert InUse(p.local, s.tasks, CalleeExt(p.local, t.job), i); }
      }
    }
  }

  // ---------------------------------------------------------------------------------------------
  // The counters
  // ---------------------------------------------------------------------------------------------

  ghost predicate Balanced(s: State) {
    forall m :: Counter(s, m) == Total(s.tasks, m)
  }

  /** One operation changes every counter of the session by what it adds to the call's own share. */
  lemma {:induction false} StatsGo(c: Stats, t: Task, at: Place, m: Metric, nextCallID: nat, act: Act)
    requires !OfBatch(m) && at == Target(nextCallID, t.at, act)
    ensures StatsCounter(StatsAfter(c, t), m) == StatsCounter(c, m) - Share(t, m) + Share(Task(t.job, at), m)
  {
    if m.MCause? || m.MCauses? {
      CausesGo(c, t, at, m, nextCallID, act);
    } else {
      TalliesGo(c, t, at, m, nextCallID, act);
    }
  }

  lemma {:induction false} CausesGo(c: Stats, t: Task, at: Place, m: Metric, nextCallID: nat, act: Act)
    requires (m.MCause? || m.MCauses?) && at == Target(nextCallID, t.at, act)
    ensures StatsCounter(StatsAfter(c, t), m) == StatsCounter(c, m) - Share(t, m) + Share(Task(t.job, at), m)
  {
    if m.MCause? { CauseGo(c, t, at, m.key, nextCallID, act); } else { AllCausesGo(c, t, at, nextCallID, act); }
  }

  lemma {:induction false} NotedGo(t: Task, at: Place, nextCallID: nat, act: Act)
    requires at == Target(nextCallID, t.at, act)
    ensures if t.at.FailHealth? then NotedCause(t.at) == None && NotedCause(at) == Some(t.at.key)
            else NotedCause(at) == NotedCause(t.at)
  {}

  lemma {:induction false} CauseGo(c: Stats, t: Task, at: Place, key: FailKey, nextCallID: nat, act: Act)
    requires at == Target(nextCallID, t.at, act)
    ensures At(StatsAfter(c, t).failures, key) ==
            At(c.failures, key) - One(NotedCause(t.at) == Some(key)) + One(NotedCause(at) == Some(key))
  {
    NotedGo(t, at, nextCallID, act);
  }

  lemma {:induction false} AllCausesGo(c: Stats, t: Task, at: Place, nextCallID: nat, act: Act)
    requires at == Target(nextCallID, t.at, act)
    ensures SumOf(StatsAfter(c, t).failures) ==
            SumOf(c.failures) - One(NotedCause(t.at).Some?) + One(NotedCause(at).Some?)
  {
    NotedGo(t, at, nextCallID, act);
    if t.at.FailHealth? { SumOfUpdate(c.failures, t.at.key, At(c.failures, t.at.key) + 1); }
  }

  lemma {:induction false} TalliesGo(c: Stats, t: Task, at: Place, m: Metric, nextCallID: nat, act: Act)
    requires !OfBatch(m) && !m.MCause? && !m.MCauses? && at == Target(nextCallID, t.at, act)
    ensures StatsCounter(StatsAfter(c, t), m) == StatsCounter(c, m) - Share(t, m) + Share(Task(t.job, at), m)
  {
    match m
    case MStarted => StartedGo(c, t, at, nextCallID, act);
    case MAnswered => AnsweredGo(c, t, at, nextCallID, act);
    case MFailed => FailedGo(c, t, at, nextCallID, act);
    case MCancelled => CancelledGo(c, t, at, nextCallID, act);
    case _ => EndsGo(c, t, at, m, nextCallID, act);
  }

  lemma {:induction false} StartedGo(c: Stats, t: Task, at: Place, nextCallID: nat, act: Act)
    requires at == Target(nextCallID, t.at, act)
    ensures StatsAfter(c, t).started == c.started - One(!t.at.Held?) + One(!at.Held?)
  {}

  lemma {:induction false} AnsweredGo(c: Stats, t: Task, at: Place, nextCallID: nat, act: Act)
    requires at == Target(nextCallID, t.at, act)
    ensures StatsAfter(c, t).answered == c.answered - One(CountedAnswered(t.at)) + One(CountedAnswered(at))
  {}

  lemma {:induction false} FailedGo(c: Stats, t: Task, at: Place, nextCallID: nat, act: Act)
    requires at == Target(nextCallID, t.at, act)
    ensures StatsAfter(c, t).failed == c.failed - One(CountedFailed(t.at)) + One(CountedFailed(at))
  {}

  lemma {:induction false} CancelledGo(c: Stats, t: Task, at: Place, nextCallID: nat, act: Act)
    requires at == Target(nextCallID, t.at, act)
    ensures StatsAfter(c, t).cancelled == c.cancelled - One(CountedCancelled(t.at)) + One(CountedCancelled(at))
  {}

  lemma {:induction false} EndsGo(c: Stats, t: Task, at: Place, m: Metric, nextCallID: nat, act: Act)
    requires (m.MDropped? || m.MNoAudio? || m.MSent? || m.MRecv?) && at == Target(nextCallID, t.at, act)
    ensures StatsCounter(StatsAfter(c, t), m) == StatsCounter(c, m) - Share(t, m) + Share(Task(t.job, at), m)
  {
    EndedGo(t, at, nextCallID, act);
  }

  /** Each of the three counts of a call's end is made at its own place. */
  lemma {:induction false} EndedGo(t: Task, at: Place, nextCallID: nat, act: Act)
    requires at == Target(nextCallID, t.at, act)
    ensures if t.at.EndHealth? then Ended(t.at, 1) == None && Ended(at, 1) == Some(t.at.talk)
            else Ended(at, 1) == Ended(t.at, 1)
    ensures if t.at.EndSent? then Ended(t.at, 2) == None && Ended(at, 2) == Some(t.at.talk)
            else Ended(at, 2) == Ended(t.at, 2)
    ensures if t.at.EndRecv? then Ended(t.at, 3) == None && Ended(at, 3) == Some(t.at.talk)
            else Ended(at, 3) == Ended(t.at, 3)
  {}

  lemma {:induction false} RecordGo(b: Batch, t: Task, at: Place, r: Record, nextCallID: nat, act: Act)
    requires at == Target(nextCallID, t.at, act) && (t.at.Leaving? ==> b.wg > 0)
    ensures multiset(BatchAfter(b, t).records)[r] + One(Result(t.at).Some? && Record(t.job, Result(t.at).value) == r)
         == multiset(b.records)[r] + One(Result(at).Some? && Record(t.job, Result(at).value) == r)
  {
    if t.at.Append? {
      var x := Record(t.job, t.at.out);
      assert multiset(b.records + [x]) == multiset(b.records) + multiset{x};
    } else {
      assert Result(at) == Result(t.at);
    }
  }

  /** A call is counted as answered when it has been tallied, and as failed when it then leaves. */
  predicate Tallied(at: Place, answered: bool) {
    if answered then !at.Tally? && Result(at).Some? && Result(at).value.Answered?
    else (at.Leaving? || at.Finished?) && !(Result(at).Some? && Result(at).value.Answered?)
  }

  lemma {:induction false} ResultGo(b: Batch, t: Task, at: Place, answered: bool, nextCallID: nat, act: Act)
    requires at == Target(nextCallID, t.at, act) && (t.at.Leaving? ==> b.wg > 0)
    ensures var c := BatchAfter(b, t);
      (if answered then c.answered else c.failed) + One(Tallied(t.at, answered)) ==
      (if answered then b.answered else b.failed) + One(Tallied(at, answered))
  {}

  lemma {:induction false} WaitingGo(b: Batch, t: Task, at: Place, nextCallID: nat, act: Act)
    requires at == Target(nextCallID, t.at, act) && (t.at.Leaving? ==> b.wg > 0)
    ensures BatchAfter(b, t).wg + One(!t.at.Finished?) == b.wg + One(!at.Finished?)
  {}

  lemma {:induction false} BatchGo(b: Batch, t: Task, at: Place, m: Metric, nextCallID: nat, act: Act)
    requires OfBatch(m) && t.job.batch == m.b && at == Target(nextCallID, t.at, act) && (t.at.Leaving? ==> b.wg > 0)
    ensures BatchCounter(BatchAfter(b, t), m) == BatchCounter(b, m) - Share(t, m) + Share(Task(t.job, at), m)
  {
    match m
    case MRecord(_, r) => RecordGo(b, t, at, r, nextCallID, act);
    case MBatchAnswered(_) => ResultGo(b, t, at, true, nextCallID, act);
    case MBatchFailed(_) => ResultGo(b, t, at, false, nextCallID, act);
    case MWaiting(_) => WaitingGo(b, t, at, nextCallID, act);
    case MSize(_) =>
  }

  lemma {:induction false} BalancedGo(s: State, i: nat, act: Act, m: Metric)
    requires MayGoAt(s, i, act) && Counter(s, m) == Total(s.tasks, m)
    ensures Counter(GoNext(s, i, act), m) == Total(GoNext(s, i, act).tasks, m)
  {
    var t := s.tasks[i];
    var u := Task(t.job, Target(s.listed.nextCallID, t.at, act));
    TotalUpdate(s.tasks, i, u, m);
    assert Counter(GoNext(s, i, act), m) == Counter(s, m) - Share(t, m) + Share(u, m) by {
      CounterGo(s, i, act, m);
    }
  }

  lemma {:induction false} CounterGo(s: State, i: nat, act: Act, m: Metric)
    requires MayGoAt(s, i, act)
    ensures var t := s.tasks[i];
      Counter(GoNext(s, i, act), m) ==
      Counter(s, m) - Share(t, m) + Share(Task(t.job, Target(s.listed.nextCallID, t.at, act)), m)
  {
    var t := s.tasks[i];
    var at := Target(s.listed.nextCallID, t.at, act);
    if !OfBatch(m) {
      StatsGo(s.stats, t, at, m, s.listed.nextCallID, act);
    } else if m.b == t.job.batch {
      BatchGo(s.batches[m.b], t, at, m, s.listed.nextCallID, act);
    } else {
      assert Share(t, m) == Share(Task(t.job, at), m) == 0;
    }
  }

  lemma {:induction false} TotalHeld(tasks: seq<Task>, b: nat, m: Metric)
    requires forall i | 0 <= i < |tasks| :: tasks[i].job.batch == b && tasks[i].at.Held?
    ensures Total(tasks, m) == if m == MSize(b) || m == MWaiting(b) then |tasks| else 0
  {
    if tasks != [] { TotalHeld(tasks[..|tasks| - 1], b, m); }
  }

  /** Calls of other batches add nothing to a batch that does not exist yet. */
  lemma {:induction false} TotalOther(tasks: seq<Task>, m: Metric)
    requires OfBatch(m) && forall i | 0 <= i < |tasks| :: tasks[i].job.batch != m.b
    ensures Total(tasks, m) == 0
  {
    if tasks != [] { TotalOther(tasks[..|tasks| - 1], m); }
  }

  /** What a reservation adds to a metric: the size of its batch, and as many calls to wait for. */
  function ReserveAdds(s: State, step: Step, m: Metric): nat
    requires step.Reserve?
  {
    if m == MSize(|s.batches|) || m == MWaiting(|s.batches|)
    then |Pairs(s.pools.local, step.n, step.callers, step.callees)|
    else 0
  }

  lemma {:induction false} TotalReserve(s: State, step: Step, m: Metric)
    requires step.Reserve?
    ensures Total(ReserveNext(s, step).tasks, m) == Total(s.tasks, m) + ReserveAdds(s, step, m)
  {
    var pairs := Pairs(s.pools.local, step.n, step.callers, step.callees);
    if pairs != [] {
      var added := NewTasks(|s.batches|, pairs, step.codec, step.calleeCodec, step.sendMedia);
      TotalConcat(s.tasks, added, m);
      TotalHeld(added, |s.batches|, m);
    }
  }

  lemma {:induction false} BalancedReserve(s: State, step: Step, m: Metric)
    requires BatchesFit(s) && step.Reserve? && Counter(s, m) == Total(s.tasks, m)
    ensures Counter(ReserveNext(s, step), m) == Total(ReserveNext(s, step).tasks, m)
  {
    TotalReserve(s, step, m);
    CounterReserve(s, step, m);
  }

  lemma {:induction false} CounterReserve(s: State, step: Step, m: Metric)
    requires BatchesFit(s) && step.Reserve? && Counter(s, m) == Total(s.tasks, m)
    ensures Counter(ReserveNext(s, step), m) == Total(s.tasks, m) + ReserveAdds(s, step, m)
  {
    if OfBatch(m) && m.b == |s.batches| { TotalOther(s.tasks, m); }
  }

  // ---------------------------------------------------------------------------------------------
  // The list of active calls
  // ---------------------------------------------------------------------------------------------

  predicate Lists(tasks: seq<Task>, id: nat, i: int) {
    0 <= i < |tasks| && HasId(tasks[i].at) && tasks[i].at.id == id
  }

  /** Every call that has an id has one of its own. */
  ghost predicate OwnIds(l: Listed, tasks: seq<Task>) {
    && (forall id: nat, i :: Lists(tasks, id, i) ==> id <= l.nextCallID)
    && (forall id: nat, i, j :: Lists(tasks, id, i) && Lists(tasks, id, j) ==> i == j)
  }

  ghost predicate PublishedListed(l: Listed, tasks: seq<Task>) {
    forall id: nat, i :: Lists(tasks, id, i) && Published(tasks[i].at) ==>
      id in l.calls && l.calls[id] == (tasks[i].job.caller, tasks[i].job.callee)
  }

  ghost predicate ListedPublished(l: Listed, tasks: seq<Task>) {
    forall id | id in l.calls :: exists i :: Lists(tasks, id, i) && Published(tasks[i].at)
  }

  /** `calls` holds exactly the calls between their publication and their removal, each under its own id. */
  ghost predicate CallsListed(l: Listed, tasks: seq<Task>) {
    OwnIds(l, tasks) && PublishedListed(l, tasks) && ListedPublished(l, tasks)
  }

  lemma {:induction false} CallsListedGo(s: State, i: nat, act: Act)
    requires CallsListed(s.listed, s.tasks) && MayGoAt(s, i, act)
    ensures CallsListed(GoNext(s, i, act).listed, GoNext(s, i, act).tasks)
  {
    var t := s.tasks[i];
    CallsListedAfter(s.listed, s.tasks, i, Target(s.listed.nextCallID, t.at, act), act);
  }

  /** A step gives its call an id never used before, or none that it did not have. */
  lemma {:induction false} IdsAfter(l: Listed, tasks: seq<Task>, i: nat, at: Place, act: Act, tasks': seq<Task>)
    requires i < |tasks| && at == Target(l.nextCallID, tasks[i].at, act)
    requires tasks[i].at.Talking? ==> at.EndHealth?
    requires tasks' == tasks[i := Task(tasks[i].job, at)]
    ensures HasId(tasks[i].at) ==> Lists(tasks, tasks[i].at.id, i)
    ensures forall id: nat, j :: Lists(tasks', id, j) ==>
      if j == i && tasks[i].at.AnswerId? then id == l.nextCallID + 1 else Lists(tasks, id, j)
  {}

  lemma {:induction false} OwnIdsAfter(l: Listed, tasks: seq<Task>, i: nat, at: Place, act: Act, tasks': seq<Task>)
    requires OwnIds(l, tasks) && i < |tasks| && at == Target(l.nextCallID, tasks[i].at, act)
    requires tasks[i].at.Talking? ==> at.EndHealth?
    requires tasks' == tasks[i := Task(tasks[i].job, at)]
    ensures OwnIds(ListedAfter(l, tasks[i]), tasks')
  {
    IdsAfter(l, tasks, i, at, act, tasks');
  }

  lemma {:induction false} PublishedAfter(l: Listed, tasks: seq<Task>, i: nat, at: Place, act: Act, tasks': seq<Task>)
    requires OwnIds(l, tasks) && PublishedListed(l, tasks)
    requires i < |tasks| && at == Target(l.nextCallID, tasks[i].at, act) && (tasks[i].at.Talking? ==> at.EndHealth?)
    requires tasks' == tasks[i := Task(tasks[i].job, at)]
    ensures PublishedListed(ListedAfter(l, tasks[i]), tasks')
  {
    IdsAfter(l, tasks, i, at, act, tasks');
  }

  lemma {:induction false} ListedStays(l: Listed, tasks: seq<Task>, i: nat, at: Place, act: Act, tasks': seq<Task>)
    requires OwnIds(l, tasks) && ListedPublished(l, tasks)
    requires i < |tasks| && at == Target(l.nextCallID, tasks[i].at, act) && (tasks[i].at.Talking? ==> at.EndHealth?)
    requires tasks' == tasks[i := Task(tasks[i].job, at)]
    ensures ListedPublished(ListedAfter(l, tasks[i]), tasks')
  {
    var l' := ListedAfter(l, tasks[i]);
    forall id | id in l'.calls
      ensures exists j :: Lists(tasks', id, j) && Published(tasks'[j].at)
    {
      if id in l.calls {
        var j :| Lists(tasks, id, j) && Published(tasks[j].at);
        assert Lists(tasks', id, j) && Published(tasks'[j].at);
      } else {
        assert Lists(tasks', id, i) && Published(tasks'[i].at);
      }
    }
  }

  lemma {:induction false} CallsListedAfter(l: Listed, tasks: seq<Task>, i: nat, at: Place, act: Act)
    requires CallsListed(l, tasks) && i < |tasks| && at == Target(l.nextCallID, tasks[i].at, act)
    requires tasks[i].at.Talking? ==> at.EndHealth?
    ensures CallsListed(ListedAfter(l, tasks[i]), tasks[i := Task(tasks[i].job, at)])
  {
    var tasks' := tasks[i := Task(tasks[i].job, at)];
    OwnIdsAfter(l, tasks, i, at, act, tasks');
    PublishedAfter(l, tasks, i, at, act, tasks');
    ListedStays(l, tasks, i, at, act, tasks');
  }

  lemma {:induction false} CallsListedReserve(l: Listed, tasks: seq<Task>, added: seq<Task>)
    requires CallsListed(l, tasks) && forall i | 0 <= i < |added| :: added[i].at.Held?
    ensures CallsListed(l, tasks + added)
  {
    var all := tasks + added;
    forall id: nat, i ensures Lists(all, id, i) <==> Lists(tasks, id, i) {}
    forall id | id in l.calls
      ensures exists i :: Lists(all, id, i) && Published(all[i].at)
    {
      var i :| Lists(tasks, id, i) && Published(tasks[i].at);
      assert Lists(all, id, i);
    }
  }

  // ---------------------------------------------------------------------------------------------
  // The stop channels and the batches
  // ---------------------------------------------------------------------------------------------

  /** Every channel made so far is the current one, or waits for its Stop to close it, or was closed once. */
  ghost predicate ChannelsOnce(k: Stops) {
    && (forall c :: k.closed[c] <= 1)
    && (forall c | c in k.closing :: c < k.current && c !in k.closed)
    && (forall c | c in k.closed :: c < k.current)
    && (forall c: nat | c < k.current :: c in k.closing || c in k.closed)
  }

  ghost predicate BatchesFit(s: State) {
    && (forall i | 0 <= i < |s.tasks| :: s.tasks[i].job.batch < |s.batches|)
    && (forall i | 0 <= i < |s.tasks| && !s.tasks[i].at.Held? :: s.batches[s.tasks[i].job.batch].stop.Some?)
    && (forall b | 0 <= b < |s.batches| :: BatchFits(s.stops.current, s.batches[b]))
  }

  /** onBatchDone has been called at most once, after every call of the batch left, with all its records. */
  predicate BatchFits(current: nat, b: Batch) {
    && 0 < b.size
    && (b.stop.Some? ==> b.stop.value <= current)
    && (b.logged ==> b.wg == 0 && b.stop.Some?)
    && (b.deliveries == [] || (b.logged && b.deliveries == [b.records]))
  }

  /** Done is never called on a WaitGroup at zero, and records are only added before it reaches zero. */
  lemma {:induction false} WaitedFor(s: State, i: nat)
    requires Balanced(s) && BatchesFit(s) && i < |s.tasks| && !s.tasks[i].at.Finished?
    ensures s.batches[s.tasks[i].job.batch].wg > 0
    ensures !s.batches[s.tasks[i].job.batch].logged
  {
    var m := MWaiting(s.tasks[i].job.batch);
    assert Counter(s, m) == Total(s.tasks, m);
    ShareAtMostTotal(s.tasks, m, i);
  }

  lemma {:induction false} BatchesFitGo(s: State, i: nat, act: Act)
    requires Balanced(s) && BatchesFit(s) && MayGoAt(s, i, act)
    ensures BatchesFit(GoNext(s, i, act))
  {
    WaitedFor(s, i);
    var t := GoNext(s, i, act);
    assert forall b | 0 <= b < |t.batches| && b != s.tasks[i].job.batch :: t.batches[b] == s.batches[b];
    assert forall j | 0 <= j < |t.tasks| && j != i :: t.tasks[j] == s.tasks[j];
  }

  // ---------------------------------------------------------------------------------------------
  // All together
  // ---------------------------------------------------------------------------------------------

  ghost predicate Inv(s: State) {
    && Ownership(s.pools, s.tasks) && CodecsKept(s.pools, s.tasks) && Balanced(s)
    && CallsListed(s.listed, s.tasks) && ChannelsOnce(s.stops) && BatchesFit(s)
  }

  lemma {:induction false} InvGo(s: State, i: nat, act: Act)
    requires Inv(s) && MayGoAt(s, i, act)
    ensures Inv(GoNext(s, i, act))
  {
    OwnershipGo(s, i, act);
    CodecsKeptGo(s, i, act);
    CallsListedGo(s, i, act);
    BatchesFitGo(s, i, act);
    forall m ensures Counter(GoNext(s, i, act), m) == Total(GoNext(s, i, act).tasks, m) { BalancedGo(s, i, act, m); }
  }

  lemma {:induction false} InvReserve(s: State, step: Step)
    requires Inv(s) && step.Reserve? && Enabled(s, step)
    ensures Inv(ReserveNext(s, step))
  {
    var pairs := Pairs(s.pools.local, step.n, step.callers, step.callees);
    if pairs != [] {
      var added := NewTasks(|s.batches|, pairs, step.codec, step.calleeCodec, step.sendMedia);
      PairsFresh(s.pools, step.n, step.callers, step.callees);
      OwnershipReserve(s.pools, s.tasks, pairs, added);
      CallsListedReserve(s.listed, s.tasks, added);
      BatchesReserve(s, step);
      var t := ReserveNext(s, step);
      CodecsReserve(s.pools, t.pools, s.tasks, added);
      forall m ensures Counter(t, m) == Total(t.tasks, m) { BalancedReserve(s, step, m); }
    }
  }

  lemma {:induction false} CodecsReserve(p: Pools, q: Pools, tasks: seq<Task>, added: seq<Task>)
    requires CodecsKept(p, tasks) && q.local == p.local && q.preferred == p.preferred
    requires forall i | 0 <= i < |added| :: added[i].at.Held?
    ensures CodecsKept(q, tasks + added)
  {}

  lemma {:induction false} BatchesReserve(s: State, step: Step)
    requires BatchesFit(s) && step.Reserve?
    ensures BatchesFit(ReserveNext(s, step))
  {
    var t := ReserveNext(s, step);
    assert forall b | 0 <= b < |s.batches| :: t.batches[b] == s.batches[b];
    assert forall i | 0 <= i < |s.tasks| :: t.tasks[i] == s.tasks[i];
  }

  /** The remaining steps touch one batch's own progress or the stop channels, and nothing else. */
  lemma {:induction false} CounterOther(s: State, step: Step, m: Metric)
    requires !step.Reserve? && !step.Go? && Enabled(s, step)
    ensures Counter(Next(s, step), m) == Counter(s, m)
  {}

  lemma {:induction false} StopsOther(s: State, step: Step)
    requires ChannelsOnce(s.stops) && !step.Reserve? && !step.Go? && Enabled(s, step)
    ensures ChannelsOnce(Next(s, step).stops) && Next(s, step).stops.current >= s.stops.current
  {}

  lemma {:induction false} BatchesOther(s: State, step: Step)
    requires Inv(s) && !step.Reserve? && !step.Go? && Enabled(s, step)
    ensures BatchesFit(Next(s, step))
  {
    StopsOther(s, step);
    var t := Next(s, step);
    forall b | 0 <= b < |t.batches| ensures BatchFits(t.stops.current, t.batches[b]) {
      assert BatchFits(s.stops.current, s.batches[b]);
    }
  }

  lemma {:induction false} InvOther(s: State, step: Step)
    requires Inv(s) && !step.Reserve? && !step.Go? && Enabled(s, step)
    ensures Inv(Next(s, step))
  {
    StopsOther(s, step);
    BatchesOther(s, step);
    var t := Next(s, step);
    assert t.pools == s.pools && t.tasks == s.tasks && t.listed == s.listed;
    forall m ensures Counter(t, m) == Total(t.tasks, m) { CounterOther(s, step, m); }
  }

  lemma {:induction false} InvStep(s: State, step: Step)
    requires Inv(s) && Enabled(s, step)
    ensures Inv(Next(s, step))
  {
    match step
    case Reserve(_, _, _, _, _, _) => InvReserve(s, step);
    case Go(i, act) => InvGo(s, i, act);
    case _ => InvOther(s, step);
  }

  lemma {:induction false} InvInit(local: bool, callers: set<Aor>, callees: set<Aor>)
    ensures Inv(Init(local, callers, callees))
  {
    var s := Init(local, callers, callees);
    assert forall m :: Counter(s, m) == Total(s.tasks, m);
  }

  lemma {:induction false} InvRun(s: State, steps: seq<Step>)
    requires Inv(s) && CanRun(s, steps)
    ensures Inv(Run(s, steps))
    decreases |steps|
  {
    if steps != [] {
      InvStep(s, steps[0]);
      InvRun(Next(s, steps[0]), steps[1..]);
    }
  }
}
