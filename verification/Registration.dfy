/** Registration progress: registerPhonesStaggered in internal/orchestrator/session.go counts in two atomic
    counters and reports them one after the other, and registrationHandle.update in cmd/gui/registration.go
    shows the reports, which arrive in any order. */
module Registration {
  datatype Side = Side(registered: int, failed: int, total: int)

  function Sum(d: Side): int { d.registered + d.failed }

  /** What is shown after a report: a stale one never moves it backwards. */
  function Shown(d: Side, registered: int, failed: int, total: int): Side {
    if registered + failed >= Sum(d) then Side(registered, failed, total) else d
  }

  class RegistrationHandle {
    var sides: map<string, Side>

    method Update(side: string, registered: int, failed: int, total: int)
      modifies this
      ensures sides == old(sides)[side := Shown(
        if side in old(sides) then old(sides)[side] else Side(0, 0, 0), registered, failed, total)]
      ensures side in old(sides) && registered + failed < old(sides)[side].registered + old(sides)[side].failed ==>
        sides == old(sides)
      ensures side in old(sides) && registered + failed >= old(sides)[side].registered + old(sides)[side].failed ==>
        sides == old(sides)[side := Side(registered, failed, total)]
    {
      if side !in sides { sides := sides[side := Side(0, 0, 0)]; }
      var sd := sides[side];
      if registered + failed >= sd.registered + sd.failed {
        sides := sides[side := Side(registered, failed, total)];
      }
    }
  }

  // ---------------------------------------------------------------------------------------------
  // The goroutines of one side
  // ---------------------------------------------------------------------------------------------

  datatype End = Registered | Failed | Cancelled

  /** One phone's goroutine: before its attempt, past its counter, having read one counter or both, done. */
  datatype Place =
    | Pending
    | Counted(end: End)
    | ReadOne(end: End, registered: nat)
    | ReadBoth(end: End, registered: nat, failed: nat)
    | Done(end: End)

  datatype State = State(places: seq<Place>, registered: nat, failed: nat, shown: Side)

  datatype Step = Cancel(i: nat) | Attempt(i: nat, ok: bool) | Read(i: nat) | Report(i: nat)

  /** The side after the first report, before any goroutine has started. */
  function Init(total: nat): State { State(seq(total, _ => Pending), 0, 0, Side(0, 0, total)) }

  predicate Enabled(s: State, step: Step) {
    step.i < |s.places| &&
    match step
    case Cancel(i) => s.places[i].Pending?
    case Attempt(i, _) => s.places[i].Pending?
    case Read(i) => s.places[i].Counted? || s.places[i].ReadOne?
    case Report(i) => s.places[i].ReadBoth?
  }

  function Next(s: State, step: Step): State
    requires Enabled(s, step)
  {
    match step
    case Cancel(i) => s.(places := s.places[i := Done(Cancelled)])
    case Attempt(i, ok) =>
      if ok then s.(places := s.places[i := Counted(Registered)], registered := s.registered + 1)
      else s.(places := s.places[i := Counted(Failed)], failed := s.failed + 1)
    case Read(i) =>
      var at := s.places[i];
      s.(places := s.places[i :=
        if at.Counted? then ReadOne(at.end, s.registered) else ReadBoth(at.end, at.registered, s.failed)])
    case Report(i) =>
      var at := s.places[i];
      s.(places := s.places[i := Done(at.end)],
         shown := Shown(s.shown, at.registered, at.failed, |s.places|))
  }

  predicate CanRun(s: State, steps: seq<Step>)
    decreases |steps|
  {
    steps == [] || (Enabled(s, steps[0]) && CanRun(Next(s, steps[0]), steps[1..]))
  }

  function Run(s: State, steps: seq<Step>): State
    requires CanRun(s, steps)
    decreases |steps|
  {
    if steps == [] then s else Run(Next(s, steps[0]), steps[1..])
  }

  /** How many attempts have ended this way. */
  function Count(places: seq<Place>, end: End): nat {
    if places == [] then 0 else Count(places[..|places| - 1], end) + One(places[|places| - 1], end)
  }

  function One(at: Place, end: End): nat { if !at.Pending? && at.end == end then 1 else 0 }

  lemma {:induction false} CountUpdate(places: seq<Place>, i: nat, at: Place, end: End)
    requires i < |places|
    ensures Count(places[i := at], end) == Count(places, end) - One(places[i], end) + One(at, end)
  {
    var n := |places| - 1;
    if i == n {
      assert places[i := at][..n] == places[..n];
    } else {
      CountUpdate(places[..n], i, at, end);
      assert places[i := at][..n] == places[..n][i := at];
    }
  }

  lemma {:induction false} CountBound(places: seq<Place>)
    ensures Count(places, Registered) + Count(places, Failed) + Count(places, Cancelled) <= |places|
    ensures (forall i | 0 <= i < |places| :: !places[i].Pending?) ==>
      Count(places, Registered) + Count(places, Failed) + Count(places, Cancelled) == |places|
  {
    if places != [] { CountBound(places[..|places| - 1]); }
  }

  // ---------------------------------------------------------------------------------------------
  // What every step keeps
  // ---------------------------------------------------------------------------------------------

  predicate ReadFits(s: State, at: Place) {
    && (at.ReadOne? ==> at.registered <= s.registered)
    && (at.ReadBoth? ==> at.registered <= s.registered && at.failed <= s.failed)
  }

  /** A report that is still to come will be of the counters as they are now. */
  predicate UpToDate(s: State, i: nat) {
    i < |s.places| &&
    match s.places[i]
    case Counted(_) => true
    case ReadOne(_, r) => r == s.registered
    case ReadBoth(_, r, f) => r == s.registered && f == s.failed
    case _ => false
  }

  predicate ShownExactly(s: State) { s.shown.registered == s.registered && s.shown.failed == s.failed }

  ghost predicate Inv(s: State) {
    && (forall i | 0 <= i < |s.places| :: ReadFits(s, s.places[i]))
    && 0 <= s.shown.registered <= s.registered && 0 <= s.shown.failed <= s.failed && s.shown.total == |s.places|
    && (ShownExactly(s) || exists i: nat :: UpToDate(s, i))
    && s.registered == Count(s.places, Registered) && s.failed == Count(s.places, Failed)
  }

  lemma {:induction false} NoneCounted(n: nat, end: End)
    ensures Count(seq(n, _ => Pending), end) == 0
  {
    if n > 0 {
      assert seq(n, _ => Pending)[..n - 1] == seq(n - 1, _ => Pending);
      NoneCounted(n - 1, end);
    }
  }

  lemma {:induction false} CountsStep(s: State, step: Step)
    requires Inv(s) && Enabled(s, step)
    ensures var t := Next(s, step);
      t.registered == Count(t.places, Registered) && t.failed == Count(t.places, Failed)
  {
    var t := Next(s, step);
    CountUpdate(s.places, step.i, t.places[step.i], Registered);
    CountUpdate(s.places, step.i, t.places[step.i], Failed);
  }

  lemma {:induction false} WitnessStep(s: State, step: Step)
    requires Inv(s) && Enabled(s, step)
    ensures var t := Next(s, step); ShownExactly(t) || exists i: nat :: UpToDate(t, i)
  {
    var t := Next(s, step);
    if step.Attempt? {
      assert UpToDate(t, step.i);
    } else if !ShownExactly(s) {
      var i: nat :| UpToDate(s, i);
      if i != step.i || step.Read? { assert UpToDate(t, i); }
    }
  }

  lemma {:induction false} InvStep(s: State, step: Step)
    requires Inv(s) && Enabled(s, step)
    ensures Inv(Next(s, step)) && Sum(Next(s, step).shown) >= Sum(s.shown)
  {
    CountsStep(s, step);
    WitnessStep(s, step);
  }

  lemma {:induction false} InvRun(s: State, steps: seq<Step>)
    requires Inv(s) && CanRun(s, steps)
    ensures Inv(Run(s, steps)) && Sum(Run(s, steps).shown) >= Sum(s.shown)
    ensures |Run(s, steps).places| == |s.places|
    decreases |steps|
  {
    if steps != [] {
      InvStep(s, steps[0]);
      InvRun(Next(s, steps[0]), steps[1..]);
    }
  }

  lemma {:induction false} InvInit(total: nat)
    ensures Inv(Init(total))
  {
    NoneCounted(total, Registered);
    NoneCounted(total, Failed);
  }

  // ---------------------------------------------------------------------------------------------
  // Main results, for every run
  // ---------------------------------------------------------------------------------------------

  /** Over any run the shown sum never falls, and it never exceeds the number of phones. */
  lemma {:induction false} ShownOnlyGrows(total: nat, before: seq<Step>, more: seq<Step>)
    requires CanRun(Init(total), before) && CanRun(Run(Init(total), before), more)
    ensures var s := Run(Init(total), before);
      var t := Run(s, more);
      Sum(s.shown) <= Sum(t.shown) <= total && t.shown.total == total
  {
    InvInit(total);
    InvRun(Init(total), before);
    InvRun(Run(Init(total), before), more);
    CountBound(Run(Run(Init(total), before), more).places);
  }

  predicate AllDone(s: State) { forall i | 0 <= i < |s.places| :: s.places[i].Done? }

  lemma {:induction false} NothingToCome(s: State)
    requires AllDone(s) && (ShownExactly(s) || exists i: nat :: UpToDate(s, i))
    ensures ShownExactly(s)
  {
    assert forall i: nat :: !UpToDate(s, i);
  }

  lemma {:induction false} FinalCounts(s: State)
    requires Inv(s) && AllDone(s)
    ensures s.shown == Side(Count(s.places, Registered), Count(s.places, Failed), |s.places|)
    ensures Sum(s.shown) + Count(s.places, Cancelled) == |s.places|
  {
    NothingToCome(s);
    CountBound(s.places);
  }

  /** Once every goroutine is done, exactly the final counts are shown, however stale each single report was;
      and all phones but the cancelled ones are among them. */
  lemma {:induction false} FinalCountsShown(total: nat, steps: seq<Step>)
    requires CanRun(Init(total), steps) && AllDone(Run(Init(total), steps))
    ensures var s := Run(Init(total), steps);
      && s.shown == Side(Count(s.places, Registered), Count(s.places, Failed), total)
      && Sum(s.shown) + Count(s.places, Cancelled) == total
  {
    InvInit(total);
    InvRun(Init(total), steps);
    FinalCounts(Run(Init(total), steps));
  }

  // ---------------------------------------------------------------------------------------------
  // When a report's two counts held together
  // ---------------------------------------------------------------------------------------------

  /** The states of a run, from `s` on. */
  function Trace(s: State, steps: seq<Step>): (trace: seq<State>)
    requires CanRun(s, steps)
    ensures |trace| == |steps| + 1 && trace[0] == s
    decreases |steps|
  {
    [s] + if steps == [] then [] else Trace(Next(s, steps[0]), steps[1..])
  }

  lemma {:induction false} TraceSteps(s: State, steps: seq<Step>, k: nat)
    requires CanRun(s, steps) && k < |steps|
    ensures var trace := Trace(s, steps); Enabled(trace[k], steps[k]) && trace[k + 1] == Next(trace[k], steps[k])
    decreases |steps|
  {
    if k > 0 { TraceSteps(Next(s, steps[0]), steps[1..], k - 1); }
  }

  /** These two counts held together at step `k`. */
  predicate HeldAt(trace: seq<State>, k: int, registered: nat, failed: nat) {
    0 <= k < |trace| && trace[k].registered == registered && trace[k].failed == failed
  }

  ghost predicate HeldBy(trace: seq<State>, n: nat, registered: nat, failed: nat) {
    exists k :: k <= n && HeldAt(trace, k, registered, failed)
  }

  /** The failed count had got to `failed` before the registered count went beyond `registered`. */
  ghost predicate FailedFirst(trace: seq<State>, n: nat, registered: nat, failed: nat)
    requires n < |trace|
  {
    forall k | 0 <= k <= n && trace[k].registered > registered :: trace[k].failed >= failed
  }

  /** One step moves at most one of the counters, by one. */
  lemma {:induction false} CountersStep(s: State, steps: seq<Step>, k: nat)
    requires CanRun(s, steps) && k < |steps|
    ensures var was, now := Trace(s, steps)[k], Trace(s, steps)[k + 1];
      || (now.registered == was.registered && was.failed <= now.failed <= was.failed + 1)
      || (now.registered == was.registered + 1 && now.failed == was.failed)
  {
    TraceSteps(s, steps, k);
  }

  lemma {:induction false} CountersGrow(s: State, steps: seq<Step>, j: nat, k: nat)
    requires CanRun(s, steps) && j <= k <= |steps|
    ensures Trace(s, steps)[j].registered <= Trace(s, steps)[k].registered
    ensures Trace(s, steps)[j].failed <= Trace(s, steps)[k].failed
  {
    if j < k {
      CountersGrow(s, steps, j, k - 1);
      CountersStep(s, steps, k - 1);
    }
  }

  /** What a goroutine has read of the registered count was so at some step, and the failed count it reads later is no
      smaller than it was then. */
  lemma {:induction false} ReadOnce(total: nat, steps: seq<Step>, n: nat, i: nat, r: nat, f: nat) returns (t: nat)
    requires CanRun(Init(total), steps) && n <= |steps| && i < |Trace(Init(total), steps)[n].places|
    requires var at := Trace(Init(total), steps)[n].places[i];
      (at.ReadOne? || at.ReadBoth?) && at.registered == r && (at.ReadBoth? ==> at.failed == f)
    ensures t <= n && Trace(Init(total), steps)[t].registered == r
    ensures Trace(Init(total), steps)[n].places[i].ReadBoth? ==>
      Trace(Init(total), steps)[t].failed <= f <= Trace(Init(total), steps)[n].failed
  {
    var trace := Trace(Init(total), steps);
    var at := trace[n].places[i];
    TraceSteps(Init(total), steps, n - 1);
    var before := trace[n - 1].places[i];
    if before.ReadOne? || before.ReadBoth? {
      t := ReadOnce(total, steps, n - 1, i, r, f);
      CountersGrow(Init(total), steps, t, n - 1);
      CountersGrow(Init(total), steps, n - 1, n);
    } else {
      t := n;
    }
  }

  /** The first step at which the failed count is at least `f`, and so `f`. */
  lemma {:induction false} FailedReaches(total: nat, steps: seq<Step>, n: nat, f: nat) returns (k: nat)
    requires CanRun(Init(total), steps) && n <= |steps| && Trace(Init(total), steps)[n].failed >= f
    ensures k <= n && Trace(Init(total), steps)[k].failed == f
    ensures k > 0 ==> Trace(Init(total), steps)[k - 1].failed < f
  {
    var trace := Trace(Init(total), steps);
    if n > 0 && trace[n - 1].failed >= f {
      k := FailedReaches(total, steps, n - 1, f);
    } else {
      k := n;
      if n > 0 { CountersStep(Init(total), steps, n - 1); }
    }
  }

  /** Over any run, the two counts a goroutine is about to report have held together if and only if the failed count
      got to the one read before the registered count went beyond the one read. */
  lemma {:induction false} ReportHeldExactly(total: nat, steps: seq<Step>, n: nat, i: nat)
    requires CanRun(Init(total), steps) && n <= |steps| && i < |Trace(Init(total), steps)[n].places|
    requires Trace(Init(total), steps)[n].places[i].ReadBoth?
    ensures var trace := Trace(Init(total), steps);
      var at := trace[n].places[i];
      HeldBy(trace, n, at.registered, at.failed) <==> FailedFirst(trace, n, at.registered, at.failed)
  {
    var trace := Trace(Init(total), steps);
    var r, f := trace[n].places[i].registered, trace[n].places[i].failed;
    if HeldBy(trace, n, r, f) {
      var k :| k <= n && HeldAt(trace, k, r, f);
      forall j | 0 <= j <= n && trace[j].registered > r ensures trace[j].failed >= f {
        if j <= k { CountersGrow(Init(total), steps, j, k); } else { CountersGrow(Init(total), steps, k, j); }
      }
    }
    if FailedFirst(trace, n, r, f) {
      var t := ReadOnce(total, steps, n, i, r, f);
      var k := FailedReaches(total, steps, n, f);
      FirstNotBeyond(total, steps, n, k, r, f);
      if k >= t {
        CountersGrow(Init(total), steps, t, k);
        assert HeldAt(trace, k, r, f);
      } else {
        CountersGrow(Init(total), steps, k, t);
        assert HeldAt(trace, t, r, f);
      }
    }
  }

  /** When the failed count first got to `f`, the registered count was not yet beyond `r`. */
  lemma {:induction false} FirstNotBeyond(total: nat, steps: seq<Step>, n: nat, k: nat, r: nat, f: nat)
    requires CanRun(Init(total), steps) && k <= n <= |steps|
    requires FailedFirst(Trace(Init(total), steps), n, r, f)
    requires k > 0 ==> Trace(Init(total), steps)[k - 1].failed < f
    requires Trace(Init(total), steps)[k].failed == f
    ensures Trace(Init(total), steps)[k].registered <= r
  {
    if k > 0 { CountersStep(Init(total), steps, k - 1); }
  }

  predicate Follows(states: seq<State>, steps: seq<Step>, k: nat)
    requires |states| == |steps| + 1 && k < |steps|
  {
    Enabled(states[k], steps[k]) && Next(states[k], steps[k]) == states[k + 1]
  }

  /** States that follow each other are the trace of the run. */
  lemma {:induction false} TraceIs(states: seq<State>, steps: seq<Step>)
    requires |states| == |steps| + 1 && forall k | 0 <= k < |steps| :: Follows(states, steps, k)
    ensures CanRun(states[0], steps) && Trace(states[0], steps) == states
    decreases |steps|
  {
    if steps == [] {
      assert states == [states[0]];
    } else {
      assert Follows(states, steps, 0);
      forall k | 0 <= k < |steps| - 1 ensures Follows(states[1..], steps[1..], k) {
        assert Follows(states, steps, k + 1);
      }
      TraceIs(states[1..], steps[1..]);
      assert states == [states[0]] + states[1..];
    }
  }

  /** A phone registers and its goroutine reads one registered; a second registers and a third fails before it
      reads the failed count. */
  const MIXED: seq<Step> :=
    [Attempt(0, true), Read(0), Attempt(1, true), Attempt(2, false), Read(0), Report(0)]

  function Mixed(k: nat): State {
    match k
    case 0 => State([Pending, Pending, Pending], 0, 0, Side(0, 0, 3))
    case 1 => State([Counted(Registered), Pending, Pending], 1, 0, Side(0, 0, 3))
    case 2 => State([ReadOne(Registered, 1), Pending, Pending], 1, 0, Side(0, 0, 3))
    case 3 => State([ReadOne(Registered, 1), Counted(Registered), Pending], 2, 0, Side(0, 0, 3))
    case 4 => State([ReadOne(Registered, 1), Counted(Registered), Counted(Failed)], 2, 1, Side(0, 0, 3))
    case 5 => State([ReadBoth(Registered, 1, 1), Counted(Registered), Counted(Failed)], 2, 1, Side(0, 0, 3))
    case _ => State([Done(Registered), Counted(Registered), Counted(Failed)], 2, 1, Side(1, 1, 3))
  }

  lemma {:induction false} Replaced(a: Place, b: Place, c: Place, at: Place)
    ensures [a, b, c][0 := at] == [at, b, c] && [a, b, c][1 := at] == [a, at, c] && [a, b, c][2 := at] == [a, b, at]
  {}

  lemma {:induction false} MixedStep(k: nat)
    requires k < |MIXED|
    ensures Enabled(Mixed(k), MIXED[k]) && Next(Mixed(k), MIXED[k]) == Mixed(k + 1)
  {
    var old0, new0 := Mixed(k).places, Mixed(k + 1).places;
    Replaced(old0[0], old0[1], old0[2], new0[MIXED[k].i]);
    assert old0 == [old0[0], old0[1], old0[2]];
  }

  lemma {:induction false} MixedTrace()
    ensures CanRun(Init(3), MIXED)
    ensures forall k | 0 <= k <= |MIXED| :: Trace(Init(3), MIXED)[k] == Mixed(k)
  {
    var states := seq(|MIXED| + 1, k requires 0 <= k => Mixed(k));
    forall k | 0 <= k < |MIXED| ensures Follows(states, MIXED, k) { MixedStep(k); }
    assert Init(3).places == Mixed(0).places;
    TraceIs(states, MIXED);
  }

  lemma {:induction false} NeverMixed(trace: seq<State>)
    requires |trace| == 7 && forall k | 0 <= k < 7 :: trace[k] == Mixed(k)
    ensures trace[6].shown == Side(1, 1, 3) && forall k :: !HeldAt(trace, k, 1, 1)
  {}

  /** In that run one registered and one failed are shown, and these counts held together at no step of it. */
  lemma {:induction false} MixedReport()
    ensures CanRun(Init(3), MIXED)
    ensures var trace := Trace(Init(3), MIXED);
      trace[|MIXED|].shown == Side(1, 1, 3) && forall k :: !HeldAt(trace, k, 1, 1)
  {
    MixedTrace();
    NeverMixed(Trace(Init(3), MIXED));
  }

  // ---------------------------------------------------------------------------------------------
  // The counts against the attempts themselves
  // ---------------------------------------------------------------------------------------------

  /** How many attempts of a run turned out so. */
  function Attempts(steps: seq<Step>, ok: bool): nat {
    if steps == [] then 0
    else (if steps[0].Attempt? && steps[0].ok == ok then 1 else 0) + Attempts(steps[1..], ok)
  }

  lemma {:induction false} AttemptsCounted(s: State, steps: seq<Step>)
    requires CanRun(s, steps)
    ensures Run(s, steps).registered == s.registered + Attempts(steps, true)
    ensures Run(s, steps).failed == s.failed + Attempts(steps, false)
    decreases |steps|
  {
    if steps != [] { AttemptsCounted(Next(s, steps[0]), steps[1..]); }
  }

  /** Once every goroutine is done, what is shown is how many attempts succeeded and how many failed. */
  lemma {:induction false} ShownAreAttempts(total: nat, steps: seq<Step>)
    requires CanRun(Init(total), steps) && AllDone(Run(Init(total), steps))
    ensures Run(Init(total), steps).shown == Side(Attempts(steps, true), Attempts(steps, false), total)
  {
    InvInit(total);
    InvRun(Init(total), steps);
    NothingToCome(Run(Init(total), steps));
    AttemptsCounted(Init(total), steps);
  }
}
