/** When a benchmark test stops: internal/testrun/runner.go's samples and the counters kept over them.
    Percentages and loads are reals. */
module Saturation {
  datatype Option<+T> = None | Some(value: T)

  const WRAP := 0x1_0000_0000_0000_0000

  /** A 64-bit counter; sums and differences of counters wrap around. */
  type u64 = n: nat | n < WRAP

  function Minus(a: u64, b: u64): u64 { if a >= b then a - b else a - b + WRAP }

  function Plus(a: u64, b: u64): u64 { if a + b < WRAP then a + b else a + b - WRAP }

  datatype Phase = Baseline | Ramp | Hold | Rolling | Stopping | Cooldown

  predicate Idle(p: Phase) { p.Baseline? || p.Cooldown? || p.Stopping? }

  datatype Vps = Vps(cpuPct: real, memBytes: real)

  datatype Limits = Limits(cpus: nat, memMB: nat)

  /** One reading. A host reading that failed has zero for both its values; a server whose reading failed is
      missing from `vps`. Calls answered and failed are the session's totals so far. */
  datatype Sample = Sample(
    hostCPU: real, hostMem: real, vps: map<string, Vps>, localCPU: real,
    calls: nat, answered: u64, failed: u64, setupP95: nat)

  /** What can stop a test. */
  datatype Metric = HostCPU | HostRAM | VpsCPU(role: string) | VpsRAM(role: string) | Dialer

  const SATURATED_PCT := 95.0
  const DIALER_MAX_PCT := 80.0
  const SATURATED_SAMPLES := 3

  function LimitsOf(limits: map<string, Limits>, role: string): Limits {
    if role in limits then limits[role] else Limits(0, 0)
  }

  predicate CpuOver(v: Vps, lim: Limits) { v.cpuPct >= SATURATED_PCT * lim.cpus as real }

  predicate MemOver(v: Vps, lim: Limits)
    requires lim.memMB > 0
  {
    100.0 * v.memBytes / (lim.memMB as real * 1024.0 * 1024.0) >= SATURATED_PCT
  }

  /** Whether the sample has the metric over its threshold, if it says anything about it. */
  function Observe(limits: map<string, Limits>, s: Sample, m: Metric): Option<bool> {
    match m
    case HostCPU => Some(s.hostCPU >= SATURATED_PCT)
    case HostRAM => Some(s.hostMem >= SATURATED_PCT)
    case VpsCPU(role) =>
      if role in s.vps && LimitsOf(limits, role).cpus > 0 then Some(CpuOver(s.vps[role], LimitsOf(limits, role)))
      else None
    case VpsRAM(role) =>
      if role in s.vps && LimitsOf(limits, role).memMB > 0 then Some(MemOver(s.vps[role], LimitsOf(limits, role)))
      else None
    case Dialer => Some(s.localCPU >= DIALER_MAX_PCT)
  }

  // ---------------------------------------------------------------------------------------------
  // The simple form, over the history of load samples
  // ---------------------------------------------------------------------------------------------

  datatype Taken = Taken(phase: Phase, s: Sample)

  /** The samples taken under load. */
  function Loads(taken: seq<Taken>): seq<Sample> {
    if taken == [] then [] else
      var last := taken[|taken| - 1];
      Loads(taken[..|taken| - 1]) + if Idle(last.phase) then [] else [last.s]
  }

  /** All observations of a metric, in order. */
  function Observations(limits: map<string, Limits>, h: seq<Sample>, m: Metric): seq<bool> {
    if h == [] then [] else
      Observations(limits, h[..|h| - 1], m) +
      match Observe(limits, h[|h| - 1], m) case Some(over) => [over] case None => []
  }

  /** The metric's last three observations were all over its threshold. */
  predicate Saturates(limits: map<string, Limits>, h: seq<Sample>, m: Metric) {
    var obs := Observations(limits, h, m);
    |obs| >= SATURATED_SAMPLES && forall i | |obs| - SATURATED_SAMPLES <= i < |obs| :: obs[i]
  }

  // ---------------------------------------------------------------------------------------------
  // Run lengths
  // ---------------------------------------------------------------------------------------------

  function Bump(count: nat, seen: Option<bool>): nat {
    match seen case None => count case Some(over) => if over then count + 1 else 0
  }

  /** How many observations in a row, up to the last one, were over. */
  function RunLength(limits: map<string, Limits>, h: seq<Sample>, m: Metric): nat {
    if h == [] then 0 else Bump(RunLength(limits, h[..|h| - 1], m), Observe(limits, h[|h| - 1], m))
  }

  lemma {:induction false} RunLengthIs(limits: map<string, Limits>, h: seq<Sample>, m: Metric)
    ensures var obs, n := Observations(limits, h, m), RunLength(limits, h, m);
      && n <= |obs| && (forall i | |obs| - n <= i < |obs| :: obs[i])
      && (n < |obs| ==> !obs[|obs| - n - 1])
  {
    if h != [] { RunLengthIs(limits, h[..|h| - 1], m); }
  }

  lemma {:induction false} SaturatesByLength(limits: map<string, Limits>, h: seq<Sample>, m: Metric)
    ensures Saturates(limits, h, m) <==> RunLength(limits, h, m) >= SATURATED_SAMPLES
  {
    RunLengthIs(limits, h, m);
  }

  lemma {:induction false} RunLengthMore(limits: map<string, Limits>, h: seq<Sample>, s: Sample, m: Metric)
    ensures RunLength(limits, h + [s], m) == Bump(RunLength(limits, h, m), Observe(limits, s, m))
  {
    assert (h + [s])[..|h|] == h;
  }

  /** The readings of one server, in order. */
  function ReadingsOf(h: seq<Sample>, role: string): seq<Vps> {
    if h == [] then [] else
      ReadingsOf(h[..|h| - 1], role) + if role in h[|h| - 1].vps then [h[|h| - 1].vps[role]] else []
  }

  lemma {:induction false} HostObserved(limits: map<string, Limits>, h: seq<Sample>)
    ensures |Observations(limits, h, HostCPU)| == |Observations(limits, h, HostRAM)| == |h|
    ensures |Observations(limits, h, Dialer)| == |h|
    ensures forall i | 0 <= i < |h| :: Observations(limits, h, HostCPU)[i] == (h[i].hostCPU >= 95.0)
    ensures forall i | 0 <= i < |h| :: Observations(limits, h, HostRAM)[i] == (h[i].hostMem >= 95.0)
    ensures forall i | 0 <= i < |h| :: Observations(limits, h, Dialer)[i] == (h[i].localCPU >= 80.0)
  {
    if h != [] { HostObserved(limits, h[..|h| - 1]); }
  }

  lemma {:induction false} CpuObserved(limits: map<string, Limits>, h: seq<Sample>, role: string)
    ensures var obs, seen := Observations(limits, h, VpsCPU(role)), ReadingsOf(h, role);
      if role in limits && limits[role].cpus > 0
      then |obs| == |seen| && forall i | 0 <= i < |seen| ::
             obs[i] == (seen[i].cpuPct >= 95.0 * limits[role].cpus as real)
      else obs == []
  {
    if h != [] { CpuObserved(limits, h[..|h| - 1], role); }
  }

  lemma {:induction false} MemObserved(limits: map<string, Limits>, h: seq<Sample>, role: string)
    ensures var obs, seen := Observations(limits, h, VpsRAM(role)), ReadingsOf(h, role);
      if role in limits && limits[role].memMB > 0
      then |obs| == |seen| && forall i | 0 <= i < |seen| ::
             obs[i] == (100.0 * seen[i].memBytes / (limits[role].memMB as real * 1024.0 * 1024.0) >= 95.0)
      else obs == []
  {
    if h != [] { MemObserved(limits, h[..|h| - 1], role); }
  }

  /** The last three of them are all so. */
  predicate LastThree<T(!new)>(xs: seq<T>, over: T -> bool) {
    |xs| >= 3 && over(xs[|xs| - 3]) && over(xs[|xs| - 2]) && over(xs[|xs| - 1])
  }

  lemma {:induction false} SaturatesIs(limits: map<string, Limits>, h: seq<Sample>, m: Metric)
    ensures Saturates(limits, h, m) <==> LastThree(Observations(limits, h, m), x => x)
  {
    var obs := Observations(limits, h, m);
    if LastThree(obs, x => x) {
      forall i | |obs| - SATURATED_SAMPLES <= i < |obs| ensures obs[i] {}
    }
  }

  /** The host saturates when its CPU or memory was at 95 per cent or more in the last three samples, and the dialling
      machine when its CPU was at 80. */
  lemma {:induction false} HostThresholds(limits: map<string, Limits>, h: seq<Sample>)
    ensures Saturates(limits, h, HostCPU) <==> LastThree(h, (s: Sample) => s.hostCPU >= 95.0)
    ensures Saturates(limits, h, HostRAM) <==> LastThree(h, (s: Sample) => s.hostMem >= 95.0)
    ensures Saturates(limits, h, Dialer) <==> LastThree(h, (s: Sample) => s.localCPU >= 80.0)
  {
    HostObserved(limits, h);
    SaturatesIs(limits, h, HostCPU);
    SaturatesIs(limits, h, HostRAM);
    SaturatesIs(limits, h, Dialer);
  }

  /** A server saturates when its last three readings were at 95 per cent or more of its limit, if it has one; samples
      without a reading of the server do not count. */
  lemma {:induction false} ServerThresholds(limits: map<string, Limits>, h: seq<Sample>, role: string)
    ensures Saturates(limits, h, VpsCPU(role)) <==>
      (role in limits && limits[role].cpus > 0 &&
       LastThree(ReadingsOf(h, role), (v: Vps) => v.cpuPct >= 95.0 * limits[role].cpus as real))
    ensures Saturates(limits, h, VpsRAM(role)) <==>
      (role in limits && limits[role].memMB > 0 &&
       LastThree(ReadingsOf(h, role), (v: Vps) =>
         100.0 * v.memBytes / (limits[role].memMB as real * 1024.0 * 1024.0) >= 95.0))
  {
    CpuObserved(limits, h, role);
    MemObserved(limits, h, role);
    SaturatesIs(limits, h, VpsCPU(role));
    SaturatesIs(limits, h, VpsRAM(role));
  }

  lemma {:induction false} LoadsMore(taken: seq<Taken>, t: Taken)
    ensures Loads(taken + [t]) == if Idle(t.phase) then Loads(taken) else Loads(taken) + [t.s]
  {
    assert (taken + [t])[..|taken|] == taken;
  }

  // ---------------------------------------------------------------------------------------------
  // Quality
  // ---------------------------------------------------------------------------------------------

  const DEGRADE_FAIL_RATIO := 0.01
  const DEGRADE_SETUP_P95_MS := 500

  /** The calls that failed or were answered since the last load sample show that quality is down: more than one in
      a hundred failed, or setting up is slow. */
  predicate Degrades(newFailed: u64, newAnswered: u64, p95: nat) {
    100 * newFailed > Plus(newFailed, newAnswered) > 0 || p95 > DEGRADE_SETUP_P95_MS
  }

  lemma {:induction false} RatioOver(part: nat, total: nat)
    requires total > 0
    ensures part as real / total as real > DEGRADE_FAIL_RATIO <==> 100 * part > total
  {
    var all := total as real;
    var r := part as real / all;
    assert r * all == part as real;
    if r > DEGRADE_FAIL_RATIO { TimesMore(DEGRADE_FAIL_RATIO, r, all); }
    if r < DEGRADE_FAIL_RATIO { TimesMore(r, DEGRADE_FAIL_RATIO, all); }
  }

  lemma {:induction false} TimesMore(a: real, b: real, c: real)
    requires a < b && c > 0.0
    ensures a * c < b * c
  {
    assert (b - a) * c > 0.0;
  }

  datatype Totals = Totals(answered: u64, failed: u64)

  /** The totals before load sample `k`: those of the load sample before it, or of the start of the test. */
  function Before(start: Totals, h: seq<Sample>, k: nat): Totals
    requires k <= |h|
  {
    if k == 0 then start else Totals(h[k - 1].answered, h[k - 1].failed)
  }

  predicate DegradesAt(start: Totals, h: seq<Sample>, k: nat)
    requires k < |h|
  {
    var b := Before(start, h, k);
    Degrades(Minus(h[k].failed, b.failed), Minus(h[k].answered, b.answered), h[k].setupP95)
  }

  /** The calls at the first load sample at which quality was down. */
  function DegradedAt(start: Totals, h: seq<Sample>): Option<nat> {
    if h == [] then None
    else if DegradedAt(start, h[..|h| - 1]).Some? then DegradedAt(start, h[..|h| - 1])
    else if DegradesAt(start, h, |h| - 1) then Some(h[|h| - 1].calls)
    else None
  }

  lemma {:induction false} DegradedMore(start: Totals, h: seq<Sample>, s: Sample)
    ensures var b := Before(start, h, |h|);
      var now := Degrades(Minus(s.failed, b.failed), Minus(s.answered, b.answered), s.setupP95);
      DegradedAt(start, h + [s]) ==
        if DegradedAt(start, h).None? && now then Some(s.calls) else DegradedAt(start, h)
  {
    assert (h + [s])[..|h|] == h;
  }

  /** Quality is down at a sample, the totals not having wrapped since the one before, when more than one in a hundred
      of the calls that failed or were answered in between failed, or setting calls up takes more than half a second.
      */
  lemma {:induction false} DegradesWhen(start: Totals, h: seq<Sample>, k: nat)
    requires 0 < k < |h| && h[k].failed >= h[k - 1].failed && h[k].answered >= h[k - 1].answered
    requires h[k].failed + h[k].answered < WRAP
    ensures var failed, answered := h[k].failed - h[k - 1].failed, h[k].answered - h[k - 1].answered;
      DegradesAt(start, h, k) <==> 100 * failed > failed + answered || h[k].setupP95 > 500
  {}

  /** The mark is set at the first sample that meets the condition, if any does, and never moves. */
  lemma {:induction false} DegradedIsFirst(start: Totals, h: seq<Sample>)
    ensures match DegradedAt(start, h)
      case None => forall k | 0 <= k < |h| :: !DegradesAt(start, h, k)
      case Some(calls) => exists k | 0 <= k < |h| ::
        h[k].calls == calls && DegradesAt(start, h, k) && forall j | 0 <= j < k :: !DegradesAt(start, h, j)
  {
    if h != [] {
      var n := |h| - 1;
      DegradedIsFirst(start, h[..n]);
      assert forall k | 0 <= k < n :: DegradesAt(start, h, k) == DegradesAt(start, h[..n], k);
      if DegradedAt(start, h[..n]).Some? {
        var k :| 0 <= k < n && h[..n][k].calls == DegradedAt(start, h[..n]).value && DegradesAt(start, h[..n], k) &&
                 forall j | 0 <= j < k :: !DegradesAt(start, h[..n], j);
        assert h[k].calls == DegradedAt(start, h).value && DegradesAt(start, h, k);
      } else if DegradesAt(start, h, n) {
        assert h[n].calls == DegradedAt(start, h).value;
      }
    }
  }

  // ---------------------------------------------------------------------------------------------
  // Taking a sample
  // ---------------------------------------------------------------------------------------------

  datatype Reading = Reading(
    host: Option<(real, real)>, vps: Option<map<string, Vps>>, localCPU: real,
    calls: nat, answered: u64, failed: u64, setupP95: nat)

  function SampleOf(r: Reading): Sample {
    var host := if r.host.Some? then r.host.value else (0.0, 0.0);
    Sample(host.0, host.1, if r.vps.Some? then r.vps.value else map[], r.localCPU,
           r.calls, r.answered, r.failed, r.setupP95)
  }

  /** The sample says what the reading said. */
  predicate Tells(s: Sample, r: Reading) {
    && (if r.host.Some? then s.hostCPU == r.host.value.0 && s.hostMem == r.host.value.1
        else s.hostCPU == s.hostMem == 0.0)
    && (if r.vps.Some? then s.vps == r.vps.value else s.vps == map[])
    && s.localCPU == r.localCPU && s.calls == r.calls && s.setupP95 == r.setupP95
    && s.answered == r.answered && s.failed == r.failed
  }

  /** A failed host reading ends the host's runs; a failed reading of the servers leaves theirs as they were. */
  lemma {:induction false} FailedReadings(limits: map<string, Limits>, h: seq<Sample>, r: Reading, role: string)
    ensures r.host.None? ==>
      RunLength(limits, h + [SampleOf(r)], HostCPU) == 0 && RunLength(limits, h + [SampleOf(r)], HostRAM) == 0
    ensures r.vps.None? ==>
      && RunLength(limits, h + [SampleOf(r)], VpsCPU(role)) == RunLength(limits, h, VpsCPU(role))
      && RunLength(limits, h + [SampleOf(r)], VpsRAM(role)) == RunLength(limits, h, VpsRAM(role))
  {
    RunLengthMore(limits, h, SampleOf(r), HostCPU);
    RunLengthMore(limits, h, SampleOf(r), HostRAM);
    RunLengthMore(limits, h, SampleOf(r), VpsCPU(role));
    RunLengthMore(limits, h, SampleOf(r), VpsRAM(role));
  }

  function Count(saturated: map<Metric, nat>, m: Metric): nat { if m in saturated then saturated[m] else 0 }

  /** The order in which metrics are checked; servers come in any order among themselves. */
  function Rank(m: Metric): nat {
    match m case HostCPU => 0 case HostRAM => 1 case VpsCPU(_) => 2 case VpsRAM(_) => 2 case Dialer => 3
  }

  /** No metric has ended the test. */
  ghost predicate Unsaturated(limits: map<string, Limits>, h: seq<Sample>) { forall m :: !Saturates(limits, h, m) }

  /** The metric has ended the test, and none that is checked before it has. */
  ghost predicate FirstFull(limits: map<string, Limits>, h: seq<Sample>, m: Metric) {
    Saturates(limits, h, m) && forall k | Rank(k) < Rank(m) :: !Saturates(limits, h, k)
  }

  /** The counters when the metrics in `done` have been checked against the sample and the others not yet. */
  ghost predicate CountedSo(
    limits: map<string, Limits>, was: map<Metric, nat>, now: map<Metric, nat>, s: Sample, done: set<Metric>)
  {
    forall m :: Count(now, m) == if m in done then Bump(Count(was, m), Observe(limits, s, m)) else Count(was, m)
  }

  ghost predicate NoneAt3(now: map<Metric, nat>, done: set<Metric>) {
    forall m | m in done :: Count(now, m) < SATURATED_SAMPLES
  }

  /** The metrics checked once the host's and these servers' have been. */
  ghost predicate CheckedSo(limits: map<string, Limits>, s: Sample, done: set<Metric>, roles: set<string>) {
    forall m :: m in done <==>
      m == HostCPU || m == HostRAM || ((m.VpsCPU? || m.VpsRAM?) && m.role in roles && Observe(limits, s, m).Some?)
  }

  /** The metric's counter fills up, and none of those checked before it does. */
  ghost predicate FirstBumped(limits: map<string, Limits>, was: map<Metric, nat>, s: Sample, m: Metric) {
    && Bump(Count(was, m), Observe(limits, s, m)) >= SATURATED_SAMPLES
    && forall k | Rank(k) < Rank(m) :: Bump(Count(was, k), Observe(limits, s, k)) < SATURATED_SAMPLES
  }

  lemma {:induction false} AllCounted(
    limits: map<string, Limits>, was: map<Metric, nat>, now: map<Metric, nat>, s: Sample, done: set<Metric>)
    requires CountedSo(limits, was, now, s, done + {Dialer}) && NoneAt3(now, done + {Dialer})
    requires CheckedSo(limits, s, done, s.vps.Keys) && forall m :: Count(was, m) < SATURATED_SAMPLES
    ensures forall m :: Count(now, m) == Bump(Count(was, m), Observe(limits, s, m)) < SATURATED_SAMPLES
  {
    forall m ensures Count(now, m) == Bump(Count(was, m), Observe(limits, s, m)) < SATURATED_SAMPLES {
      assert m in done + {Dialer} || Observe(limits, s, m).None?;
    }
  }

  /** What the test's counters and marks say about its load samples. */
  ghost predicate Faithful(
    limits: map<string, Limits>, start: Totals, h: seq<Sample>,
    saturated: map<Metric, nat>, last: Totals, degradedAt: Option<nat>)
  {
    && (forall m {:trigger RunLength(limits, h, m)} :: Count(saturated, m) == RunLength(limits, h, m))
    && last == Before(start, h, |h|) && degradedAt == DegradedAt(start, h)
  }

  /** The most calls running at any sample. */
  function Peak(taken: seq<Taken>): nat {
    if taken == [] then 0
    else
      var before, n := Peak(taken[..|taken| - 1]), taken[|taken| - 1].s.calls;
      if n > before then n else before
  }

  lemma {:induction false} PeakMore(taken: seq<Taken>, t: Taken)
    ensures Peak(taken + [t]) == if t.s.calls > Peak(taken) then t.s.calls else Peak(taken)
  {
    assert (taken + [t])[..|taken|] == taken;
  }

  lemma {:induction false} PeakIsMost(taken: seq<Taken>)
    ensures forall i | 0 <= i < |taken| :: taken[i].s.calls <= Peak(taken)
    ensures Peak(taken) == 0 || exists i | 0 <= i < |taken| :: taken[i].s.calls == Peak(taken)
  {
    if taken != [] {
      var n := |taken| - 1;
      PeakIsMost(taken[..n]);
      if Peak(taken[..n]) > 0 {
        var i :| 0 <= i < n && taken[..n][i].s.calls == Peak(taken[..n]);
        assert taken[i].s.calls == Peak(taken[..n]);
      }
      assert taken[n].s.calls <= Peak(taken);
    }
  }

  class TestState {
    const limits: map<string, Limits>
    ghost const start: Totals
    var samples: seq<Taken>
    var maxConcurrent: nat
    var saturated: map<Metric, nat>
    var lastAnswered: u64
    var lastFailed: u64
    var degradedAt: Option<nat>

    ghost predicate Valid() reads this {
      Faithful(limits, start, Loads(samples), saturated, Totals(lastAnswered, lastFailed), degradedAt)
    }

    /** No metric has ended the test so far. */
    ghost predicate GoingOn() reads this { Unsaturated(limits, Loads(samples)) }

    constructor (limits: map<string, Limits>, answered: u64, failed: u64)
      ensures this.limits == limits && start == Totals(answered, failed)
      ensures samples == [] && maxConcurrent == 0 && degradedAt == None
      ensures Valid() && GoingOn() && Peaks()
    {
      this.limits, start := limits, Totals(answered, failed);
      samples, maxConcurrent, saturated, degradedAt := [], 0, map[], None;
      lastAnswered, lastFailed := answered, failed;
    }

    /** One metric's counter; true if it has been over its threshold three times in a row. */
    method Check(m: Metric, over: bool, ghost was: map<Metric, nat>, ghost s: Sample, ghost done: set<Metric>)
      returns (full: bool)
      requires CountedSo(limits, was, saturated, s, done) && m !in done && Observe(limits, s, m) == Some(over)
      modifies this`saturated
      ensures CountedSo(limits, was, saturated, s, done + {m})
      ensures full <==> Count(saturated, m) >= SATURATED_SAMPLES
      ensures NoneAt3(old(saturated), done) ==> NoneAt3(saturated, done) && (!full ==> NoneAt3(saturated, done + {m}))
    {
      if over {
        saturated := saturated[m := (if m in saturated then saturated[m] else 0) + 1];
      } else {
        saturated := saturated[m := 0];
      }
      full := saturated[m] >= SATURATED_SAMPLES;
    }

    method CheckServer(
      role: string, s: Sample, ghost was: map<Metric, nat>, ghost done: set<Metric>, ghost roles: set<string>)
      returns (why: Option<Metric>, ghost more: set<Metric>)
      requires role in s.vps && role !in roles && CheckedSo(limits, s, done, roles)
      requires CountedSo(limits, was, saturated, s, done) && NoneAt3(saturated, done)
      modifies this`saturated
      ensures CountedSo(limits, was, saturated, s, more) && NoneAt3(saturated, done) && done <= more
      ensures why.None? ==> NoneAt3(saturated, more) && CheckedSo(limits, s, more, roles + {role})
      ensures why.Some? ==> why.value in more && Rank(why.value) == 2
      ensures why.Some? ==> Count(saturated, why.value) >= SATURATED_SAMPLES
    {
      more := done;
      var lim, v := LimitsOf(limits, role), s.vps[role];
      if lim.cpus > 0 {
        var full := Check(VpsCPU(role), CpuOver(v, lim), was, s, more);
        more := more + {VpsCPU(role)};
        if full { return Some(VpsCPU(role)), more; }
      }
      if lim.memMB > 0 {
        var full := Check(VpsRAM(role), MemOver(v, lim), was, s, more);
        more := more + {VpsRAM(role)};
        if full { return Some(VpsRAM(role)), more; }
      }
      return None, more;
    }

    /** The checks of the servers in the sample, in whatever order they come. */
    method CheckServers(s: Sample, ghost was: map<Metric, nat>) returns (why: Option<Metric>, ghost done: set<Metric>)
      requires CountedSo(limits, was, saturated, s, {HostCPU, HostRAM}) && NoneAt3(saturated, {HostCPU, HostRAM})
      modifies this`saturated
      ensures CountedSo(limits, was, saturated, s, done) && NoneAt3(saturated, {HostCPU, HostRAM})
      ensures HostCPU in done && HostRAM in done
      ensures why.None? ==> NoneAt3(saturated, done) && CheckedSo(limits, s, done, s.vps.Keys)
      ensures why.Some? ==> why.value in done && Rank(why.value) == 2
      ensures why.Some? ==> Count(saturated, why.value) >= SATURATED_SAMPLES
    {
      done := {HostCPU, HostRAM};
      var left := s.vps.Keys;
      while left != {}
        invariant left <= s.vps.Keys && HostCPU in done && HostRAM in done
        invariant CountedSo(limits, was, saturated, s, done) && NoneAt3(saturated, done)
        invariant CheckedSo(limits, s, done, s.vps.Keys - left)
      {
        var role :| role in left;
        ghost var roles := s.vps.Keys - left;
        left := left - {role};
        assert s.vps.Keys - left == roles + {role};
        why, done := CheckServer(role, s, was, done, roles);
        if why.Some? { return; }
      }
      assert s.vps.Keys - left == s.vps.Keys;
      return None, done;
    }

    method CheckHost(s: Sample) returns (why: Option<Metric>)
      requires NoneAt3(saturated, {HostCPU})
      modifies this`saturated
      ensures why.None? ==> NoneAt3(saturated, {HostCPU, HostRAM})
      ensures why.None? ==> CountedSo(limits, old(saturated), saturated, s, {HostCPU, HostRAM})
      ensures why.Some? ==> FirstBumped(limits, old(saturated), s, why.value)
    {
      ghost var was := saturated;
      var full := Check(HostCPU, s.hostCPU >= SATURATED_PCT, was, s, {});
      assert {} + {HostCPU} == {HostCPU};
      if full { return Some(HostCPU); }
      full := Check(HostRAM, s.hostMem >= SATURATED_PCT, was, s, {HostCPU});
      assert {HostCPU} + {HostRAM} == {HostCPU, HostRAM};
      if full { return Some(HostRAM); }
      return None;
    }

    /** All checks of a load sample. A metric that fills its counter ends them, so later ones are not counted. */
    method CheckAll(s: Sample) returns (why: Option<Metric>)
      requires forall m :: Count(saturated, m) < SATURATED_SAMPLES
      modifies this`saturated
      ensures why.None? ==> forall m ::
        Count(saturated, m) == Bump(Count(old(saturated), m), Observe(limits, s, m)) < SATURATED_SAMPLES
      ensures why.Some? ==> FirstBumped(limits, old(saturated), s, why.value)
    {
      ghost var was := saturated;
      why := CheckHost(s);
      if why.Some? { return; }
      ghost var done;
      why, done := CheckServers(s, was);
      if why.Some? { return; }
      var full := Check(Dialer, s.localCPU >= DIALER_MAX_PCT, was, s, done);
      if full { return Some(Dialer); }
      AllCounted(limits, was, saturated, s, done);
    }

    /** The quality part of a load sample. */
    method NoteQuality(s: Sample)
      modifies this`lastAnswered, this`lastFailed, this`degradedAt
      ensures lastAnswered == s.answered && lastFailed == s.failed
      ensures degradedAt ==
        if old(degradedAt).None? &&
           Degrades(Minus(s.failed, old(lastFailed)), Minus(s.answered, old(lastAnswered)), s.setupP95)
        then Some(s.calls) else old(degradedAt)
    {
      var newFailed, newAnswered := Minus(s.failed, lastFailed), Minus(s.answered, lastAnswered);
      lastFailed, lastAnswered := s.failed, s.answered;
      if degradedAt.None? {
        var total := Plus(newFailed, newAnswered);
        if total > 0 { RatioOver(newFailed, total); }
        if total > 0 && newFailed as real / total as real > DEGRADE_FAIL_RATIO {
          degradedAt := Some(s.calls);
        } else if s.setupP95 > DEGRADE_SETUP_P95_MS {
          degradedAt := Some(s.calls);
        }
      }
    }

    /** The judgement of a load sample, `h` being the history before it. */
    method Judge(s: Sample, ghost h: seq<Sample>) returns (why: Option<Metric>)
      requires Faithful(limits, start, h, saturated, Totals(lastAnswered, lastFailed), degradedAt)
      requires Unsaturated(limits, h)
      modifies this`saturated, this`lastAnswered, this`lastFailed, this`degradedAt
      ensures Totals(lastAnswered, lastFailed) == Totals(s.answered, s.failed)
      ensures degradedAt == DegradedAt(start, h + [s])
      ensures why.None? ==> forall m ::
        Count(saturated, m) == RunLength(limits, h + [s], m) && !Saturates(limits, h + [s], m)
      ensures why.Some? ==> FirstFull(limits, h + [s], why.value)
    {
      DegradedMore(start, h, s);
      NoteQuality(s);
      ghost var was := saturated;
      LengthsMore(limits, h, s, saturated);
      BumpedSaturates(limits, h, s, was);
      why := CheckAll(s);
    }

    /** The most calls kept is the most of any sample. */
    ghost predicate Peaks() reads this { maxConcurrent == Peak(samples) }

    method Store(phase: Phase, s: Sample)
      modifies this`samples, this`maxConcurrent
      ensures samples == old(samples) + [Taken(phase, s)]
      ensures maxConcurrent == if s.calls > old(maxConcurrent) then s.calls else old(maxConcurrent)
      ensures old(Peaks()) ==> Peaks()
      ensures Loads(samples) == if Idle(phase) then old(Loads(samples)) else old(Loads(samples)) + [s]
    {
      LoadsMore(samples, Taken(phase, s));
      PeakMore(samples, Taken(phase, s));
      samples := samples + [Taken(phase, s)];
      if s.calls > maxConcurrent { maxConcurrent := s.calls; }
    }

    /** One sample. Under load it may name the metric that ends the test, and it does so exactly when some metric's
        last three observations were over its threshold; idle samples are only recorded. */
    method Take(phase: Phase, r: Reading) returns (why: Option<Metric>)
      requires Idle(phase) || (Valid() && GoingOn())
      modifies this
      ensures samples == old(samples) + [Taken(phase, SampleOf(r))] && Tells(samples[|samples| - 1].s, r)
      ensures phase in {Baseline, Cooldown, Stopping} ==> why == None && degradedAt == old(degradedAt)
      ensures maxConcurrent == if r.calls > old(maxConcurrent) then r.calls else old(maxConcurrent)
      ensures old(Peaks()) ==> Peaks()
      ensures Idle(phase) ==> why == None && (old(Valid()) ==> Valid()) && (old(GoingOn()) ==> GoingOn())
      ensures !Idle(phase) && why.None? ==> Valid() && GoingOn()
      ensures !Idle(phase) && why.Some? ==> FirstFull(limits, Loads(samples), why.value)
      ensures if Idle(phase) then degradedAt == old(degradedAt) else degradedAt == DegradedAt(start, Loads(samples))
    {
      ghost var h := Loads(samples);
      Store(phase, SampleOf(r));
      if Idle(phase) { return None; }
      why := Judge(SampleOf(r), h);
    }

    /** The sample that ended the test: the last one under load. */
    method AtStop() returns (s: Option<Sample>)
      ensures s == if Loads(samples) == [] then None else Some(Loads(samples)[|Loads(samples)| - 1])
    {
      var i := |samples|;
      assert samples[..i] == samples;
      while i > 0
        invariant 0 <= i <= |samples| && Loads(samples) == Loads(samples[..i])
      {
        assert samples[..i][..i - 1] == samples[..i - 1];
        if !Idle(samples[i - 1].phase) { return Some(samples[i - 1].s); }
        i := i - 1;
      }
      return None;
    }
  }

  lemma {:induction false} LengthsMore(
    limits: map<string, Limits>, h: seq<Sample>, s: Sample, saturated: map<Metric, nat>)
    requires forall m :: Count(saturated, m) == RunLength(limits, h, m)
    requires Unsaturated(limits, h)
    ensures forall m :: Count(saturated, m) < SATURATED_SAMPLES
    ensures forall m :: Bump(Count(saturated, m), Observe(limits, s, m)) == RunLength(limits, h + [s], m)
  {
    forall m ensures Count(saturated, m) < SATURATED_SAMPLES { SaturatesByLength(limits, h, m); }
    forall m ensures Bump(Count(saturated, m), Observe(limits, s, m)) == RunLength(limits, h + [s], m) {
      RunLengthMore(limits, h, s, m);
    }
  }

  lemma {:induction false} BumpedSaturates(
    limits: map<string, Limits>, h: seq<Sample>, s: Sample, was: map<Metric, nat>)
    requires forall m :: Bump(Count(was, m), Observe(limits, s, m)) == RunLength(limits, h + [s], m)
    ensures forall m ::
      Saturates(limits, h + [s], m) <==> Bump(Count(was, m), Observe(limits, s, m)) >= SATURATED_SAMPLES
  {
    forall m
      ensures Saturates(limits, h + [s], m) <==> Bump(Count(was, m), Observe(limits, s, m)) >= SATURATED_SAMPLES
    {
      SaturatesByLength(limits, h + [s], m);
    }
  }

  // ---------------------------------------------------------------------------------------------
  // A whole ramp
  // ---------------------------------------------------------------------------------------------

  /** What one turn of the loop meets: the run is cancelled, or a reading, and the clock at two moments. */
  datatype Tick = Tick(cancelled: bool, r: Reading, setAt: int, checkAt: int)

  datatype Ending = Cancelled | Saturated(m: Metric) | TargetReached | TargetNotReached | NoPairs

  /** What the ramp was asked for: how many calls at once, the totals once all are dialled, how long to hold. */
  datatype Goal = Goal(target: nat, dispatched: u64, hold: int)

  predicate Dispatched(g: Goal, r: Reading) { Plus(r.answered, r.failed) >= g.dispatched }

  predicate Full(g: Goal, r: Reading) { r.calls >= g.target || (Dispatched(g, r) && r.calls > 0) }

  /** When the hold began, if it did by turn `k`: at the first turn that was full. */
  function HoldSince(g: Goal, ticks: seq<Tick>, k: nat): Option<int>
    requires k <= |ticks|
  {
    if k == 0 then None
    else if HoldSince(g, ticks, k - 1).Some? then HoldSince(g, ticks, k - 1)
    else if Full(g, ticks[k - 1].r) then Some(ticks[k - 1].setAt)
    else None
  }

  /** How turn `k` ends the ramp, if it does although nothing saturates. */
  function Judged(g: Goal, ticks: seq<Tick>, k: nat): Option<Ending>
    requires k < |ticks|
  {
    var since := HoldSince(g, ticks, k + 1);
    if since.Some? && ticks[k].checkAt > since.value + g.hold then
      Some(if ticks[k].r.calls >= g.target then TargetReached else TargetNotReached)
    else if Dispatched(g, ticks[k].r) && ticks[k].r.calls == 0 then Some(TargetNotReached)
    else None
  }

  /** The first `k` turns took `before` to `h` without a reason to end: none was cancelled, none saturated a metric,
      and none was judged the end. */
  ghost predicate GoesOnTo(
    limits: map<string, Limits>, g: Goal, before: seq<Sample>, h: seq<Sample>, ticks: seq<Tick>, k: nat)
    requires k <= |ticks|
    decreases k
  {
    if k == 0 then h == before
    else
      && h != [] && h[|h| - 1] == SampleOf(ticks[k - 1].r)
      && GoesOnTo(limits, g, before, h[..|h| - 1], ticks, k - 1)
      && !ticks[k - 1].cancelled && Unsaturated(limits, h) && Judged(g, ticks, k - 1).None?
  }

  /** Turn `k` is the first to end the ramp, and ends it this way. */
  ghost predicate EndsBy(
    limits: map<string, Limits>, g: Goal, before: seq<Sample>, h: seq<Sample>, ticks: seq<Tick>, k: nat, e: Ending)
    requires k < |ticks|
  {
    if ticks[k].cancelled then e == Cancelled && GoesOnTo(limits, g, before, h, ticks, k)
    else
      && h != [] && h[|h| - 1] == SampleOf(ticks[k].r) && GoesOnTo(limits, g, before, h[..|h| - 1], ticks, k)
      && (if Unsaturated(limits, h) then Judged(g, ticks, k) == Some(e) else e.Saturated? && FirstFull(limits, h, e.m))
  }

  lemma {:induction false} DropLast(h: seq<Sample>, s: Sample)
    ensures (h + [s])[..|h + [s]| - 1] == h
  {}

  /** When the hold is over, if it has begun by turn `k`. */
  function HoldUntil(g: Goal, ticks: seq<Tick>, k: nat): Option<int>
    requires k <= |ticks|
  {
    match HoldSince(g, ticks, k) case None => None case Some(t) => Some(t + g.hold)
  }

  /** The part of a turn after its sample. */
  method JudgeTurn(g: Goal, t: Tick, until: Option<int>, ghost ticks: seq<Tick>, ghost k: nat)
    returns (reason: Option<Ending>, holdUntil: Option<int>)
    requires k < |ticks| && ticks[k] == t && until == HoldUntil(g, ticks, k)
    ensures reason == Judged(g, ticks, k) && holdUntil == HoldUntil(g, ticks, k + 1)
  {
    holdUntil := until;
    var dispatched := Plus(t.r.answered, t.r.failed) >= g.dispatched;
    if holdUntil.None? && (t.r.calls >= g.target || (dispatched && t.r.calls > 0)) {
      holdUntil := Some(t.setAt + g.hold);
    }
    if holdUntil.Some? && t.checkAt > holdUntil.value {
      return Some(if t.r.calls >= g.target then TargetReached else TargetNotReached), holdUntil;
    }
    if dispatched && t.r.calls == 0 { return Some(TargetNotReached), holdUntil; }
    return None, holdUntil;
  }

  /** A turn without a reason to end. */
  lemma {:induction false} TurnGoesOn(
    limits: map<string, Limits>, g: Goal, before: seq<Sample>, h: seq<Sample>, ticks: seq<Tick>, k: nat)
    requires k < |ticks| && !ticks[k].cancelled && GoesOnTo(limits, g, before, h, ticks, k)
    requires Unsaturated(limits, h + [SampleOf(ticks[k].r)]) && Judged(g, ticks, k).None?
    ensures GoesOnTo(limits, g, before, h + [SampleOf(ticks[k].r)], ticks, k + 1)
  {
    DropLast(h, SampleOf(ticks[k].r));
  }

  /** A turn that ends the ramp. */
  lemma {:induction false} TurnEnds(
    limits: map<string, Limits>, g: Goal, before: seq<Sample>, h: seq<Sample>, ticks: seq<Tick>, k: nat, e: Ending)
    requires k < |ticks| && !ticks[k].cancelled && GoesOnTo(limits, g, before, h, ticks, k)
    requires var all := h + [SampleOf(ticks[k].r)];
      if Unsaturated(limits, all) then Judged(g, ticks, k) == Some(e) else e.Saturated? && FirstFull(limits, all, e.m)
    ensures EndsBy(limits, g, before, h + [SampleOf(ticks[k].r)], ticks, k, e)
  {
    DropLast(h, SampleOf(ticks[k].r));
  }

  method RampTurn(
    st: TestState, g: Goal, t: Tick, until: Option<int>,
    ghost before: seq<Sample>, ghost ticks: seq<Tick>, ghost k: nat)
    returns (reason: Option<Ending>, holdUntil: Option<int>)
    requires st.Valid() && st.GoingOn() && k < |ticks| && ticks[k] == t && !t.cancelled
    requires until == HoldUntil(g, ticks, k) && GoesOnTo(st.limits, g, before, Loads(st.samples), ticks, k)
    modifies st
    ensures reason.None? ==> st.Valid() && st.GoingOn() && holdUntil == HoldUntil(g, ticks, k + 1)
    ensures reason.None? ==> GoesOnTo(st.limits, g, before, Loads(st.samples), ticks, k + 1)
    ensures reason.Some? ==> EndsBy(st.limits, g, before, Loads(st.samples), ticks, k, reason.value)
  {
    var phase := if until.None? then Ramp else Hold;
    ghost var h := Loads(st.samples);
    LoadsMore(st.samples, Taken(phase, SampleOf(t.r)));
    var why := st.Take(phase, t.r);
    assert Loads(st.samples) == h + [SampleOf(ticks[k].r)];
    if why.Some? {
      TurnEnds(st.limits, g, before, h, ticks, k, Saturated(why.value));
      return Some(Saturated(why.value)), until;
    }
    reason, holdUntil := JudgeTurn(g, t, until, ticks, k);
    if reason.None? {
      TurnGoesOn(st.limits, g, before, h, ticks, k);
    } else {
      TurnEnds(st.limits, g, before, h, ticks, k, reason.value);
    }
  }

  /** The loop of runRamp. Without an end among these turns it is still going on. */
  method RampLoop(st: TestState, g: Goal, ticks: seq<Tick>) returns (reason: Option<Ending>, ghost k: nat)
    requires st.Valid() && st.GoingOn()
    modifies st
    ensures k <= |ticks|
    ensures if k == |ticks|
      then reason.None? && GoesOnTo(st.limits, g, old(Loads(st.samples)), Loads(st.samples), ticks, k)
      else reason.Some? && EndsBy(st.limits, g, old(Loads(st.samples)), Loads(st.samples), ticks, k, reason.value)
  {
    ghost var before := Loads(st.samples);
    var holdUntil: Option<int> := None;
    k := 0;
    for i := 0 to |ticks|
      invariant k == i && st.Valid() && st.GoingOn() && holdUntil == HoldUntil(g, ticks, i)
      invariant GoesOnTo(st.limits, g, before, Loads(st.samples), ticks, i)
    {
      if ticks[i].cancelled { return Some(Cancelled), k; }
      reason, holdUntil := RampTurn(st, g, ticks[i], holdUntil, before, ticks, i);
      if reason.Some? { return; }
      k := k + 1;
    }
    return None, k;
  }

  /** runRamp. The calls are all dialled when as many have been answered or have failed since the baseline's last
      sample as were started. */
  method RunRamp(st: TestState, ticks: seq<Tick>, started: u64, target: nat, hold: int)
    returns (reason: Option<Ending>, ghost k: nat)
    requires st.Valid() && st.GoingOn() && st.samples != []
    modifies st
    ensures started == 0 ==> reason == Some(NoPairs) && st.samples == old(st.samples)
    ensures started > 0 ==>
      var last := old(st.samples)[|old(st.samples)| - 1].s;
      var g := Goal(target, Plus(Plus(last.answered, last.failed), started), hold);
      && k <= |ticks| && (reason.None? <==> k == |ticks|)
      && (reason.Some? ==>
            EndsBy(st.limits, g, old(Loads(st.samples)), Loads(st.samples), ticks, k, reason.value))
  {
    k := 0;
    if started == 0 { return Some(NoPairs), k; }
    var last := st.samples[|st.samples| - 1].s;
    reason, k := RampLoop(st, Goal(target, Plus(Plus(last.answered, last.failed), started), hold), ticks);
  }

  /** A ramp that reports its target reached had the calls at its end, and the hold was due: it began at a turn
      that was full, and by the clock more than the hold time had gone by since. */
  lemma {:induction false} ReachedMeansHeld(
    limits: map<string, Limits>, g: Goal, before: seq<Sample>, h: seq<Sample>, ticks: seq<Tick>, k: nat)
    requires k < |ticks| && EndsBy(limits, g, before, h, ticks, k, TargetReached)
    ensures ticks[k].r.calls >= g.target
    ensures exists j :: 0 <= j <= k && Full(g, ticks[j].r) && ticks[k].checkAt > ticks[j].setAt + g.hold
  {
    var j := HoldBegan(g, ticks, k + 1);
  }

  /** Turn `j` is the first at which the target was reached, or all calls had been dialled and some were running: the
      hold begins with it. */
  predicate HoldsFrom(g: Goal, ticks: seq<Tick>, j: int) {
    && 0 <= j < |ticks|
    && (ticks[j].r.calls >= g.target ||
        (Plus(ticks[j].r.answered, ticks[j].r.failed) >= g.dispatched && ticks[j].r.calls > 0))
    && forall i | 0 <= i < j ::
      ticks[i].r.calls < g.target &&
      (Plus(ticks[i].r.answered, ticks[i].r.failed) < g.dispatched || ticks[i].r.calls == 0)
  }

  /** At turn `k` the hold time is over. */
  ghost predicate HeldOut(g: Goal, ticks: seq<Tick>, k: nat)
    requires k < |ticks|
  {
    exists j :: HoldsFrom(g, ticks, j) && j <= k && ticks[k].checkAt > ticks[j].setAt + g.hold
  }

  lemma {:induction false} HoldSinceIs(g: Goal, ticks: seq<Tick>, k: nat)
    requires k <= |ticks|
    ensures match HoldSince(g, ticks, k)
      case Some(t) => exists j :: HoldsFrom(g, ticks, j) && j < k && t == ticks[j].setAt
      case None => forall j | 0 <= j < k ::
        ticks[j].r.calls < g.target &&
        (Plus(ticks[j].r.answered, ticks[j].r.failed) < g.dispatched || ticks[j].r.calls == 0)
  {
    if k > 0 {
      HoldSinceIs(g, ticks, k - 1);
      if HoldSince(g, ticks, k - 1).None? && HoldSince(g, ticks, k).Some? { assert HoldsFrom(g, ticks, k - 1); }
    }
  }

  lemma {:induction false} OneBeginning(g: Goal, ticks: seq<Tick>, i: int, j: int)
    requires HoldsFrom(g, ticks, i) && HoldsFrom(g, ticks, j)
    ensures i == j
  {}

  /** A turn that neither is cancelled nor saturates ends the ramp if and only if the hold time is over, or every call
      was dialled and none is running; and the target counts as reached if and only if the hold time is over and the
      calls are there. */
  lemma {:induction false} JudgedExactly(g: Goal, ticks: seq<Tick>, k: nat)
    requires k < |ticks|
    ensures Judged(g, ticks, k) == Some(TargetReached) <==> HeldOut(g, ticks, k) && ticks[k].r.calls >= g.target
    ensures Judged(g, ticks, k) == Some(TargetNotReached) <==>
      if HeldOut(g, ticks, k) then ticks[k].r.calls < g.target
      else Plus(ticks[k].r.answered, ticks[k].r.failed) >= g.dispatched && ticks[k].r.calls == 0
    ensures Judged(g, ticks, k).Some? ==> Judged(g, ticks, k).value in {TargetReached, TargetNotReached}
  {
    HoldSinceIs(g, ticks, k + 1);
    if HoldSince(g, ticks, k + 1).Some? {
      var j :| HoldsFrom(g, ticks, j) && j < k + 1 && HoldSince(g, ticks, k + 1) == Some(ticks[j].setAt);
      forall i | HoldsFrom(g, ticks, i) ensures i == j { OneBeginning(g, ticks, i, j); }
    }
  }

  lemma {:induction false} HoldBegan(g: Goal, ticks: seq<Tick>, k: nat) returns (j: nat)
    requires k <= |ticks| && HoldSince(g, ticks, k).Some?
    ensures j < k && Full(g, ticks[j].r) && HoldSince(g, ticks, k) == Some(ticks[j].setAt)
  {
    if HoldSince(g, ticks, k - 1).Some? { j := HoldBegan(g, ticks, k - 1); } else { j := k - 1; }
  }

  // ---------------------------------------------------------------------------------------------
  // A whole rolling test
  // ---------------------------------------------------------------------------------------------

  /** The first `k` turns took `before` to `h`, none cancelled and none saturating a metric. */
  ghost predicate RollsTo(limits: map<string, Limits>, before: seq<Sample>, h: seq<Sample>, ticks: seq<Tick>, k: nat)
    requires k <= |ticks|
    decreases k
  {
    if k == 0 then h == before
    else
      && h != [] && h[|h| - 1] == SampleOf(ticks[k - 1].r)
      && RollsTo(limits, before, h[..|h| - 1], ticks, k - 1) && !ticks[k - 1].cancelled && Unsaturated(limits, h)
  }

  /** Turn `k` is the first to end a rolling test, and ends it this way. */
  ghost predicate RollEnds(
    limits: map<string, Limits>, before: seq<Sample>, h: seq<Sample>, ticks: seq<Tick>, k: nat, e: Ending)
    requires k < |ticks|
  {
    if ticks[k].cancelled then e == Cancelled && RollsTo(limits, before, h, ticks, k)
    else
      && h != [] && h[|h| - 1] == SampleOf(ticks[k].r) && RollsTo(limits, before, h[..|h| - 1], ticks, k)
      && e.Saturated? && FirstFull(limits, h, e.m)
  }

  method RollingTurn(st: TestState, r: Reading, ghost before: seq<Sample>, ghost ticks: seq<Tick>, ghost k: nat)
    returns (reason: Option<Ending>)
    requires st.Valid() && st.GoingOn() && k < |ticks| && ticks[k].r == r && !ticks[k].cancelled
    requires RollsTo(st.limits, before, Loads(st.samples), ticks, k)
    modifies st
    ensures reason.None? ==> st.Valid() && st.GoingOn() && RollsTo(st.limits, before, Loads(st.samples), ticks, k + 1)
    ensures reason.Some? ==> RollEnds(st.limits, before, Loads(st.samples), ticks, k, reason.value)
    ensures old(st.Peaks()) ==> st.Peaks()
  {
    LoadsMore(st.samples, Taken(Rolling, SampleOf(r)));
    DropLast(Loads(st.samples), SampleOf(r));
    var why := st.Take(Rolling, r);
    return if why.Some? then Some(Saturated(why.value)) else None;
  }

  method RollingLoop(st: TestState, ticks: seq<Tick>) returns (reason: Option<Ending>, ghost k: nat)
    requires st.Valid() && st.GoingOn()
    modifies st
    ensures k <= |ticks|
    ensures if k == |ticks| then reason.None? && RollsTo(st.limits, old(Loads(st.samples)), Loads(st.samples), ticks, k)
      else reason.Some? && RollEnds(st.limits, old(Loads(st.samples)), Loads(st.samples), ticks, k, reason.value)
    ensures old(st.Peaks()) ==> st.Peaks()
  {
    ghost var before := Loads(st.samples);
    k := 0;
    for i := 0 to |ticks|
      invariant k == i && st.Valid() && st.GoingOn() && (old(st.Peaks()) ==> st.Peaks())
      invariant RollsTo(st.limits, before, Loads(st.samples), ticks, i)
    {
      if ticks[i].cancelled { return Some(Cancelled), k; }
      reason := RollingTurn(st, ticks[i].r, before, ticks, i);
      if reason.Some? { return; }
      k := k + 1;
    }
    return None, k;
  }

  /** runRolling, by the samples that fall due: it ends early exactly at the first one that saturates, and otherwise
      judges the most calls that ran at once, within one per cent. */
  method RunRolling(st: TestState, ticks: seq<Tick>, target: nat) returns (reason: Ending, ghost k: nat)
    requires st.Valid() && st.GoingOn() && st.Peaks()
    modifies st
    ensures k <= |ticks|
    ensures k < |ticks| ==> RollEnds(st.limits, old(Loads(st.samples)), Loads(st.samples), ticks, k, reason)
    ensures k == |ticks| ==> RollsTo(st.limits, old(Loads(st.samples)), Loads(st.samples), ticks, k)
    ensures k == |ticks| ==>
      reason == if Peak(st.samples) >= target * 99 / 100 then TargetReached else TargetNotReached
  {
    var early;
    early, k := RollingLoop(st, ticks);
    if early.Some? { return early.value, k; }
    return if st.maxConcurrent >= target * 99 / 100 then TargetReached else TargetNotReached, k;
  }
}
