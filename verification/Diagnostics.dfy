/** How a benchmark test explains its failed calls: internal/testrun/diagnostics.go over the running totals of
    internal/orchestrator/health.go. The totals only grow, so a test's own share is a difference of two readings. */
module Diagnostics {
  import opened Text

  // ---------------------------------------------------------------------------------------------
  // Failure keys
  // ---------------------------------------------------------------------------------------------

  const REJECTED := "rejected"
  const UNDERSCORE := "_"

  /** failureKey's name for a cause and SIP code. */
  function FailureKey(cause: string, code: nat): string {
    if cause == REJECTED then cause + UNDERSCORE + Decimal(code) else cause
  }

  /** The number at the front of a text, as Sscanf reads it. */
  function LeadingNumber(s: string, n: nat): nat {
    if s == "" || !IsDigit(s[0]) then n else LeadingNumber(s[1..], 10 * n + (s[0] as int - '0' as int))
  }

  function SplitFailureKey(key: string): (string, nat) {
    if HasPrefix(key, REJECTED + UNDERSCORE) then (REJECTED, LeadingNumber(AfterPrefix(key, REJECTED + UNDERSCORE), 0))
    else (key, 0)
  }

  lemma {:induction false} LeadingNumberConcat(s: string, t: string, n: nat)
    requires AllDigits(s)
    ensures LeadingNumber(s + t, n) == LeadingNumber(t, LeadingNumber(s, n))
  {
    if s == "" {
      assert s + t == t;
    } else {
      assert (s + t)[1..] == s[1..] + t;
      LeadingNumberConcat(s[1..], t, 10 * n + (s[0] as int - '0' as int));
    }
  }

  lemma {:induction false} LeadingNumberIsValue(s: string)
    requires AllDigits(s)
    ensures LeadingNumber(s, 0) == Value(s)
  {
    if s != "" {
      var front, last := s[..|s| - 1], [s[|s| - 1]];
      LeadingNumberIsValue(front);
      LeadingNumberConcat(front, last, 0);
      assert s == front + last;
      assert last[1..] == "";
    }
  }

  /** A cause and code are recovered from their key, unless the cause itself reads like a rejection. */
  lemma {:induction false} FailureKeySplits(cause: string, code: nat)
    ensures SplitFailureKey(FailureKey(cause, code)) == (cause, if cause == REJECTED then code else 0) <==>
            !HasPrefix(cause, REJECTED + UNDERSCORE)
  {
    var key := FailureKey(cause, code);
    if cause == REJECTED {
      assert AfterPrefix(key, REJECTED + UNDERSCORE) == Decimal(code);
      LeadingNumberIsValue(Decimal(code));
      DecimalValue(code);
    }
  }

  // ---------------------------------------------------------------------------------------------
  // Media totals
  // ---------------------------------------------------------------------------------------------

  datatype MediaStats = MediaStats(expected: nat, received: nat, jitterMS: real)

  datatype Media = Media(calls: nat, expected: nat, received: nat, jitterSumMS: real, jitterMaxMS: real)

  function Min(a: nat, b: nat): nat { if a < b then a else b }

  function Added(m: Media, s: MediaStats): Media {
    if s.expected == 0 then m
    else
      Media(m.calls + 1, m.expected + s.expected, m.received + Min(s.received, s.expected),
            m.jitterSumMS + s.jitterMS, if s.jitterMS > m.jitterMaxMS then s.jitterMS else m.jitterMaxMS)
  }

  class MediaTotals {
    var calls: nat
    var expected: nat
    var received: nat
    var jitterSumMS: real
    var jitterMaxMS: real

    ghost function Now(): Media reads this { Media(calls, expected, received, jitterSumMS, jitterMaxMS) }

    method Add(s: MediaStats)
      modifies this
      ensures Now() == Added(old(Now()), s)
    {
      if s.expected == 0 { return; }
      calls := calls + 1;
      expected := expected + s.expected;
      received := received + Min(s.received, s.expected);
      jitterSumMS := jitterSumMS + s.jitterMS;
      if s.jitterMS > jitterMaxMS { jitterMaxMS := s.jitterMS; }
    }
  }

  function AllAdded(m: Media, stats: seq<MediaStats>): Media {
    if stats == [] then m else Added(AllAdded(m, stats[..|stats| - 1]), stats[|stats| - 1])
  }

  function LossPct(expected: nat, received: nat): real
    requires expected > 0
  {
    100.0 * (expected - received) as real / expected as real
  }

  /** Between any two readings no difference underflows, and the loss is a percentage, although a call's duplicates
      may have made it receive more than it expected. */
  lemma {:induction false} LossIsAPercentage(a: Media, stats: seq<MediaStats>)
    ensures var b := AllAdded(a, stats);
      && b.calls >= a.calls && b.expected >= a.expected && 0 <= b.received - a.received <= b.expected - a.expected
      && (b.expected > a.expected ==>
            var loss := LossPct(b.expected - a.expected, b.received - a.received);
            && 0.0 <= loss <= 100.0
            && loss * (b.expected - a.expected) as real ==
               100.0 * ((b.expected - a.expected) - (b.received - a.received)) as real)
      && (b.calls == a.calls <==> b.expected == a.expected)
  {
    if stats != [] { LossIsAPercentage(a, stats[..|stats| - 1]); }
    var b := AllAdded(a, stats);
    if b.expected > a.expected { Percentage(b.expected - a.expected, b.received - a.received); }
  }

  /** Of the calls that expected any packets: how many, what they expected together, what they received of that, and
      their jitter together. */
  function Heard(stats: seq<MediaStats>): (nat, nat, nat, real) {
    if stats == [] then (0, 0, 0, 0.0)
    else
      var rest, s := Heard(stats[1..]), stats[0];
      if s.expected == 0 then rest
      else
        (rest.0 + 1, rest.1 + s.expected, rest.2 + (if s.received > s.expected then s.expected else s.received),
         rest.3 + s.jitterMS)
  }

  lemma {:induction false} HeardMore(stats: seq<MediaStats>, s: MediaStats)
    ensures var a, b := Heard(stats), Heard([s]);
      Heard(stats + [s]) == (a.0 + b.0, a.1 + b.1, a.2 + b.2, a.3 + b.3)
  {
    if stats == [] {
      assert stats + [s] == [s];
    } else {
      assert (stats + [s])[1..] == stats[1..] + [s];
      HeardMore(stats[1..], s);
    }
  }

  /** The totals grow by what the calls add up to, each call's packets counted up to what it expected, and the highest
      jitter is the highest of all of them. */
  lemma {:induction false} TotalsAddUp(a: Media, stats: seq<MediaStats>)
    ensures var b, h := AllAdded(a, stats), Heard(stats);
      && b.calls == a.calls + h.0 && b.expected == a.expected + h.1 && b.received == a.received + h.2
      && b.jitterSumMS == a.jitterSumMS + h.3
      && a.jitterMaxMS <= b.jitterMaxMS
      && (forall i | 0 <= i < |stats| && stats[i].expected > 0 :: stats[i].jitterMS <= b.jitterMaxMS)
      && (b.jitterMaxMS == a.jitterMaxMS ||
          exists i | 0 <= i < |stats| :: stats[i].expected > 0 && stats[i].jitterMS == b.jitterMaxMS)
  {
    if stats != [] {
      var n := |stats| - 1;
      TotalsAddUp(a, stats[..n]);
      HeardMore(stats[..n], stats[n]);
      assert stats == stats[..n] + [stats[n]] && [stats[n]][1..] == [];
      var m := AllAdded(a, stats[..n]);
      if m.jitterMaxMS != a.jitterMaxMS {
        var i :| 0 <= i < n && stats[..n][i].expected > 0 && stats[..n][i].jitterMS == m.jitterMaxMS;
        assert stats[i].expected > 0 && stats[i].jitterMS == m.jitterMaxMS;
      }
      assert stats[n].expected > 0 && stats[n].jitterMS > m.jitterMaxMS ==>
          stats[n].jitterMS == AllAdded(a, stats).jitterMaxMS;
    }
  }

  lemma {:induction false} MulStrict(a: real, b: real, c: real)
    requires a < b && c > 0.0
    ensures a * c < b * c
  {
    assert (b - a) * c > 0.0;
  }

  lemma {:induction false} Percentage(expected: nat, received: nat)
    requires received <= expected && expected > 0
    ensures 0.0 <= LossPct(expected, received) <= 100.0
    ensures LossPct(expected, received) * expected as real == 100.0 * (expected - received) as real
  {
    var lost, all := (expected - received) as real, expected as real;
    var p := 100.0 * lost / all;
    assert p * all == 100.0 * lost;
    if p < 0.0 { MulStrict(p, 0.0, all); }
    if p > 100.0 { MulStrict(100.0, p, all); }
  }

  // ---------------------------------------------------------------------------------------------
  // Causes
  // ---------------------------------------------------------------------------------------------

  /** A cause of failed calls: a failure key, or one of the two counted apart. */
  datatype Cause = Key(key: string) | Dropped | NoAudio

  datatype Health = Health(failures: map<string, nat>, dropped: nat, noAudio: nat, notRegistered: nat)

  function CountOf(h: Health, c: Cause): nat {
    match c
    case Key(key) => if key in h.failures then h.failures[key] else 0
    case Dropped => h.dropped
    case NoAudio => h.noAudio
  }

  /** Counters only grow. */
  ghost predicate Grown(a: Health, b: Health) {
    && a.failures.Keys <= b.failures.Keys
    && forall c {:trigger CountOf(b, c)} :: CountOf(a, c) <= CountOf(b, c)
  }

  /** One load sample: the calls running at once, the second of the test, and the totals read then. */
  datatype Reading = Reading(h: Health, calls: nat, at: nat)

  /** The first reading that has the cause above its count at the start. */
  function FirstMark(start: Health, seen: seq<Reading>, c: Cause): Option<(nat, nat)> {
    if seen == [] then None
    else
      var last := seen[|seen| - 1];
      if FirstMark(start, seen[..|seen| - 1], c).Some? then FirstMark(start, seen[..|seen| - 1], c)
      else if CountOf(last.h, c) > CountOf(start, c) then Some((last.calls, last.at))
      else None
  }

  function LastOf(start: Health, seen: seq<Reading>): Health {
    if seen == [] then start else seen[|seen| - 1].h
  }

  ghost predicate Monotone(start: Health, seen: seq<Reading>) {
    seen == [] ||
    (Monotone(start, seen[..|seen| - 1]) && Grown(LastOf(start, seen[..|seen| - 1]), seen[|seen| - 1].h))
  }

  /** In a growing history a cause is marked exactly when its last count is above the start. */
  lemma {:induction false} MarkedIffAbove(start: Health, seen: seq<Reading>, c: Cause)
    requires Monotone(start, seen)
    ensures FirstMark(start, seen, c).Some? <==> CountOf(LastOf(start, seen), c) > CountOf(start, c)
    ensures CountOf(LastOf(start, seen), c) >= CountOf(start, c)
  {
    if seen != [] { MarkedIffAbove(start, seen[..|seen| - 1], c); }
  }

  /** The mark is that of the first reading above the start. */
  lemma {:induction false} MarkIsFirst(start: Health, seen: seq<Reading>, c: Cause)
    ensures match FirstMark(start, seen, c)
      case None => forall k | 0 <= k < |seen| :: CountOf(seen[k].h, c) <= CountOf(start, c)
      case Some(mark) => exists k | 0 <= k < |seen| ::
        && (seen[k].calls, seen[k].at) == mark && CountOf(seen[k].h, c) > CountOf(start, c)
        && forall j | 0 <= j < k :: CountOf(seen[j].h, c) <= CountOf(start, c)
  {
    if seen != [] {
      var n := |seen| - 1;
      MarkIsFirst(start, seen[..n], c);
      if FirstMark(start, seen[..n], c).Some? {
        var k :| 0 <= k < n && (seen[..n][k].calls, seen[..n][k].at) == FirstMark(start, seen[..n], c).value
          && CountOf(seen[..n][k].h, c) > CountOf(start, c)
          && forall j | 0 <= j < k :: CountOf(seen[..n][j].h, c) <= CountOf(start, c);
        assert (seen[k].calls, seen[k].at) == FirstMark(start, seen, c).value;
        assert forall j | 0 <= j < k :: seen[j] == seen[..n][j];
      } else {
        assert forall j | 0 <= j < n :: seen[j] == seen[..n][j];
        if CountOf(seen[n].h, c) > CountOf(start, c) {
          assert (seen[n].calls, seen[n].at) == FirstMark(start, seen, c).value;
        }
      }
    }
  }

  // ---------------------------------------------------------------------------------------------
  // The bookkeeping of a test
  // ---------------------------------------------------------------------------------------------

  const MAX_EVENTS := 100

  datatype Event =
    | FailuresStarted(cause: Cause, calls: nat, at: nat)
    | RegistrationLost(count: nat, calls: nat, at: nat)

  type Marks = map<Cause, (nat, nat)>

  function MarkOf(marks: Marks, c: Cause): Option<(nat, nat)> { if c in marks then Some(marks[c]) else None }

  /** The mark kept for a cause is the first one of the history. */
  ghost predicate MarksRight(marks: Marks, start: Health, seen: seq<Reading>, c: Cause) {
    MarkOf(marks, c) == FirstMark(start, seen, c)
  }

  ghost predicate AllMarked(marks: Marks, start: Health, seen: seq<Reading>) {
    forall c :: MarksRight(marks, start, seen, c)
  }

  predicate Started(events: seq<Event>, c: Cause, mark: (nat, nat)) {
    FailuresStarted(c, mark.0, mark.1) in events
  }

  /** Each marked cause has one event, with its mark, unless the list is full; other causes have none. */
  ghost predicate EventsOnce(events: seq<Event>, marks: Marks) {
    && |events| <= MAX_EVENTS
    && (forall c | c in marks :: Started(events, c, marks[c]) || |events| == MAX_EVENTS)
    && (forall i | 0 <= i < |events| && events[i].FailuresStarted? ::
          MarkOf(marks, events[i].cause) == Some((events[i].calls, events[i].at)))
    && (forall i, j | 0 <= i < j < |events| && events[i].FailuresStarted? && events[j].FailuresStarted? ::
          events[i].cause != events[j].cause)
  }

  /** The list of events takes no more than a hundred. */
  function Logged(events: seq<Event>, e: Event): seq<Event> {
    if |events| < MAX_EVENTS then events + [e] else events
  }

  lemma {:induction false} StartedMore(events: seq<Event>, marks: Marks, c: Cause, mark: (nat, nat))
    requires EventsOnce(events, marks) && c !in marks
    ensures EventsOnce(Logged(events, FailuresStarted(c, mark.0, mark.1)), marks[c := mark])
  {
    var more, marks' := Logged(events, FailuresStarted(c, mark.0, mark.1)), marks[c := mark];
    forall d | d in marks' ensures Started(more, d, marks'[d]) || |more| == MAX_EVENTS {
      assert d != c ==> Started(events, d, marks[d]) || |events| == MAX_EVENTS;
    }
    forall i | 0 <= i < |events| && events[i].FailuresStarted? ensures events[i].cause in marks {
      assert MarkOf(marks, events[i].cause).Some?;
    }
  }

  function LostEvent(prev: Health, r: Reading): Event
    requires r.h.notRegistered > prev.notRegistered
  {
    RegistrationLost(r.h.notRegistered - prev.notRegistered, r.calls, r.at)
  }

  lemma {:induction false} LostMore(events: seq<Event>, marks: Marks, e: Event)
    requires EventsOnce(events, marks) && e.RegistrationLost?
    ensures EventsOnce(Logged(events, e), marks)
  {
    forall c | c in marks ensures Started(Logged(events, e), c, marks[c]) || |Logged(events, e)| == MAX_EVENTS {
      assert Started(events, c, marks[c]) || |events| == MAX_EVENTS;
    }
  }

  /** Only starts of failures have been added since. */
  ghost predicate StartsSince(was: seq<Event>, now: seq<Event>) {
    was <= now && forall i | |was| <= i < |now| :: now[i].FailuresStarted?
  }

  /** Every mark of `a` is still there in `b`. */
  ghost predicate Keeps(a: Marks, b: Marks) { forall c | c in a :: MarkOf(b, c) == Some(a[c]) }

  lemma {:induction false} MarkStep(start: Health, seen: seq<Reading>, r: Reading, c: Cause)
    requires Monotone(start, seen)
    ensures FirstMark(start, seen + [r], c) ==
      if CountOf(r.h, c) > CountOf(start, c) && CountOf(LastOf(start, seen), c) <= CountOf(start, c)
      then Some((r.calls, r.at)) else FirstMark(start, seen, c)
  {
    assert (seen + [r])[..|seen|] == seen;
    MarkedIffAbove(start, seen, c);
  }

  /** A mark is never moved by a later reading. */
  lemma {:induction false} MarksStay(before: Marks, after: Marks, start: Health, seen: seq<Reading>, r: Reading)
    requires Monotone(start, seen) && AllMarked(before, start, seen) && AllMarked(after, start, seen + [r])
    ensures Keeps(before, after)
  {
    forall c | c in before ensures MarkOf(after, c) == Some(before[c]) {
      assert MarksRight(before, start, seen, c) && MarksRight(after, start, seen + [r], c);
      MarkStep(start, seen, r, c);
      MarkedIffAbove(start, seen, c);
    }
  }

  lemma {:induction false} MonotoneMore(start: Health, seen: seq<Reading>, r: Reading)
    requires Monotone(start, seen) && Grown(LastOf(start, seen), r.h)
    ensures Monotone(start, seen + [r])
  {
    assert (seen + [r])[..|seen|] == seen;
  }

  /** A key that a reading does not have is not marked by it. */
  lemma {:induction false} UnseenKeys(marks: Marks, start: Health, seen: seq<Reading>, r: Reading)
    requires Monotone(start, seen)
    requires forall key | key in r.h.failures :: MarksRight(marks, start, seen + [r], Key(key))
    requires forall key | key !in r.h.failures :: MarksRight(marks, start, seen, Key(key))
    ensures forall key :: MarksRight(marks, start, seen + [r], Key(key))
  {
    forall key ensures MarksRight(marks, start, seen + [r], Key(key)) { MarkStep(start, seen, r, Key(key)); }
  }

  lemma {:induction false} KeysStay(before: Marks, after: Marks, start: Health, all: seq<Reading>, c: Cause)
    requires !c.Key? && forall d | d != c :: MarkOf(after, d) == MarkOf(before, d)
    requires forall key :: MarksRight(before, start, all, Key(key))
    ensures forall key :: MarksRight(after, start, all, Key(key))
  {
    forall key ensures MarksRight(after, start, all, Key(key)) { assert MarksRight(before, start, all, Key(key)); }
  }

  lemma {:induction false} AllKinds(marks: Marks, start: Health, all: seq<Reading>)
    requires forall key :: MarksRight(marks, start, all, Key(key))
    requires MarksRight(marks, start, all, Dropped) && MarksRight(marks, start, all, NoAudio)
    ensures AllMarked(marks, start, all)
  {
    forall c ensures MarksRight(marks, start, all, c) {
      if c.Key? { assert MarksRight(marks, start, all, Key(c.key)); }
    }
  }

  class Diag {
    const start: Health
    var prev: Health
    var atStop: Option<Health>
    var firstFailure: Marks
    var events: seq<Event>
    /** The readings taken before the stop. */
    ghost var seen: seq<Reading>

    ghost predicate Valid() reads this {
      && Monotone(start, seen)
      && (atStop.None? ==> prev == LastOf(start, seen))
      && (atStop.Some? ==> Grown(LastOf(start, seen), atStop.value))
      && AllMarked(firstFailure, start, seen) && EventsOnce(events, firstFailure)
    }

    constructor (h: Health)
      ensures Valid() && start == h && seen == [] && atStop == None && events == []
    {
      start, prev, atStop, firstFailure, events, seen := h, h, None, map[], [], [];
    }

    method AddEvent(e: Event)
      modifies this`events
      ensures events == Logged(old(events), e)
    {
      if |events| < MAX_EVENTS { events := events + [e]; }
    }

    /** One cause of a load sample. */
    method NoteCause(c: Cause, r: Reading)
      requires Monotone(start, seen) && prev == LastOf(start, seen)
      requires MarksRight(firstFailure, start, seen, c) && EventsOnce(events, firstFailure)
      modifies this`firstFailure, this`events
      ensures MarksRight(firstFailure, start, seen + [r], c) && EventsOnce(events, firstFailure)
      ensures StartsSince(old(events), events)
      ensures forall d | d != c :: MarkOf(firstFailure, d) == MarkOf(old(firstFailure), d)
    {
      MarkStep(start, seen, r, c);
      MarkedIffAbove(start, seen, c);
      if CountOf(r.h, c) > CountOf(start, c) && CountOf(prev, c) <= CountOf(start, c) { MarkCause(c, r); }
    }

    /** The first failures of a cause. */
    method MarkCause(c: Cause, r: Reading)
      requires EventsOnce(events, firstFailure) && c !in firstFailure
      modifies this`firstFailure, this`events
      ensures firstFailure == old(firstFailure)[c := (r.calls, r.at)]
      ensures EventsOnce(events, firstFailure) && StartsSince(old(events), events)
    {
      StartedMore(events, firstFailure, c, (r.calls, r.at));
      firstFailure := firstFailure[c := (r.calls, r.at)];
      AddEvent(FailuresStarted(c, r.calls, r.at));
    }

    /** The loop over the reading's failure keys. */
    method NoteKeys(r: Reading)
      requires Monotone(start, seen) && prev == LastOf(start, seen) && EventsOnce(events, firstFailure)
      requires AllMarked(firstFailure, start, seen)
      modifies this`firstFailure, this`events
      ensures EventsOnce(events, firstFailure) && StartsSince(old(events), events)
      ensures forall key :: MarksRight(firstFailure, start, seen + [r], Key(key))
      ensures forall c: Cause | !c.Key? :: MarksRight(firstFailure, start, seen, c)
    {
      var left := r.h.failures.Keys;
      while left != {}
        invariant left <= r.h.failures.Keys && EventsOnce(events, firstFailure) && StartsSince(old(events), events)
        invariant forall key | key in left :: MarksRight(firstFailure, start, seen, Key(key))
        invariant forall key | key in r.h.failures && key !in left ::
          MarksRight(firstFailure, start, seen + [r], Key(key))
        invariant forall key | key !in r.h.failures :: MarksRight(firstFailure, start, seen, Key(key))
        invariant forall c: Cause | !c.Key? :: MarksRight(firstFailure, start, seen, c)
      {
        var key :| key in left;
        NoteCause(Key(key), r);
        left := left - {key};
      }
      UnseenKeys(firstFailure, start, seen, r);
    }

    /** All causes of a load sample. */
    method NoteAll(r: Reading)
      requires Monotone(start, seen) && prev == LastOf(start, seen) && EventsOnce(events, firstFailure)
      requires AllMarked(firstFailure, start, seen)
      modifies this`firstFailure, this`events
      ensures AllMarked(firstFailure, start, seen + [r]) && EventsOnce(events, firstFailure)
      ensures Keeps(old(firstFailure), firstFailure) && StartsSince(old(events), events)
    {
      NoteKeys(r);
      NoteOther(r);
      MarksStay(old(firstFailure), firstFailure, start, seen, r);
    }

    /** The two causes that are counted apart. */
    method NoteOther(r: Reading)
      requires Monotone(start, seen) && prev == LastOf(start, seen) && EventsOnce(events, firstFailure)
      requires forall key :: MarksRight(firstFailure, start, seen + [r], Key(key))
      requires forall c: Cause | !c.Key? :: MarksRight(firstFailure, start, seen, c)
      modifies this`firstFailure, this`events
      ensures AllMarked(firstFailure, start, seen + [r]) && EventsOnce(events, firstFailure)
      ensures StartsSince(old(events), events)
    {
      ghost var keyed := firstFailure;
      assert MarksRight(keyed, start, seen, Dropped) && MarksRight(keyed, start, seen, NoAudio);
      NoteCause(Dropped, r);
      ghost var dropped := firstFailure;
      KeysStay(keyed, dropped, start, seen + [r], Dropped);
      NoteCause(NoAudio, r);
      KeysStay(dropped, firstFailure, start, seen + [r], NoAudio);
      AllKinds(firstFailure, start, seen + [r]);
    }

    /** A reading with more lost registrations than the one before. */
    method NoteLost(r: Reading)
      requires EventsOnce(events, firstFailure)
      modifies this`events
      ensures EventsOnce(events, firstFailure)
      ensures events == if r.h.notRegistered <= prev.notRegistered then old(events)
                        else Logged(old(events), LostEvent(prev, r))
    {
      if r.h.notRegistered > prev.notRegistered {
        LostMore(events, firstFailure, LostEvent(prev, r));
        AddEvent(RegistrationLost(r.h.notRegistered - prev.notRegistered, r.calls, r.at));
      }
    }

    /** diagnoseSample's part about failures and registrations. */
    method Sample(r: Reading)
      requires Valid() && Grown(prev, r.h)
      modifies this
      ensures Valid() && prev == r.h && atStop == old(atStop)
      ensures seen == if atStop.Some? then old(seen) else old(seen) + [r]
      ensures atStop.Some? ==> firstFailure == old(firstFailure) && events == old(events)
      ensures Keeps(old(firstFailure), firstFailure) && old(events) <= events
      ensures old(atStop).None? && r.h.notRegistered > old(prev).notRegistered ==>
        |events| == MAX_EVENTS ||
        (events != [] && events[|events| - 1] ==
                         RegistrationLost(r.h.notRegistered - old(prev).notRegistered, r.calls, r.at))
      ensures r.h.notRegistered <= old(prev).notRegistered ==> StartsSince(old(events), events)
    {
      if atStop.Some? {
        prev := r.h;
        return;
      }
      NoteAll(r);
      NoteLost(r);
      MonotoneMore(start, seen, r);
      prev, seen := r.h, seen + [r];
    }

    /** runTest's reading when the test stops placing calls. */
    method Stop(h: Health)
      requires Valid() && atStop.None? && Grown(prev, h)
      modifies this`atStop
      ensures Valid() && atStop == Some(h)
    {
      atStop := Some(h);
    }

    /** finishDiagnostics' list of failures, before it is sorted by size. */
    method Failures(end: Health) returns (list: seq<Failure>)
      requires Valid() && Grown(start, end) && Grown(StopHealth(atStop, end), end)
      ensures Explains(start, seen, StopHealth(atStop, end), end, list)
    {
      var stop := if atStop.Some? then atStop.value else end;
      list := [];
      var left := end.failures.Keys;
      ghost var done: set<Cause> := {};
      while left != {}
        invariant left <= end.failures.Keys
        invariant Listed(start, seen, stop, end, list, done)
        invariant forall c :: c in done <==> c.Key? && c.key in end.failures && c.key !in left
      {
        var key :| key in left;
        list := AddFailure(list, Key(key), stop, end, done);
        left, done := left - {key}, done + {Key(key)};
      }
      list := AddFailure(list, Dropped, stop, end, done);
      done := done + {Dropped};
      list := AddFailure(list, NoAudio, stop, end, done);
    }

    method AddFailure(list: seq<Failure>, c: Cause, stop: Health, end: Health, ghost done: set<Cause>)
      returns (more: seq<Failure>)
      requires Valid() && Grown(start, end) && Grown(stop, end)
      requires Listed(start, seen, stop, end, list, done) && c !in done
      ensures Listed(start, seen, stop, end, more, done + {c})
    {
      assert MarksRight(firstFailure, start, seen, c);
      var n := CountOf(end, c) - CountOf(start, c);
      if n == 0 {
        ListedMore(start, seen, stop, end, list, done, c);
        return list;
      }
      var f := Failure(c, n, CountOf(end, c) - CountOf(stop, c),
                       if c in firstFailure then Some(firstFailure[c]) else None);
      ListedMore(start, seen, stop, end, list, done, c);
      return list + [f];
    }
  }

  /** One entry of the report. */
  datatype Failure = Failure(cause: Cause, count: nat, afterStop: nat, first: Option<(nat, nat)>)

  function StopHealth(atStop: Option<Health>, end: Health): Health {
    if atStop.Some? then atStop.value else end
  }

  /** What the report should say about a cause. */
  predicate Describes(start: Health, seen: seq<Reading>, stop: Health, end: Health, f: Failure) {
    && f.count == CountOf(end, f.cause) - CountOf(start, f.cause) && f.count > 0
    && f.afterStop == CountOf(end, f.cause) - CountOf(stop, f.cause)
    && f.first == FirstMark(start, seen, f.cause)
  }

  predicate Names(list: seq<Failure>, c: Cause) { exists i | 0 <= i < |list| :: list[i].cause == c }

  /** The list describes, once each, exactly those causes among `done` that occurred. */
  ghost predicate Listed(
    start: Health, seen: seq<Reading>, stop: Health, end: Health, list: seq<Failure>, done: set<Cause>)
  {
    && (forall i | 0 <= i < |list| :: list[i].cause in done && Describes(start, seen, stop, end, list[i]))
    && (forall i, j | 0 <= i < j < |list| :: list[i].cause != list[j].cause)
    && (forall c {:trigger Names(list, c)} | c in done && CountOf(end, c) > CountOf(start, c) :: Names(list, c))
  }

  ghost predicate Explains(start: Health, seen: seq<Reading>, stop: Health, end: Health, list: seq<Failure>) {
    && (forall i | 0 <= i < |list| :: Describes(start, seen, stop, end, list[i]))
    && (forall i, j | 0 <= i < j < |list| :: list[i].cause != list[j].cause)
    && (forall c {:trigger Names(list, c)} | CountOf(end, c) > CountOf(start, c) :: Names(list, c))
  }

  lemma {:induction false} ListedMore(
    start: Health, seen: seq<Reading>, stop: Health, end: Health, list: seq<Failure>, done: set<Cause>, c: Cause)
    requires Listed(start, seen, stop, end, list, done) && c !in done
    ensures CountOf(end, c) <= CountOf(start, c) ==> Listed(start, seen, stop, end, list, done + {c})
    ensures forall f: Failure | f.cause == c && Describes(start, seen, stop, end, f) ::
      Listed(start, seen, stop, end, list + [f], done + {c})
  {
    if CountOf(end, c) <= CountOf(start, c) {
      forall d | d in done + {c} && CountOf(end, d) > CountOf(start, d) ensures Names(list, d) {}
    }
    forall f: Failure | f.cause == c && Describes(start, seen, stop, end, f)
      ensures Listed(start, seen, stop, end, list + [f], done + {c})
    {
      var more := list + [f];
      forall d | d in done + {c} && CountOf(end, d) > CountOf(start, d) ensures Names(more, d) {
        if d == c {
          assert more[|list|].cause == c;
        } else {
          assert Names(list, d);
          var i :| 0 <= i < |list| && list[i].cause == d;
          assert more[i].cause == d;
        }
      }
    }
  }

  /** Of each cause's calls at most all failed after the stop; one that has a mark failed before it as well; and it has
      a mark exactly when the last reading before the stop had it above the start. */
  lemma {:induction false} AfterStopFits(
    start: Health, seen: seq<Reading>, stop: Health, end: Health, f: Failure)
    requires Monotone(start, seen) && Grown(LastOf(start, seen), stop) && Grown(stop, end)
    requires Describes(start, seen, stop, end, f)
    ensures 0 <= f.afterStop <= f.count && (f.first.Some? ==> f.count > f.afterStop)
    ensures f.first.Some? <==> CountOf(LastOf(start, seen), f.cause) > CountOf(start, f.cause)
  {
    MarkedIffAbove(start, seen, f.cause);
    assert CountOf(LastOf(start, seen), f.cause) <= CountOf(stop, f.cause) <= CountOf(end, f.cause);
  }

  /** The report's counts are those of the totals they are named for. */
  lemma {:induction false} ReportedCounts(
    start: Health, seen: seq<Reading>, stop: Health, end: Health, list: seq<Failure>, i: nat)
    requires Explains(start, seen, stop, end, list) && Grown(start, end) && i < |list|
    ensures match list[i].cause
      case Dropped => list[i].count == end.dropped - start.dropped && list[i].afterStop == end.dropped - stop.dropped
      case NoAudio => list[i].count == end.noAudio - start.noAudio && list[i].afterStop == end.noAudio - stop.noAudio
      case Key(key) =>
        key in end.failures &&
        list[i].count == end.failures[key] - if key in start.failures then start.failures[key] else 0
    ensures end.dropped > start.dropped ==> Names(list, Dropped)
    ensures end.noAudio > start.noAudio ==> Names(list, NoAudio)
    ensures forall key | key in end.failures && key !in start.failures && end.failures[key] > 0 :: Names(list, Key(key))
  {
    assert Describes(start, seen, stop, end, list[i]);
    assert CountOf(end, Dropped) > CountOf(start, Dropped) ==> Names(list, Dropped);
    assert CountOf(end, NoAudio) > CountOf(start, NoAudio) ==> Names(list, NoAudio);
    forall key | key in end.failures && key !in start.failures && end.failures[key] > 0 ensures Names(list, Key(key)) {
      assert CountOf(end, Key(key)) > CountOf(start, Key(key));
    }
  }
}
