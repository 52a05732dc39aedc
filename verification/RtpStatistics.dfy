/** What the receive statistics of an RTP stream mean, over whole runs of packets. */
module RtpStatistics {
  import opened Rtp

  // ---------------------------------------------------------------------------------------------
  // The extended sequence number
  // ---------------------------------------------------------------------------------------------

  /** The cycle count is the high half of the highest sequence number. */
  ghost predicate Consistent(st: ReceiveState) {
    if st.haveBase then st.cycles == st.highestSeq / 0x1_0000
    else st.cycles == 0 && !st.havePeerSSRC && !st.haveLastTransit && st.jitter == 0.0
  }

  /** The event is a wrap the 16-bit cycle count has no room for. */
  ghost predicate Overflows(st: ReceiveState, e: Event) {
    e.Media? && e.h.ssrc == st.peerSSRC && st.haveBase && st.cycles == 0xFFFF && Wraps(st.highestSeq, e.h.seqNo)
  }

  ghost predicate OneSource(st: ReceiveState) { st.havePeerSSRC == st.haveBase }

  /** One event keeps the cycle count and the highest number together exactly when it does not overflow. */
  lemma {:induction false} CyclesKeptExactly(st: ReceiveState, clock: nat, e: Event)
    requires Consistent(st) && OneSource(st)
    ensures OneSource(Receive(st, clock, e))
    ensures Consistent(Receive(st, clock, e)) <==> !Overflows(st, e)
  {
    if e.Media? {
      var a := Source(st, e.h.ssrc);
      assert a.haveBase ==> a == st;
      assert Sequence(a, e.h.seqNo).haveBase;
      assert Receive(st, clock, e).cycles == Sequence(a, e.h.seqNo).cycles;
      assert Receive(st, clock, e).highestSeq == Sequence(a, e.h.seqNo).highestSeq;
      if a.haveBase { ExtendedSplits(a, e.h.seqNo); }
    }
  }

  lemma {:induction false} ExtendedSplits(st: ReceiveState, s: u16)
    requires st.haveBase && st.cycles == st.highestSeq / 0x1_0000
    ensures Extended(st, s) / 0x1_0000 == CyclesAfter(st, s)
    ensures Wraps(st.highestSeq, s) && st.cycles == 0xFFFF ==> Extended(st, s) < st.highestSeq
    ensures Wraps(st.highestSeq, s) && st.cycles < 0xFFFF ==> Extended(st, s) > st.highestSeq
    ensures !Wraps(st.highestSeq, s) ==> Extended(st, s) / 0x1_0000 == st.highestSeq / 0x1_0000
  {}

  ghost predicate NeverOverflows(clock: nat, events: seq<Event>) {
    events == [] ||
    (NeverOverflows(clock, events[..|events| - 1]) &&
     !Overflows(After(Fresh(None), clock, events[..|events| - 1]), events[|events| - 1]))
  }

  /** After any run with fewer wraps than the counter holds, the cycle count is the high half. */
  lemma {:induction false} CyclesAreTheHighHalf(clock: nat, events: seq<Event>)
    requires NeverOverflows(clock, events)
    ensures Consistent(After(Fresh(None), clock, events)) && OneSource(After(Fresh(None), clock, events))
  {
    if events != [] {
      CyclesAreTheHighHalf(clock, events[..|events| - 1]);
      CyclesKeptExactly(After(Fresh(None), clock, events[..|events| - 1]), clock, events[|events| - 1]);
    }
  }

  /** Within a source the highest number never decreases. */
  lemma {:induction false} HighestNeverFalls(st: ReceiveState, clock: nat, e: Event)
    requires st.haveBase && OneSource(st) && (e.Media? ==> e.h.ssrc == st.peerSSRC)
    ensures Receive(st, clock, e).highestSeq >= st.highestSeq && Receive(st, clock, e).baseSeq == st.baseSeq
  {}

  /** `x` is read rightly when the highest number so far is `highest`: in its cycle and at most 32768 behind
      it, or in the next cycle and at most 32767 ahead. */
  predicate InWindow(highest: nat, x: nat) {
    (x / 0x1_0000 == highest / 0x1_0000 && x + 0x8000 >= highest) ||
    (x / 0x1_0000 == highest / 0x1_0000 + 1 && x <= highest + 0x7FFF)
  }

  /** Any packet up to 32767 ahead is in the window, and so is any late one within 32768 in the same cycle. */
  lemma {:induction false} WindowCovers(highest: nat, x: nat)
    requires highest < x <= highest + 0x7FFF ||
             (x <= highest <= x + 0x8000 && x / 0x1_0000 == highest / 0x1_0000)
    ensures InWindow(highest, x)
  {}

  /** The receiver takes a packet's 16-bit number for its true number exactly when it is in the window. */
  lemma {:induction false} ReadRightlyExactly(st: ReceiveState, x: u32)
    requires st.haveBase && Consistent(st)
    requires st.cycles == 0xFFFF ==> x / 0x1_0000 == 0xFFFF
    ensures Extended(st, Wrap16(x)) == x <==> InWindow(st.highestSeq, x)
  {}

  function Top(xs: seq<nat>): nat
    requires xs != []
  {
    if |xs| == 1 then xs[0]
    else
      var m := Top(xs[..|xs| - 1]);
      if xs[|xs| - 1] > m then xs[|xs| - 1] else m
  }

  lemma {:induction false} TopIsMaximum(xs: seq<nat>)
    requires xs != []
    ensures Top(xs) in xs && forall i | 0 <= i < |xs| :: xs[i] <= Top(xs)
  {
    if |xs| > 1 {
      TopIsMaximum(xs[..|xs| - 1]);
      forall i | 0 <= i < |xs| ensures xs[i] <= Top(xs) {
        if i < |xs| - 1 { assert xs[i] == xs[..|xs| - 1][i]; }
      }
    }
  }

  /** Every number is read within the window of the highest before it. */
  ghost predicate AllInWindow(xs: seq<nat>) {
    forall j | 1 <= j < |xs| :: InWindow(Top(xs[..j]), xs[j])
  }

  lemma {:induction false} PrefixInWindow(xs: seq<nat>)
    requires |xs| > 1 && AllInWindow(xs)
    ensures AllInWindow(xs[..|xs| - 1])
  {
    var ys := xs[..|xs| - 1];
    forall j | 1 <= j < |ys| ensures InWindow(Top(ys[..j]), ys[j]) {
      assert ys[..j] == xs[..j];
    }
  }

  lemma {:induction false} UnwrapStep(st: ReceiveState, clock: nat, e: Event, x: u32)
    requires st.havePeerSSRC && st.haveBase && st.cycles == st.highestSeq / 0x1_0000
    requires e.Media? && e.h.ssrc == st.peerSSRC && e.h.seqNo == Wrap16(x) && InWindow(st.highestSeq, x)
    ensures var t := Receive(st, clock, e);
      && t.havePeerSSRC && t.peerSSRC == st.peerSSRC && t.haveBase && t.baseSeq == st.baseSeq
      && t.highestSeq == (if x > st.highestSeq then x else st.highestSeq)
      && t.cycles == t.highestSeq / 0x1_0000
      && t.packetsReceived == Wrap32(st.packetsReceived + 1)
  {
    ReadRightlyExactly(st, x);
    ExtendedSplits(st, e.h.seqNo);
    assert Source(st, e.h.ssrc) == st;
    var t := Sequence(st, e.h.seqNo);
    assert Receive(st, clock, e) == t.(lastTransit := Receive(st, clock, e).lastTransit, haveLastTransit := true,
      jitter := Receive(st, clock, e).jitter);
  }

  /** The packet is of that source and its number is the low half of `x`. */
  predicate Carries(e: Event, ssrc: u32, x: nat) {
    x < 0x1_0000_0000 && e.Media? && e.h.ssrc == ssrc && e.h.seqNo == Wrap16(x)
  }

  /** The state knows the source, its first number and the highest of those that came, and their count. */
  ghost predicate Unwrapped(st: ReceiveState, ssrc: u32, xs: seq<nat>)
    requires xs != []
  {
    && st.havePeerSSRC && st.peerSSRC == ssrc && st.haveBase
    && st.baseSeq == xs[0] && st.highestSeq == Top(xs) && st.cycles == Top(xs) / 0x1_0000
    && st.packetsReceived == Wrap32(|xs|)
  }

  lemma {:induction false} FirstUnwraps(clock: nat, e: Event, ssrc: u32, x: nat)
    requires Carries(e, ssrc, x) && x < 0x1_0000
    ensures Unwrapped(Receive(Fresh(None), clock, e), ssrc, [x])
  {}

  lemma {:induction false} NextUnwraps(st: ReceiveState, clock: nat, e: Event, ssrc: u32, xs: seq<nat>, x: nat)
    requires xs != [] && Unwrapped(st, ssrc, xs) && InWindow(Top(xs), x) && Carries(e, ssrc, x)
    ensures Unwrapped(Receive(st, clock, e), ssrc, xs + [x])
  {
    assert (xs + [x])[..|xs|] == xs;
    UnwrapStep(st, clock, e, x);
    NextCount(|xs|);
  }

  /** A source whose numbers all fall in the window is unwrapped exactly. */
  lemma {:induction false} Unwraps(clock: nat, events: seq<Event>, ssrc: u32, xs: seq<nat>)
    requires |events| == |xs| > 0 && AllInWindow(xs) && xs[0] < 0x1_0000
    requires forall j | 0 <= j < |xs| :: Carries(events[j], ssrc, xs[j])
    ensures Unwrapped(After(Fresh(None), clock, events), ssrc, xs)
  {
    var last := |xs| - 1;
    assert Carries(events[last], ssrc, xs[last]);
    if last > 0 {
      PrefixInWindow(xs);
      forall j | 0 <= j < last ensures Carries(events[..last][j], ssrc, xs[..last][j]) {
        assert Carries(events[j], ssrc, xs[j]);
      }
      Unwraps(clock, events[..last], ssrc, xs[..last]);
      assert InWindow(Top(xs[..last]), xs[last]) && xs[..last] + [xs[last]] == xs;
      NextUnwraps(After(Fresh(None), clock, events[..last]), clock, events[last], ssrc, xs[..last], xs[last]);
    } else {
      assert events[..0] == [] && xs == [xs[0]];
      FirstUnwraps(clock, events[0], ssrc, xs[0]);
    }
  }

  lemma {:induction false} NextCount(n: nat)
    ensures Wrap32(Wrap32(n) + 1) == Wrap32(n + 1)
  {}

  // ---------------------------------------------------------------------------------------------
  // From the sender to the receiver
  // ---------------------------------------------------------------------------------------------

  /** What the receiver makes of the bytes of packet number `k`. */
  function Heard(o: Origin, k: nat, arrival: u32): Event
    requires o.frames != []
  {
    HeaderRoundTrip(o.payloadType, HeaderNo(o, k), o.frames[(o.frame + k) % |o.frames|]);
    Media(ReadHeader(PacketNo(o, k)).value, arrival)
  }

  lemma {:induction false} HeardIs(o: Origin, k: nat, arrival: u32)
    requires o.frames != []
    ensures Heard(o, k, arrival) == Media(HeaderNo(o, k), arrival)
  {
    HeaderRoundTrip(o.payloadType, HeaderNo(o, k), o.frames[(o.frame + k) % |o.frames|]);
  }

  function HeardAll(o: Origin, ks: seq<nat>, arrivals: seq<u32>): seq<Event>
    requires o.frames != [] && |ks| == |arrivals|
  {
    seq(|ks|, j requires 0 <= j < |ks| => Heard(o, ks[j], arrivals[j]))
  }

  /** The true numbers of the packets that arrive, counted from the start of the first one's cycle. */
  function Numbers(o: Origin, ks: seq<nat>): seq<int>
    requires ks != []
  {
    seq(|ks|, j requires 0 <= j < |ks| => o.seqNo + ks[j] - (o.seqNo + ks[0]) / 0x1_0000 * 0x1_0000)
  }

  /** The arrivals meet the window: no packet comes from before the first one's cycle, and each one is in
      the window of the highest before it. */
  ghost predicate Followable(o: Origin, ks: seq<nat>) {
    && ks != []
    && (forall j | 0 <= j < |ks| :: 0 <= Numbers(o, ks)[j] < 0x1_0000_0000)
    && AllInWindow(Numbers(o, ks))
  }

  lemma {:induction false} SameLowHalf(a: int, b: int)
    ensures Wrap16(a - b * 0x1_0000) == Wrap16(a)
  {}

  /** Over any lossy run the wrapping numbers of the sender are unwrapped to the true ones. */
  lemma {:induction false} EndToEnd(o: Origin, clock: nat, ks: seq<nat>, arrivals: seq<u32>)
    requires o.frames != [] && |ks| == |arrivals| && Followable(o, ks)
    ensures var st := After(Fresh(None), clock, HeardAll(o, ks, arrivals));
      var xs := Numbers(o, ks);
      && st.haveBase && st.peerSSRC == o.ssrc && st.baseSeq == xs[0] && st.highestSeq == Top(xs)
      && st.packetsReceived == Wrap32(|ks|)
  {
    var xs: seq<nat> := Numbers(o, ks);
    var events := HeardAll(o, ks, arrivals);
    forall j | 0 <= j < |ks| ensures Carries(events[j], o.ssrc, xs[j]) {
      HeardIs(o, ks[j], arrivals[j]);
      SameLowHalf(o.seqNo + ks[j], (o.seqNo + ks[0]) / 0x1_0000);
    }
    FirstInCycle(o.seqNo + ks[0]);
    Unwraps(clock, events, o.ssrc, xs);
  }

  /** Packet `k` is new and at most 32767 after the latest so far, or late, in its cycle and at most 32768 behind. */
  predicate CloseTo(o: Origin, latest: nat, k: nat) {
    latest < k <= latest + 0x7FFF ||
    (k <= latest <= k + 0x8000 && (o.seqNo + k) / 0x1_0000 == (o.seqNo + latest) / 0x1_0000)
  }

  ghost predicate AllClose(o: Origin, ks: seq<nat>) {
    ks != [] && forall j | 1 <= j < |ks| :: CloseTo(o, Top(ks[..j]), ks[j])
  }

  lemma {:induction false} TopMoves(ks: seq<nat>, xs: seq<nat>, c: int)
    requires |xs| == |ks| > 0 && forall j | 0 <= j < |ks| :: xs[j] == ks[j] + c
    ensures Top(xs) == Top(ks) + c
  {
    if |ks| > 1 { TopMoves(ks[..|ks| - 1], xs[..|ks| - 1], c); }
  }

  /** What turns the sender's count of a packet into its number from the first one's cycle on. */
  function Offset(o: Origin, first: nat): int { o.seqNo - (o.seqNo + first) / 0x1_0000 * 0x1_0000 }

  /** Seen from the first packet's cycle, being close is being in the window. */
  lemma {:induction false} CloseInWindow(o: Origin, first: nat, latest: nat, k: nat)
    requires first <= latest && CloseTo(o, latest, k)
    ensures var c := Offset(o, first);
      latest + c >= 0 && k + c >= 0 && InWindow(latest + c, k + c)
  {
    var q := (o.seqNo + first) / 0x1_0000;
    SameCycle(o.seqNo + latest, q);
    SameCycle(o.seqNo + k, q);
    WindowCovers(o.seqNo + latest - q * 0x1_0000, o.seqNo + k - q * 0x1_0000);
  }

  lemma {:induction false} SameCycle(a: nat, q: nat)
    ensures (a - q * 0x1_0000) / 0x1_0000 == a / 0x1_0000 - q
  {}

  lemma {:induction false} NumberIs(o: Origin, ks: seq<nat>, j: nat)
    requires j < |ks|
    ensures Numbers(o, ks)[j] == ks[j] + Offset(o, ks[0])
  {}

  lemma {:induction false} CloseNumber(o: Origin, ks: seq<nat>, j: nat)
    requires AllClose(o, ks) && 1 <= j < |ks|
    ensures ks[j] + Offset(o, ks[0]) >= 0 && Top(ks[..j]) + Offset(o, ks[0]) >= 0
    ensures InWindow(Top(ks[..j]) + Offset(o, ks[0]), ks[j] + Offset(o, ks[0]))
  {
    TopIsMaximum(ks[..j]);
    assert ks[..j][0] == ks[0];
    CloseInWindow(o, ks[0], Top(ks[..j]), ks[j]);
  }

  lemma {:induction false} CloseNumbers(o: Origin, ks: seq<nat>)
    requires AllClose(o, ks) && Top(ks) < 0xFFFF_0000
    ensures forall j | 0 <= j < |ks| :: 0 <= Numbers(o, ks)[j] < 0x1_0000_0000
  {
    TopIsMaximum(ks);
    forall j | 0 <= j < |ks| ensures 0 <= Numbers(o, ks)[j] < 0x1_0000_0000 {
      NumberIs(o, ks, j);
      if j > 0 { CloseNumber(o, ks, j); }
    }
  }

  lemma {:induction false} NumbersTop(o: Origin, ks: seq<nat>, xs: seq<nat>, j: nat)
    requires 0 < j <= |ks| && xs == Numbers(o, ks)
    ensures Top(xs[..j]) == Top(ks[..j]) + Offset(o, ks[0])
  {
    forall i | 0 <= i < j ensures xs[..j][i] == ks[..j][i] + Offset(o, ks[0]) { NumberIs(o, ks, i); }
    TopMoves(ks[..j], xs[..j], Offset(o, ks[0]));
  }

  lemma {:induction false} CloseIsFollowable(o: Origin, ks: seq<nat>)
    requires AllClose(o, ks) && Top(ks) < 0xFFFF_0000
    ensures Followable(o, ks)
    ensures Top(Numbers(o, ks)) == Top(ks) + Offset(o, ks[0])
  {
    CloseNumbers(o, ks);
    var xs: seq<nat> := Numbers(o, ks);
    forall j | 1 <= j < |ks| ensures InWindow(Top(xs[..j]), xs[j]) {
      CloseNumber(o, ks, j);
      NumbersTop(o, ks, xs, j);
      NumberIs(o, ks, j);
    }
    NumbersTop(o, ks, xs, |ks|);
    assert xs[..|ks|] == xs && ks[..|ks|] == ks;
  }

  lemma {:induction false} FirstNumber(o: Origin, first: nat)
    ensures first + Offset(o, first) == Wrap16(o.seqNo + first)
  {}

  /** As long as each new packet is at most 32767 after the latest and each late one is in the latest's cycle and at
      most 32768 behind it, the receiver's span is the true one. */
  lemma {:induction false} CloseEndToEnd(o: Origin, clock: nat, ks: seq<nat>, arrivals: seq<u32>)
    requires o.frames != [] && |ks| == |arrivals| && AllClose(o, ks) && Top(ks) < 0xFFFF_0000
    ensures var st := After(Fresh(None), clock, HeardAll(o, ks, arrivals));
      && st.baseSeq == Wrap16(o.seqNo + ks[0]) && st.highestSeq - st.baseSeq == Top(ks) - ks[0]
      && st.packetsReceived == Wrap32(|ks|)
  {
    CloseIsFollowable(o, ks);
    EndToEnd(o, clock, ks, arrivals);
    NumberIs(o, ks, 0);
    FirstNumber(o, ks[0]);
  }

  lemma {:induction false} FirstInCycle(a: nat)
    ensures 0 <= a - a / 0x1_0000 * 0x1_0000 < 0x1_0000
  {}

  predicate Between(lo: int, hi: int, x: int) { lo <= x < hi }

  function Range(lo: int, hi: int): set<int> { set x | lo <= x < hi && Between(lo, hi, x) }

  lemma {:induction false} RangeSize(lo: int, hi: int)
    requires lo <= hi
    ensures |Range(lo, hi)| == hi - lo
    decreases hi - lo
  {
    if lo < hi {
      RangeSize(lo, hi - 1);
      assert Range(lo, hi) == Range(lo, hi - 1) + {hi - 1};
    } else {
      assert Range(lo, hi) == {};
    }
  }

  function Elements(xs: seq<int>): set<int> { set x | x in xs }

  lemma {:induction false} ElementsSize(xs: seq<int>)
    requires forall i, j | 0 <= i < j < |xs| :: xs[i] != xs[j]
    ensures |Elements(xs)| == |xs|
  {
    if xs != [] {
      var last := |xs| - 1;
      ElementsSize(xs[..last]);
      assert Elements(xs) == Elements(xs[..last]) + {xs[last]};
      assert xs[last] !in xs[..last];
    } else {
      assert Elements(xs) == {};
    }
  }

  /** The numbers of the span from the first to the highest that never arrived. */
  function Missing(xs: seq<int>, hi: int): set<int>
    requires xs != []
  {
    Range(xs[0], hi + 1) - Elements(xs)
  }

  /** The late packets from before the first one. */
  function Early(xs: seq<int>): set<int>
    requires xs != []
  {
    set x | x in xs && x < xs[0]
  }

  lemma {:induction false} SizesAdd(a: set<int>, b: set<int>, whole: set<int>)
    requires a !! b && whole == a + b
    ensures |whole| == |a| + |b|
  {}

  /** What arrived is what came early and what lies in the span, and the span is that and what is missing. */
  lemma {:induction false} SpanParts(xs: seq<int>, hi: int)
    requires xs != [] && forall x | x in xs :: x <= hi
    ensures Elements(xs) == Early(xs) + (Elements(xs) - Early(xs))
    ensures Range(xs[0], hi + 1) == (Elements(xs) - Early(xs)) + Missing(xs, hi)
  {
    var span, all := Range(xs[0], hi + 1), Elements(xs);
    assert Early(xs) <= all;
    forall x ensures x in span <==> x in all - Early(xs) || x in Missing(xs, hi) {}
  }

  lemma {:induction false} SpanSizes(xs: seq<int>, hi: int)
    requires xs != [] && forall x | x in xs :: x <= hi
    ensures |Elements(xs)| - |Early(xs)| == |Range(xs[0], hi + 1)| - |Missing(xs, hi)|
  {
    SpanParts(xs, hi);
    SizesAdd(Early(xs), Elements(xs) - Early(xs), Elements(xs));
    SizesAdd(Elements(xs) - Early(xs), Missing(xs, hi), Range(xs[0], hi + 1));
  }

  lemma {:induction false} TopBounds(xs: seq<nat>)
    requires xs != []
    ensures xs[0] <= Top(xs) && forall x | x in xs :: x <= Top(xs)
  {
    TopIsMaximum(xs);
  }

  lemma {:induction false} SpanSplits(xs: seq<nat>)
    requires xs != [] && forall i, j | 0 <= i < j < |xs| :: xs[i] != xs[j]
    ensures Top(xs) - xs[0] + 1 == |xs| - |Early(xs)| + |Missing(xs, Top(xs))|
  {
    TopBounds(xs);
    ElementsSize(xs);
    RangeSize(xs[0], Top(xs) + 1);
    SpanSizes(xs, Top(xs));
  }

  /** Without duplicates, Expected - Received is the number of missing packets in the span, less those
      that came late from before the first packet. */
  lemma {:induction false} LossIsMissing(o: Origin, clock: nat, ks: seq<nat>, arrivals: seq<u32>)
    requires o.frames != [] && |ks| == |arrivals| && Followable(o, ks)
    requires forall i, j | 0 <= i < j < |ks| :: ks[i] != ks[j]
    requires |ks| < 0x1_0000_0000 && Top(Numbers(o, ks)) - Numbers(o, ks)[0] + 1 < 0x1_0000_0000
    ensures var st := After(Fresh(None), clock, HeardAll(o, ks, arrivals));
      var xs := Numbers(o, ks);
      Expected(st) - st.packetsReceived == |Missing(xs, Top(xs))| - |Early(xs)|
  {
    EndToEnd(o, clock, ks, arrivals);
    NumbersDistinct(o, ks);
    LossOf(After(Fresh(None), clock, HeardAll(o, ks, arrivals)), Numbers(o, ks));
  }

  lemma {:induction false} NumbersDistinct(o: Origin, ks: seq<nat>)
    requires ks != [] && forall i, j | 0 <= i < j < |ks| :: ks[i] != ks[j]
    ensures forall i, j | 0 <= i < j < |ks| :: Numbers(o, ks)[i] != Numbers(o, ks)[j]
  {}

  lemma {:induction false} LossOf(st: ReceiveState, xs: seq<nat>)
    requires xs != [] && forall i, j | 0 <= i < j < |xs| :: xs[i] != xs[j]
    requires |xs| < 0x1_0000_0000 && Top(xs) - xs[0] + 1 < 0x1_0000_0000
    requires st.baseSeq == xs[0] && st.highestSeq == Top(xs) && st.packetsReceived == Wrap32(|xs|)
    ensures Expected(st) - st.packetsReceived == |Missing(xs, Top(xs))| - |Early(xs)|
  {
    TopIsMaximum(xs);
    NoWrap(Top(xs) - xs[0] + 1);
    NoWrap(|xs|);
    SpanSplits(xs);
  }

  lemma {:induction false} NoWrap(x: nat)
    requires x < 0x1_0000_0000
    ensures Wrap32(x) == x
  {}

  /** A late packet of the cycle before moves the highest number on by almost a cycle. */
  lemma {:induction false} LateJump(st: ReceiveState, clock: nat, e: Event)
    requires st.havePeerSSRC && st.haveBase && st.highestSeq == 0x1_0000 && st.cycles == 1
    requires e.Media? && e.h.ssrc == st.peerSSRC && e.h.seqNo == 0xFFFE
    ensures var t := Receive(st, clock, e);
      t.highestSeq == 0x1_FFFE && t.baseSeq == st.baseSeq && t.packetsReceived == Wrap32(st.packetsReceived + 1)
  {}

  /** A packet from before a wrap that comes after it: 65533 packets count as lost although none is. */
  lemma {:induction false} LateAfterWrap(clock: nat, ssrc: u32, ts: seq<u32>, arrivals: seq<u32>)
    requires |ts| == |arrivals| == 3
    ensures var st := After(Fresh(None), clock, Thrice(ssrc, ts, arrivals));
      st.highestSeq == 0x1_FFFE && Expected(st) - st.packetsReceived == 0xFFFD
    ensures Top(WRAPPING) == 0x1_0000 && Missing(WRAPPING, 0x1_0000) == {}
  {
    var events := Thrice(ssrc, ts, arrivals);
    assert WRAPPING[..2][..1] == [0xFFFF];
    WindowCovers(0xFFFF, 0x1_0000);
    Unwraps(clock, events[..2], ssrc, WRAPPING[..2]);
    LateJump(After(Fresh(None), clock, events[..2]), clock, events[2]);
    forall x | 0xFFFF <= x <= 0x1_0000 ensures x in WRAPPING {
      assert x == WRAPPING[0] || x == WRAPPING[1];
    }
  }

  const WRAPPING: seq<nat> := [0xFFFF, 0x1_0000, 0xFFFE]

  /** The packets with those numbers. */
  function Thrice(ssrc: u32, ts: seq<u32>, arrivals: seq<u32>): seq<Event>
    requires |ts| == |arrivals| == 3
  {
    seq(3, j requires 0 <= j < 3 => Media(Header(Wrap16(WRAPPING[j]), ts[j], ssrc), arrivals[j]))
  }

  // ---------------------------------------------------------------------------------------------
  // A change of source starts the statistics over
  // ---------------------------------------------------------------------------------------------

  /** The source of the last RTP packet of a run. */
  function LastSource(events: seq<Event>): Option<u32> {
    if events == [] then None
    else if events[|events| - 1].Media? then Some(events[|events| - 1].h.ssrc)
    else LastSource(events[..|events| - 1])
  }

  /** Where the run of the current source starts. */
  function SourceStart(events: seq<Event>): nat
    ensures SourceStart(events) <= |events|
  {
    if events == [] then 0 else
      var before, e := events[..|events| - 1], events[|events| - 1];
      if e.Media? && LastSource(before).Some? && LastSource(before).value != e.h.ssrc then |before|
      else SourceStart(before)
  }

  function MediaPart(st: ReceiveState): ReceiveState { st.(lastPeerSR := None) }

  lemma {:induction false} SourceIgnoresReports(st: ReceiveState, ssrc: u32)
    ensures MediaPart(Source(st, ssrc)) == Source(MediaPart(st), ssrc)
  {}

  lemma {:induction false} SequenceIgnoresReports(st: ReceiveState, s: u16)
    ensures MediaPart(Sequence(st, s)) == Sequence(MediaPart(st), s)
  {}

  lemma {:induction false} JitterIgnoresReports(st: ReceiveState, clock: nat, e: Event)
    requires e.Media?
    ensures MediaPart(Jitter(st, clock, e)) == Jitter(MediaPart(st), clock, e)
  {}

  lemma {:induction false} MediaPartSteps(a: ReceiveState, b: ReceiveState, clock: nat, e: Event)
    requires MediaPart(a) == MediaPart(b)
    ensures MediaPart(Receive(a, clock, e)) == MediaPart(Receive(b, clock, e))
  {
    if e.Media? {
      ReceiveIgnoresReports(a, clock, e);
      ReceiveIgnoresReports(b, clock, e);
    }
  }

  lemma {:induction false} ReceiveIgnoresReports(st: ReceiveState, clock: nat, e: Event)
    requires e.Media?
    ensures MediaPart(Receive(st, clock, e)) == Receive(MediaPart(st), clock, e)
  {
    SourceIgnoresReports(st, e.h.ssrc);
    SequenceIgnoresReports(Source(st, e.h.ssrc), e.h.seqNo);
    JitterIgnoresReports(Sequence(Source(st, e.h.ssrc), e.h.seqNo), clock, e);
  }

  lemma {:induction false} PeerIsLastSource(clock: nat, events: seq<Event>)
    ensures var st := After(Fresh(None), clock, events);
      OneSource(st) && (st.havePeerSSRC <==> LastSource(events).Some?) &&
      (st.havePeerSSRC ==> st.peerSSRC == LastSource(events).value) &&
      (!st.havePeerSSRC ==> MediaPart(st) == Fresh(None))
  {
    if events != [] { PeerIsLastSource(clock, events[..|events| - 1]); }
  }

  /** After any run the statistics are those of a fresh receiver that saw only the current source. */
  lemma {:induction false} StatisticsArePerSource(clock: nat, events: seq<Event>)
    ensures MediaPart(After(Fresh(None), clock, events)) ==
            MediaPart(After(Fresh(None), clock, events[SourceStart(events)..]))
    ensures forall j | SourceStart(events) <= j < |events| && events[j].Media? ::
      Some(events[j].h.ssrc) == LastSource(events)
  {
    if events != [] {
      var n := |events| - 1;
      var before, e, from := events[..n], events[n], SourceStart(events);
      StatisticsArePerSource(clock, before);
      PeerIsLastSource(clock, before);
      var st := After(Fresh(None), clock, before);
      if from == n {
        assert events[n..] == [e] && [e][..0] == [];
        if SourceStart(before) == n {
          assert before[n..] == [];
          MediaPartSteps(st, Fresh(None), clock, e);
        }
      } else {
        assert events[from..][..n - from] == before[from..];
        MediaPartSteps(st, After(Fresh(None), clock, before[from..]), clock, e);
      }
      assert forall j | 0 <= j < n :: before[j] == events[j];
      if !e.Media? { assert LastSource(events) == LastSource(before); }
    }
  }

  // ---------------------------------------------------------------------------------------------
  // Jitter
  // ---------------------------------------------------------------------------------------------

  /** The jitter estimate never leaves the range of the differences it accepts. */
  lemma {:induction false} JitterBounded(clock: nat, events: seq<Event>)
    ensures 0.0 <= After(Fresh(None), clock, events).jitter <= (clock / 2) as real
  {
    if events != [] { JitterBounded(clock, events[..|events| - 1]); }
  }

  lemma {:induction false} SignedIs(x: u32, v: int)
    requires -0x8000_0000 <= v < 0x8000_0000 && Wrap32(v) == x
    ensures Signed32(x) == v
  {
    SignedRecovers(v);
  }

  /** A packet came `v` clock units after its own timestamp, on the scale of both. */
  predicate Took(e: Event, v: int) {
    e.Media? && -0x8000_0000 <= v < 0x8000_0000 && Wrap32(v) == Wrap32(e.arrival - e.h.timestamp)
  }

  lemma {:induction false} TransitIs(e: Event, v: int)
    requires Took(e, v)
    ensures Transit(e) == v
  {
    SignedIs(Wrap32(e.arrival - e.h.timestamp), v);
  }

  /** Of two packets of a source one after the other, the second moves the jitter estimate a sixteenth of the way
      towards the change in their times on the way, unless that is over half a second. */
  lemma {:induction false} JitterStep(st: ReceiveState, clock: nat, e: Event, f: Event, v: int, w: int)
    requires Took(e, v) && Took(f, w) && e.h.ssrc == f.h.ssrc
    ensures var before, after := Receive(st, clock, e), Receive(Receive(st, clock, e), clock, f);
      after.jitter == if Abs(w - v) <= clock / 2 then before.jitter + (Abs(w - v) as real - before.jitter) / 16.0
                      else before.jitter
  {
    TransitIs(e, v);
    TransitIs(f, w);
  }

  /** The same in the packets' own fields, for packets whose arrivals and timestamps did not wrap in between: what
      counts is by how much the arrivals lie further apart than the timestamps, or less far. */
  lemma {:induction false} JitterOfTwo(st: ReceiveState, clock: nat, e: Event, f: Event)
    requires e.Media? && f.Media? && e.h.ssrc == f.h.ssrc
    requires -0x8000_0000 <= e.arrival - e.h.timestamp < 0x8000_0000
    requires -0x8000_0000 <= f.arrival - f.h.timestamp < 0x8000_0000
    ensures var before, after := Receive(st, clock, e), Receive(Receive(st, clock, e), clock, f);
      var d := Abs((f.arrival - e.arrival) - (f.h.timestamp - e.h.timestamp));
      after.jitter == if d <= clock / 2 then before.jitter + (d as real - before.jitter) / 16.0 else before.jitter
  {
    JitterStep(st, clock, e, f, e.arrival - e.h.timestamp, f.arrival - f.h.timestamp);
  }

  /** All packets of a source took equally long, whatever wraps on the way. */
  ghost predicate Regular(events: seq<Event>, ssrc: u32, gap: u32) {
    forall i | 0 <= i < |events| ::
      events[i].Media? && events[i].h.ssrc == ssrc && Wrap32(events[i].arrival - events[i].h.timestamp) == gap
  }

  /** A stream whose arrivals keep pace with its timestamps has no jitter, in whatever order its packets come. */
  lemma {:induction false} RegularHasNoJitter(clock: nat, events: seq<Event>, ssrc: u32, gap: u32)
    requires Regular(events, ssrc, gap)
    ensures var st := After(Fresh(None), clock, events);
      && st.jitter == 0.0 && (events == [] ==> st == Fresh(None))
      && (events != [] ==> st.havePeerSSRC && st.peerSSRC == ssrc && st.haveLastTransit &&
                           st.lastTransit == Signed32(gap))
  {
    if events != [] { RegularHasNoJitter(clock, events[..|events| - 1], ssrc, gap); }
  }

  /** Packets that all take `delay` clock units from the sender's clock to the receiver's. */
  ghost predicate InPace(o: Origin, ks: seq<nat>, arrivals: seq<u32>, delay: int) {
    |arrivals| == |ks| && forall j | 0 <= j < |ks| :: OnTime(o, ks[j], arrivals[j], delay)
  }

  predicate OnTime(o: Origin, k: nat, arrival: u32, delay: int) { arrival == Wrap32(k * o.samplesPerPacket + delay) }

  lemma {:induction false} GapOf(o: Origin, k: nat, arrival: u32, delay: int)
    requires OnTime(o, k, arrival, delay)
    ensures Wrap32(arrival - HeaderNo(o, k).timestamp) == Wrap32(delay - o.timestamp)
  {
    var due := k * o.samplesPerPacket;
    WrapMinus(arrival, o.timestamp + due);
    WrapLeft(due + delay, o.timestamp + due);
  }

  /** So the receiver of a sender's packets that are all as long on their way reports no jitter, whatever is lost. */
  lemma {:induction false} PaceHasNoJitter(o: Origin, clock: nat, ks: seq<nat>, arrivals: seq<u32>, delay: int)
    requires o.frames != [] && InPace(o, ks, arrivals, delay)
    ensures After(Fresh(None), clock, HeardAll(o, ks, arrivals)).jitter == 0.0
  {
    var events := HeardAll(o, ks, arrivals);
    forall j | 0 <= j < |ks|
      ensures events[j].Media? && events[j].h.ssrc == o.ssrc &&
        Wrap32(events[j].arrival - events[j].h.timestamp) == Wrap32(delay - o.timestamp)
    {
      assert OnTime(o, ks[j], arrivals[j], delay);
      HeardIs(o, ks[j], arrivals[j]);
      GapOf(o, ks[j], arrivals[j], delay);
    }
    RegularHasNoJitter(clock, events, o.ssrc, Wrap32(delay - o.timestamp));
  }

  /** `f` is `e` with its timestamp moved on by `shift`, neither transit crossing the 32-bit sign boundary. */
  ghost predicate Shifted(e: Event, f: Event, shift: int) {
    && e.Media? && f.Media?
    && f.h.ssrc == e.h.ssrc && f.h.seqNo == e.h.seqNo && f.arrival == e.arrival
    && f.h.timestamp == Wrap32(e.h.timestamp + shift)
    && -0x8000_0000 <= Transit(e) - shift < 0x8000_0000
  }

  lemma {:induction false} WrapMinus(x: int, y: int)
    ensures Wrap32(x - Wrap32(y)) == Wrap32(x - y)
  {}

  /** A number within the signed range is recovered from its low 32 bits. */
  lemma {:induction false} SignedRecovers(v: int)
    requires -0x8000_0000 <= v < 0x8000_0000
    ensures Signed32(Wrap32(v)) == v
  {}

  lemma {:induction false} SignedWraps(x: u32, shift: int)
    ensures Wrap32(Signed32(x) - shift) == Wrap32(x - shift)
  {}

  lemma {:induction false} WrapLeft(x: int, shift: int)
    ensures Wrap32(Wrap32(x) - shift) == Wrap32(x - shift)
  {}

  lemma {:induction false} ShiftedTransit(e: Event, f: Event, shift: int)
    requires Shifted(e, f, shift)
    ensures Transit(f) == Transit(e) - shift
  {
    WrapMinus(e.arrival, e.h.timestamp + shift);
    WrapLeft(e.arrival - e.h.timestamp, shift);
    SignedWraps(Wrap32(e.arrival - e.h.timestamp), shift);
    SignedRecovers(Transit(e) - shift);
  }

  /** The jitter estimator on its own. */
  datatype Estimate = Estimate(have: bool, last: int, jitter: real)

  function EstimateOf(st: ReceiveState): Estimate { Estimate(st.haveLastTransit, st.lastTransit, st.jitter) }

  predicate Counts(j: Estimate, clock: nat, transit: int) { j.have && Abs(transit - j.last) <= clock / 2 }

  function Estimated(j: Estimate, clock: nat, transit: int): Estimate {
    var jitter := if Counts(j, clock, transit) then j.jitter + (Abs(transit - j.last) as real - j.jitter) / 16.0
                  else j.jitter;
    Estimate(true, transit, jitter)
  }

  function EstimatedAll(j: Estimate, clock: nat, transits: seq<int>): Estimate {
    if transits == [] then j
    else Estimated(EstimatedAll(j, clock, transits[..|transits| - 1]), clock, transits[|transits| - 1])
  }

  function CountOf(j: Estimate, clock: nat, transits: seq<int>): nat {
    if transits == [] then 0
    else
      var n := |transits| - 1;
      CountOf(j, clock, transits[..n]) +
      if Counts(EstimatedAll(j, clock, transits[..n]), clock, transits[n]) then 1 else 0
  }

  function Transits(es: seq<Event>): seq<int>
    requires forall i | 0 <= i < |es| :: es[i].Media?
  {
    seq(|es|, i requires 0 <= i < |es| => Transit(es[i]))
  }

  /** Within one source the receiver runs the estimator on the transits alone. */
  lemma {:induction false} ReceiverEstimates(st: ReceiveState, clock: nat, es: seq<Event>)
    requires st.havePeerSSRC && forall i | 0 <= i < |es| :: es[i].Media? && es[i].h.ssrc == st.peerSSRC
    ensures EstimateOf(After(st, clock, es)) == EstimatedAll(EstimateOf(st), clock, Transits(es))
    ensures After(st, clock, es).havePeerSSRC && After(st, clock, es).peerSSRC == st.peerSSRC
  {
    if es != [] {
      var n := |es| - 1;
      ReceiverEstimates(st, clock, es[..n]);
      assert Transits(es)[..n] == Transits(es[..n]);
    }
  }

  /** `gap` after `n` reductions to 15/16. */
  function Shrunk(gap: real, n: nat): real { if n == 0 then gap else Shrunk(gap, n - 1) * 15.0 / 16.0 }

  function Pow(r: real, n: nat): real { if n == 0 then 1.0 else r * Pow(r, n - 1) }

  /** `gap` times the n-th power of 15/16. */
  function Scaled(gap: real, n: nat): real { Pow(15.0 / 16.0, n) * gap }

  lemma {:induction false} ShrunkIsScaled(gap: real, n: nat)
    ensures Shrunk(gap, n) == Scaled(gap, n)
  {
    if n > 0 { ShrunkIsScaled(gap, n - 1); }
  }

  /** Two estimators whose transits differ by a constant forget their different pasts. */
  lemma {:induction false} EstimatesConverge(
    a: Estimate, b: Estimate, clock: nat, ts: seq<int>, us: seq<int>, shift: int)
    requires a.have && b.have && b.last == a.last - shift
    requires |ts| == |us| && forall i | 0 <= i < |ts| :: us[i] == ts[i] - shift
    ensures var x, y := EstimatedAll(a, clock, ts), EstimatedAll(b, clock, us);
      x.have && y.have && y.last == x.last - shift &&
      y.jitter - x.jitter == Shrunk(b.jitter - a.jitter, CountOf(a, clock, ts))
  {
    if ts != [] {
      var n := |ts| - 1;
      EstimatesConverge(a, b, clock, ts[..n], us[..n], shift);
    }
  }

  /** How many packets of a run within one source the jitter estimate takes into account. */
  function AcceptedCount(st: ReceiveState, clock: nat, es: seq<Event>): nat
    requires forall i | 0 <= i < |es| :: es[i].Media?
  {
    CountOf(EstimateOf(st), clock, Transits(es))
  }

  ghost predicate AllShifted(es: seq<Event>, fs: seq<Event>, ssrc: u32, shift: int) {
    && |es| == |fs|
    && (forall i | 0 <= i < |es| :: es[i].Media? && es[i].h.ssrc == ssrc)
    && (forall i {:trigger Shifted(es[i], fs[i], shift)} | 0 <= i < |es| :: Shifted(es[i], fs[i], shift))
  }

  lemma {:induction false} ShiftedTransits(es: seq<Event>, fs: seq<Event>, ssrc: u32, shift: int)
    requires AllShifted(es, fs, ssrc, shift)
    ensures forall i | 0 <= i < |fs| :: fs[i].Media? && fs[i].h.ssrc == ssrc
    ensures forall i | 0 <= i < |es| :: Transits(fs)[i] == Transits(es)[i] - shift
  {
    forall i | 0 <= i < |es| ensures fs[i].Media? && fs[i].h.ssrc == ssrc { assert Shifted(es[i], fs[i], shift); }
    forall i | 0 <= i < |es| ensures Transits(fs)[i] == Transits(es)[i] - shift {
      assert Shifted(es[i], fs[i], shift);
      ShiftedTransit(es[i], fs[i], shift);
    }
  }

  function JitterAfter(st: ReceiveState, clock: nat, es: seq<Event>): real { After(st, clock, es).jitter }

  lemma {:induction false} ReceiverJitter(st: ReceiveState, clock: nat, es: seq<Event>)
    requires st.havePeerSSRC && forall i | 0 <= i < |es| :: es[i].Media? && es[i].h.ssrc == st.peerSSRC
    ensures JitterAfter(st, clock, es) == EstimatedAll(EstimateOf(st), clock, Transits(es)).jitter
  {
    ReceiverEstimates(st, clock, es);
  }

  lemma {:induction false} JitterGap(
    a: ReceiveState, b: ReceiveState, clock: nat, es: seq<Event>, fs: seq<Event>, shift: int)
    requires a.havePeerSSRC && b.havePeerSSRC && a.peerSSRC == b.peerSSRC
    requires a.haveLastTransit && b.haveLastTransit && b.lastTransit == a.lastTransit - shift
    requires AllShifted(es, fs, a.peerSSRC, shift)
    ensures JitterAfter(b, clock, fs) - JitterAfter(a, clock, es) ==
      Shrunk(b.jitter - a.jitter, AcceptedCount(a, clock, es))
  {
    ShiftedTransits(es, fs, a.peerSSRC, shift);
    ReceiverJitter(a, clock, es);
    ReceiverJitter(b, clock, fs);
    EstimatesConverge(EstimateOf(a), EstimateOf(b), clock, Transits(es), Transits(fs), shift);
  }

  /** Two runs that differ by a constant timestamp offset from some packet on forget their different pasts:
      the gap between their jitter estimates shrinks by exactly 15/16 with every accepted packet. */
  lemma {:induction false} JitterConverges(
    a: ReceiveState, b: ReceiveState, clock: nat, es: seq<Event>, fs: seq<Event>, shift: int)
    requires a.havePeerSSRC && b.havePeerSSRC && a.peerSSRC == b.peerSSRC
    requires a.haveLastTransit && b.haveLastTransit && b.lastTransit == a.lastTransit - shift
    requires AllShifted(es, fs, a.peerSSRC, shift)
    ensures JitterAfter(b, clock, fs) - JitterAfter(a, clock, es) ==
      Scaled(b.jitter - a.jitter, AcceptedCount(a, clock, es))
  {
    JitterGap(a, b, clock, es, fs, shift);
    ShrunkIsScaled(b.jitter - a.jitter, AcceptedCount(a, clock, es));
  }

  // ---------------------------------------------------------------------------------------------
  // The fraction lost
  // ---------------------------------------------------------------------------------------------

  lemma {:induction false} FractionInByte(lost: nat, expected: nat)
    requires lost < expected
    ensures 0 <= lost * 256 / expected < 256
  {
    QuotientBelow(lost * 256, expected, 256);
  }

  lemma {:induction false} QuotientBelow(a: nat, n: nat, q: nat)
    requires n > 0 && a < q * n
    ensures a / n < q
  {
    if a / n >= q { ProductGrows(q, a / n, n); }
  }

  lemma {:induction false} ProductGrows(p: nat, q: nat, n: nat)
    requires p <= q
    ensures p * n <= q * n
  {}

  lemma {:induction false} QuotientDrops(a: nat, n: nat, d: nat)
    requires n > 0 && n <= d <= a
    ensures (a - d) / n < a / n
  {
    assert (a / n + 1) * n == a / n * n + n;
    assert a < (a / n + 1) * n;
    QuotientBelow(a - d, n, a / n);
  }

  lemma {:induction false} WrapTakesOff(x: nat) returns (d: nat)
    requires x >= 0x1_0000_0000
    ensures 0x1_0000_0000 <= d <= x && Wrap32(x) == x - d
  {
    d := x - Wrap32(x);
  }

  lemma {:induction false} CutOffQuotient(x: nat, expected: u32)
    requires 0x1_0000_0000 <= x && expected > 0
    ensures (Wrap32(x) / expected) % 256 < x / expected
  {
    var d := WrapTakesOff(x);
    QuotientDrops(x, expected, d);
    RemainderAtMost((x - d) / expected);
  }

  lemma {:induction false} FractionTooSmall(lost: u32, expected: u32)
    requires 0x100_0000 <= lost < expected
    ensures Fraction(lost, expected) < lost * 256 / expected
  {
    CutOffQuotient(lost * 256, expected);
  }

  lemma {:induction false} RemainderAtMost(x: nat)
    ensures x % 256 <= x
  {}

  lemma {:induction false} FractionExact(lost: u32, expected: u32)
    requires lost < expected && lost < 0x100_0000
    ensures Fraction(lost, expected) == lost * 256 / expected
  {
    FractionInByte(lost, expected);
    SmallFits(lost * 256 / expected);
  }

  lemma {:induction false} SmallFits(x: nat)
    requires x < 256
    ensures x % 256 == x
  {}

  /** The reported fraction is the true one, rounded down to 1/256 and never cut off to fit its byte,
      exactly when fewer than 2^24 packets are lost. */
  lemma {:induction false} FractionLostExactly(lost: u32, expected: u32)
    requires lost < expected
    ensures Fraction(lost, expected) == lost * 256 / expected <==> lost < 0x100_0000
  {
    if lost < 0x100_0000 { FractionExact(lost, expected); } else { FractionTooSmall(lost, expected); }
  }

  /** A receiver with at least one packet never reports everything lost. */
  lemma {:induction false} SomethingReceived(clock: nat, events: seq<Event>)
    requires |events| < 0x1_0000_0000
    ensures var st := After(Fresh(None), clock, events);
      st.haveBase ==> 1 <= st.packetsReceived <= |events|
    ensures !After(Fresh(None), clock, events).haveBase ==> After(Fresh(None), clock, events).packetsReceived == 0
  {
    PeerIsLastSource(clock, events);
    if events != [] {
      SomethingReceived(clock, events[..|events| - 1]);
      PeerIsLastSource(clock, events[..|events| - 1]);
    }
  }

  /** Every report of loss is the true one, and its fraction is exactly when fewer than 2^24 packets are lost. */
  lemma {:induction false} ReportedLossExactly(clock: nat, events: seq<Event>, now: int)
    requires |events| < 0x1_0000_0000
    requires var st := After(Fresh(None), clock, events);
      st.haveBase && st.packetsReceived <= Expected(st)
    ensures var st := After(Fresh(None), clock, events);
      var report, lost := ReportOf(st, now), Expected(st) - st.packetsReceived;
      && Expected(st) > 0 && report.totalLost == lost
      && (report.fractionLost == lost * 256 / Expected(st) <==> lost < 0x100_0000)
  {
    SomethingReceived(clock, events);
    var st := After(Fresh(None), clock, events);
    FractionLostExactly(Expected(st) - st.packetsReceived, Expected(st));
  }

  function Leap(j: nat): nat { j * 0x7FFF }

  function Leaps(n: nat): seq<nat> { seq(n, j requires 0 <= j < n => Leap(j)) }

  function LeapEvents(n: nat): seq<Event> {
    seq(n, j requires 0 <= j < n => Media(Header(Wrap16(Leap(j)), 0, 0), 0))
  }

  lemma {:induction false} LeapsTop(n: nat)
    requires n > 0
    ensures Top(Leaps(n)) == Leap(n - 1)
  {
    if n > 1 {
      LeapsTop(n - 1);
      assert Leaps(n)[..n - 1] == Leaps(n - 1);
    }
  }

  lemma {:induction false} LeapsFollowable(n: nat)
    ensures AllInWindow(Leaps(n))
  {
    forall j | 1 <= j < n ensures InWindow(Top(Leaps(n)[..j]), Leaps(n)[j]) {
      LeapsTop(j);
      assert Leaps(n)[..j] == Leaps(j);
      WindowCovers(Leap(j - 1), Leap(j));
    }
  }

  lemma {:induction false} LeapCarries(n: nat, j: nat)
    requires j < n < 1000
    ensures Carries(LeapEvents(n)[j], 0, Leaps(n)[j])
  {}

  lemma {:induction false} LeapsSeen(clock: nat, n: nat)
    requires 0 < n < 1000
    ensures var st := After(Fresh(None), clock, LeapEvents(n));
      st.haveBase && st.baseSeq == 0 && st.highestSeq == Leap(n - 1) && st.packetsReceived == n
  {
    LeapsFollowable(n);
    LeapsTop(n);
    forall j | 0 <= j < n ensures Carries(LeapEvents(n)[j], 0, Leaps(n)[j]) { LeapCarries(n, j); }
    Unwraps(clock, LeapEvents(n), 0, Leaps(n));
    NoWrap(n);
  }

  lemma {:induction false} LeapsReported(st: ReceiveState, now: int)
    requires st.haveBase && st.baseSeq == 0 && st.highestSeq == Leap(513) && st.packetsReceived == 514
    ensures ReportOf(st, now).totalLost == 16_808_958 && ReportOf(st, now).fractionLost == 0
    ensures 16_808_958 * 256 / Expected(st) == 255
  {
    assert Expected(st) == 16_809_472;
  }

  /** Of a run in which every 32767th packet arrives, 514 in all, the report says that nothing was lost of every 256
      packets where it should say 255. */
  lemma {:induction false} LeapsReport(clock: nat, now: int)
    ensures var st := After(Fresh(None), clock, LeapEvents(514));
      && ReportOf(st, now).totalLost == 16_808_958 && ReportOf(st, now).fractionLost == 0
      && 16_808_958 * 256 / Expected(st) == 255
  {
    LeapsSeen(clock, 514);
    LeapsReported(After(Fresh(None), clock, LeapEvents(514)), now);
  }

  // ---------------------------------------------------------------------------------------------
  // The other fields of a report
  // ---------------------------------------------------------------------------------------------

  /** The reported jitter is the estimate to the nearest whole number, after any run. */
  lemma {:induction false} ReportedJitterIsNearest(clock: nat, events: seq<Event>, now: int)
    requires clock < 0x1_0000_0000
    ensures var st := After(Fresh(None), clock, events);
      -0.5 <= ReportOf(st, now).jitter as real - st.jitter <= 0.5
  {
    JitterBounded(clock, events);
    var x := After(Fresh(None), clock, events).jitter + 0.5;
    assert 0 <= x.Floor < 0x1_0000_0000;
    NoWrap(x.Floor);
  }

  /** The reported delay is the time since the sender report, in units of 1/65536 s rounded down, exactly when the
      report came before the clock was read and less than 65536 seconds ago. */
  lemma {:induction false} DelayExactly(now: int, at: int)
    ensures DelayOf(now, at) == (now - at) * 65536 / SECOND <==> 0 <= now - at < 65536 * SECOND
  {
    var d := now - at;
    if 0 <= d < 65536 * SECOND { NoWrap(d * 65536 / SECOND); }
  }

  /** A sender report that comes 16 microseconds after the clock was read, but before the lock is taken, is reported
      as more than 18 hours old. */
  lemma {:induction false} DelayFarOff(now: int)
    ensures DelayOf(now, now + 16_000) == 0xFFFF_FFFF
  {}

  /** The last sender report of a run, with its arrival. */
  function LastReport(events: seq<Event>): Option<(nat, nat)> {
    if events == [] then None
    else
      match events[|events| - 1]
      case SenderReport(ntp, at) => Some((ntp, at))
      case Media(_, _) => LastReport(events[..|events| - 1])
  }

  lemma {:induction false} LastReportKept(clock: nat, events: seq<Event>)
    ensures After(Fresh(None), clock, events).lastPeerSR == LastReport(events)
  {
    if events != [] { LastReportKept(clock, events[..|events| - 1]); }
  }

  lemma {:induction false} MiddleBits(seconds: nat, fraction: nat)
    requires fraction < 0x1_0000_0000
    ensures MiddleOf(seconds * 0x1_0000_0000 + fraction) == seconds % 0x1_0000 * 0x1_0000 + fraction / 0x1_0000
  {
    var ntp := seconds * 0x1_0000_0000 + fraction;
    assert ntp / 0x1_0000 == seconds * 0x1_0000 + fraction / 0x1_0000;
    var q, r := seconds / 0x1_0000, seconds % 0x1_0000;
    assert seconds * 0x1_0000 + fraction / 0x1_0000 == q * 0x1_0000_0000 + (r * 0x1_0000 + fraction / 0x1_0000);
  }

  /** After any run a report is about the last source heard and the last sender report that came, from whatever source:
      the low half of its seconds, the high half of its fraction, and how long ago it came. */
  lemma {:induction false} ReportIsAbout(
    clock: nat, events: seq<Event>, now: int, seconds: nat, fraction: nat, at: nat)
    requires fraction < 0x1_0000_0000
    ensures var r := ReportOf(After(Fresh(None), clock, events), now);
      && (LastSource(events).Some? ==> r.ssrc == LastSource(events).value)
      && (LastReport(events) == None ==> r.lastSenderReport == 0 && r.delay == 0)
      && (LastReport(events) == Some((seconds * 0x1_0000_0000 + fraction, at)) ==>
            && r.lastSenderReport == seconds % 0x1_0000 * 0x1_0000 + fraction / 0x1_0000
            && (r.delay == (now - at) * 65536 / SECOND <==> 0 <= now - at < 65536 * SECOND))
  {
    PeerIsLastSource(clock, events);
    LastReportKept(clock, events);
    MiddleBits(seconds, fraction);
    DelayExactly(now, at);
  }

  /** And its highest number is that of the packet furthest ahead. */
  lemma {:induction false} ReportIsUpTo(o: Origin, clock: nat, ks: seq<nat>, arrivals: seq<u32>, now: int)
    requires o.frames != [] && |ks| == |arrivals| && Followable(o, ks)
    ensures var r := ReportOf(After(Fresh(None), clock, HeardAll(o, ks, arrivals)), now);
      r.lastSeq == Top(Numbers(o, ks)) && r.ssrc == o.ssrc
  {
    EndToEnd(o, clock, ks, arrivals);
  }
}
