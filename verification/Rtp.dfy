/** One RTP stream of internal/sipua/rtp.go: the sender's wrapping numbers, the packet header, and the
    receiver's statistics (RFC 3550 section 6.4.1, Appendices A.1, A.3 and A.8). */
module Rtp {
  type u8 = x: int | 0 <= x < 0x100
  type u16 = x: int | 0 <= x < 0x1_0000
  type u32 = x: int | 0 <= x < 0x1_0000_0000

  datatype Option<+T> = None | Some(value: T)

  function Wrap16(x: int): u16 { x % 0x1_0000 }

  function Wrap32(x: int): u32 { x % 0x1_0000_0000 }

  /** The conversion to a signed 32-bit integer. */
  function Signed32(x: u32): int { if x < 0x8000_0000 then x else x - 0x1_0000_0000 }

  function Abs(x: int): nat { if x < 0 then -x else x }

  // ---------------------------------------------------------------------------------------------
  // Packets on the wire
  // ---------------------------------------------------------------------------------------------

  datatype Header = Header(seqNo: u16, timestamp: u32, ssrc: u32)

  const HEADER_LEN := 12

  function Put16(x: u16): seq<u8> { [x / 0x100, x % 0x100] }

  function Put32(x: u32): seq<u8> { Put16(x / 0x1_0000) + Put16(x % 0x1_0000) }

  function Get16(b: seq<u8>, i: nat): u16
    requires i + 2 <= |b|
  {
    var high: int := b[i];
    high * 0x100 + b[i + 1]
  }

  function Get32(b: seq<u8>, i: nat): u32
    requires i + 4 <= |b|
  {
    var high: int := Get16(b, i);
    high * 0x1_0000 + Get16(b, i + 2)
  }

  /** The bytes of an outgoing packet: every first byte is 0x80. */
  function Packet(payloadType: u8, h: Header, payload: seq<u8>): (b: seq<u8>)
    ensures |b| == HEADER_LEN + |payload|
  {
    [0x80, payloadType % 0x80] + Put16(h.seqNo) + Put32(h.timestamp) + Put32(h.ssrc) + payload
  }

  /** What recvLoop reads, or None for a datagram it ignores. */
  function ReadHeader(b: seq<u8>): Option<Header> {
    if |b| < HEADER_LEN || b[0] / 0x40 != 2 then None
    else Some(Header(Get16(b, 2), Get32(b, 4), Get32(b, 8)))
  }

  lemma {:induction false} HeaderRoundTrip(payloadType: u8, h: Header, payload: seq<u8>)
    ensures ReadHeader(Packet(payloadType, h, payload)) == Some(h)
    ensures var b := Packet(payloadType, h, payload);
      b[HEADER_LEN..] == payload && b[0] == 0x80 && b[1] < 0x80 && (payloadType - b[1]) % 0x80 == 0
  {
    var b := Packet(payloadType, h, payload);
    assert b[2..4] == Put16(h.seqNo);
    assert b[4..8] == Put32(h.timestamp) && b[8..12] == Put32(h.ssrc);
    assert b[4] == b[4..8][0] && b[5] == b[4..8][1] && b[6] == b[4..8][2] && b[7] == b[4..8][3];
    assert b[8] == b[8..12][0] && b[9] == b[8..12][1] && b[10] == b[8..12][2] && b[11] == b[8..12][3];
  }

  // ---------------------------------------------------------------------------------------------
  // The sender
  // ---------------------------------------------------------------------------------------------

  /** What is fixed when an RTPSession starts to send. */
  datatype Origin = Origin(
    seqNo: u16, timestamp: u32, ssrc: u32, payloadType: u8, frame: nat, frames: seq<seq<u8>>, samplesPerPacket: nat)

  ghost predicate Playable(o: Origin) { o.frame < |o.frames| }

  /** The header of packet number `k`, counting from 0. */
  function HeaderNo(o: Origin, k: nat): Header {
    Header(Wrap16(o.seqNo + k), Wrap32(o.timestamp + k * o.samplesPerPacket), o.ssrc)
  }

  function PacketNo(o: Origin, k: nat): (b: seq<u8>)
    requires o.frames != []
    ensures |b| >= HEADER_LEN
  {
    Packet(o.payloadType, HeaderNo(o, k), o.frames[(o.frame + k) % |o.frames|])
  }

  lemma {:induction false} WrapNext16(a: int, d: int)
    ensures Wrap16(Wrap16(a) + d) == Wrap16(a + d)
  {
    var q := a / 0x1_0000;
    assert Wrap16(a) + d == a + d - q * 0x1_0000;
  }

  lemma {:induction false} WrapNext32(a: int, d: int)
    ensures Wrap32(Wrap32(a) + d) == Wrap32(a + d)
  {
    var q := a / 0x1_0000_0000;
    assert Wrap32(a) + d == a + d - q * 0x1_0000_0000;
  }

  lemma {:induction false} MultipleIsFar(k: int, n: int)
    requires n > 0 && k != 0
    ensures k * n >= n || k * n <= -n
  {}

  lemma {:induction false} QuotientIs(a: nat, n: nat, q: nat)
    requires n > 0 && q * n <= a < q * n + n
    ensures a / n == q && a % n == a - q * n
  {
    assert (a / n - q) * n == a - a % n - q * n;
    if a / n != q { MultipleIsFar(a / n - q, n); }
  }

  lemma {:induction false} CycleNext(a: nat, n: nat)
    requires n > 0
    ensures (a % n + 1) % n == (a + 1) % n
  {
    var q, r := a / n, a % n;
    if r + 1 == n {
      QuotientIs(n, n, 1);
      assert (q + 1) * n == q * n + n;
      QuotientIs(a + 1, n, q + 1);
    } else {
      QuotientIs(r + 1, n, 0);
      QuotientIs(a + 1, n, q);
    }
  }

  /** What `n` packets in a row carry, from packet `k` on. */
  function Played(o: Origin, k: nat, n: nat): seq<seq<u8>>
    requires o.frames != []
  {
    if n == 0 then [] else Played(o, k, n - 1) + [PacketNo(o, k + n - 1)[HEADER_LEN..]]
  }

  lemma {:induction false} PlaysOn(o: Origin, m: nat, j: nat, q: nat, n: nat)
    requires j + n <= |o.frames| && o.frames != [] && o.frame + m == q * |o.frames| + j
    ensures Played(o, m, n) == o.frames[j..j + n]
  {
    if n > 0 {
      PlaysOn(o, m, j, q, n - 1);
      QuotientIs(o.frame + (m + n - 1), |o.frames|, q);
      HeaderRoundTrip(o.payloadType, HeaderNo(o, m + n - 1), o.frames[j + n - 1]);
      assert o.frames[j..j + n] == o.frames[j..j + n - 1] + [o.frames[j + n - 1]];
    }
  }

  /** From any packet on, the whole recording is played from its start, in order, before as many packets have gone by as
      it has frames. */
  lemma {:induction false} PlaysFromStart(o: Origin, k: nat) returns (m: nat)
    requires o.frames != []
    ensures k <= m < k + |o.frames| && Played(o, m, |o.frames|) == o.frames
  {
    var n := |o.frames|;
    var r, q := (o.frame + k) % n, (o.frame + k) / n;
    assert o.frame + k == q * n + r;
    assert (q + 1) * n == q * n + n;
    m := if r == 0 then k else k + n - r;
    PlaysOn(o, m, 0, if r == 0 then q else q + 1, n);
  }

  class RtpSender {
    const origin: Origin
    ghost var count: nat                 // packets built so far
    var seqNo: u16
    var timestamp: u32
    var framePos: nat
    var rtpTime: u32
    var packetsSent: nat
    var octetsSent: nat
    var remoteKnown: bool

    ghost predicate Valid()
      reads this
    {
      && Playable(origin)
      && seqNo == Wrap16(origin.seqNo + count)
      && timestamp == Wrap32(origin.timestamp + count * origin.samplesPerPacket)
      && framePos == (origin.frame + count) % |origin.frames|
    }

    constructor (o: Origin)
      requires Playable(o)
      ensures Valid() && origin == o && count == 0 && packetsSent == octetsSent == 0 && !remoteKnown
    {
      origin, count := o, 0;
      seqNo, timestamp, framePos, rtpTime := o.seqNo, o.timestamp, o.frame, 0;
      packetsSent, octetsSent, remoteKnown := 0, 0, false;
    }

    /** Sends the next packet. `written` says whether the socket took it: a failed write is not counted as
        sent, but its number is used up all the same. */
    method SendPacket(written: bool) returns (b: Option<seq<u8>>)
      requires Valid()
      modifies this
      ensures Valid() && remoteKnown == old(remoteKnown)
      ensures !remoteKnown ==> b == None && count == old(count) && packetsSent == old(packetsSent)
      ensures remoteKnown ==> b == Some(PacketNo(origin, old(count))) && count == old(count) + 1
      ensures remoteKnown ==> rtpTime == HeaderNo(origin, old(count)).timestamp
      ensures remoteKnown ==> packetsSent == old(packetsSent) + (if written then 1 else 0)
      ensures remoteKnown && written ==>
        octetsSent == old(octetsSent) + |PacketNo(origin, old(count))| - HEADER_LEN
    {
      if !remoteKnown { return None; }
      var payload := origin.frames[framePos];
      CycleNext(origin.frame + count, |origin.frames|);
      framePos := (framePos + 1) % |origin.frames|;
      b := Some(Packet(origin.payloadType, Header(seqNo, timestamp, origin.ssrc), payload));
      rtpTime := timestamp;
      WrapNext16(origin.seqNo + count, 1);
      WrapNext32(origin.timestamp + count * origin.samplesPerPacket, origin.samplesPerPacket);
      seqNo := Wrap16(seqNo + 1);
      timestamp := Wrap32(timestamp + origin.samplesPerPacket);
      assert (count + 1) * origin.samplesPerPacket == count * origin.samplesPerPacket + origin.samplesPerPacket;
      count := count + 1;
      if written {
        packetsSent, octetsSent := packetsSent + 1, octetsSent + |payload|;
      }
    }
  }

  // ---------------------------------------------------------------------------------------------
  // The receiver
  // ---------------------------------------------------------------------------------------------

  datatype ReceiveState = ReceiveState(
    havePeerSSRC: bool, peerSSRC: u32,
    haveBase: bool, baseSeq: u16, highestSeq: u32, cycles: u16, packetsReceived: u32,
    haveLastTransit: bool, lastTransit: int, jitter: real,
    lastPeerSR: Option<(nat, nat)>)      // the peer's last sender report and when it came

  function Fresh(sr: Option<(nat, nat)>): ReceiveState {
    ReceiveState(false, 0, false, 0, 0, 0, 0, false, 0, 0.0, sr)
  }

  /** What a receiver sees: an RTP packet with its arrival in clock units, or an RTCP sender report with its
      arrival in nanoseconds. */
  datatype Event = Media(h: Header, arrival: u32) | SenderReport(ntp: nat, at: nat)

  /** The number is below the highest by more than half its range, so it is taken for one of the next cycle. */
  predicate Wraps(highest: u32, s: u16) { s < Wrap16(highest) && Wrap16(highest) - s > 0x8000 }

  function CyclesAfter(st: ReceiveState, s: u16): u16 {
    if Wraps(st.highestSeq, s) then Wrap16(st.cycles + 1) else st.cycles
  }

  /** The 32-bit number the receiver takes `s` for. */
  function Extended(st: ReceiveState, s: u16): u32 { CyclesAfter(st, s) * 0x1_0000 + s }

  function Source(st: ReceiveState, ssrc: u32): ReceiveState {
    var a := if st.havePeerSSRC && ssrc != st.peerSSRC then Fresh(st.lastPeerSR) else st;
    if a.havePeerSSRC then a else a.(havePeerSSRC := true, peerSSRC := ssrc)
  }

  function Sequence(st: ReceiveState, s: u16): ReceiveState {
    var a :=
      if !st.haveBase then st.(haveBase := true, baseSeq := s, highestSeq := s)
      else
        var ext := Extended(st, s);
        st.(cycles := CyclesAfter(st, s), highestSeq := if ext > st.highestSeq then ext else st.highestSeq);
    a.(packetsReceived := Wrap32(st.packetsReceived + 1))
  }

  /** Arrival less timestamp, as a signed 32-bit number. */
  function Transit(e: Event): int
    requires e.Media?
  {
    Signed32(Wrap32(e.arrival - e.h.timestamp))
  }

  /** The packet's change of transit is taken for jitter and not for a timestamp discontinuity. */
  predicate Accepted(st: ReceiveState, clock: nat, e: Event)
    requires e.Media?
  {
    st.haveLastTransit && Abs(Transit(e) - st.lastTransit) <= clock / 2
  }

  function Jitter(st: ReceiveState, clock: nat, e: Event): ReceiveState
    requires e.Media?
  {
    var a := if !Accepted(st, clock, e) then st
      else st.(jitter := st.jitter + (Abs(Transit(e) - st.lastTransit) as real - st.jitter) / 16.0);
    a.(lastTransit := Transit(e), haveLastTransit := true)
  }

  function Receive(st: ReceiveState, clock: nat, e: Event): ReceiveState {
    match e
    case Media(h, _) => Jitter(Sequence(Source(st, h.ssrc), h.seqNo), clock, e)
    case SenderReport(ntp, at) => st.(lastPeerSR := Some((ntp, at)))
  }

  /** The state after a run of events. */
  function After(st: ReceiveState, clock: nat, events: seq<Event>): ReceiveState {
    if events == [] then st
    else Receive(After(st, clock, events[..|events| - 1]), clock, events[|events| - 1])
  }

  datatype MediaStats = MediaStats(expected: nat, received: nat, jitterMS: real)

  datatype Report = Report(
    ssrc: u32, fractionLost: u8, totalLost: u32, lastSeq: u32, jitter: u32, lastSenderReport: u32, delay: u32)

  function Expected(st: ReceiveState): u32 { Wrap32(st.highestSeq - st.baseSeq + 1) }

  /** uint8((lost * 256) / expected), the product taken in 32 bits. */
  function Fraction(lost: u32, expected: u32): u8 {
    if expected == 0 then 0 else (Wrap32(lost * 256) / expected) % 256
  }

  /** math.Round of the estimate, which is never negative. */
  function Rounded(jitter: real): u32 { Wrap32((jitter + 0.5).Floor) }

  /** The middle 32 bits of an NTP time. */
  function MiddleOf(ntp: nat): u32 { Wrap32(ntp / 0x1_0000) }

  const SECOND := 1_000_000_000

  function Truncated(a: int, n: nat): int
    requires n > 0
  {
    if a >= 0 then a / n else -(-a / n)
  }

  /** uint32(delay.Seconds() * 65536). The clock is read before the lock is taken, so the delay can be negative. */
  function DelayOf(now: int, at: int): u32 { Wrap32(Truncated((now - at) * 65536, SECOND)) }

  class RtpReceiver {
    const clock: nat                     // the codec's clockRateForSDP
    var rtcpState: ReceiveState

    constructor (clockRate: nat)
      ensures clock == clockRate && rtcpState == Fresh(None)
    {
      clock, rtcpState := clockRate, Fresh(None);
    }

    method OnRTPReceived(h: Header, arrival: u32)
      modifies this
      ensures rtcpState == Receive(old(rtcpState), clock, Media(h, arrival))
    {
      var st := rtcpState;
      if st.havePeerSSRC && h.ssrc != st.peerSSRC { st := Fresh(st.lastPeerSR); }
      if !st.havePeerSSRC { st := st.(havePeerSSRC := true, peerSSRC := h.ssrc); }
      if !st.haveBase {
        st := st.(haveBase := true, baseSeq := h.seqNo, highestSeq := h.seqNo);
      } else {
        var prev16 := Wrap16(st.highestSeq);
        if h.seqNo < prev16 && prev16 - h.seqNo > 0x8000 { st := st.(cycles := Wrap16(st.cycles + 1)); }
        var ext := st.cycles * 0x1_0000 + h.seqNo;
        if ext > st.highestSeq { st := st.(highestSeq := ext); }
      }
      st := st.(packetsReceived := Wrap32(st.packetsReceived + 1));
      var transit := Signed32(Wrap32(arrival - h.timestamp));
      if st.haveLastTransit {
        var d := transit - st.lastTransit;
        if d < 0 { d := -d; }
        if d <= clock / 2 { st := st.(jitter := st.jitter + (d as real - st.jitter) / 16.0); }
      }
      rtcpState := st.(lastTransit := transit, haveLastTransit := true);
    }

    method OnSenderReport(ntp: nat, at: nat)
      modifies this
      ensures rtcpState == Receive(old(rtcpState), clock, SenderReport(ntp, at))
    {
      rtcpState := rtcpState.(lastPeerSR := Some((ntp, at)));
    }

    method Stats() returns (ms: MediaStats)
      ensures !rtcpState.haveBase ==> ms == MediaStats(0, 0, 0.0)
      ensures rtcpState.haveBase ==>
        ms.expected == Expected(rtcpState) && ms.received == rtcpState.packetsReceived &&
        ms.jitterMS * clock as real == if clock > 0 then rtcpState.jitter * 1000.0 else 0.0
    {
      if !rtcpState.haveBase { return MediaStats(0, 0, 0.0); }
      ms := MediaStats(Wrap32(rtcpState.highestSeq - rtcpState.baseSeq + 1), rtcpState.packetsReceived, 0.0);
      if clock > 0 { ms := ms.(jitterMS := rtcpState.jitter * 1000.0 / clock as real); }
    }

    /** The reception report of sendRTCPReport, with its 32-bit product and 8-bit conversion. */
    method ReceptionReport(now: int) returns (r: Option<Report>)
      ensures r.Some? <==> rtcpState.havePeerSSRC && rtcpState.haveBase
      ensures r.Some? ==> r.value == ReportOf(rtcpState, now)
    {
      var st := rtcpState;
      if !(st.havePeerSSRC && st.haveBase) { return None; }
      var expected := Wrap32(st.highestSeq - st.baseSeq + 1);
      var fractionLost: u8, totalLost: u32 := 0, 0;
      if expected >= st.packetsReceived {
        totalLost := expected - st.packetsReceived;
        fractionLost := Fraction(totalLost, expected);
      }
      var lsr: u32, dlsr: u32 := 0, 0;
      if st.lastPeerSR.Some? {
        lsr := MiddleOf(st.lastPeerSR.value.0);
        dlsr := DelayOf(now, st.lastPeerSR.value.1);
      }
      r := Some(Report(st.peerSSRC, fractionLost, totalLost, st.highestSeq, Rounded(st.jitter), lsr, dlsr));
    }
  }

  function LostOf(st: ReceiveState): u32 {
    if Expected(st) < st.packetsReceived then 0 else Expected(st) - st.packetsReceived
  }

  function ReportOf(st: ReceiveState, now: int): Report {
    Report(
      st.peerSSRC, if Expected(st) < st.packetsReceived then 0 else Fraction(LostOf(st), Expected(st)), LostOf(st),
      st.highestSeq, Rounded(st.jitter),
      if st.lastPeerSR.Some? then MiddleOf(st.lastPeerSR.value.0) else 0,
      if st.lastPeerSR.Some? then DelayOf(now, st.lastPeerSR.value.1) else 0)
  }
}
