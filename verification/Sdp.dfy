/** The SDP printer and parsers of internal/sipua/sdp.go and codec.go, and how call.go's two ends use them
    (RFC 8866 sections 5.14, 6.6 and 6.7; RFC 3264 section 6.1). Text is ASCII. */
module Sdp {
  import opened Text

  datatype Codec = ULaw | G722 | G729 | Opus

  datatype Spec = Spec(payloadType: nat, name: string, clock: nat, channels: nat)

  function SpecOf(c: Codec): Spec {
    match c
    case ULaw => Spec(0, "PCMU", 8000, 0)
    case G722 => Spec(9, "G722", 8000, 0)
    case G729 => Spec(18, "G729", 8000, 0)
    case Opus => Spec(111, "opus", 48000, 2)
  }

  // ---------------------------------------------------------------------------------------------
  // Printing
  // ---------------------------------------------------------------------------------------------

  function Rate(s: Spec): string {
    if s.channels > 0 then Decimal(s.clock) + "/" + Decimal(s.channels) else Decimal(s.clock)
  }

  function Encoding(c: Codec): string { SpecOf(c).name + "/" + Rate(SpecOf(c)) }

  function RtpmapLine(c: Codec, payloadType: nat): string { Decimal(payloadType) + " " + Encoding(c) }

  function MediaLine(port: nat, payloadType: nat): string {
    "m=audio" + " " + (Decimal(port) + " " + ("RTP/AVP" + " " + Decimal(payloadType)))
  }

  function SessionLines(ip: string): seq<string> {
    ["v=0", "o=- 0 0 IN IP4 " + ip, "s=SwarmDialer", "c=IN IP4 " + ip, "t=0 0"]
  }

  function DirectionLine(sendMedia: bool): string { if sendMedia then "a=sendrecv" else "a=inactive" }

  function SdpLines(ip: string, port: nat, sendMedia: bool, c: Codec, payloadType: nat): seq<string> {
    SessionLines(ip) +
    [MediaLine(port, payloadType), "a=rtpmap:" + RtpmapLine(c, payloadType), DirectionLine(sendMedia)]
  }

  function JoinLines(lines: seq<string>): string {
    if lines == [] then "" else lines[0] + "\r\n" + JoinLines(lines[1..])
  }

  function BuildSDP(ip: string, port: nat, sendMedia: bool, c: Codec, payloadType: nat): string {
    JoinLines(SdpLines(ip, port, sendMedia, c, payloadType))
  }

  // ---------------------------------------------------------------------------------------------
  // Parsing: what one line adds
  // ---------------------------------------------------------------------------------------------

  datatype Seen = Seen(order: seq<string>, rtpmaps: map<string, string>)

  function See(seen: Seen, raw: string): Seen {
    var line := TrimSpace(raw);
    if HasPrefix(line, "m=audio ") then
      var fields := Fields(line);
      if |fields| > 3 then seen.(order := fields[3..]) else seen
    else if HasPrefix(line, "a=rtpmap:") then
      var fields := Fields(AfterPrefix(line, "a=rtpmap:"));
      if |fields| >= 2 then seen.(rtpmaps := seen.rtpmaps[fields[0] := ToLower(BeforeSlash(fields[1]))]) else seen
    else seen
  }

  function SeeAll(lines: seq<string>): Seen {
    Fold(See, Seen([], map[]), lines)
  }

  function StaticName(pt: string): Option<string> {
    if pt == "0" then Some("pcmu") else if pt == "9" then Some("g722") else if pt == "18" then Some("g729") else None
  }

  function CodecNamed(name: string): Option<Codec> {
    if name == "pcmu" then Some(ULaw) else if name == "g722" then Some(G722)
    else if name == "g729" then Some(G729) else if name == "opus" then Some(Opus) else None
  }

  /** The codec and number that one entry of the m= line offers, if it is one we know. */
  function Offers(rtpmaps: map<string, string>, pt: string): Option<(Codec, nat)> {
    var name := if pt in rtpmaps then Some(rtpmaps[pt]) else StaticName(pt);
    if name.None? || CodecNamed(name.value).None? || ParseByte(pt).None? then None
    else Some((CodecNamed(name.value).value, ParseByte(pt).value))
  }

  /** Everything we know in the m= line, in its order. */
  function OffersIn(seen: Seen, order: seq<string>): seq<(Codec, nat)> {
    if order == [] then []
    else
      var last := Offers(seen.rtpmaps, order[|order| - 1]);
      OffersIn(seen, order[..|order| - 1]) + if last.Some? then [last.value] else []
  }

  /** The first offer of the preferred codec, or else the first one. */
  function Pick(found: seq<(Codec, nat)>, prefer: Option<Codec>): Option<(Codec, nat)> {
    if found == [] then None
    else if i :| 0 <= i < |found| && FirstOf(found, prefer, i) then Some(found[i])
    else Some(found[0])
  }

  predicate FirstOf(found: seq<(Codec, nat)>, prefer: Option<Codec>, i: int) {
    0 <= i < |found| && Some(found[i].0) == prefer && forall j | 0 <= j < i :: Some(found[j].0) != prefer
  }

  /** The m= line's numbers and the rtpmaps of a body. */
  function Entries(body: string): Seen { SeeAll(Lines(body)) }

  function CodecIn(body: string, prefer: Option<Codec>): Option<(Codec, nat)> {
    var seen := Entries(body);
    Pick(OffersIn(seen, seen.order), prefer)
  }

  predicate WantsMedia(body: string) {
    forall i | 0 <= i < |Lines(body)| :: TrimSpace(Lines(body)[i]) != "a=inactive"
  }

  datatype Address = NoAddress | Address(ip: string, port: int)

  datatype Where = Bad | Where(ip: string, port: int)

  function Locate(w: Where, raw: string): Where {
    var line := TrimSpace(raw);
    if w.Bad? then w
    else if HasPrefix(line, "c=IN IP4 ") then w.(ip := TrimSpace(AfterPrefix(line, "c=IN IP4 ")))
    else if HasPrefix(line, "m=audio ") then
      var fields := Fields(line);
      if |fields| < 2 || Atoi(fields[1]).None? then Bad else w.(port := Atoi(fields[1]).value)
    else w
  }

  function LocateAll(lines: seq<string>): Where {
    Fold(Locate, Where("", 0), lines)
  }

  function MediaIn(body: string): Address {
    var w := LocateAll(Lines(body));
    if w.Bad? || w.ip == "" || w.port == 0 then NoAddress else Address(w.ip, w.port)
  }

  // ---------------------------------------------------------------------------------------------
  // The parsers
  // ---------------------------------------------------------------------------------------------

  method ParseSDPCodec(body: string, prefer: Option<Codec>) returns (r: Option<(Codec, nat)>)
    ensures r == CodecIn(body, prefer)
  {
    var order: seq<string>, rtpmaps: map<string, string> := [], map[];
    var lines := Lines(body);
    for k := 0 to |lines|
      invariant Seen(order, rtpmaps) == SeeAll(lines[..k])
    {
      var line := TrimSpace(lines[k]);
      assert lines[..k + 1][..k] == lines[..k];
      if HasPrefix(line, "m=audio ") {
        var fields := Fields(line);
        if |fields| > 3 { order := fields[3..]; }
      } else if HasPrefix(line, "a=rtpmap:") {
        var fields := Fields(AfterPrefix(line, "a=rtpmap:"));
        if |fields| >= 2 { rtpmaps := rtpmaps[fields[0] := ToLower(BeforeSlash(fields[1]))]; }
      }
    }
    assert lines[..|lines|] == lines;
    var found: seq<(Codec, nat)> := [];
    for k := 0 to |order|
      invariant found == OffersIn(Seen(order, rtpmaps), order[..k])
    {
      assert order[..k + 1][..k] == order[..k];
      var pt := order[k];
      var name := if pt in rtpmaps then Some(rtpmaps[pt]) else StaticName(pt);
      if name.Some? && CodecNamed(name.value).Some? && ParseByte(pt).Some? {
        found := found + [(CodecNamed(name.value).value, ParseByte(pt).value)];
      }
    }
    assert order[..|order|] == order;
    if found == [] { return None; }
    for i := 0 to |found|
      invariant forall j | 0 <= j < i :: Some(found[j].0) != prefer
    {
      if Some(found[i].0) == prefer {
        assert FirstOf(found, prefer, i);
        return Some(found[i]);
      }
    }
    return Some(found[0]);
  }

  method SdpWantsMedia(body: string) returns (r: bool)
    ensures r == WantsMedia(body)
  {
    var lines := Lines(body);
    for k := 0 to |lines|
      invariant forall i | 0 <= i < k :: TrimSpace(lines[i]) != "a=inactive"
    {
      if TrimSpace(lines[k]) == "a=inactive" { return false; }
    }
    return true;
  }

  method ParseSDPMedia(body: string) returns (r: Address)
    ensures r == MediaIn(body)
  {
    var ip, port := "", 0;
    var lines := Lines(body);
    for k := 0 to |lines|
      invariant Where(ip, port) == LocateAll(lines[..k])
    {
      var line := TrimSpace(lines[k]);
      assert lines[..k + 1][..k] == lines[..k];
      if HasPrefix(line, "c=IN IP4 ") {
        ip := TrimSpace(AfterPrefix(line, "c=IN IP4 "));
      } else if HasPrefix(line, "m=audio ") {
        var fields := Fields(line);
        if |fields| < 2 || Atoi(fields[1]).None? {
          BadStays(lines, k + 1);
          return NoAddress;
        }
        port := Atoi(fields[1]).value;
      }
    }
    assert lines[..|lines|] == lines;
    if ip == "" || port == 0 { return NoAddress; }
    return Address(ip, port);
  }

  lemma {:induction false} BadStays(lines: seq<string>, k: nat)
    requires k <= |lines| && LocateAll(lines[..k]).Bad?
    ensures LocateAll(lines).Bad?
    decreases |lines| - k
  {
    if k == |lines| {
      assert lines[..k] == lines;
    } else {
      assert lines[..k + 1][..k] == lines[..k];
      BadStays(lines, k + 1);
    }
  }

  // ---------------------------------------------------------------------------------------------
  // What a parse means, for any body
  // ---------------------------------------------------------------------------------------------

  /** Entry `j` of the m= line offers codec and number `x`. */
  predicate OfferedAt(seen: Seen, order: seq<string>, j: int, x: (Codec, nat)) {
    0 <= j < |order| && Offers(seen.rtpmaps, order[j]) == Some(x)
  }

  lemma {:induction false} OffersAre(seen: Seen, order: seq<string>, x: (Codec, nat))
    ensures x in OffersIn(seen, order) <==> exists j :: OfferedAt(seen, order, j, x)
  {
    if order != [] {
      var n := |order| - 1;
      OffersAre(seen, order[..n], x);
      if j :| OfferedAt(seen, order[..n], j, x) { assert OfferedAt(seen, order, j, x); }
      if j :| OfferedAt(seen, order, j, x) {
        assert j < n ==> OfferedAt(seen, order[..n], j, x);
      }
      assert Offers(seen.rtpmaps, order[n]) == Some(x) ==> OfferedAt(seen, order, n, x);
    }
  }

  lemma {:induction false} FirstExists(found: seq<(Codec, nat)>, prefer: Option<Codec>, i: nat) returns (k: nat)
    requires i < |found| && Some(found[i].0) == prefer
    ensures FirstOf(found, prefer, k)
  {
    if j :| 0 <= j < i && Some(found[j].0) == prefer { k := FirstExists(found, prefer, j); } else { k := i; }
  }

  lemma {:induction false} PickedIsFound(found: seq<(Codec, nat)>, prefer: Option<Codec>)
    ensures Pick(found, prefer).Some? <==> found != []
    ensures Pick(found, prefer).Some? ==> Pick(found, prefer).value in found
    ensures forall x | x in found && Some(x.0) == prefer :: Some(Pick(found, prefer).value.0) == prefer
  {
    forall x | x in found && Some(x.0) == prefer
      ensures Some(Pick(found, prefer).value.0) == prefer
    {
      var i :| 0 <= i < |found| && found[i] == x;
      var k := FirstExists(found, prefer, i);
    }
  }

  /** The parsed codec and number are offered together; the preferred codec is taken whenever it is offered;
      and nothing is found only when nothing known is offered. */
  lemma {:induction false} ParsedIsOffered(body: string, prefer: Option<Codec>)
    ensures var seen := Entries(body);
      CodecIn(body, prefer).Some? ==> exists j :: OfferedAt(seen, seen.order, j, CodecIn(body, prefer).value)
    ensures var seen := Entries(body);
      forall j, x :: OfferedAt(seen, seen.order, j, x) ==>
        CodecIn(body, prefer).Some? && (Some(x.0) == prefer ==> Some(CodecIn(body, prefer).value.0) == prefer)
  {
    var seen := Entries(body);
    var found := OffersIn(seen, seen.order);
    var r := CodecIn(body, prefer);
    PickedIsFound(found, prefer);
    if r.Some? { OffersAre(seen, seen.order, r.value); }
    forall j, x | OfferedAt(seen, seen.order, j, x)
      ensures r.Some? && (Some(x.0) == prefer ==> Some(r.value.0) == prefer)
    {
      OffersAre(seen, seen.order, x);
    }
  }

  /** The entries of the m= line that offer something we know. */
  function Known(seen: Seen, order: seq<string>): seq<nat> {
    if order == [] then []
    else
      var n := |order| - 1;
      Known(seen, order[..n]) + if Offers(seen.rtpmaps, order[n]).Some? then [n] else []
  }

  /** Offer `i` is that of the i-th of those entries, and the entries are in the line's order. */
  lemma {:induction false} KnownAre(seen: Seen, order: seq<string>)
    ensures var known, found := Known(seen, order), OffersIn(seen, order);
      && |known| == |found|
      && (forall i | 0 <= i < |known| :: OfferedAt(seen, order, known[i], found[i]))
      && (forall i, k | 0 <= i < k < |known| :: known[i] < known[k])
    ensures forall j | 0 <= j < |order| && Offers(seen.rtpmaps, order[j]).Some? :: j in Known(seen, order)
  {
    if order != [] {
      var n := |order| - 1;
      KnownAre(seen, order[..n]);
      forall j | 0 <= j < |order| && Offers(seen.rtpmaps, order[j]).Some? ensures j in Known(seen, order) {
        if j < n { assert Offers(seen.rtpmaps, order[..n][j]).Some?; }
      }
      var known, found := Known(seen, order), OffersIn(seen, order);
      forall i | 0 <= i < |known| ensures OfferedAt(seen, order, known[i], found[i]) {
        if i < |known| - 1 || Offers(seen.rtpmaps, order[n]).None? {
          assert OfferedAt(seen, order[..n], Known(seen, order[..n])[i], OffersIn(seen, order[..n])[i]);
        }
      }
    }
  }

  /** No entry before `j` offers a known codec, of that kind if one is given. */
  predicate NoneBefore(seen: Seen, order: seq<string>, j: int, only: Option<Codec>) {
    forall i | 0 <= i < j && i < |order| && Offers(seen.rtpmaps, order[i]).Some? ::
      only.Some? && Offers(seen.rtpmaps, order[i]).value.0 != only.value
  }

  /** Entry `j` is the one to take: the first of the preferred codec, or if there is none the first that is known. */
  predicate IsChoice(seen: Seen, order: seq<string>, prefer: Option<Codec>, j: int, x: (Codec, nat)) {
    && OfferedAt(seen, order, j, x)
    && if prefer == Some(x.0) then NoneBefore(seen, order, j, prefer)
       else NoneBefore(seen, order, j, None) && (prefer.Some? ==> NoneBefore(seen, order, |order|, prefer))
  }

  /** What is parsed from any body is the first entry of the m= line that offers the preferred codec, or, if none does,
      the first that offers one we know. */
  lemma {:induction false} ParsedIsFirst(body: string, prefer: Option<Codec>)
    ensures var seen := Entries(body);
      CodecIn(body, prefer).Some? ==> exists j :: IsChoice(seen, seen.order, prefer, j, CodecIn(body, prefer).value)
  {
    var seen := Entries(body);
    if CodecIn(body, prefer).Some? { var j := ChoiceAt(seen, prefer); }
  }

  /** What an entry before the `i`-th known one offers is among the offers before. */
  lemma {:induction false} OfferedBefore(seen: Seen, order: seq<string>, i: nat, b: nat) returns (c: nat)
    requires i <= |Known(seen, order)| && b < |order| && Offers(seen.rtpmaps, order[b]).Some?
    requires i < |Known(seen, order)| ==> b < Known(seen, order)[i]
    ensures c < i && c < |OffersIn(seen, order)| && Offers(seen.rtpmaps, order[b]).value == OffersIn(seen, order)[c]
  {
    KnownAre(seen, order);
    c :| 0 <= c < |Known(seen, order)| && Known(seen, order)[c] == b;
    assert OfferedAt(seen, order, b, OffersIn(seen, order)[c]);
  }

  /** None of the first `n` offers is of the preferred codec. */
  predicate NoneAmong(found: seq<(Codec, nat)>, n: nat, prefer: Option<Codec>)
    requires n <= |found|
  {
    forall k | 0 <= k < n :: Some(found[k].0) != prefer
  }

  lemma {:induction false} NonePreferred(seen: Seen, order: seq<string>, prefer: Option<Codec>, i: nat)
    requires i <= |Known(seen, order)| == |OffersIn(seen, order)| && prefer.Some?
    requires NoneAmong(OffersIn(seen, order), i, prefer)
    ensures NoneBefore(seen, order, if i < |Known(seen, order)| then Known(seen, order)[i] else |order|, prefer)
  {
    var j: nat := if i < |Known(seen, order)| then Known(seen, order)[i] else |order|;
    forall b | 0 <= b < j && b < |order| && Offers(seen.rtpmaps, order[b]).Some?
      ensures Offers(seen.rtpmaps, order[b]).value.0 != prefer.value
    {
      var c := OfferedBefore(seen, order, i, b);
    }
  }

  lemma {:induction false} NoneKnown(seen: Seen, order: seq<string>)
    requires Known(seen, order) != []
    ensures NoneBefore(seen, order, Known(seen, order)[0], None)
  {
    forall b | 0 <= b < Known(seen, order)[0] && b < |order| ensures Offers(seen.rtpmaps, order[b]).None? {
      if Offers(seen.rtpmaps, order[b]).Some? { var c := OfferedBefore(seen, order, 0, b); }
    }
  }

  lemma {:induction false} PickIs(found: seq<(Codec, nat)>, prefer: Option<Codec>) returns (i: nat)
    requires found != []
    ensures i < |found| && Pick(found, prefer) == Some(found[i])
    ensures if Some(found[i].0) == prefer then NoneAmong(found, i, prefer)
            else i == 0 && NoneAmong(found, |found|, prefer)
  {
    if k :| 0 <= k < |found| && Some(found[k].0) == prefer {
      var first := FirstExists(found, prefer, k);
      i :| 0 <= i < |found| && FirstOf(found, prefer, i) && Pick(found, prefer) == Some(found[i]);
    } else {
      assert forall k :: !FirstOf(found, prefer, k);
      i := 0;
    }
  }

  lemma {:induction false} ChoiceAt(seen: Seen, prefer: Option<Codec>) returns (j: nat)
    requires OffersIn(seen, seen.order) != []
    ensures IsChoice(seen, seen.order, prefer, j, Pick(OffersIn(seen, seen.order), prefer).value)
  {
    var known, found := Known(seen, seen.order), OffersIn(seen, seen.order);
    KnownAre(seen, seen.order);
    var i := PickIs(found, prefer);
    j := known[i];
    assert OfferedAt(seen, seen.order, j, found[i]);
    if Some(found[i].0) == prefer {
      NonePreferred(seen, seen.order, prefer, i);
    } else {
      NoneKnown(seen, seen.order);
      if prefer.Some? { NonePreferred(seen, seen.order, prefer, |known|); }
    }
  }

  // ---------------------------------------------------------------------------------------------
  // Which of several lines counts
  // ---------------------------------------------------------------------------------------------

  predicate IsConnection(raw: string) { HasPrefix(TrimSpace(raw), "c=IN IP4 ") }

  predicate IsMedia(raw: string) { HasPrefix(TrimSpace(raw), "m=audio ") }

  /** A media line with a port that is a number. */
  predicate HasPort(raw: string) { |Fields(TrimSpace(raw))| >= 2 && Atoi(Fields(TrimSpace(raw))[1]).Some? }

  lemma {:induction false} FoldMore<S>(step: (S, string) -> S, start: S, lines: seq<string>, n: nat)
    requires n < |lines|
    ensures Fold(step, start, lines[..n + 1]) == step(Fold(step, start, lines[..n]), lines[n])
  {
    assert lines[..n + 1] == lines[..n] + [lines[n]];
    FoldConcat(step, start, lines[..n], [lines[n]]);
    FoldOne(step, Fold(step, start, lines[..n]), lines[n]);
  }

  /** No line from the i-th to before the n-th is like that. */
  ghost predicate NoneFrom(lines: seq<string>, i: int, n: int, like: string -> bool) {
    forall k | i <= k < n && 0 <= k < |lines| :: !like(lines[k])
  }

  /** What the first `n` lines locate. */
  function LocatedIn(lines: seq<string>, n: nat): Where
    requires n <= |lines|
  {
    LocateAll(lines[..n])
  }

  lemma {:induction false} LocateStep(lines: seq<string>, n: nat)
    requires n < |lines|
    ensures var w, next, raw := LocatedIn(lines, n), LocatedIn(lines, n + 1), lines[n];
      if w.Bad? then next.Bad?
      else if IsConnection(raw) then
        !IsMedia(raw) && next == w.(ip := TrimSpace(AfterPrefix(TrimSpace(raw), "c=IN IP4 ")))
      else if !IsMedia(raw) then next == w
      else if HasPort(raw) then next == w.(port := Atoi(Fields(TrimSpace(raw))[1]).value)
      else next.Bad?
  {
    FoldMore(Locate, Where("", 0), lines, n);
    NotBoth(TrimSpace(lines[n]));
  }

  /** An address comes of it exactly when reading did not fail and there is one, with a port other than zero. */
  lemma {:induction false} AddressExactly(body: string)
    ensures var lines := Lines(body);
      var w := LocatedIn(lines, |lines|);
      match MediaIn(body)
      case Address(ip, port) => w == Where(ip, port) && ip != "" && port != 0
      case NoAddress => w.Bad? || w.ip == "" || w.port == 0
  {
    assert Lines(body)[..|Lines(body)|] == Lines(body);
  }

  /** Reading fails exactly when a media line has no port. */
  lemma {:induction false} BadExactly(lines: seq<string>, n: nat)
    requires n <= |lines|
    ensures LocatedIn(lines, n).Bad? <==> exists k | 0 <= k < n :: IsMedia(lines[k]) && !HasPort(lines[k])
  {
    if n > 0 {
      BadExactly(lines, n - 1);
      LocateStep(lines, n - 1);
    }
  }

  /** Otherwise the last connection line gives the address. */
  lemma {:induction false} LastAddressLocated(lines: seq<string>, n: nat, i: nat)
    requires i < n <= |lines| && !LocatedIn(lines, n).Bad?
    requires IsConnection(lines[i]) && NoneFrom(lines, i + 1, n, IsConnection)
    ensures LocatedIn(lines, n).ip == TrimSpace(AfterPrefix(TrimSpace(lines[i]), "c=IN IP4 "))
  {
    LocateStep(lines, n - 1);
    if i < n - 1 { LastAddressLocated(lines, n - 1, i); }
  }

  /** And the last media line the port. */
  lemma {:induction false} LastPortLocated(lines: seq<string>, n: nat, i: nat)
    requires i < n <= |lines| && !LocatedIn(lines, n).Bad?
    requires IsMedia(lines[i]) && NoneFrom(lines, i + 1, n, IsMedia)
    ensures HasPort(lines[i]) && LocatedIn(lines, n).port == Atoi(Fields(TrimSpace(lines[i]))[1]).value
  {
    LocateStep(lines, n - 1);
    if i < n - 1 { LastPortLocated(lines, n - 1, i); }
  }

  lemma {:induction false} NotBoth(line: string)
    ensures !(HasPrefix(line, "c=IN IP4 ") && HasPrefix(line, "m=audio "))
  {
    if HasPrefix(line, "c=IN IP4 ") { assert line[0] == 'c'; }
    if HasPrefix(line, "m=audio ") { assert line[0] == 'm'; }
  }

  /** A media line that lists numbers. */
  predicate ListsNumbers(raw: string) { IsMedia(raw) && |Fields(TrimSpace(raw))| > 3 }

  predicate IsRtpmap(raw: string) { HasPrefix(TrimSpace(raw), "a=rtpmap:") }

  function RtpmapFieldsOf(raw: string): seq<string>
    requires IsRtpmap(raw)
  {
    Fields(AfterPrefix(TrimSpace(raw), "a=rtpmap:"))
  }

  /** An rtpmap line for that number. */
  predicate Maps(raw: string, pt: string) {
    IsRtpmap(raw) && !IsMedia(raw) && |RtpmapFieldsOf(raw)| >= 2 && RtpmapFieldsOf(raw)[0] == pt
  }

  /** What the first `n` lines say. */
  function SeenIn(lines: seq<string>, n: nat): Seen
    requires n <= |lines|
  {
    SeeAll(lines[..n])
  }

  lemma {:induction false} NumbersStep(lines: seq<string>, n: nat)
    requires n < |lines|
    ensures SeenIn(lines, n + 1).order ==
            if ListsNumbers(lines[n]) then Fields(TrimSpace(lines[n]))[3..] else SeenIn(lines, n).order
  {
    FoldMore(See, Seen([], map[]), lines, n);
  }

  /** The numbers are those of the last media line that lists any. */
  lemma {:induction false} LastNumbersSeen(lines: seq<string>, n: nat, i: nat)
    requires i < n <= |lines| && ListsNumbers(lines[i]) && NoneFrom(lines, i + 1, n, ListsNumbers)
    ensures SeenIn(lines, n).order == Fields(TrimSpace(lines[i]))[3..]
  {
    NumbersStep(lines, n - 1);
    if i < n - 1 { LastNumbersSeen(lines, n - 1, i); }
  }

  /** What a line does to the name of a number. */
  lemma {:induction false} NameSeen(seen: Seen, raw: string, pt: string)
    ensures !Maps(raw, pt) ==>
      (pt in See(seen, raw).rtpmaps <==> pt in seen.rtpmaps) &&
      (pt in seen.rtpmaps ==> See(seen, raw).rtpmaps[pt] == seen.rtpmaps[pt])
    ensures Maps(raw, pt) ==>
      pt in See(seen, raw).rtpmaps && See(seen, raw).rtpmaps[pt] == ToLower(BeforeSlash(RtpmapFieldsOf(raw)[1]))
  {}

  function NameIn(lines: seq<string>, n: nat, pt: string): Option<string>
    requires n <= |lines|
  {
    if pt in SeenIn(lines, n).rtpmaps then Some(SeenIn(lines, n).rtpmaps[pt]) else None
  }

  lemma {:induction false} NameStep(lines: seq<string>, n: nat, pt: string)
    requires n < |lines|
    ensures NameIn(lines, n + 1, pt) ==
            if Maps(lines[n], pt) then Some(ToLower(BeforeSlash(RtpmapFieldsOf(lines[n])[1]))) else NameIn(lines, n, pt)
  {
    FoldMore(See, Seen([], map[]), lines, n);
    NameSeen(SeenIn(lines, n), lines[n], pt);
  }

  /** A number's name is that of its last rtpmap line. */
  lemma {:induction false} LastNameSeen(lines: seq<string>, n: nat, i: nat, pt: string)
    requires i < n <= |lines| && Maps(lines[i], pt) && forall k | i < k < n :: !Maps(lines[k], pt)
    ensures NameIn(lines, n, pt) == Some(ToLower(BeforeSlash(RtpmapFieldsOf(lines[i])[1])))
  {
    NameStep(lines, n - 1, pt);
    if i < n - 1 { LastNameSeen(lines, n - 1, i, pt); }
  }

  /** And it has none if it has no such line. */
  lemma {:induction false} NoNameSeen(lines: seq<string>, n: nat, pt: string)
    requires n <= |lines| && forall k | 0 <= k < n :: !Maps(lines[k], pt)
    ensures NameIn(lines, n, pt) == None
  {
    if n > 0 {
      NameStep(lines, n - 1, pt);
      NoNameSeen(lines, n - 1, pt);
    }
  }
}
