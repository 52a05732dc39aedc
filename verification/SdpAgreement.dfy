/** Printed SDP is parsed back exactly, and an offer and its answer leave both ends with one codec and one
    payload type number. */
module SdpAgreement {
  import opened Text
  import opened Sdp

  // ---------------------------------------------------------------------------------------------
  // Printed lines are scanned back
  // ---------------------------------------------------------------------------------------------

  predicate Scannable(line: string) { OneLine(line) && |line| + 2 <= MAX_TOKEN }

  lemma {:induction false} ScanJoined(lines: seq<string>)
    requires AllScannable(lines)
    ensures Lines(JoinLines(lines)) == lines
  {
    if lines != [] {
      LinesCons(lines[0], JoinLines(lines[1..]));
      ScanJoined(lines[1..]);
    }
  }

  /** An address a connection line can carry. */
  predicate IsAddress(ip: string) { ip != "" && NoSpace(ip) }

  /** The longest address whose origin line still fits the scanner's buffer. */
  const MAX_ADDRESS := MAX_TOKEN - 17

  lemma {:induction false} NoSpaceOneLine(s: string)
    requires NoSpace(s)
    ensures OneLine(s)
  {}

  lemma {:induction false} ConcatOneLine(a: string, b: string)
    requires OneLine(a) && OneLine(b)
    ensures OneLine(a + b)
  {}

  lemma {:induction false} DecimalLength(n: nat, digits: nat, bound: nat)
    requires digits > 0 && n < bound && bound == PowerOfTen(digits)
    ensures |Decimal(n)| <= digits
  {
    if n >= 10 {
      assert digits > 1;
      DecimalLength(n / 10, digits - 1, PowerOfTen(digits - 1));
    }
  }

  function PowerOfTen(n: nat): nat { if n == 0 then 1 else 10 * PowerOfTen(n - 1) }

  lemma {:induction false} ShortDecimal(n: nat)
    requires n < 100000
    ensures |Decimal(n)| <= 5 && NoSpace(Decimal(n)) && OneLine(Decimal(n))
  {
    assert PowerOfTen(5) == 100000 by {
      assert PowerOfTen(1) == 10 && PowerOfTen(2) == 100 && PowerOfTen(3) == 1000 && PowerOfTen(4) == 10000;
    }
    DecimalLength(n, 5, 100000);
    DecimalNoSpace(n);
    NoSpaceOneLine(Decimal(n));
  }

  /** A codec is known again by its lower-case name. */
  lemma {:induction false} NameParts(c: Codec)
    ensures CodecNamed(ToLower(SpecOf(c).name)) == Some(c)
  {
    match c {
      case ULaw => assert ToLower("PCMU") == "pcmu";
      case G722 => assert ToLower("G722") == "g722";
      case G729 => assert ToLower("G729") == "g729";
      case Opus => assert ToLower("opus") == "opus";
    }
  }

  lemma {:induction false} RateParts(s: Spec)
    requires s.clock < 100000 && s.channels < 100000
    ensures NoSpace(Rate(s)) && |Rate(s)| <= 11
  {
    ShortDecimal(s.clock);
    ShortDecimal(s.channels);
  }

  /** The part of an rtpmap after the number. */
  lemma {:induction false} EncodingParts(c: Codec)
    ensures BeforeSlash(Encoding(c)) == SpecOf(c).name
    ensures NoSpace(Encoding(c)) && Encoding(c) != "" && |Encoding(c)| <= 16
  {
    var s := SpecOf(c);
    RateParts(s);
    var name, rate := s.name, Rate(s);
    assert |name| == 4 && (forall i | 0 <= i < 4 :: name[i] != '/' && !IsSpace(name[i]));
    BeforeSlashOf(name, rate);
    assert Encoding(c) == name + "/" + rate;
  }

  ghost predicate Sensible(ip: string, port: nat, pt: nat) { IsAddress(ip) && 1 <= port <= 65535 && pt <= 255 }

  /** A word a number or an encoding makes. */
  predicate Word(s: string) { s != "" && NoSpace(s) }

  lemma {:induction false} EndsInWord(a: string, w: string)
    requires Word(w) && a != "" && !IsSpace(a[0])
    ensures TrimSpace(a + w) == a + w
  {
    assert (a + w)[|a + w| - 1] == w[|w| - 1];
    TrimNothing(a + w);
  }

  lemma {:induction false} FourFields(a: string, b: string, c: string, d: string)
    requires Word(a) && Word(b) && Word(c) && Word(d)
    ensures Fields(a + " " + (b + " " + (c + " " + d))) == [a, b, c, d]
  {
    FieldsCons(a, b + " " + (c + " " + d));
    FieldsCons(b, c + " " + d);
    FieldsCons(c, d);
    FieldsOne(d);
  }

  lemma {:induction false} MediaTrimmed(p: string, n: string)
    requires Word(p) && Word(n)
    ensures var line := "m=audio" + " " + (p + " " + ("RTP/AVP" + " " + n));
      TrimSpace(line) == line && HasPrefix(line, "m=audio ") && OneLine(line) && |line| == |p| + |n| + 17
  {
    var line := "m=audio" + " " + (p + " " + ("RTP/AVP" + " " + n));
    var before := "m=audio" + " " + (p + " " + ("RTP/AVP" + " "));
    assert line == before + n;
    EndsInWord(before, n);
    assert line[..8] == "m=audio ";
  }

  lemma {:induction false} MediaLineShape(port: nat, pt: nat)
    requires port <= 65535 && pt <= 255
    ensures var line := MediaLine(port, pt);
      && Scannable(line) && TrimSpace(line) == line && HasPrefix(line, "m=audio ")
      && Fields(line) == ["m=audio", Decimal(port), "RTP/AVP", Decimal(pt)]
  {
    ShortDecimal(port);
    ShortDecimal(pt);
    FourFields("m=audio", Decimal(port), "RTP/AVP", Decimal(pt));
    MediaTrimmed(Decimal(port), Decimal(pt));
  }

  lemma {:induction false} TwoFields(n: string, e: string)
    requires Word(n) && Word(e)
    ensures Fields(n + " " + e) == [n, e]
  {
    FieldsCons(n, e);
    FieldsOne(e);
  }

  lemma {:induction false} PrefixedTrimmed(prefix: string, n: string, e: string)
    requires Word(n) && Word(e) && prefix != "" && !IsSpace(prefix[0])
    ensures TrimSpace(prefix + (n + " " + e)) == prefix + (n + " " + e)
  {
    assert prefix + (n + " " + e) == prefix + (n + " ") + e;
    EndsInWord(prefix + (n + " "), e);
  }

  lemma {:induction false} PrefixedFields(prefix: string, n: string, e: string)
    requires Word(n) && Word(e) && prefix != "" && !IsSpace(prefix[0]) && OneLine(prefix)
    ensures var line := prefix + (n + " " + e);
      && TrimSpace(line) == line && OneLine(line) && |line| == |prefix| + |n| + |e| + 1
      && HasPrefix(line, prefix) && Fields(AfterPrefix(line, prefix)) == [n, e]
  {
    var rest := n + " " + e;
    TwoFields(n, e);
    PrefixedTrimmed(prefix, n, e);
    assert AfterPrefix(prefix + rest, prefix) == rest;
    assert OneLine(prefix + rest) by {
      NoSpaceOneLine(n);
      NoSpaceOneLine(e);
      ConcatOneLine(n, " ");
      ConcatOneLine(n + " ", e);
      ConcatOneLine(prefix, rest);
    }
  }

  lemma {:induction false} RtpmapFields(n: string, e: string)
    requires Word(n) && Word(e) && |n| <= 5 && |e| <= 16
    ensures var line := "a=rtpmap:" + (n + " " + e);
      && Scannable(line) && TrimSpace(line) == line && HasPrefix(line, "a=rtpmap:")
      && Fields(AfterPrefix(line, "a=rtpmap:")) == [n, e]
      && line[0] == 'a' && line[2] == 'r'
  {
    PrefixedFields("a=rtpmap:", n, e);
  }

  lemma {:induction false} RtpmapShape(c: Codec, pt: nat)
    requires pt <= 255
    ensures var line := "a=rtpmap:" + RtpmapLine(c, pt);
      && Scannable(line) && TrimSpace(line) == line && HasPrefix(line, "a=rtpmap:")
      && Fields(AfterPrefix(line, "a=rtpmap:")) == [Decimal(pt), Encoding(c)]
      && line[0] == 'a' && line[2] == 'r'
  {
    assert Word(Decimal(pt)) && |Decimal(pt)| <= 5 by { ShortDecimal(pt); }
    assert Word(Encoding(c)) && |Encoding(c)| <= 16 by { EncodingParts(c); }
    RtpmapFields(Decimal(pt), Encoding(c));
  }

  lemma {:induction false} AddressLineShape(prefix: string, ip: string)
    requires IsAddress(ip) && OneLine(prefix) && prefix != "" && !IsSpace(prefix[0])
    ensures var line := prefix + ip;
      OneLine(line) && TrimSpace(line) == line && line[0] == prefix[0] && AfterPrefix(line, prefix) == ip
  {
    var line := prefix + ip;
    NoSpaceOneLine(ip);
    assert line[|line| - 1] == ip[|ip| - 1];
    TrimNothing(line);
  }

  // ---------------------------------------------------------------------------------------------
  // The round trip
  // ---------------------------------------------------------------------------------------------

  lemma {:induction false} StopsAtLongLine(lines: seq<string>)
    requires |lines| >= 2 && Scannable(lines[0]) && OneLine(lines[1]) && !Scannable(lines[1])
    ensures Lines(JoinLines(lines)) == [lines[0]]
  {
    LinesCons(lines[0], JoinLines(lines[1..]));
    assert lines[1..][0] == lines[1];
    LinesCons(lines[1], JoinLines(lines[1..][1..]));
  }

  ghost predicate AllScannable(lines: seq<string>) { forall i | 0 <= i < |lines| :: Scannable(lines[i]) }

  lemma {:induction false} SessionLinesFit(ip: string)
    requires IsAddress(ip) && |ip| <= MAX_ADDRESS
    ensures AllScannable(SessionLines(ip))
  {
    AddressLineShape("o=- 0 0 IN IP4 ", ip);
    AddressLineShape("c=IN IP4 ", ip);
  }

  function MediaLines(port: nat, sendMedia: bool, c: Codec, pt: nat): seq<string> {
    [MediaLine(port, pt), "a=rtpmap:" + RtpmapLine(c, pt), DirectionLine(sendMedia)]
  }

  lemma {:induction false} ThreeFit(a: string, b: string, c: string)
    requires Scannable(a) && Scannable(b) && Scannable(c)
    ensures AllScannable([a, b, c])
  {}

  lemma {:induction false} MediaLinesFit(port: nat, sendMedia: bool, c: Codec, pt: nat)
    requires port <= 65535 && pt <= 255
    ensures AllScannable(MediaLines(port, sendMedia, c, pt))
  {
    var media, rtpmap, direction := MediaLine(port, pt), "a=rtpmap:" + RtpmapLine(c, pt), DirectionLine(sendMedia);
    assert Scannable(media) by { MediaLineShape(port, pt); }
    assert Scannable(rtpmap) by { RtpmapShape(c, pt); }
    assert Scannable(direction);
    ThreeFit(media, rtpmap, direction);
  }

  lemma {:induction false} LinesFit(ip: string, port: nat, sendMedia: bool, c: Codec, pt: nat)
    requires Sensible(ip, port, pt) && |ip| <= MAX_ADDRESS
    ensures AllScannable(SdpLines(ip, port, sendMedia, c, pt))
  {
    SessionLinesFit(ip);
    MediaLinesFit(port, sendMedia, c, pt);
    AllOfBoth(SessionLines(ip), MediaLines(port, sendMedia, c, pt));
  }

  lemma {:induction false} AllOfBoth(a: seq<string>, b: seq<string>)
    requires AllScannable(a) && AllScannable(b)
    ensures AllScannable(a + b)
  {}

  lemma {:induction false} Scanned(ip: string, port: nat, sendMedia: bool, c: Codec, pt: nat)
    requires Sensible(ip, port, pt)
    ensures Lines(BuildSDP(ip, port, sendMedia, c, pt)) ==
      if |ip| <= MAX_ADDRESS then SdpLines(ip, port, sendMedia, c, pt) else ["v=0"]
  {
    if |ip| <= MAX_ADDRESS {
      LinesFit(ip, port, sendMedia, c, pt);
      ScanJoined(SdpLines(ip, port, sendMedia, c, pt));
    } else {
      AddressLineShape("o=- 0 0 IN IP4 ", ip);
      StopsAtLongLine(SdpLines(ip, port, sendMedia, c, pt));
    }
  }

  /** The lines that neither codec nor media parser looks at. */
  predicate Plain(line: string) {
    && line != "" && !IsSpace(line[0]) && !IsSpace(line[|line| - 1])
    && line[0] != 'm' && line[0] != 'c' && (line[0] == 'a' ==> |line| > 2 && line[2] != 'r')
  }

  lemma {:induction false} PlainSeen(seen: Seen, line: string)
    requires Plain(line)
    ensures See(seen, line) == seen
  {
    TrimNothing(line);
  }

  lemma {:induction false} PlainLocated(w: Where, line: string)
    requires Plain(line)
    ensures Locate(w, line) == w
  {
    TrimNothing(line);
  }

  lemma {:induction false} SessionLinesSeen(ip: string)
    requires IsAddress(ip)
    ensures SeeAll(SessionLines(ip)) == Seen([], map[])
  {
    var lines := SessionLines(ip);
    AddressLineShape("o=- 0 0 IN IP4 ", ip);
    AddressLineShape("c=IN IP4 ", ip);
    forall i | 0 <= i < |lines| ensures See(Seen([], map[]), lines[i]) == Seen([], map[]) {
      if i == 3 { assert lines[3][0] == 'c'; } else { PlainSeen(Seen([], map[]), lines[i]); }
    }
    FoldIgnores(See, Seen([], map[]), lines);
  }

  lemma {:induction false} SessionLinesLocated(ip: string)
    requires IsAddress(ip)
    ensures LocateAll(SessionLines(ip)) == Where(ip, 0)
  {
    var before := ["v=0", "o=- 0 0 IN IP4 " + ip, "s=SwarmDialer"];
    var after := ["c=IN IP4 " + ip, "t=0 0"];
    AddressLineShape("o=- 0 0 IN IP4 ", ip);
    forall i | 0 <= i < |before| ensures Locate(Where("", 0), before[i]) == Where("", 0) {
      PlainLocated(Where("", 0), before[i]);
    }
    FoldIgnores(Locate, Where("", 0), before);
    FoldConcat(Locate, Where("", 0), before, after);
    assert SessionLines(ip) == before + after;
    AddressLineShape("c=IN IP4 ", ip);
    TrimNothing(ip);
    assert Locate(Where("", 0), after[0]) == Where(ip, 0);
    PlainLocated(Where(ip, 0), "t=0 0");
    FoldOne(Locate, Where("", 0), after[0]);
    FoldOne(Locate, Where(ip, 0), after[1]);
    FoldConcat(Locate, Where("", 0), [after[0]], [after[1]]);
    assert after == [after[0]] + [after[1]];
  }

  lemma {:induction false} MediaLineSeen(port: nat, pt: nat)
    requires port <= 65535 && pt <= 255
    ensures See(Seen([], map[]), MediaLine(port, pt)) == Seen([Decimal(pt)], map[])
  {
    MediaLineShape(port, pt);
  }

  lemma {:induction false} MediaLineLocated(ip: string, port: nat, pt: nat)
    requires port <= 65535 && pt <= 255
    ensures Locate(Where(ip, 0), MediaLine(port, pt)) == Where(ip, port)
  {
    MediaLineShape(port, pt);
    AtoiDecimal(port);
  }

  lemma {:induction false} RtpmapSeen(seen: Seen, c: Codec, pt: nat)
    requires pt <= 255
    ensures See(seen, "a=rtpmap:" + RtpmapLine(c, pt)) ==
            seen.(rtpmaps := seen.rtpmaps[Decimal(pt) := ToLower(SpecOf(c).name)])
  {
    RtpmapShape(c, pt);
    EncodingParts(c);
  }

  lemma {:induction false} RtpmapLocated(w: Where, c: Codec, pt: nat)
    requires pt <= 255
    ensures Locate(w, "a=rtpmap:" + RtpmapLine(c, pt)) == w
  {
    RtpmapShape(c, pt);
  }

  lemma {:induction false} DirectionPlain(sendMedia: bool)
    ensures Plain(DirectionLine(sendMedia))
  {}

  lemma {:induction false} MediaLinesSeen(port: nat, sendMedia: bool, c: Codec, pt: nat)
    requires port <= 65535 && pt <= 255
    ensures Fold(See, Seen([], map[]), MediaLines(port, sendMedia, c, pt)) ==
      Seen([Decimal(pt)], map[Decimal(pt) := ToLower(SpecOf(c).name)])
  {
    var one := Seen([Decimal(pt)], map[]);
    var two := Seen([Decimal(pt)], map[Decimal(pt) := ToLower(SpecOf(c).name)]);
    MediaLineSeen(port, pt);
    RtpmapSeen(one, c, pt);
    DirectionPlain(sendMedia);
    PlainSeen(two, DirectionLine(sendMedia));
    FoldThree(See, Seen([], map[]), MediaLines(port, sendMedia, c, pt), one, two, two);
  }

  lemma {:induction false} MediaLinesLocated(ip: string, port: nat, sendMedia: bool, c: Codec, pt: nat)
    requires port <= 65535 && pt <= 255
    ensures Fold(Locate, Where(ip, 0), MediaLines(port, sendMedia, c, pt)) == Where(ip, port)
  {
    var there := Where(ip, port);
    MediaLineLocated(ip, port, pt);
    RtpmapLocated(there, c, pt);
    DirectionPlain(sendMedia);
    PlainLocated(there, DirectionLine(sendMedia));
    FoldThree(Locate, Where(ip, 0), MediaLines(port, sendMedia, c, pt), there, there, there);
  }

  lemma {:induction false} AllSeen(ip: string, port: nat, sendMedia: bool, c: Codec, pt: nat)
    requires Sensible(ip, port, pt)
    ensures SeeAll(SdpLines(ip, port, sendMedia, c, pt)) ==
      Seen([Decimal(pt)], map[Decimal(pt) := ToLower(SpecOf(c).name)])
  {
    FoldConcat(See, Seen([], map[]), SessionLines(ip), MediaLines(port, sendMedia, c, pt));
    SessionLinesSeen(ip);
    MediaLinesSeen(port, sendMedia, c, pt);
  }

  lemma {:induction false} AllLocated(ip: string, port: nat, sendMedia: bool, c: Codec, pt: nat)
    requires Sensible(ip, port, pt)
    ensures LocateAll(SdpLines(ip, port, sendMedia, c, pt)) == Where(ip, port)
  {
    FoldConcat(Locate, Where("", 0), SessionLines(ip), MediaLines(port, sendMedia, c, pt));
    SessionLinesLocated(ip);
    MediaLinesLocated(ip, port, sendMedia, c, pt);
  }

  lemma {:induction false} OneOffer(c: Codec, pt: nat, prefer: Option<Codec>)
    requires pt <= 255
    ensures var seen := Seen([Decimal(pt)], map[Decimal(pt) := ToLower(SpecOf(c).name)]);
      Pick(OffersIn(seen, seen.order), prefer) == Some((c, pt))
  {
    var seen := Seen([Decimal(pt)], map[Decimal(pt) := ToLower(SpecOf(c).name)]);
    NameParts(c);
    ParseByteDecimal(pt);
    assert seen.order[..0] == [];
    assert OffersIn(seen, seen.order) == [(c, pt)];
  }

  /** What all three parsers read from a body. */
  predicate ReadsAs(body: string, prefer: Option<Codec>, ip: string, port: nat, sendMedia: bool, c: Codec, pt: nat) {
    CodecIn(body, prefer) == Some((c, pt)) && MediaIn(body) == Address(ip, port) && WantsMedia(body) == sendMedia
  }

  predicate SaysInactive(line: string) { TrimSpace(line) == "a=inactive" }

  lemma {:induction false} Silent(line: string)
    requires TrimSpace(line) == line && |line| > 2 && (line[0] != 'a' || line[2] != 'i')
    ensures !SaysInactive(line)
  {
    assert "a=inactive"[0] == 'a' && "a=inactive"[2] == 'i';
  }

  lemma {:induction false} SessionLinesSilent(ip: string)
    requires IsAddress(ip)
    ensures AllSilent(SessionLines(ip))
  {
    var lines := SessionLines(ip);
    AddressLineShape("o=- 0 0 IN IP4 ", ip);
    AddressLineShape("c=IN IP4 ", ip);
    forall i | 0 <= i < |lines| ensures !SaysInactive(lines[i]) {
      TrimNothing(lines[i]);
      Silent(lines[i]);
    }
  }

  ghost predicate AllSilent(lines: seq<string>) { forall i | 0 <= i < |lines| :: !SaysInactive(lines[i]) }

  lemma {:induction false} AllSilentConcat(a: seq<string>, b: seq<string>)
    ensures AllSilent(a + b) <==> AllSilent(a) && AllSilent(b)
  {
    if AllSilent(a + b) {
      forall i | 0 <= i < |a| ensures !SaysInactive(a[i]) { assert (a + b)[i] == a[i]; }
      forall i | 0 <= i < |b| ensures !SaysInactive(b[i]) { assert (a + b)[|a| + i] == b[i]; }
    }
  }

  lemma {:induction false} AllSilentThree(a: string, b: string, c: string)
    ensures AllSilent([a, b, c]) <==> !SaysInactive(a) && !SaysInactive(b) && !SaysInactive(c)
  {
    var lines := [a, b, c];
    assert lines[0] == a && lines[1] == b && lines[2] == c;
  }

  lemma {:induction false} MediaLinesSilent(port: nat, sendMedia: bool, c: Codec, pt: nat)
    requires port <= 65535 && pt <= 255
    ensures AllSilent(MediaLines(port, sendMedia, c, pt)) <==> sendMedia
  {
    var media, rtpmap := MediaLine(port, pt), "a=rtpmap:" + RtpmapLine(c, pt);
    assert !SaysInactive(media) by {
      MediaLineShape(port, pt);
      Silent(media);
    }
    assert !SaysInactive(rtpmap) by {
      RtpmapShape(c, pt);
      Silent(rtpmap);
    }
    DirectionLineRead(sendMedia);
    AllSilentThree(media, rtpmap, DirectionLine(sendMedia));
  }

  lemma {:induction false} DirectionRead(ip: string, port: nat, sendMedia: bool, c: Codec, pt: nat)
    requires Sensible(ip, port, pt)
    ensures AllSilent(SdpLines(ip, port, sendMedia, c, pt)) <==> sendMedia
  {
    SessionLinesSilent(ip);
    MediaLinesSilent(port, sendMedia, c, pt);
    AllSilentConcat(SessionLines(ip), MediaLines(port, sendMedia, c, pt));
  }

  lemma {:induction false} DirectionLineRead(sendMedia: bool)
    ensures SaysInactive(DirectionLine(sendMedia)) <==> !sendMedia
  {
    TrimNothing("a=sendrecv");
    TrimNothing("a=inactive");
    if sendMedia { Silent("a=sendrecv"); }
  }

  lemma {:induction false} MediaWanted(body: string)
    ensures WantsMedia(body) <==> AllSilent(Lines(body))
  {
    assert forall i | 0 <= i < |Lines(body)| ::
        SaysInactive(Lines(body)[i]) <==> TrimSpace(Lines(body)[i]) == "a=inactive";
  }

  /** A printed body is parsed back into exactly what was printed, whatever codec the reader prefers, if and
      only if the address is short enough for the scanner. */
  lemma {:induction false} RoundTrip(ip: string, port: nat, sendMedia: bool, c: Codec, pt: nat, prefer: Option<Codec>)
    requires Sensible(ip, port, pt)
    ensures ReadsAs(BuildSDP(ip, port, sendMedia, c, pt), prefer, ip, port, sendMedia, c, pt) <==>
            |ip| <= MAX_ADDRESS
  {
    Scanned(ip, port, sendMedia, c, pt);
    if |ip| <= MAX_ADDRESS {
      AllSeen(ip, port, sendMedia, c, pt);
      AllLocated(ip, port, sendMedia, c, pt);
      OneOffer(c, pt, prefer);
      DirectionRead(ip, port, sendMedia, c, pt);
      MediaWanted(BuildSDP(ip, port, sendMedia, c, pt));
    } else {
      PlainLocated(Where("", 0), "v=0");
      FoldIgnores(Locate, Where("", 0), ["v=0"]);
    }
  }

  // ---------------------------------------------------------------------------------------------
  // Offer and answer
  // ---------------------------------------------------------------------------------------------

  /** One end of a call: where it sends, in which codec, under which number, and whether at all. */
  datatype Leg = Leg(remoteIP: string, remotePort: int, codec: Codec, payloadType: nat, sendMedia: bool)

  /** Dial's offer: its one codec under the codec's default number. */
  function Offer(ip: string, port: nat, sendMedia: bool, c: Codec): string {
    BuildSDP(ip, port, sendMedia, c, SpecOf(c).payloadType)
  }

  /** The codec and number AutoAnswer answers with; an offer without a known codec gets the default. */
  function Answering(offer: string, prefer: Option<Codec>): (Codec, nat) {
    match CodecIn(offer, prefer)
    case Some(x) => x
    case None => (ULaw, SpecOf(ULaw).payloadType)
  }

  /** AutoAnswer's own leg, unless it cannot make out where the offer comes from. */
  function AnswerLeg(offer: string, prefer: Option<Codec>): Option<Leg> {
    match MediaIn(offer)
    case NoAddress => None
    case Address(ip, port) =>
      var (c, pt) := Answering(offer, prefer);
      Some(Leg(ip, port, c, pt, WantsMedia(offer)))
  }

  function Answer(offer: string, prefer: Option<Codec>, ip: string, port: nat): string {
    var (c, pt) := Answering(offer, prefer);
    BuildSDP(ip, port, WantsMedia(offer), c, pt)
  }

  /** Dial's leg once it has the answer: its codec's number is replaced by the one answered for it. */
  function DialLeg(answer: string, sendMedia: bool, c: Codec): Option<Leg> {
    match MediaIn(answer)
    case NoAddress => None
    case Address(ip, port) =>
      var pt := match CodecIn(answer, Some(c))
        case Some((answered, n)) => if answered == c then n else SpecOf(c).payloadType
        case None => SpecOf(c).payloadType;
      Some(Leg(ip, port, c, pt, sendMedia))
  }

  lemma {:induction false} AnswerableNumber(offer: string, prefer: Option<Codec>)
    ensures Answering(offer, prefer).1 <= 255
  {
    ParsedIsOffered(offer, prefer);
  }

  /** Whatever an offer lists, its answer names one codec and one number, the same that the answering end
      uses; and if the offer lists a known codec at all, it lists that codec under that number. */
  lemma {:induction false} AnswerNamesOneOffer(
    offer: string, prefer: Option<Codec>, ip: string, port: nat, reader: Option<Codec>)
    requires IsAddress(ip) && |ip| <= MAX_ADDRESS && 1 <= port <= 65535
    ensures CodecIn(Answer(offer, prefer, ip, port), reader) == Some(Answering(offer, prefer))
    ensures var seen := Entries(offer);
      (exists j, x :: OfferedAt(seen, seen.order, j, x)) ==>
      exists j :: OfferedAt(seen, seen.order, j, Answering(offer, prefer))
  {
    AnswerableNumber(offer, prefer);
    ParsedIsOffered(offer, prefer);
    var (c, pt) := Answering(offer, prefer);
    RoundTrip(ip, port, WantsMedia(offer), c, pt, reader);
  }

  /** Build an offer, parse it, build the answer and parse that: both ends use the same codec and number,
      send to each other's address, and agree on whether media flows. */
  lemma {:induction false} EndsAgree(
    callerIP: string, callerPort: nat, calleeIP: string, calleePort: nat,
    sendMedia: bool, c: Codec, prefer: Option<Codec>)
    requires IsAddress(callerIP) && |callerIP| <= MAX_ADDRESS && 1 <= callerPort <= 65535
    requires IsAddress(calleeIP) && |calleeIP| <= MAX_ADDRESS && 1 <= calleePort <= 65535
    ensures var offer := Offer(callerIP, callerPort, sendMedia, c);
      var pt := SpecOf(c).payloadType;
      && AnswerLeg(offer, prefer) == Some(Leg(callerIP, callerPort, c, pt, sendMedia))
      && DialLeg(Answer(offer, prefer, calleeIP, calleePort), sendMedia, c) ==
           Some(Leg(calleeIP, calleePort, c, pt, sendMedia))
  {
    var pt := SpecOf(c).payloadType;
    RoundTrip(callerIP, callerPort, sendMedia, c, pt, prefer);
    RoundTrip(calleeIP, calleePort, sendMedia, c, pt, Some(c));
  }

  /** Against a far side that renumbers: when it answers the dialled codec under its own number, Dial sends
      under that number. */
  lemma {:induction false} DialFollowsAnswer(ip: string, port: nat, sendMedia: bool, c: Codec, pt: nat)
    requires Sensible(ip, port, pt) && |ip| <= MAX_ADDRESS
    ensures DialLeg(BuildSDP(ip, port, sendMedia, c, pt), sendMedia, c) == Some(Leg(ip, port, c, pt, sendMedia))
  {
    RoundTrip(ip, port, sendMedia, c, pt, Some(c));
  }

  /** When it answers another codec than the one dialled, Dial keeps to its own codec and that one's number. */
  lemma {:induction false} DialKeepsItsCodec(ip: string, port: nat, sendMedia: bool, c: Codec, other: Codec, pt: nat)
    requires Sensible(ip, port, pt) && |ip| <= MAX_ADDRESS && other != c
    ensures DialLeg(BuildSDP(ip, port, sendMedia, other, pt), sendMedia, c) ==
            Some(Leg(ip, port, c, SpecOf(c).payloadType, sendMedia))
  {
    RoundTrip(ip, port, sendMedia, other, pt, Some(c));
  }

  /** An offer that lists nothing we know is answered with PCMU under its static number. */
  lemma {:induction false} UnknownGetsDefault(offer: string, prefer: Option<Codec>)
    requires var seen := Entries(offer); forall j, x :: !OfferedAt(seen, seen.order, j, x)
    ensures Answering(offer, prefer) == (ULaw, 0)
  {
    ParsedIsOffered(offer, prefer);
  }
}
