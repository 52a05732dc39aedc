/** Offers of several codecs, as PBXware makes them: what is printed is what is chosen from. */
module SdpOffers {
  import opened Text
  import opened Sdp
  import opened SdpAgreement

  /** One entry of an offer; a static number may go without an rtpmap line. */
  datatype Entry = Entry(codec: Codec, payloadType: nat, mapped: bool)

  predicate Printable(e: Entry) {
    e.payloadType <= 255 && (!e.mapped ==> e.payloadType == SpecOf(e.codec).payloadType && !e.codec.Opus?)
  }

  ghost predicate AllPrintable(entries: seq<Entry>) {
    && (forall i | 0 <= i < |entries| :: Printable(entries[i]))
    && (forall i, j | 0 <= i < j < |entries| :: entries[i].payloadType != entries[j].payloadType)
  }

  // ---------------------------------------------------------------------------------------------
  // Printing
  // ---------------------------------------------------------------------------------------------

  /** The words with one space between them. */
  function Spaced(words: seq<string>): string
    requires words != []
  {
    if |words| == 1 then words[0] else words[0] + " " + Spaced(words[1..])
  }

  function Numbers(entries: seq<Entry>): seq<string> {
    if entries == [] then [] else [Decimal(entries[0].payloadType)] + Numbers(entries[1..])
  }

  function MediaWords(port: nat, entries: seq<Entry>): seq<string> {
    ["m=audio", Decimal(port), "RTP/AVP"] + Numbers(entries)
  }

  function RtpmapOf(e: Entry): seq<string> {
    if e.mapped then ["a=rtpmap:" + RtpmapLine(e.codec, e.payloadType)] else []
  }

  function Rtpmaps(entries: seq<Entry>): seq<string> {
    if entries == [] then [] else RtpmapOf(entries[0]) + Rtpmaps(entries[1..])
  }

  function OfferLines(ip: string, port: nat, sendMedia: bool, entries: seq<Entry>): seq<string> {
    SessionLines(ip) + ([Spaced(MediaWords(port, entries))] + (Rtpmaps(entries) + [DirectionLine(sendMedia)]))
  }

  // ---------------------------------------------------------------------------------------------
  // The m= line
  // ---------------------------------------------------------------------------------------------

  ghost predicate AllWords(words: seq<string>) { forall i | 0 <= i < |words| :: Word(words[i]) }

  lemma {:induction false} SpacedFields(words: seq<string>)
    requires words != [] && AllWords(words)
    ensures Fields(Spaced(words)) == words
  {
    assert Word(words[0]);
    if |words| == 1 {
      FieldsOne(words[0]);
    } else {
      FieldsCons(words[0], Spaced(words[1..]));
      SpacedFields(words[1..]);
      assert words == [words[0]] + words[1..];
    }
  }

  lemma {:induction false} SpacedEnds(words: seq<string>)
    requires words != [] && AllWords(words)
    ensures var s := Spaced(words);
      s != "" && !IsSpace(s[|s| - 1]) && OneLine(s) && s[0] == words[0][0] && words[0] <= s
  {
    assert Word(words[0]);
    NoSpaceOneLine(words[0]);
    if |words| > 1 {
      SpacedEnds(words[1..]);
      ConcatOneLine(words[0], " ");
      ConcatOneLine(words[0] + " ", Spaced(words[1..]));
    }
  }

  lemma {:induction false} NumbersAre(entries: seq<Entry>)
    requires forall i | 0 <= i < |entries| :: entries[i].payloadType <= 255
    ensures |Numbers(entries)| == |entries|
    ensures forall i | 0 <= i < |entries| :: Numbers(entries)[i] == Decimal(entries[i].payloadType)
    ensures AllWords(Numbers(entries))
  {
    if entries != [] {
      ShortDecimal(entries[0].payloadType);
      NumbersAre(entries[1..]);
    }
  }

  lemma {:induction false} MediaWordsAre(port: nat, entries: seq<Entry>)
    requires port <= 65535 && AllPrintable(entries) && entries != []
    ensures AllWords(MediaWords(port, entries)) && |MediaWords(port, entries)| > 3
    ensures MediaWords(port, entries)[3..] == Numbers(entries)
  {
    var words, numbers := MediaWords(port, entries), Numbers(entries);
    NumbersAre(entries);
    ShortDecimal(port);
    forall i | 0 <= i < |words| ensures Word(words[i]) { assert i >= 3 ==> words[i] == numbers[i - 3]; }
  }

  lemma {:induction false} MediaShape(port: nat, entries: seq<Entry>)
    requires port <= 65535 && AllPrintable(entries) && entries != []
    ensures var line := Spaced(MediaWords(port, entries));
      OneLine(line) && TrimSpace(line) == line && HasPrefix(line, "m=audio ") && line[0] == 'm' &&
      Fields(line) == MediaWords(port, entries)
  {
    var words := MediaWords(port, entries);
    MediaWordsAre(port, entries);
    SpacedFields(words);
    SpacedEnds(words);
    TrimNothing(Spaced(words));
    assert Spaced(words) == "m=audio" + " " + Spaced(words[1..]);
    assert ("m=audio" + " " + Spaced(words[1..]))[..8] == "m=audio ";
  }

  lemma {:induction false} MediaSeen(port: nat, entries: seq<Entry>)
    requires port <= 65535 && AllPrintable(entries) && entries != []
    ensures See(Seen([], map[]), Spaced(MediaWords(port, entries))) == Seen(Numbers(entries), map[])
  {
    MediaShape(port, entries);
    MediaWordsAre(port, entries);
  }

  // ---------------------------------------------------------------------------------------------
  // The rtpmap lines
  // ---------------------------------------------------------------------------------------------

  function WithEntry(maps: map<string, string>, e: Entry): map<string, string> {
    if e.mapped then maps[Decimal(e.payloadType) := ToLower(SpecOf(e.codec).name)] else maps
  }

  /** The table with the rtpmaps of these entries added. */
  function Mapped(maps: map<string, string>, entries: seq<Entry>): map<string, string>
    decreases |entries|
  {
    if entries == [] then maps else Mapped(WithEntry(maps, entries[0]), entries[1..])
  }

  lemma {:induction false} OneSeen(seen: Seen, e: Entry)
    requires e.payloadType <= 255
    ensures Fold(See, seen, RtpmapOf(e)) == seen.(rtpmaps := WithEntry(seen.rtpmaps, e))
  {
    if e.mapped {
      RtpmapSeen(seen, e.codec, e.payloadType);
      FoldOne(See, seen, "a=rtpmap:" + RtpmapLine(e.codec, e.payloadType));
    }
  }

  lemma {:induction false} RtpmapsSeen(seen: Seen, entries: seq<Entry>)
    requires forall i | 0 <= i < |entries| :: entries[i].payloadType <= 255
    ensures Fold(See, seen, Rtpmaps(entries)) == seen.(rtpmaps := Mapped(seen.rtpmaps, entries))
    decreases |entries|
  {
    if entries != [] {
      OneSeen(seen, entries[0]);
      FoldConcat(See, seen, RtpmapOf(entries[0]), Rtpmaps(entries[1..]));
      RtpmapsSeen(seen.(rtpmaps := WithEntry(seen.rtpmaps, entries[0])), entries[1..]);
    }
  }

  lemma {:induction false} DecimalsDiffer(a: nat, b: nat)
    requires a != b
    ensures Decimal(a) != Decimal(b)
  {
    DecimalValue(a);
    DecimalValue(b);
  }

  lemma {:induction false} MappedElsewhere(maps: map<string, string>, entries: seq<Entry>, n: nat)
    requires forall i | 0 <= i < |entries| :: entries[i].payloadType != n
    ensures Decimal(n) in Mapped(maps, entries) <==> Decimal(n) in maps
    ensures Decimal(n) in maps ==> Mapped(maps, entries)[Decimal(n)] == maps[Decimal(n)]
    decreases |entries|
  {
    if entries != [] {
      DecimalsDiffer(entries[0].payloadType, n);
      MappedElsewhere(WithEntry(maps, entries[0]), entries[1..], n);
    }
  }

  lemma {:induction false} MappedAt(maps: map<string, string>, entries: seq<Entry>, i: nat)
    requires AllPrintable(entries) && i < |entries| && Decimal(entries[i].payloadType) !in maps
    ensures var n := Decimal(entries[i].payloadType);
      && (n in Mapped(maps, entries) <==> entries[i].mapped)
      && (entries[i].mapped ==> Mapped(maps, entries)[n] == ToLower(SpecOf(entries[i].codec).name))
    decreases i
  {
    if i == 0 {
      MappedElsewhere(WithEntry(maps, entries[0]), entries[1..], entries[0].payloadType);
    } else {
      DecimalsDiffer(entries[0].payloadType, entries[i].payloadType);
      MappedAt(WithEntry(maps, entries[0]), entries[1..], i - 1);
    }
  }

  // ---------------------------------------------------------------------------------------------
  // What is offered, and what is chosen
  // ---------------------------------------------------------------------------------------------

  lemma {:induction false} StaticKnown(c: Codec)
    requires !c.Opus?
    ensures StaticName(Decimal(SpecOf(c).payloadType)) == Some(ToLower(SpecOf(c).name))
  {
    match c {
      case ULaw => assert Decimal(0) == "0" && ToLower("PCMU") == "pcmu";
      case G722 => assert Decimal(9) == "9" && ToLower("G722") == "g722";
      case G729 =>
        assert Decimal(1) == "1" && Decimal(18) == Decimal(1) + "8";
        assert ToLower("G729") == "g729";
    }
  }

  /** Each entry of the m= line offers what was printed for it. */
  lemma {:induction false} EntryOffers(entries: seq<Entry>, i: nat)
    requires AllPrintable(entries) && i < |entries|
    ensures Offers(Mapped(map[], entries), Decimal(entries[i].payloadType)) ==
            Some((entries[i].codec, entries[i].payloadType))
  {
    var e := entries[i];
    assert Printable(e);
    MappedAt(map[], entries, i);
    NameParts(e.codec);
    ParseByteDecimal(e.payloadType);
    if !e.mapped { StaticKnown(e.codec); }
  }

  function Pairs(entries: seq<Entry>): seq<(Codec, nat)> {
    seq(|entries|, i requires 0 <= i < |entries| => (entries[i].codec, entries[i].payloadType))
  }

  lemma {:induction false} OffersAll(seen: Seen, order: seq<string>, pairs: seq<(Codec, nat)>)
    requires |order| == |pairs| && forall i | 0 <= i < |order| :: Offers(seen.rtpmaps, order[i]) == Some(pairs[i])
    ensures OffersIn(seen, order) == pairs
  {
    if order != [] {
      var n := |order| - 1;
      OffersAll(seen, order[..n], pairs[..n]);
      assert pairs == pairs[..n] + [pairs[n]];
    }
  }

  lemma {:induction false} AllOffered(entries: seq<Entry>)
    requires AllPrintable(entries)
    ensures OffersIn(Seen(Numbers(entries), Mapped(map[], entries)), Numbers(entries)) == Pairs(entries)
  {
    NumbersAre(entries);
    var seen := Seen(Numbers(entries), Mapped(map[], entries));
    forall i | 0 <= i < |entries| ensures Offers(seen.rtpmaps, Numbers(entries)[i]) == Some(Pairs(entries)[i]) {
      EntryOffers(entries, i);
    }
    OffersAll(seen, Numbers(entries), Pairs(entries));
  }

  lemma {:induction false} OfferSeen(ip: string, port: nat, sendMedia: bool, entries: seq<Entry>)
    requires IsAddress(ip) && port <= 65535 && AllPrintable(entries) && entries != []
    ensures SeeAll(OfferLines(ip, port, sendMedia, entries)) == Seen(Numbers(entries), Mapped(map[], entries))
  {
    var media, rest := Spaced(MediaWords(port, entries)), Rtpmaps(entries) + [DirectionLine(sendMedia)];
    var listed := Seen(Numbers(entries), map[]);
    var all := Seen(Numbers(entries), Mapped(map[], entries));
    SessionLinesSeen(ip);
    MediaSeen(port, entries);
    RtpmapsSeen(listed, entries);
    DirectionPlain(sendMedia);
    PlainSeen(all, DirectionLine(sendMedia));
    FoldOne(See, Seen([], map[]), media);
    FoldOne(See, all, DirectionLine(sendMedia));
    FoldConcat(See, listed, Rtpmaps(entries), [DirectionLine(sendMedia)]);
    FoldConcat(See, Seen([], map[]), [media], rest);
    FoldConcat(See, Seen([], map[]), SessionLines(ip), [media] + rest);
  }

  lemma {:induction false} RtpmapsFit(entries: seq<Entry>)
    requires forall i | 0 <= i < |entries| :: entries[i].payloadType <= 255
    ensures AllScannable(Rtpmaps(entries))
  {
    if entries != [] {
      RtpmapShape(entries[0].codec, entries[0].payloadType);
      RtpmapsFit(entries[1..]);
    }
  }

  lemma {:induction false} OfferFits(ip: string, port: nat, sendMedia: bool, entries: seq<Entry>)
    requires IsAddress(ip) && |ip| <= MAX_ADDRESS && port <= 65535 && AllPrintable(entries) && entries != []
    requires |Spaced(MediaWords(port, entries))| + 2 <= MAX_TOKEN
    ensures AllScannable(OfferLines(ip, port, sendMedia, entries))
  {
    var media := Spaced(MediaWords(port, entries));
    SessionLinesFit(ip);
    MediaShape(port, entries);
    RtpmapsFit(entries);
    var rest := Rtpmaps(entries) + [DirectionLine(sendMedia)];
    AllOfBoth(Rtpmaps(entries), [DirectionLine(sendMedia)]);
    AllOfBoth([media], rest);
    AllOfBoth(SessionLines(ip), [media] + rest);
  }

  lemma {:induction false} OfferRead(
    ip: string, port: nat, sendMedia: bool, entries: seq<Entry>, prefer: Option<Codec>)
    requires IsAddress(ip) && |ip| <= MAX_ADDRESS && port <= 65535 && AllPrintable(entries) && entries != []
    requires |Spaced(MediaWords(port, entries))| + 2 <= MAX_TOKEN
    ensures CodecIn(JoinLines(OfferLines(ip, port, sendMedia, entries)), prefer) == Pick(Pairs(entries), prefer)
  {
    OfferFits(ip, port, sendMedia, entries);
    ScanJoined(OfferLines(ip, port, sendMedia, entries));
    OfferSeen(ip, port, sendMedia, entries);
    AllOffered(entries);
  }

  /** Of an offer of any number of codecs, under any different numbers, with or without rtpmap lines for static ones,
      the answering end takes the first entry of the codec it prefers, or else the first entry of all. */
  lemma {:induction false} TakesFirstPreferred(
    ip: string, port: nat, sendMedia: bool, entries: seq<Entry>, prefer: Option<Codec>)
    returns (j: nat)
    requires IsAddress(ip) && |ip| <= MAX_ADDRESS && port <= 65535 && AllPrintable(entries) && entries != []
    requires |Spaced(MediaWords(port, entries))| + 2 <= MAX_TOKEN
    ensures j < |entries|
    ensures CodecIn(JoinLines(OfferLines(ip, port, sendMedia, entries)), prefer) ==
            Some((entries[j].codec, entries[j].payloadType))
    ensures if Some(entries[j].codec) == prefer then forall i | 0 <= i < j :: Some(entries[i].codec) != prefer
            else j == 0 && forall i | 0 <= i < |entries| :: Some(entries[i].codec) != prefer
  {
    OfferRead(ip, port, sendMedia, entries, prefer);
    j := PickIs(Pairs(entries), prefer);
    assert forall i | 0 <= i < |entries| :: Pairs(entries)[i].0 == entries[i].codec;
  }
}
