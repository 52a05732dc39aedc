/** DID numbers for the extensions of two connected servers: internal/wizard/connect.go builds them, cmd/gui's
    didLookup and the session's dialNumberFor turn a chosen callee into the number to dial. */
module Did {
  import opened Text

  const ZERO := "0"
  const FIVE := "5"

  /** `v` with zeros in front up to seven characters. */
  function Padded(v: string): (p: string)
    ensures |p| == if |v| < 7 then 7 else |v|
    decreases 7 - |v|
  {
    if |v| < 7 then Padded(ZERO + v) else v
  }

  function Shaped(v: string): string
    requires v != ""
  {
    FIVE + FIVE + v[..1] + FIVE + v[1..]
  }

  /** The DID of an extension under a tenant code; other editions have no code. */
  function DidFor(code: string, ext: string): string { Shaped(Padded(code + ext)) }

  method DidFor10DigitRoute(code: string, ext: string) returns (did: string)
    ensures did == DidFor(code, ext)
  {
    var v := code + ext;
    while |v| < 7
      invariant Padded(v) == Padded(code + ext)
      decreases 7 - |v|
    {
      v := ZERO + v;
    }
    return FIVE + FIVE + v[..1] + FIVE + v[1..];
  }

  // ---------------------------------------------------------------------------------------------
  // The numbers fit the route and name their extension
  // ---------------------------------------------------------------------------------------------

  /** Ten digits, of which the first four match [2-9][0-8][0-9][2-9]. */
  predicate FitsRoute(s: string) {
    && |s| == 10 && AllDigits(s)
    && '2' <= s[0] && s[1] <= '8' && '2' <= s[3]
  }

  /** A tenant code, or none. */
  predicate IsCode(code: string) { AllDigits(code) && (code == "" || |code| == 3) }

  predicate IsExt(ext: string) { AllDigits(ext) && |ext| == 4 }

  const NO_CODE := "000"

  function Normal(code: string): string { if code == "" then NO_CODE else code }

  lemma {:induction false} PaddedIs(code: string, ext: string)
    requires IsCode(code) && IsExt(ext)
    ensures Padded(code + ext) == Normal(code) + ext
  {
    if code == "" {
      assert code + ext == ext;
      var one := ZERO + ext;
      var two := ZERO + one;
      var three := ZERO + two;
      assert Padded(ext) == Padded(one) == Padded(two) == Padded(three) == three;
      assert three == NO_CODE + ext;
    }
  }

  /** Every DID can leave over the default route. */
  lemma {:induction false} DidFitsRoute(code: string, ext: string)
    requires IsCode(code) && IsExt(ext)
    ensures FitsRoute(DidFor(code, ext))
  {
    PaddedIs(code, ext);
    var v := Normal(code) + ext;
    assert AllDigits(v);
    var did := Shaped(v);
    assert did == [FIVE[0], FIVE[0], v[0], FIVE[0]] + v[1..];
    forall i | 0 <= i < 10 ensures IsDigit(did[i]) {
      assert i >= 4 ==> did[i] == v[1..][i - 4];
    }
  }

  /** Around its three fixed fives a DID has the code's three digits, zeros for none, and then the extension's four. */
  lemma {:induction false} DidHolds(code: string, ext: string)
    requires IsCode(code) && IsExt(ext)
    ensures var did := DidFor(code, ext);
      && |did| == 10 && did[0] == did[1] == did[3] == '5'
      && [did[2]] + did[4..] == (if code == "" then "000" else code) + ext
  {
    PaddedIs(code, ext);
    var v := Normal(code) + ext;
    assert v == [v[0]] + v[1..];
  }

  lemma {:induction false} ShapedInjective(v: string, w: string)
    requires v != "" && w != "" && Shaped(v) == Shaped(w)
    ensures v == w
  {
    assert Shaped(v)[2] == v[0] && Shaped(w)[2] == w[0];
    assert Shaped(v)[4..] == v[1..] && Shaped(w)[4..] == w[1..];
    assert v == [v[0]] + v[1..] && w == [w[0]] + w[1..];
  }

  /** Two extensions share a DID exactly when they have the same number under the same code, no code counting as
      000. */
  lemma {:induction false} DidsEqualExactly(code: string, ext: string, code': string, ext': string)
    requires IsCode(code) && IsExt(ext) && IsCode(code') && IsExt(ext')
    ensures DidFor(code, ext) == DidFor(code', ext') <==> Normal(code) == Normal(code') && ext == ext'
  {
    PaddedIs(code, ext);
    PaddedIs(code', ext');
    var v, w := Normal(code) + ext, Normal(code') + ext';
    assert v[..3] == Normal(code) && v[3..] == ext && w[..3] == Normal(code') && w[3..] == ext';
    if DidFor(code, ext) == DidFor(code', ext') { ShapedInjective(v, w); }
  }

  // ---------------------------------------------------------------------------------------------
  // The tables
  // ---------------------------------------------------------------------------------------------

  datatype Mapping = Mapping(did: string, ext: string)

  datatype Server = Server(code: string, exts: seq<string>)

  /** A server as the wizard leaves it: 4-digit extensions, each once, under a code or none. */
  ghost predicate Sane(s: Server) {
    && IsCode(s.code) && (forall i | 0 <= i < |s.exts| :: IsExt(s.exts[i]))
    && (forall i, j | 0 <= i < j < |s.exts| :: s.exts[i] != s.exts[j])
  }

  /** Each of the first `n` extensions with its DID. */
  ghost predicate DidsOf(s: Server, dids: seq<Mapping>, n: nat) {
    && n <= |s.exts| && |dids| == n
    && forall i | 0 <= i < n :: dids[i].ext == s.exts[i] &&
         dids[i].did == DidFor(s.code, s.exts[i])
  }

  /** addDIDsFor; creating a DID on the server can fail, and then none is recorded. */
  method AddDIDsFor(s: Server) returns (ok: bool, dids: seq<Mapping>)
    ensures ok ==> DidsOf(s, dids, |s.exts|)
  {
    dids := [];
    for i := 0 to |s.exts|
      invariant DidsOf(s, dids, i)
    {
      var did := DidFor10DigitRoute(s.code, s.exts[i]);
      if * { return false, []; }
      dids := dids + [Mapping(did, s.exts[i])];
    }
    return true, dids;
  }

  /** didLookup: the last DID of each extension. */
  function Lookup(dids: seq<Mapping>): map<string, string> {
    if dids == [] then map[] else
      var last := dids[|dids| - 1];
      Lookup(dids[..|dids| - 1])[last.ext := last.did]
  }

  method DidLookup(dids: seq<Mapping>) returns (m: map<string, string>)
    ensures m == Lookup(dids)
  {
    m := map[];
    for i := 0 to |dids|
      invariant m == Lookup(dids[..i])
    {
      assert dids[..i + 1][..i] == dids[..i];
      m := m[dids[i].ext := dids[i].did];
    }
    assert dids[..|dids|] == dids;
  }

  /** dialNumberFor: the callee's DID, or its own number if it has none. */
  function DialNumber(m: map<string, string>, callee: string): string { if callee in m then m[callee] else callee }

  lemma {:induction false} LookupHas(dids: seq<Mapping>, i: nat)
    requires i < |dids| && forall j | i < j < |dids| :: dids[j].ext != dids[i].ext
    ensures dids[i].ext in Lookup(dids) && Lookup(dids)[dids[i].ext] == dids[i].did
  {
    if i < |dids| - 1 { LookupHas(dids[..|dids| - 1], i); }
  }

  lemma {:induction false} DialsItsDid(s: Server, dids: seq<Mapping>, i: nat)
    requires Sane(s) && DidsOf(s, dids, |s.exts|) && i < |s.exts|
    ensures DialNumber(Lookup(dids), s.exts[i]) == DidFor(s.code, s.exts[i])
  {
    LookupHas(dids, i);
  }

  /** Where a number dialled over the trunks of two servers can end up: at the extension whose DID it is. */
  ghost predicate Routes(s: Server, number: string, ext: string) {
    exists i | 0 <= i < |s.exts| ::
      s.exts[i] == ext && DidFor(s.code, ext) == number
  }

  /** Dialling a chosen callee reaches that extension of its own server, and no other; and on the joint table of both
      servers it reaches nothing else exactly when they have different codes or the other server has no extension
      of that number. */
  lemma {:induction false} DialledNumberRoutesBack(a: Server, b: Server, dids: seq<Mapping>, i: nat)
    requires Sane(a) && Sane(b) && DidsOf(b, dids, |b.exts|) && i < |b.exts|
    ensures var number := DialNumber(Lookup(dids), b.exts[i]);
      && FitsRoute(number) && (forall ext :: Routes(b, number, ext) <==> ext == b.exts[i])
      && ((forall ext :: !Routes(a, number, ext)) <==> Normal(a.code) != Normal(b.code) || b.exts[i] !in a.exts)
  {
    var callee := b.exts[i];
    var number := DialNumber(Lookup(dids), callee);
    DialsItsDid(b, dids, i);
    DidFitsRoute(b.code, callee);
    forall ext ensures Routes(b, number, ext) <==> ext == callee {
      if Routes(b, number, ext) { DidsEqualExactly(b.code, ext, b.code, callee); }
    }
    forall ext ensures Routes(a, number, ext) <==> ext == callee && ext in a.exts && Normal(a.code) == Normal(b.code) {
      RoutesExactly(a, b.code, callee, ext);
    }
  }

  lemma {:induction false} RoutesExactly(a: Server, code: string, callee: string, ext: string)
    requires Sane(a) && IsCode(code) && IsExt(callee)
    ensures Routes(a, DidFor(code, callee), ext) <==> ext == callee && ext in a.exts && Normal(a.code) == Normal(code)
  {
    PaddedIs(code, callee);
    if ext in a.exts { DidsEqualExactly(a.code, ext, code, callee); }
  }
}
