/** cmd/gui/trunkcodec.go: remote batches of one codec at a time on a connected pair of servers, whose trunks are
    put in that codec's order first. `trunkMu` is held through each operation, so operations are atomic. */
module TrunkCodec {
  // ---------------------------------------------------------------------------------------------
  // The order of a trunk's codecs
  // ---------------------------------------------------------------------------------------------

  const CODECS: seq<string> := ["ulaw", "alaw", "g722", "g729", "opus"]

  function Without(list: seq<string>, c: string): seq<string> {
    if list == [] then [] else
      Without(list[..|list| - 1], c) + if list[|list| - 1] != c then [list[|list| - 1]] else []
  }

  function TrunkCodecOrder(first: string): (order: seq<string>)
    ensures order != [] && order[0] == first
  {
    [first] + Without(CODECS, first)
  }

  method BuildTrunkCodecOrder(first: string) returns (order: seq<string>)
    ensures order == TrunkCodecOrder(first)
  {
    order := [first];
    for i := 0 to |CODECS|
      invariant order == [first] + Without(CODECS[..i], first)
    {
      assert CODECS[..i + 1][..i] == CODECS[..i];
      if CODECS[i] != first { order := order + [CODECS[i]]; }
    }
    assert CODECS[..|CODECS|] == CODECS;
  }

  lemma {:induction false} CountMore(front: seq<string>, e: string, x: string)
    ensures multiset(front + [e])[x] == multiset(front)[x] + if e == x then 1 else 0
  {
    assert multiset(front + [e]) == multiset(front) + multiset{e};
  }

  lemma {:induction false} WithoutCount(list: seq<string>, c: string, x: string)
    ensures multiset(Without(list, c))[x] == if x == c then 0 else multiset(list)[x]
  {
    if list != [] {
      var front, e := list[..|list| - 1], list[|list| - 1];
      assert list == front + [e];
      WithoutCount(front, c, x);
      CountMore(front, e, x);
      CountMore(Without(front, c), e, x);
      assert Without(front, c) + [] == Without(front, c);
    }
  }

  lemma {:induction false} OnceIn(list: seq<string>, c: string)
    requires c in list && forall i, j | 0 <= i < j < |list| :: list[i] != list[j]
    ensures multiset(list)[c] == 1
  {
    var n := |list| - 1;
    assert list == list[..n] + [list[n]];
    if list[n] == c {
      assert c !in list[..n];
    } else {
      OnceIn(list[..n], c);
    }
  }

  lemma {:induction false} CodecsDistinct()
    ensures forall i, j | 0 <= i < j < |CODECS| :: CODECS[i] != CODECS[j]
  {
    assert CODECS[0][0] == 'u' && CODECS[1][0] == 'a' && CODECS[4][0] == 'o';
    assert CODECS[2][0] == CODECS[3][0] == 'g' && CODECS[2][3] == '2' && CODECS[3][3] == '9';
  }

  lemma {:induction false} MovedToFront(list: seq<string>, first: string, x: string)
    requires first in list && forall i, j | 0 <= i < j < |list| :: list[i] != list[j]
    ensures multiset([first] + Without(list, first))[x] == multiset(list)[x]
  {
    OnceIn(list, first);
    WithoutCount(list, first, x);
    assert multiset([first] + Without(list, first)) == multiset{first} + multiset(Without(list, first));
  }

  /** A batch's trunk order is the allowed codecs rearranged, with the batch's own first. */
  lemma {:induction false} OrderIsPermutation(first: string)
    requires first in CODECS
    ensures multiset(TrunkCodecOrder(first)) == multiset(CODECS) && TrunkCodecOrder(first)[0] == first
  {
    CodecsDistinct();
    forall x ensures multiset(TrunkCodecOrder(first))[x] == multiset(CODECS)[x] { MovedToFront(CODECS, first, x); }
  }

  // ---------------------------------------------------------------------------------------------
  // State
  // ---------------------------------------------------------------------------------------------

  /** Caller's and callee's server. */
  type Pair = (string, string)

  datatype Batches = Batches(codec: string, running: int)

  /** What prepareRemoteBatch hands out; `released` is the flag its closure captures. */
  datatype Ticket = Ticket(pair: Pair, codec: string, released: bool)

  /** `orders` are the trunks themselves, by server. */
  datatype State = State(batches: map<Pair, Batches>, tickets: seq<Ticket>, orders: map<string, seq<string>>)

  /** Each server's trunk id, 0 for none. */
  type Net = map<string, nat>

  predicate Trunked(net: Net, id: string) { id in net && net[id] != 0 }

  /** How the requests about one server's trunk turn out. A change that fails may have been made. */
  datatype Luck = Fine | ReadFails | SetFails(made: bool)

  datatype Put = Put(orders: map<string, seq<string>>, ok: bool)

  function PutInOrder(net: Net, orders: map<string, seq<string>>, id: string, want: seq<string>, luck: Luck): Put {
    if !Trunked(net, id) then Put(orders, true)
    else if luck.ReadFails? || id !in orders then Put(orders, false)
    else if orders[id] == want then Put(orders, true)
    else if luck.SetFails? then Put(if luck.made then orders[id := want] else orders, false)
    else Put(orders[id := want], true)
  }

  function PutBoth(net: Net, orders: map<string, seq<string>>, p: Pair, want: seq<string>, luck: (Luck, Luck)): Put {
    var first := PutInOrder(net, orders, p.0, want, luck.0);
    if first.ok then PutInOrder(net, first.orders, p.1, want, luck.1) else first
  }

  function Entry(s: State, p: Pair): Batches { if p in s.batches then s.batches[p] else Batches("", 0) }

  /** The pair is running batches of another codec. */
  predicate Busy(s: State, p: Pair, codec: string) { Entry(s, p).running > 0 && Entry(s, p).codec != codec }

  predicate Refused(s: State, p: Pair, codec: string) { codec !in CODECS || Busy(s, p, codec) }

  function Touched(s: State, p: Pair): map<Pair, Batches> { s.batches[p := Entry(s, p)] }

  datatype Prepared = Prepared(s: State, granted: bool)

  /** prepareRemoteBatch. */
  function Prepare(net: Net, s: State, p: Pair, codec: string, luck: (Luck, Luck)): Prepared {
    if codec !in CODECS then Prepared(s, false)
    else if Busy(s, p, codec) then Prepared(s.(batches := Touched(s, p)), false)
    else
      var put := PutBoth(net, s.orders, p, TrunkCodecOrder(codec), luck);
      if !put.ok then Prepared(State(Touched(s, p), s.tickets, put.orders), false)
      else
        Prepared(State(s.batches[p := Batches(codec, Entry(s, p).running + 1)],
                       s.tickets + [Ticket(p, codec, false)], put.orders), true)
  }

  /** The closure of ticket `t`. */
  function Release(s: State, t: nat): State
    requires t < |s.tickets|
  {
    var k := s.tickets[t];
    if k.released then s
    else s.(batches := s.batches[k.pair := Entry(s, k.pair).(running := Entry(s, k.pair).running - 1)],
            tickets := s.tickets[t := k.(released := true)])
  }

  lemma {:induction false} ReleaseIsIdempotent(s: State, t: nat)
    requires t < |s.tickets|
    ensures Release(Release(s, t), t) == Release(s, t)
  {}

  // ---------------------------------------------------------------------------------------------
  // Counting
  // ---------------------------------------------------------------------------------------------

  /** The batches of a pair that have not been released. */
  function Open(tickets: seq<Ticket>, p: Pair): nat {
    if tickets == [] then 0 else Open(tickets[..|tickets| - 1], p) + One(tickets[|tickets| - 1], p)
  }

  function One(k: Ticket, p: Pair): nat { if k.pair == p && !k.released then 1 else 0 }

  lemma {:induction false} OpenUpdate(tickets: seq<Ticket>, t: nat, k: Ticket, p: Pair)
    requires t < |tickets|
    ensures Open(tickets[t := k], p) == Open(tickets, p) - One(tickets[t], p) + One(k, p)
  {
    var n := |tickets| - 1;
    var after := tickets[t := k];
    if t == n {
      assert after[..n] == tickets[..n];
    } else {
      OpenUpdate(tickets[..n], t, k, p);
      assert after[..n] == tickets[..n][t := k];
    }
  }

  lemma {:induction false} OpenAppend(tickets: seq<Ticket>, k: Ticket, p: Pair)
    ensures Open(tickets + [k], p) == Open(tickets, p) + One(k, p)
  {
    assert (tickets + [k])[..|tickets|] == tickets;
  }

  lemma {:induction false} OpenHas(tickets: seq<Ticket>, t: nat, p: Pair)
    requires t < |tickets| && tickets[t].pair == p && !tickets[t].released
    ensures Open(tickets, p) > 0
  {
    if t < |tickets| - 1 { OpenHas(tickets[..|tickets| - 1], t, p); }
  }

  lemma {:induction false} OpenNone(tickets: seq<Ticket>, p: Pair)
    requires forall t | 0 <= t < |tickets| && tickets[t].pair == p :: tickets[t].released
    ensures Open(tickets, p) == 0
  {
    if tickets != [] { OpenNone(tickets[..|tickets| - 1], p); }
  }

  // ---------------------------------------------------------------------------------------------
  // What every operation keeps
  // ---------------------------------------------------------------------------------------------

  ghost predicate TicketFits(s: State, t: nat)
    requires t < |s.tickets|
  {
    var k := s.tickets[t];
    !k.released ==> k.codec in CODECS && Entry(s, k.pair).codec == k.codec
  }

  /** `running` counts the batches not yet released, and these all have the pair's codec. */
  ghost predicate Inv(net: Net, s: State) {
    && (forall p :: Entry(s, p).running == Open(s.tickets, p))
    && (forall t | 0 <= t < |s.tickets| :: TicketFits(s, t))
    && (forall id | Trunked(net, id) :: id in s.orders)
  }

  lemma {:induction false} PutBothKeeps(
    net: Net, orders: map<string, seq<string>>, p: Pair, want: seq<string>, luck: (Luck, Luck))
    ensures var put := PutBoth(net, orders, p, want, luck);
      forall id | id in orders :: id in put.orders && (put.orders[id] == orders[id] || put.orders[id] == want)
  {}

  lemma {:induction false} InvPrepare(net: Net, s: State, p: Pair, codec: string, luck: (Luck, Luck))
    requires Inv(net, s)
    ensures Inv(net, Prepare(net, s, p, codec, luck).s)
  {
    var t := Prepare(net, s, p, codec, luck).s;
    PutBothKeeps(net, s.orders, p, TrunkCodecOrder(codec), luck);
    forall q ensures Entry(t, q).running == Open(t.tickets, q) {
      assert Entry(s, q).running == Open(s.tickets, q);
      if Prepare(net, s, p, codec, luck).granted { OpenAppend(s.tickets, Ticket(p, codec, false), q); }
    }
    forall i | 0 <= i < |t.tickets| ensures TicketFits(t, i) {
      if i < |s.tickets| {
        assert TicketFits(s, i);
        if s.tickets[i].pair == p && !s.tickets[i].released {
          OpenHas(s.tickets, i, p);
          assert Entry(s, p).running > 0;
        }
      }
    }
  }

  lemma {:induction false} InvRelease(net: Net, s: State, t: nat)
    requires Inv(net, s) && t < |s.tickets|
    ensures Inv(net, Release(s, t))
  {
    var after := Release(s, t);
    forall q ensures Entry(after, q).running == Open(after.tickets, q) {
      assert Entry(s, q).running == Open(s.tickets, q);
      OpenUpdate(s.tickets, t, s.tickets[t].(released := true), q);
    }
    forall i | 0 <= i < |after.tickets| ensures TicketFits(after, i) { assert TicketFits(s, i); }
  }

  // ---------------------------------------------------------------------------------------------
  // The trunks
  // ---------------------------------------------------------------------------------------------

  predicate InOrder(net: Net, s: State, id: string, codec: string) {
    Trunked(net, id) ==> id in s.orders && s.orders[id] == TrunkCodecOrder(codec)
  }

  /** While batches run on the pair, both its trunks are in their codec's order. */
  predicate OrderHeld(net: Net, s: State, p: Pair) {
    Entry(s, p).running > 0 ==>
      InOrder(net, s, p.0, Entry(s, p).codec) && InOrder(net, s, p.1, Entry(s, p).codec)
  }

  /** The two pairs have no trunk in common. */
  predicate Apart(net: Net, p: Pair, q: Pair) {
    forall id | id in {p.0, p.1} && id in {q.0, q.1} :: !Trunked(net, id)
  }

  /** Preparing a batch on its own pair never breaks the order the pair holds. */
  lemma {:induction false} OwnPairKeeps(net: Net, s: State, p: Pair, codec: string, luck: (Luck, Luck))
    requires Inv(net, s) && OrderHeld(net, s, p)
    ensures OrderHeld(net, Prepare(net, s, p, codec, luck).s, p)
  {
    PutBothKeeps(net, s.orders, p, TrunkCodecOrder(codec), luck);
  }

  lemma {:induction false} ReleaseKeeps(net: Net, s: State, t: nat, p: Pair)
    requires Inv(net, s) && t < |s.tickets| && OrderHeld(net, s, p)
    ensures OrderHeld(net, Release(s, t), p)
  {}

  /** A check before preparing a batch on `q` that is enough, and needed, for the running pair `p`. */
  predicate Harmless(net: Net, s: State, p: Pair, q: Pair, codec: string) {
    Refused(s, q, codec) || codec == Entry(s, p).codec || Apart(net, p, q)
  }

  /** Preparing a batch on another pair leaves the order of a running pair alone, however its requests turn out,
      exactly when it is harmless. In particular the same two servers in the other direction are another
      pair, which nothing stops from reordering the trunks of a running batch. */
  lemma {:induction false} KeptExactly(net: Net, s: State, p: Pair, q: Pair, codec: string)
    requires Inv(net, s) && OrderHeld(net, s, p) && Entry(s, p).running > 0
    ensures Harmless(net, s, p, q, codec) <==>
      forall luck :: OrderHeld(net, Prepare(net, s, q, codec, luck).s, p)
  {
    if Harmless(net, s, p, q, codec) {
      forall luck ensures OrderHeld(net, Prepare(net, s, q, codec, luck).s, p) {
        HarmlessKeeps(net, s, p, q, codec, luck);
      }
    } else {
      var id :| id in {p.0, p.1} && id in {q.0, q.1} && Trunked(net, id);
      var t := Prepare(net, s, q, codec, (Fine, Fine)).s;
      assert t.orders[id] == TrunkCodecOrder(codec);
      assert TrunkCodecOrder(codec)[0] != TrunkCodecOrder(Entry(s, p).codec)[0];
      assert !OrderHeld(net, t, p);
    }
  }

  /** When its requests go well, a batch is granted if and only if its codec is known and every batch of its pair that
      has not been released is of that codec. */
  lemma {:induction false} GrantedExactly(net: Net, s: State, p: Pair, codec: string)
    requires Inv(net, s)
    ensures Prepare(net, s, p, codec, (Fine, Fine)).granted <==>
            codec in CODECS && forall t | 0 <= t < |s.tickets| && s.tickets[t].pair == p && !s.tickets[t].released ::
              s.tickets[t].codec == codec
  {
    assert Entry(s, p).running == Open(s.tickets, p);
    if t :| 0 <= t < |s.tickets| && s.tickets[t].pair == p && !s.tickets[t].released {
      OpenHas(s.tickets, t, p);
      assert TicketFits(s, t);
      forall u | 0 <= u < |s.tickets| && s.tickets[u].pair == p && !s.tickets[u].released
        ensures s.tickets[u].codec == Entry(s, p).codec
      {
        assert TicketFits(s, u);
      }
    } else {
      OpenNone(s.tickets, p);
    }
  }

  /** A batch that is not granted leaves every ticket and every count alone, and one that is refused the trunks too. */
  lemma {:induction false} RefusalChangesNothing(net: Net, s: State, p: Pair, codec: string, luck: (Luck, Luck))
    ensures var r := Prepare(net, s, p, codec, luck);
      !r.granted ==> r.s.tickets == s.tickets && forall q :: Entry(r.s, q) == Entry(s, q)
    ensures codec !in CODECS || (Entry(s, p).running > 0 && Entry(s, p).codec != codec) ==>
      Prepare(net, s, p, codec, luck).s.orders == s.orders && !Prepare(net, s, p, codec, luck).granted
  {}

  /** A batch whose trunks are in its order already is granted without setting them, whatever setting them would do. */
  lemma {:induction false} NothingToSet(net: Net, s: State, p: Pair, codec: string, luck: (Luck, Luck))
    requires Inv(net, s) && Prepare(net, s, p, codec, (Fine, Fine)).granted
    requires InOrder(net, s, p.0, codec) && InOrder(net, s, p.1, codec)
    requires !luck.0.ReadFails? && !luck.1.ReadFails?
    ensures var r := Prepare(net, s, p, codec, luck); r.granted && r.s.orders == s.orders
  {}

  /** When the first server's trunk cannot be read, or not be set, the second server's is left alone. */
  lemma {:induction false} FirstFailureStops(net: Net, s: State, p: Pair, codec: string, luck: (Luck, Luck), id: string)
    requires Trunked(net, p.0) && id != p.0 && id in s.orders
    requires luck.0.ReadFails? || p.0 !in s.orders || (luck.0.SetFails? && s.orders[p.0] != TrunkCodecOrder(codec))
    ensures var r := Prepare(net, s, p, codec, luck);
      !r.granted && id in r.s.orders && r.s.orders[id] == s.orders[id]
  {}

  /** A batch from `a` to `b` in ulaw, then one from `b` to `a` in opus: both are granted, and the trunks of the first
      are no longer in its order. */
  lemma {:induction false} OppositeReorders(net: Net, orders: map<string, seq<string>>, a: string, b: string)
    requires a != b && Trunked(net, a) && Trunked(net, b) && a in orders && b in orders
    ensures
      var one := Prepare(net, State(map[], [], orders), (a, b), CODECS[0], (Fine, Fine));
      var two := Prepare(net, one.s, (b, a), CODECS[4], (Fine, Fine));
      && one.granted && OrderHeld(net, one.s, (a, b))
      && two.granted && Entry(two.s, (a, b)).running == 1 && !OrderHeld(net, two.s, (a, b))
  {
    var one := Prepare(net, State(map[], [], orders), (a, b), CODECS[0], (Fine, Fine));
    var two := Prepare(net, one.s, (b, a), CODECS[4], (Fine, Fine));
    CodecsDistinct();
    assert Entry(two.s, (a, b)) == Batches(CODECS[0], 1);
    assert two.s.orders[a][0] == CODECS[4] && TrunkCodecOrder(CODECS[0])[0] == CODECS[0];
  }

  lemma {:induction false} HarmlessKeeps(net: Net, s: State, p: Pair, q: Pair, codec: string, luck: (Luck, Luck))
    requires Inv(net, s) && OrderHeld(net, s, p) && Entry(s, p).running > 0 && Harmless(net, s, p, q, codec)
    ensures OrderHeld(net, Prepare(net, s, q, codec, luck).s, p)
  {
    if q == p {
      OwnPairKeeps(net, s, p, codec, luck);
    } else if !Refused(s, q, codec) {
      PutBothKeeps(net, s.orders, q, TrunkCodecOrder(codec), luck);
      if codec != Entry(s, p).codec { ApartKeeps(net, s, p, q, TrunkCodecOrder(codec), luck); }
    }
  }

  lemma {:induction false} ApartKeeps(net: Net, s: State, p: Pair, q: Pair, want: seq<string>, luck: (Luck, Luck))
    requires Apart(net, p, q)
    ensures forall id | id in {p.0, p.1} && Trunked(net, id) && id in s.orders ::
      var put := PutBoth(net, s.orders, q, want, luck).orders;
      id in put && put[id] == s.orders[id]
  {}

  /** A granted batch finds both trunks in its order, whoever changed them before. */
  lemma {:induction false} GrantedHolds(net: Net, s: State, p: Pair, codec: string, luck: (Luck, Luck))
    requires Inv(net, s) && Prepare(net, s, p, codec, luck).granted
    ensures var t := Prepare(net, s, p, codec, luck).s;
      Entry(t, p) == Batches(codec, Entry(s, p).running + 1) && OrderHeld(net, t, p)
  {}

  // ---------------------------------------------------------------------------------------------
  // The operations
  // ---------------------------------------------------------------------------------------------

  datatype Option<+T> = None | Some(value: T)

  /** The closure prepareRemoteBatch returns. */
  class Lease {
    const pair: Pair
    var released: bool

    constructor (pair: Pair)
      ensures this.pair == pair && !released
    {
      this.pair, released := pair, false;
    }
  }

  class App {
    const net: Net
    var remoteBatches: map<Pair, Batches>
    /** The trunks of the servers. */
    var orders: map<string, seq<string>>
    ghost var leases: seq<Lease>
    ghost var tickets: seq<Ticket>

    ghost predicate Valid() reads this, leases {
      && |tickets| == |leases|
      && (forall i, j | 0 <= i < j < |leases| :: leases[i] != leases[j])
      && (forall i | 0 <= i < |leases| ::
            leases[i].pair == tickets[i].pair && leases[i].released == tickets[i].released)
    }

    ghost function Now(): State reads this { State(remoteBatches, tickets, orders) }

    method GetTrunkCodecs(id: string) returns (have: Option<seq<string>>)
      ensures have.Some? ==> id in orders && orders[id] == have.value
    {
      if * { return None; }
      return if id in orders then Some(orders[id]) else None;
    }

    /** A change that fails may have been made all the same. */
    method SetTrunkCodecs(id: string, want: seq<string>) returns (ok: bool)
      modifies this`orders
      ensures orders == old(orders) || orders == old(orders)[id := want]
      ensures ok ==> orders == old(orders)[id := want]
    {
      if * { return false; }
      orders := orders[id := want];
      if * { return false; }
      return true;
    }

    /** One server's turn in the loop. */
    method PutTrunkInOrder(id: string, want: seq<string>) returns (ok: bool, ghost luck: Luck)
      modifies this`orders
      ensures Put(orders, ok) == PutInOrder(net, old(orders), id, want, luck)
    {
      luck := Fine;
      if !(id in net) || net[id] == 0 { return true, luck; }
      var have := GetTrunkCodecs(id);
      if have.None? { return false, ReadFails; }
      if have.value == want { return true, luck; }
      ok := SetTrunkCodecs(id, want);
      if !ok { luck := SetFails(orders == old(orders)[id := want]); }
    }

    method PutTrunksInOrder(p: Pair, want: seq<string>) returns (ok: bool, ghost luck: (Luck, Luck))
      modifies this`orders
      ensures Put(orders, ok) == PutBoth(net, old(orders), p, want, luck)
    {
      ghost var luck0, luck1 := Fine, Fine;
      ok, luck0 := PutTrunkInOrder(p.0, want);
      if ok { ok, luck1 := PutTrunkInOrder(p.1, want); }
      luck := (luck0, luck1);
    }

    method PrepareRemoteBatch(p: Pair, codec: string) returns (lease: Option<Lease>, ghost luck: (Luck, Luck))
      requires Valid()
      modifies this
      ensures Valid()
      ensures Now() == Prepare(net, old(Now()), p, codec, luck).s
      ensures lease.Some? <==> Prepare(net, old(Now()), p, codec, luck).granted
      ensures lease.Some? ==> fresh(lease.value) && leases == old(leases) + [lease.value]
      ensures lease.None? ==> leases == old(leases)
    {
      luck := (Fine, Fine);
      if codec !in CODECS { return None, luck; }
      if p !in remoteBatches { remoteBatches := remoteBatches[p := Batches("", 0)]; }
      assert remoteBatches == Touched(old(Now()), p);
      var st := remoteBatches[p];
      if st.running > 0 && st.codec != codec { return None, luck; }
      var want := BuildTrunkCodecOrder(codec);
      var ok;
      ok, luck := PutTrunksInOrder(p, want);
      if !ok { return None, luck; }
      var made := Grant(p, codec, st.running);
      return Some(made), luck;
    }

    /** The end of prepareRemoteBatch: counts the batch and makes its closure. */
    method Grant(p: Pair, codec: string, running: int) returns (made: Lease)
      requires Valid()
      modifies this`remoteBatches, this`leases, this`tickets
      ensures Valid() && fresh(made) && leases == old(leases) + [made]
      ensures remoteBatches == old(remoteBatches)[p := Batches(codec, running + 1)]
      ensures tickets == old(tickets) + [Ticket(p, codec, false)]
    {
      made := new Lease(p);
      remoteBatches := remoteBatches[p := Batches(codec, running + 1)];
      leases, tickets := leases + [made], tickets + [Ticket(p, codec, false)];
    }

    method ReleaseBatch(lease: Lease, ghost t: nat)
      requires Valid() && t < |leases| && leases[t] == lease
      requires lease.pair in remoteBatches
      modifies this`remoteBatches, this`tickets, lease
      ensures Valid()
      ensures Now() == Release(old(Now()), t)
    {
      if !lease.released {
        lease.released, tickets := true, tickets[t := tickets[t].(released := true)];
        var st := remoteBatches[lease.pair];
        remoteBatches := remoteBatches[lease.pair := st.(running := st.running - 1)];
      }
    }
  }
}
