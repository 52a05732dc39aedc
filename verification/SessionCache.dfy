/** cmd/gui/handlers.go's sessionFor: dials that share lazily created sessions. Any number of handlers run it
    at once; each step below is one critical section of the app's lock, one channel operation, or the
    session creation that runs between them. */
module SessionCache {
  datatype Option<+T> = None | Some(value: T)

  datatype Key = Local(server: string) | Remote(caller: string, callee: string)

  /** What a handler got: a session, or an error. */
  datatype Outcome = Failed | Got(session: nat)

  datatype Pc =
    | Start
    | Waiting(ch: nat)
    | Creating(ch: nat)
    | Publishing(ch: nat, made: Outcome)
    | Closing(ch: nat, made: Outcome)
    | Done(made: Outcome)

  datatype Handler = Handler(key: Key, pc: Pc)

  /** The two session maps and the channels of the creations under way; `evicted` is history. */
  datatype Cache = Cache(sessions: map<Key, nat>, pending: map<Key, nat>, evicted: set<Key>)

  /** Each channel made so far: which handler made it, and how often it was closed. */
  datatype Channels = Channels(owner: seq<nat>, closes: seq<nat>)

  datatype Range = Range(base: int, size: nat)

  datatype Ports = Ports(offset: nat, ranges: seq<Range>)

  datatype State = State(handlers: seq<Handler>, cache: Cache, channels: Channels, ports: Ports)

  datatype Act = Refuse | LookUp(sizes: seq<nat>) | Wake | Create(made: Outcome) | Publish | Close

  datatype Step = Arrive(key: Key) | Evict(gone: set<Key>) | Move(h: nat, act: Act)

  // ---------------------------------------------------------------------------------------------
  // What a lookup finds
  // ---------------------------------------------------------------------------------------------

  datatype Answer = Cached(session: nat) | Busy(ch: nat) | Yours

  function Find(c: Cache, key: Key): Answer {
    if key in c.sessions then Cached(c.sessions[key])
    else if key in c.pending then Busy(c.pending[key])
    else Yours
  }

  const FIRST_PORT := 20000
  const PORT_GAP := 10

  /** Ranges of these sizes, one after the other. They are taken before it is known whether they are needed. */
  function Allocate(p: Ports, sizes: seq<nat>): Ports {
    if sizes == [] then p
    else
      var q := Allocate(p, sizes[..|sizes| - 1]);
      var n := sizes[|sizes| - 1];
      Ports(q.offset + n + PORT_GAP, q.ranges + [Range(FIRST_PORT + q.offset, n)])
  }

  predicate SizesFit(key: Key, sizes: seq<nat>) { |sizes| == if key.Local? then 1 else 2 }

  // ---------------------------------------------------------------------------------------------
  // Steps
  // ---------------------------------------------------------------------------------------------

  predicate Closed(c: Channels, ch: nat) { ch < |c.closes| && c.closes[ch] > 0 }

  predicate MayAct(x: Handler, c: Channels, act: Act) {
    match act
    case Refuse => x.pc.Start?
    case LookUp(sizes) => x.pc.Start? && SizesFit(x.key, sizes)
    case Wake => x.pc.Waiting? && Closed(c, x.pc.ch)
    case Create(_) => x.pc.Creating?
    case Publish => x.pc.Publishing?
    case Close => x.pc.Closing? && x.pc.ch < |c.closes|
  }

  predicate Enabled(s: State, step: Step) {
    step.Move? ==> step.h < |s.handlers| && MayAct(s.handlers[step.h], s.channels, step.act)
  }

  function PcAfter(x: Handler, cache: Cache, c: Channels, act: Act): Pc
    requires MayAct(x, c, act)
  {
    match act
    case Refuse => Done(Failed)
    case LookUp(_) =>
      (match Find(cache, x.key)
       case Cached(session) => Done(Got(session))
       case Busy(ch) => Waiting(ch)
       case Yours => Creating(|c.owner|))
    case Wake => Start
    case Create(made) => Publishing(x.pc.ch, made)
    case Publish => Closing(x.pc.ch, x.pc.made)
    case Close => Done(x.pc.made)
  }

  function CacheAfter(x: Handler, cache: Cache, c: Channels, act: Act): Cache
    requires MayAct(x, c, act)
  {
    match act
    case LookUp(_) => if Find(cache, x.key).Yours? then cache.(pending := cache.pending[x.key := |c.owner|]) else cache
    case Publish =>
      var done := cache.(pending := cache.pending - {x.key});
      if x.pc.made.Got? then done.(sessions := done.sessions[x.key := x.pc.made.session]) else done
    case _ => cache
  }

  function ChannelsAfter(h: nat, x: Handler, cache: Cache, c: Channels, act: Act): Channels
    requires MayAct(x, c, act)
  {
    match act
    case LookUp(_) => if Find(cache, x.key).Yours? then Channels(c.owner + [h], c.closes + [0]) else c
    case Close => c.(closes := c.closes[x.pc.ch := c.closes[x.pc.ch] + 1])
    case _ => c
  }

  function PortsAfter(x: Handler, cache: Cache, p: Ports, act: Act): Ports {
    if act.LookUp? && !Find(cache, x.key).Cached? then Allocate(p, act.sizes) else p
  }

  function Next(s: State, step: Step): State
    requires Enabled(s, step)
  {
    match step
    case Arrive(key) => s.(handlers := s.handlers + [Handler(key, Start)])
    case Evict(gone) =>
      s.(cache := s.cache.(sessions := s.cache.sessions - gone, evicted := s.cache.evicted + gone))
    case Move(h, act) =>
      var x := s.handlers[h];
      State(
        s.handlers[h := x.(pc := PcAfter(x, s.cache, s.channels, act))],
        CacheAfter(x, s.cache, s.channels, act),
        ChannelsAfter(h, x, s.cache, s.channels, act),
        PortsAfter(x, s.cache, s.ports, act))
  }

  const INIT := State([], Cache(map[], map[], {}), Channels([], []), Ports(0, []))

  predicate CanRun(s: State, steps: seq<Step>)
    decreases |steps|
  {
    steps == [] || (Enabled(s, steps[0]) && CanRun(Next(s, steps[0]), steps[1..]))
  }

  function Run(s: State, steps: seq<Step>): State
    requires CanRun(s, steps)
    decreases |steps|
  {
    if steps == [] then s else Run(Next(s, steps[0]), steps[1..])
  }

  // ---------------------------------------------------------------------------------------------
  // What every step keeps
  // ---------------------------------------------------------------------------------------------

  predicate IsCreator(pc: Pc) { pc.Creating? || pc.Publishing? }

  predicate Owns(pc: Pc, ch: nat) { (IsCreator(pc) || pc.Closing?) && pc.ch == ch }

  /** Handler `h` refers to a channel that exists: its own, or one for its own key. */
  ghost predicate WellLinked(hs: seq<Handler>, c: Channels, h: nat)
    requires h < |hs| && forall ch | 0 <= ch < |c.owner| :: c.owner[ch] < |hs|
  {
    var pc := hs[h].pc;
    && (IsCreator(pc) || pc.Closing? ==> pc.ch < |c.owner| && c.owner[pc.ch] == h)
    && (pc.Waiting? ==> pc.ch < |c.owner| && hs[c.owner[pc.ch]].key == hs[h].key)
  }

  /** Channel `ch` has been closed exactly once if its maker is done, and otherwise not at all. */
  ghost predicate ClosedOnce(hs: seq<Handler>, c: Channels, ch: nat)
    requires ch < |c.owner| && ch < |c.closes| && c.owner[ch] < |hs|
  {
    var pc := hs[c.owner[ch]].pc;
    if pc.Done? then c.closes[ch] == 1 else Owns(pc, ch) && c.closes[ch] == 0
  }

  ghost predicate Linked(hs: seq<Handler>, c: Channels) {
    && |c.closes| == |c.owner|
    && (forall ch | 0 <= ch < |c.owner| :: c.owner[ch] < |hs|)
    && (forall h | 0 <= h < |hs| :: WellLinked(hs, c, h))
    && (forall ch | 0 <= ch < |c.owner| :: ClosedOnce(hs, c, ch))
  }

  /** A pending entry names the channel of a running creation for that key, and each running creation has one. */
  ghost predicate PendingExactly(hs: seq<Handler>, cache: Cache, c: Channels) {
    && (forall key | key in cache.pending :: Backed(hs, c, key, cache.pending[key]))
    && (forall h | 0 <= h < |hs| && IsCreator(hs[h].pc) ::
          hs[h].key in cache.pending && cache.pending[hs[h].key] == hs[h].pc.ch)
  }

  ghost predicate Backed(hs: seq<Handler>, c: Channels, key: Key, ch: nat) {
    && ch < |c.owner| && c.owner[ch] < |hs|
    && hs[c.owner[ch]].key == key && IsCreator(hs[c.owner[ch]].pc) && hs[c.owner[ch]].pc.ch == ch
  }

  /** No creation runs for a key that has a session. */
  ghost predicate Apart(cache: Cache) { forall key | key in cache.pending :: key !in cache.sessions }

  /** Unless its session was dropped, every handler of a key that got one got the one in the cache. */
  ghost predicate Shared(hs: seq<Handler>, cache: Cache) {
    forall h | 0 <= h < |hs| :: SharesIn(hs[h], cache)
  }

  ghost predicate SharesIn(x: Handler, cache: Cache) {
    (x.pc.Closing? || x.pc.Done?) && x.pc.made.Got? && x.key !in cache.evicted ==>
      x.key in cache.sessions && cache.sessions[x.key] == x.pc.made.session
  }

  /** No port is in two ranges, and all ranges are below the next one. */
  ghost predicate RangesApart(p: Ports) {
    && (forall i | 0 <= i < |p.ranges| ::
          FIRST_PORT <= p.ranges[i].base && p.ranges[i].base + p.ranges[i].size < FIRST_PORT + p.offset)
    && (forall i, j | 0 <= i < j < |p.ranges| :: p.ranges[i].base + p.ranges[i].size < p.ranges[j].base)
  }

  ghost predicate Inv(s: State) {
    && Linked(s.handlers, s.channels) && PendingExactly(s.handlers, s.cache, s.channels)
    && Apart(s.cache) && Shared(s.handlers, s.cache) && RangesApart(s.ports)
  }

  // ---------------------------------------------------------------------------------------------
  // Each step keeps it
  // ---------------------------------------------------------------------------------------------

  lemma {:induction false} LinkedArrive(hs: seq<Handler>, c: Channels, key: Key)
    requires Linked(hs, c)
    ensures Linked(hs + [Handler(key, Start)], c)
  {
    var more := hs + [Handler(key, Start)];
    forall h | 0 <= h < |more| ensures WellLinked(more, c, h) { assert h < |hs| ==> WellLinked(hs, c, h); }
    forall ch | 0 <= ch < |c.owner| ensures ClosedOnce(more, c, ch) { assert ClosedOnce(hs, c, ch); }
  }

  /** A handler moves on without making or closing a channel. */
  lemma {:induction false} LinkedMoveOn(hs: seq<Handler>, c: Channels, h: nat, next: Pc)
    requires Linked(hs, c) && h < |hs|
    requires forall ch | 0 <= ch < |c.owner| && c.owner[ch] == h :: Owns(hs[h].pc, ch) ==> Owns(next, ch)
    requires hs[h].pc.Start? || hs[h].pc.Waiting? || ((IsCreator(next) || next.Closing?) && Owns(hs[h].pc, next.ch))
    requires next.Waiting? ==> next.ch < |c.owner| && hs[c.owner[next.ch]].key == hs[h].key
    requires IsCreator(next) || next.Closing? ==> Owns(hs[h].pc, next.ch)
    ensures Linked(hs[h := hs[h].(pc := next)], c)
  {
    var after := hs[h := hs[h].(pc := next)];
    assert WellLinked(hs, c, h);
    forall k | 0 <= k < |after| ensures WellLinked(after, c, k) { assert WellLinked(hs, c, k); }
    forall ch | 0 <= ch < |c.owner| ensures ClosedOnce(after, c, ch) { assert ClosedOnce(hs, c, ch); }
  }

  lemma {:induction false} LinkedNewChannel(hs: seq<Handler>, c: Channels, h: nat)
    requires Linked(hs, c) && h < |hs| && hs[h].pc.Start?
    ensures Linked(hs[h := hs[h].(pc := Creating(|c.owner|))], Channels(c.owner + [h], c.closes + [0]))
  {
    var after, d := hs[h := hs[h].(pc := Creating(|c.owner|))], Channels(c.owner + [h], c.closes + [0]);
    forall k | 0 <= k < |after| ensures WellLinked(after, d, k) { assert WellLinked(hs, c, k); }
    forall ch | 0 <= ch < |d.owner| ensures ClosedOnce(after, d, ch) {
      assert ch < |c.owner| ==> ClosedOnce(hs, c, ch);
    }
  }

  lemma {:induction false} LinkedClose(hs: seq<Handler>, c: Channels, h: nat)
    requires Linked(hs, c) && h < |hs| && hs[h].pc.Closing?
    ensures hs[h].pc.ch < |c.closes|
    ensures var ch := hs[h].pc.ch;
      Linked(hs[h := hs[h].(pc := Done(hs[h].pc.made))], c.(closes := c.closes[ch := c.closes[ch] + 1]))
  {
    assert WellLinked(hs, c, h);
    var mine := hs[h].pc.ch;
    var after, d := hs[h := hs[h].(pc := Done(hs[h].pc.made))], c.(closes := c.closes[mine := c.closes[mine] + 1]);
    forall k | 0 <= k < |after| ensures WellLinked(after, d, k) { assert WellLinked(hs, c, k); }
    forall ch | 0 <= ch < |d.owner| ensures ClosedOnce(after, d, ch) { assert ClosedOnce(hs, c, ch); }
  }

  lemma {:induction false} LinkedMove(s: State, h: nat, act: Act)
    requires Inv(s) && h < |s.handlers| && MayAct(s.handlers[h], s.channels, act)
    ensures var x := s.handlers[h];
      Linked(s.handlers[h := x.(pc := PcAfter(x, s.cache, s.channels, act))],
             ChannelsAfter(h, x, s.cache, s.channels, act))
  {
    var x := s.handlers[h];
    var next := PcAfter(x, s.cache, s.channels, act);
    assert WellLinked(s.handlers, s.channels, h);
    if act.LookUp? && Find(s.cache, x.key).Yours? {
      LinkedNewChannel(s.handlers, s.channels, h);
    } else if act.Close? {
      LinkedClose(s.handlers, s.channels, h);
    } else {
      if next.Waiting? { assert Backed(s.handlers, s.channels, x.key, next.ch); }
      LinkedMoveOn(s.handlers, s.channels, h, next);
    }
  }

  lemma {:induction false} PendingMove(s: State, h: nat, act: Act)
    requires Inv(s) && h < |s.handlers| && MayAct(s.handlers[h], s.channels, act)
    ensures var x := s.handlers[h];
      PendingExactly(s.handlers[h := x.(pc := PcAfter(x, s.cache, s.channels, act))],
                     CacheAfter(x, s.cache, s.channels, act), ChannelsAfter(h, x, s.cache, s.channels, act))
  {
    var x := s.handlers[h];
    var hs := s.handlers[h := x.(pc := PcAfter(x, s.cache, s.channels, act))];
    var cache, c := CacheAfter(x, s.cache, s.channels, act), ChannelsAfter(h, x, s.cache, s.channels, act);
    assert WellLinked(s.handlers, s.channels, h);
    forall key | key in cache.pending ensures Backed(hs, c, key, cache.pending[key]) {
      assert key in s.cache.pending ==> Backed(s.handlers, s.channels, key, s.cache.pending[key]);
    }
    forall k | 0 <= k < |hs| && IsCreator(hs[k].pc)
      ensures hs[k].key in cache.pending && cache.pending[hs[k].key] == hs[k].pc.ch
    {
      assert WellLinked(s.handlers, s.channels, k);
    }
  }

  lemma {:induction false} PendingArrive(hs: seq<Handler>, cache: Cache, c: Channels, key: Key)
    requires Linked(hs, c) && PendingExactly(hs, cache, c)
    ensures PendingExactly(hs + [Handler(key, Start)], cache, c)
  {
    var more := hs + [Handler(key, Start)];
    forall k | k in cache.pending ensures Backed(more, c, k, cache.pending[k]) {
      assert Backed(hs, c, k, cache.pending[k]);
    }
  }

  lemma {:induction false} SharedMove(s: State, h: nat, act: Act)
    requires Inv(s) && h < |s.handlers| && MayAct(s.handlers[h], s.channels, act)
    ensures var x := s.handlers[h];
      Shared(s.handlers[h := x.(pc := PcAfter(x, s.cache, s.channels, act))], CacheAfter(x, s.cache, s.channels, act))
  {
    var x := s.handlers[h];
    var hs := s.handlers[h := x.(pc := PcAfter(x, s.cache, s.channels, act))];
    var cache := CacheAfter(x, s.cache, s.channels, act);
    forall k | 0 <= k < |hs| ensures SharesIn(hs[k], cache) { assert SharesIn(s.handlers[k], s.cache); }
  }

  lemma {:induction false} ApartMove(s: State, h: nat, act: Act)
    requires Inv(s) && h < |s.handlers| && MayAct(s.handlers[h], s.channels, act)
    ensures Apart(CacheAfter(s.handlers[h], s.cache, s.channels, act))
  {}

  lemma {:induction false} RangesAllocate(p: Ports, sizes: seq<nat>)
    requires RangesApart(p)
    ensures RangesApart(Allocate(p, sizes))
    ensures |Allocate(p, sizes).ranges| == |p.ranges| + |sizes| && p.ranges <= Allocate(p, sizes).ranges
    ensures forall i | 0 <= i < |sizes| :: Allocate(p, sizes).ranges[|p.ranges| + i].size == sizes[i]
  {
    if sizes != [] { RangesAllocate(p, sizes[..|sizes| - 1]); }
  }

  lemma {:induction false} InvMove(s: State, h: nat, act: Act)
    requires Inv(s) && h < |s.handlers| && MayAct(s.handlers[h], s.channels, act)
    ensures Inv(Next(s, Move(h, act)))
  {
    LinkedMove(s, h, act);
    PendingMove(s, h, act);
    ApartMove(s, h, act);
    SharedMove(s, h, act);
    if act.LookUp? { RangesAllocate(s.ports, act.sizes); }
  }

  lemma {:induction false} InvEvict(s: State, gone: set<Key>)
    requires Inv(s)
    ensures Inv(Next(s, Evict(gone)))
  {
    var t := Next(s, Evict(gone));
    forall h | 0 <= h < |s.handlers| ensures SharesIn(s.handlers[h], t.cache) {
      assert SharesIn(s.handlers[h], s.cache);
    }
  }

  lemma {:induction false} InvArrive(s: State, key: Key)
    requires Inv(s)
    ensures Inv(Next(s, Arrive(key)))
  {
    LinkedArrive(s.handlers, s.channels, key);
    PendingArrive(s.handlers, s.cache, s.channels, key);
    var hs := s.handlers + [Handler(key, Start)];
    forall h | 0 <= h < |hs| ensures SharesIn(hs[h], s.cache) {
      assert h < |s.handlers| ==> SharesIn(s.handlers[h], s.cache);
    }
  }

  lemma {:induction false} InvStep(s: State, step: Step)
    requires Inv(s) && Enabled(s, step)
    ensures Inv(Next(s, step))
  {
    match step {
      case Arrive(key) => InvArrive(s, key);
      case Evict(gone) => InvEvict(s, gone);
      case Move(h, act) => InvMove(s, h, act);
    }
  }

  lemma {:induction false} InvRun(s: State, steps: seq<Step>)
    requires Inv(s) && CanRun(s, steps)
    ensures Inv(Run(s, steps))
    decreases |steps|
  {
    if steps != [] {
      InvStep(s, steps[0]);
      InvRun(Next(s, steps[0]), steps[1..]);
    }
  }

  // ---------------------------------------------------------------------------------------------
  // Main results, for every run
  // ---------------------------------------------------------------------------------------------

  lemma {:induction false} ReachableInv(steps: seq<Step>)
    requires CanRun(INIT, steps)
    ensures Inv(Run(INIT, steps))
  {
    InvRun(INIT, steps);
  }

  /** Single flight: two creations for one key never run at once, and a key is pending exactly while one runs. */
  lemma {:induction false} OneCreator(steps: seq<Step>, key: Key)
    requires CanRun(INIT, steps)
    ensures var s := Run(INIT, steps);
      && (forall h, k | 0 <= h < |s.handlers| && 0 <= k < |s.handlers| ::
            s.handlers[h].key == key == s.handlers[k].key && IsCreator(s.handlers[h].pc) && IsCreator(s.handlers[k].pc)
            ==> h == k)
      && (key in s.cache.pending <==>
            exists h :: 0 <= h < |s.handlers| && s.handlers[h].key == key && IsCreator(s.handlers[h].pc))
  {
    ReachableInv(steps);
    var s := Run(INIT, steps);
    forall h | 0 <= h < |s.handlers| && IsCreator(s.handlers[h].pc)
      ensures s.channels.owner[s.handlers[h].pc.ch] == h
    {
      assert WellLinked(s.handlers, s.channels, h);
    }
    if key in s.cache.pending {
      assert Backed(s.handlers, s.channels, key, s.cache.pending[key]);
      var h := s.channels.owner[s.cache.pending[key]];
      assert s.handlers[h].key == key && IsCreator(s.handlers[h].pc);
    }
  }

  /** Each channel is closed at most once, and has been closed exactly when its maker returned. */
  lemma {:induction false} ClosedExactlyOnce(steps: seq<Step>, ch: nat)
    requires CanRun(INIT, steps) && ch < |Run(INIT, steps).channels.owner|
    ensures var s := Run(INIT, steps);
      && |s.channels.closes| == |s.channels.owner| && s.channels.owner[ch] < |s.handlers|
      && s.channels.closes[ch] == if s.handlers[s.channels.owner[ch]].pc.Done? then 1 else 0
  {
    ReachableInv(steps);
    assert ClosedOnce(Run(INIT, steps).handlers, Run(INIT, steps).channels, ch);
  }

  /** A finished creation never replaces a session that is in the cache. */
  lemma {:induction false} NothingOverwritten(steps: seq<Step>, h: nat)
    requires CanRun(INIT, steps) && Enabled(Run(INIT, steps), Move(h, Publish))
    ensures var s := Run(INIT, steps); s.handlers[h].key !in s.cache.sessions
  {
    ReachableInv(steps);
  }

  /** The first range starts at port 20000 and each one ten ports after the end of the one before. */
  predicate InSteps(p: Ports) {
    && (forall i | 0 <= i < |p.ranges| ::
          p.ranges[i].base == if i == 0 then 20000 else p.ranges[i - 1].base + p.ranges[i - 1].size + 10)
    && 20000 + p.offset ==
       if p.ranges == [] then 20000 else p.ranges[|p.ranges| - 1].base + p.ranges[|p.ranges| - 1].size + 10
  }

  lemma {:induction false} AllocateInSteps(p: Ports, sizes: seq<nat>)
    requires InSteps(p)
    ensures InSteps(Allocate(p, sizes))
  {
    if sizes != [] { AllocateInSteps(p, sizes[..|sizes| - 1]); }
  }

  lemma {:induction false} PortsInSteps(s: State, steps: seq<Step>)
    requires CanRun(s, steps) && InSteps(s.ports)
    ensures InSteps(Run(s, steps).ports)
    decreases |steps|
  {
    if steps != [] {
      if steps[0].Move? && steps[0].act.LookUp? { AllocateInSteps(s.ports, steps[0].act.sizes); }
      PortsInSteps(Next(s, steps[0]), steps[1..]);
    }
  }

  /** The port ranges handed out over a whole run are pairwise disjoint. */
  lemma {:induction false} PortsDisjoint(steps: seq<Step>, i: nat, j: nat, port: int)
    requires CanRun(INIT, steps) && i < |Run(INIT, steps).ports.ranges| && j < |Run(INIT, steps).ports.ranges|
    requires var r := Run(INIT, steps).ports.ranges;
      r[i].base <= port < r[i].base + r[i].size && r[j].base <= port < r[j].base + r[j].size
    ensures i == j
  {
    ReachableInv(steps);
  }

  /** While nobody drops a key's session, all handlers that get a session for it get the same one. */
  lemma {:induction false} OneSession(steps: seq<Step>, h: nat, k: nat)
    requires CanRun(INIT, steps)
    requires var s := Run(INIT, steps);
      && h < |s.handlers| && k < |s.handlers| && s.handlers[h].key == s.handlers[k].key
      && s.handlers[h].pc.Done? && s.handlers[k].pc.Done? && s.handlers[h].pc.made.Got? && s.handlers[k].pc.made.Got?
      && s.handlers[h].key !in s.cache.evicted
    ensures var s := Run(INIT, steps); s.handlers[h].pc.made == s.handlers[k].pc.made
  {
    ReachableInv(steps);
    var s := Run(INIT, steps);
    assert SharesIn(s.handlers[h], s.cache) && SharesIn(s.handlers[k], s.cache);
  }

  /** What is left to do before handler `h`'s channel is closed. */
  function ToClose(pc: Pc, made: Outcome, h: nat): seq<Step> {
    match pc
    case Creating(_) => [Move(h, Create(made)), Move(h, Publish), Move(h, Close)]
    case Publishing(_, _) => [Move(h, Publish), Move(h, Close)]
    case Closing(_, _) => [Move(h, Close)]
    case _ => []
  }

  lemma {:induction false} OwnerCloses(s: State, h: nat, made: Outcome)
    requires Inv(s) && h < |s.handlers|
    ensures CanRun(s, ToClose(s.handlers[h].pc, made, h))
    ensures var t := Run(s, ToClose(s.handlers[h].pc, made, h));
      && |t.handlers| == |s.handlers| && (forall k | 0 <= k < |s.handlers| && k != h :: t.handlers[k] == s.handlers[k])
      && (IsCreator(s.handlers[h].pc) || s.handlers[h].pc.Closing? ==> Closed(t.channels, s.handlers[h].pc.ch))
    decreases |ToClose(s.handlers[h].pc, made, h)|
  {
    var steps := ToClose(s.handlers[h].pc, made, h);
    if steps != [] {
      assert WellLinked(s.handlers, s.channels, h);
      InvStep(s, steps[0]);
      var t := Next(s, steps[0]);
      assert ToClose(t.handlers[h].pc, made, h) == steps[1..];
      OwnerCloses(t, h, made);
    }
  }

  /** How the creation of a handler under way turns out, `made` saying so if it is not over yet. */
  function MadeBy(pc: Pc, made: Outcome): Outcome {
    match pc
    case Publishing(_, m) => m
    case Closing(_, m) => m
    case _ => made
  }

  /** What the waiter can do next, the creation of its key being over. */
  predicate Resolved(s: State, h: nat, pc: Pc, outcome: Outcome)
    requires h < |s.handlers|
  {
    var key := s.handlers[h].key;
    && (outcome.Got? && key !in s.cache.evicted ==> key in s.cache.sessions && s.cache.sessions[key] == outcome.session)
    && (outcome.Failed? && IsCreator(pc) ==> key !in s.cache.sessions && key !in s.cache.pending)
  }

  lemma {:induction false} CreationSettles(s: State, owner: nat, h: nat, made: Outcome)
    requires Inv(s) && owner < |s.handlers| && h < |s.handlers| && s.handlers[owner].key == s.handlers[h].key
    requires IsCreator(s.handlers[owner].pc) || s.handlers[owner].pc.Closing?
    requires CanRun(s, ToClose(s.handlers[owner].pc, made, owner))
    ensures var pc := s.handlers[owner].pc;
      var t := Run(s, ToClose(pc, made, owner));
      && |t.handlers| == |s.handlers| && t.handlers[h].key == s.handlers[h].key && t.cache.evicted == s.cache.evicted
      && Resolved(t, h, pc, MadeBy(pc, made))
    decreases |ToClose(s.handlers[owner].pc, made, owner)|
  {
    var pc := s.handlers[owner].pc;
    var steps := ToClose(pc, made, owner);
    var t := Next(s, steps[0]);
    InvStep(s, steps[0]);
    if pc.Closing? {
      assert SharesIn(s.handlers[owner], s.cache);
      assert steps[1..] == [];
    } else {
      assert ToClose(t.handlers[owner].pc, made, owner) == steps[1..];
      CreationSettles(t, owner, h, made);
      if pc.Publishing? { assert steps[1..][1..] == []; }
    }
  }

  lemma {:induction false} RunConcat(s: State, a: seq<Step>, b: seq<Step>)
    requires CanRun(s, a) && CanRun(Run(s, a), b)
    ensures CanRun(s, a + b) && Run(s, a + b) == Run(Run(s, a), b)
    decreases |a|
  {
    if a == [] {
      assert a + b == b;
    } else {
      assert (a + b)[0] == a[0] && (a + b)[1..] == a[1..] + b;
      RunConcat(Next(s, a[0]), a[1..], b);
    }
  }

  lemma {:induction false} RunOne(s: State, step: Step)
    requires Enabled(s, step)
    ensures CanRun(s, [step]) && Run(s, [step]) == Next(s, step)
  {
    assert [step][1..] == [];
  }

  /** A waiter whose channel is closed looks again. */
  lemma {:induction false} LooksAgain(t: State, h: nat, sizes: seq<nat>)
    requires h < |t.handlers| && t.handlers[h].pc.Waiting? && Closed(t.channels, t.handlers[h].pc.ch)
    requires SizesFit(t.handlers[h].key, sizes)
    ensures var again := [Move(h, Wake), Move(h, LookUp(sizes))];
      var key := t.handlers[h].key;
      && CanRun(t, again) && h < |Run(t, again).handlers|
      && (key in t.cache.sessions ==> Run(t, again).handlers[h].pc == Done(Got(t.cache.sessions[key])))
      && (key !in t.cache.sessions && key !in t.cache.pending ==> Run(t, again).handlers[h].pc.Creating?)
  {
    var again := [Move(h, Wake), Move(h, LookUp(sizes))];
    RunOne(t, Move(h, Wake));
    RunOne(Next(t, Move(h, Wake)), Move(h, LookUp(sizes)));
    RunConcat(t, [Move(h, Wake)], [Move(h, LookUp(sizes))]);
    assert [Move(h, Wake)] + [Move(h, LookUp(sizes))] == again;
  }

  /** No handler waits on a channel that nobody will close: whether the creation it waits for succeeds or fails, at
      most three steps of that creation's own handler, each of them always possible, let it go on. It then looks
      again: if the creation gave a session and nobody dropped the key, it gets that session; if the creation failed,
      it makes one itself. */
  lemma {:induction false} WaiterGoesOn(steps: seq<Step>, h: nat, made: Outcome, sizes: seq<nat>)
    requires CanRun(INIT, steps) && h < |Run(INIT, steps).handlers| && Run(INIT, steps).handlers[h].pc.Waiting?
    requires SizesFit(Run(INIT, steps).handlers[h].key, sizes)
    ensures var s := Run(INIT, steps);
      var owner := s.channels.owner;
      var ch := s.handlers[h].pc.ch;
      && ch < |owner| && owner[ch] < |s.handlers| && owner[ch] != h
      && (var pc := s.handlers[owner[ch]].pc;
          var more := ToClose(pc, made, owner[ch]);
          var all := more + [Move(h, Wake), Move(h, LookUp(sizes))];
          && |more| <= 3 && CanRun(s, all) && h < |Run(s, all).handlers|
          && (!pc.Done? && MadeBy(pc, made).Got? && s.handlers[h].key !in s.cache.evicted ==>
                Run(s, all).handlers[h].pc == Done(MadeBy(pc, made)))
          && (IsCreator(pc) && MadeBy(pc, made).Failed? ==> Run(s, all).handlers[h].pc.Creating?))
  {
    ReachableInv(steps);
    WaiterGoesOnInv(Run(INIT, steps), h, made, sizes);
  }

  lemma {:induction false} WaiterGoesOnInv(s: State, h: nat, made: Outcome, sizes: seq<nat>)
    requires Inv(s) && h < |s.handlers| && s.handlers[h].pc.Waiting? && SizesFit(s.handlers[h].key, sizes)
    ensures var owner := s.channels.owner;
      var ch := s.handlers[h].pc.ch;
      && ch < |owner| && owner[ch] < |s.handlers| && owner[ch] != h
      && (var pc := s.handlers[owner[ch]].pc;
          var more := ToClose(pc, made, owner[ch]);
          var all := more + [Move(h, Wake), Move(h, LookUp(sizes))];
          && |more| <= 3 && CanRun(s, all) && h < |Run(s, all).handlers|
          && (!pc.Done? && MadeBy(pc, made).Got? && s.handlers[h].key !in s.cache.evicted ==>
                Run(s, all).handlers[h].pc == Done(MadeBy(pc, made)))
          && (IsCreator(pc) && MadeBy(pc, made).Failed? ==> Run(s, all).handlers[h].pc.Creating?))
  {
    assert WellLinked(s.handlers, s.channels, h);
    var ch := s.handlers[h].pc.ch;
    assert ClosedOnce(s.handlers, s.channels, ch);
    var owner := s.channels.owner[ch];
    var more := ToClose(s.handlers[owner].pc, made, owner);
    OwnerCloses(s, owner, made);
    if more != [] { CreationSettles(s, owner, h, made); }
    LooksAgain(Run(s, more), h, sizes);
    RunConcat(s, more, [Move(h, Wake), Move(h, LookUp(sizes))]);
  }

  // ---------------------------------------------------------------------------------------------
  // What a handler ends with
  // ---------------------------------------------------------------------------------------------

  /** What handler `h` itself did in these steps: it was refused, or its creation turned out so. */
  predicate Refused(steps: seq<Step>, h: nat) { Move(h, Refuse) in steps }

  predicate Made(steps: seq<Step>, h: nat, made: Outcome) { Move(h, Create(made)) in steps }

  /** A handler's place fits what it did so far: whether it was refused, and what it created. */
  ghost predicate Fits(pc: Pc, refused: bool, made: Option<Outcome>) {
    match pc
    case Start => !refused && made == None
    case Waiting(_) => !refused && made == None
    case Creating(_) => !refused && made == None
    case Publishing(_, m) => !refused && made == Some(m)
    case Closing(_, m) => !refused && made == Some(m)
    case Done(m) => if m.Failed? then refused || made == Some(Failed) else !refused && (made == None || made == Some(m))
  }

  /** The creation of handler `h` in these steps. */
  function CreatedIn(steps: seq<Step>, h: nat): Option<Outcome> {
    if steps == [] then None
    else if steps[0].Move? && steps[0].h == h && steps[0].act.Create? then Some(steps[0].act.made)
    else CreatedIn(steps[1..], h)
  }

  /** What it created before, or else in these steps. */
  function Either(made: Option<Outcome>, more: Option<Outcome>): Option<Outcome> { if made.Some? then made else more }

  ghost predicate FitsAt(s: State, h: nat, refused: bool, made: Option<Outcome>) {
    if h < |s.handlers| then Fits(s.handlers[h].pc, refused, made) else !refused && made == None
  }

  lemma {:induction false} FitsStep(s: State, step: Step, h: nat, refused: bool, made: Option<Outcome>)
    requires Enabled(s, step) && FitsAt(s, h, refused, made)
    ensures FitsAt(Next(s, step), h, refused || step == Move(h, Refuse),
                   if step.Move? && step.h == h && step.act.Create? then Some(step.act.made) else made)
    ensures step.Move? && step.h == h && step.act.Create? ==> made == None
  {}

  lemma {:induction false} FitsRun(s: State, steps: seq<Step>, h: nat, refused: bool, made: Option<Outcome>)
    requires CanRun(s, steps) && FitsAt(s, h, refused, made)
    ensures FitsAt(Run(s, steps), h, refused || Refused(steps, h), Either(made, CreatedIn(steps, h)))
    ensures forall m :: Made(steps, h, m) <==> CreatedIn(steps, h) == Some(m)
    ensures made.Some? ==> CreatedIn(steps, h) == None
    decreases |steps|
  {
    if steps != [] {
      var step := steps[0];
      var now := if step.Move? && step.h == h && step.act.Create? then Some(step.act.made) else made;
      FitsStep(s, step, h, refused, made);
      FitsRun(Next(s, step), steps[1..], h, refused || step == Move(h, Refuse), now);
      forall x ensures x in steps <==> x == step || x in steps[1..] {}
    }
  }

  /** A dial that is over failed if and only if it was refused or its own creation failed: no dial fails because of
      another's. */
  lemma {:induction false} FailsExactly(steps: seq<Step>, h: nat)
    requires CanRun(INIT, steps) && h < |Run(INIT, steps).handlers| && Run(INIT, steps).handlers[h].pc.Done?
    ensures Run(INIT, steps).handlers[h].pc.made == Failed <==> Refused(steps, h) || Made(steps, h, Failed)
  {
    FitsRun(INIT, steps, h, false, None);
  }

  /** A session of key `key` was created in these steps. */
  ghost predicate CreatedFor(s: State, steps: seq<Step>, key: Key, session: nat) {
    exists h :: 0 <= h < |s.handlers| && s.handlers[h].key == key && Move(h, Create(Got(session))) in steps
  }

  /** What is in the cache, or on its way there, or given out, was created for its key. */
  ghost predicate AllCreated(s: State, t: State, steps: seq<Step>) {
    && (forall key | key in s.cache.sessions :: CreatedFor(t, steps, key, s.cache.sessions[key]))
    && (forall h | 0 <= h < |s.handlers| :: HasCreated(s.handlers[h], t, steps))
  }

  ghost predicate HasCreated(x: Handler, t: State, steps: seq<Step>) {
    (x.pc.Publishing? || x.pc.Closing? || x.pc.Done?) && x.pc.made.Got? ==>
      CreatedFor(t, steps, x.key, x.pc.made.session)
  }

  lemma {:induction false} KeysStay(s: State, steps: seq<Step>)
    requires CanRun(s, steps)
    ensures |s.handlers| <= |Run(s, steps).handlers|
    ensures forall h | 0 <= h < |s.handlers| :: Run(s, steps).handlers[h].key == s.handlers[h].key
    decreases |steps|
  {
    if steps != [] { KeysStay(Next(s, steps[0]), steps[1..]); }
  }

  lemma {:induction false} AllCreatedStep(s: State, step: Step, t: State, steps: seq<Step>)
    requires Enabled(s, step) && AllCreated(s, t, steps) && step in steps
    requires |s.handlers| <= |t.handlers| && forall h | 0 <= h < |s.handlers| :: t.handlers[h].key == s.handlers[h].key
    ensures AllCreated(Next(s, step), t, steps)
  {
    var n := Next(s, step);
    forall h | 0 <= h < |n.handlers| ensures HasCreated(n.handlers[h], t, steps) {
      assert h < |s.handlers| ==> HasCreated(s.handlers[h], t, steps);
    }
    if step.Move? { assert HasCreated(s.handlers[step.h], t, steps); }
  }

  lemma {:induction false} AllCreatedRun(s: State, rest: seq<Step>, t: State, steps: seq<Step>)
    requires CanRun(s, rest) && t == Run(s, rest) && AllCreated(s, t, steps) && forall x | x in rest :: x in steps
    ensures AllCreated(t, t, steps)
    decreases |rest|
  {
    if rest != [] {
      KeysStay(s, rest);
      AllCreatedStep(s, rest[0], t, steps);
      AllCreatedRun(Next(s, rest[0]), rest[1..], t, steps);
    }
  }

  /** Every session a dial gets was created by a dial of the same key. */
  lemma {:induction false} GotWasCreated(steps: seq<Step>, h: nat)
    requires CanRun(INIT, steps) && h < |Run(INIT, steps).handlers|
    requires var pc := Run(INIT, steps).handlers[h].pc; pc.Done? && pc.made.Got?
    ensures var s := Run(INIT, steps); CreatedFor(s, steps, s.handlers[h].key, s.handlers[h].pc.made.session)
  {
    AllCreatedRun(INIT, steps, Run(INIT, steps), steps);
    assert HasCreated(Run(INIT, steps).handlers[h], Run(INIT, steps), steps);
  }

  // ---------------------------------------------------------------------------------------------
  // The critical sections
  // ---------------------------------------------------------------------------------------------

  /** Key `key` dials from or into server `id`. */
  predicate Involves(key: Key, id: string) {
    match key
    case Local(server) => server == id
    case Remote(caller, callee) => caller == id || callee == id
  }

  /** The fields of the app that its lock guards. A channel is known by the order in which it was made. */
  class App {
    var sessions: map<Key, nat>
    var pending: map<Key, nat>
    var made: nat
    var nextPortOffset: nat
    ghost var ranges: seq<Range>
    ghost var evicted: set<Key>

    ghost function CacheNow(): Cache reads this { Cache(sessions, pending, evicted) }

    ghost function PortsNow(): Ports reads this { Ports(nextPortOffset, ranges) }

    constructor ()
      ensures CacheNow() == INIT.cache && PortsNow() == INIT.ports && made == 0
    {
      sessions, pending, made, nextPortOffset, ranges, evicted := map[], map[], 0, 0, [], {};
    }

    method AllocPortRangeLocked(n: nat) returns (base: int)
      modifies this`nextPortOffset, this`ranges
      ensures PortsNow() == Allocate(old(PortsNow()), [n]) && base == ranges[|ranges| - 1].base
    {
      base := FIRST_PORT + nextPortOffset;
      nextPortOffset := nextPortOffset + n + PORT_GAP;
      ranges := ranges + [Range(base, n)];
    }

    /** sessionFor's first section, once the servers are known: `sizes` are their extension counts. */
    method LookUpLocked(key: Key, sizes: seq<nat>) returns (a: Answer, ch: nat)
      requires SizesFit(key, sizes)
      modifies this
      ensures a == Find(old(CacheNow()), key) && (a.Yours? ==> ch == old(made))
      ensures made == old(made) + if a.Yours? then 1 else 0
      ensures CacheNow() ==
        CacheAfter(Handler(key, Start), old(CacheNow()), Channels(seq(old(made), _ => 0), []), LookUp(sizes))
      ensures PortsNow() == PortsAfter(Handler(key, Start), old(CacheNow()), old(PortsNow()), LookUp(sizes))
    {
      ch := 0;
      if key in sessions { return Cached(sessions[key]), ch; }
      var first := AllocPortRangeLocked(sizes[0]);
      assert sizes[..1] == [sizes[0]];
      if key.Remote? {
        var second := AllocPortRangeLocked(sizes[1]);
        AllocateTwo(old(PortsNow()), sizes);
      } else {
        assert sizes == [sizes[0]];
      }
      if key in pending { return Busy(pending[key]), ch; }
      pending := pending[key := made];
      made := made + 1;
      return Yours, made - 1;
    }

    /** Its second section, when the creation is over. */
    method PublishLocked(key: Key, ch: nat, outcome: Outcome)
      modifies this
      ensures CacheNow() ==
        CacheAfter(Handler(key, Publishing(ch, outcome)), old(CacheNow()), Channels([], []), Publish)
      ensures PortsNow() == old(PortsNow()) && made == old(made)
    {
      pending := pending - {key};
      if outcome.Got? { sessions := sessions[key := outcome.session]; }
    }

    /** Drops every session of a server that was reconfigured or reset. */
    method DropServer(id: string) returns (ghost gone: set<Key>)
      modifies this
      ensures gone == set key | key in old(sessions) && Involves(key, id)
      ensures forall key :: key in gone <==>
        key in old(sessions) && (key == Local(id) || (key.Remote? && (key.caller == id || key.callee == id)))
      ensures CacheNow() == Cache(old(sessions) - gone, old(pending), old(evicted) + gone)
      ensures PortsNow() == old(PortsNow()) && made == old(made)
    {
      gone := set key | key in sessions && Involves(key, id);
      var left := sessions.Keys;
      while left != {}
        modifies this`sessions
        invariant left <= old(sessions).Keys
        invariant forall key :: key in sessions <==> key in old(sessions) && (key in left || !Involves(key, id))
        invariant forall key | key in sessions :: sessions[key] == old(sessions)[key]
      {
        var key :| key in left;
        if Involves(key, id) { sessions := sessions - {key}; }
        left := left - {key};
      }
      evicted := evicted + gone;
      assert sessions == old(sessions) - gone;
    }
  }

  lemma {:induction false} AllocateTwo(p: Ports, sizes: seq<nat>)
    requires |sizes| == 2
    ensures Allocate(Allocate(p, [sizes[0]]), [sizes[1]]) == Allocate(p, sizes)
  {
    assert sizes[..1] == [sizes[0]] && [sizes[0]][..0] == [] && [sizes[1]][..0] == [];
  }
}
