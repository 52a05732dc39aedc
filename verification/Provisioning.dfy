/** internal/wizard/wizard.go's provisioning of extensions against a server that may apply any part of a
    batch and lose the reply, with other parties creating extensions at the same time. */
module Provisioning {
  import opened Text

  const BATCH_SIZE := 100
  const MAX_SKIPS := 20
  const SECOND := 1_000_000_000

  datatype Result<+T> = Ok(value: T) | Err(error: Error)

  datatype Error =
    | Cancelled | NoSecret | GaveUp | UnknownItem(id: nat) | ReadBackFailed(number: nat)
    | TooManyReserved | Rejected(number: nat, text: string) | OddUsername(number: nat)

  /** What may go wrong outside: the context is cancelled, the random source fails, requests fail, reads fail, replies
      have items nobody asked for, items are refused for other reasons than a taken number. */
  datatype Trouble = Trouble(
    cancels: bool, noSecrets: bool, requestsFail: bool, readsFail: bool, strangers: bool, refuses: bool)

  // ---------------------------------------------------------------------------------------------
  // The server
  // ---------------------------------------------------------------------------------------------

  /** An extension as the server keeps it. The server chooses the id and the SIP username. */
  datatype Slot = Slot(holder: string, id: nat, secret: string, username: nat)

  datatype Outcome = Created(id: nat) | Failed(text: string)

  datatype Item = Item(number: nat, outcome: Outcome)

  predicate Contains(s: string, part: string) { exists i | 0 <= i <= |s| :: HasPrefix(s[i..], part) }

  /** The holder the server names for number `m` when SwarmDialer created it. */
  function Holder(m: nat): string { SWARM_DIALER + Decimal(m) }

  const SWARM_DIALER := "(Extension) SwarmDialer "
  const NUMBER := "number "
  const IS := " is "
  const RESERVED_BY := "reserved by "

  /** How the server refuses a number that is taken. */
  function TakenText(n: nat, holder: string): string { NUMBER + Decimal(n) + IS + (RESERVED_BY + holder) }

  predicate IsReserved(text: string) { Contains(ToLower(text), "is reserved") }

  function OwnMark(n: nat): string { RESERVED_BY + Holder(n) }

  predicate IsOwn(text: string, n: nat) { Contains(text, OwnMark(n)) }

  /** The client would take the extension at `n` for its own. */
  predicate OwnSlot(n: nat, slot: Slot) { IsOwn(TakenText(n, slot.holder), n) }

  /** The server's extensions, the numbers it holds in SwarmDialer's name, and those created by batch requests. */
  datatype Holdings = Holdings(slots: map<nat, Slot>, ours: set<nat>, made: set<nat>)

  ghost predicate Valid(h: Holdings) {
    && h.made <= h.ours <= h.slots.Keys
    && forall n {:trigger OwnSlot(n, h.slots[n])} | n in h.slots :: n in h.ours <==> OwnSlot(n, h.slots[n])
  }

  /** Nothing that was there has changed. */
  ghost predicate Grew(was: Holdings, now: Holdings) {
    forall n {:trigger n in was.slots} | n in was.slots ::
      n in now.slots && now.slots[n] == was.slots[n] && (n in now.ours <==> n in was.ours)
  }

  /** Only numbers of the batch have been created since. */
  ghost predicate MadeIn(was: set<nat>, now: set<nat>, batch: map<nat, string>) {
    was <= now && forall n | n in now :: n in was || n in batch
  }

  /** What a reply's item says is so. */
  ghost predicate Truthful(item: Item, batch: map<nat, string>, h: Holdings) {
    item.number in batch ==>
      match item.outcome
      case Created(id) =>
        item.number in h.slots && item.number in h.ours &&
        h.slots[item.number].secret == batch[item.number] && h.slots[item.number].id == id
      case Failed(text) =>
        IsReserved(text) ==> item.number in h.slots && (IsOwn(text, item.number) <==> item.number in h.ours)
  }

  /** An item nobody asked for, or one refused for another reason than a taken number, is such trouble. */
  predicate Fair(item: Item, batch: map<nat, string>, w: Trouble) {
    && (item.number !in batch ==> w.strangers)
    && (item.outcome.Failed? && !IsReserved(item.outcome.text) ==> w.refuses)
  }

  ghost predicate AllFair(reply: seq<Item>, batch: map<nat, string>, w: Trouble) {
    forall i {:trigger Fair(reply[i], batch, w)} | 0 <= i < |reply| :: Fair(reply[i], batch, w)
  }

  /** Each requested number is listed exactly once; there may be items nobody asked for. */
  ghost predicate Lists(reply: seq<Item>, numbers: set<nat>) {
    && (forall i, j | 0 <= i < j < |reply| && reply[i].number in numbers :: reply[i].number != reply[j].number)
    && (forall n | n in numbers :: exists i | 0 <= i < |reply| :: reply[i].number == n)
  }

  ghost predicate AllTruthful(reply: seq<Item>, batch: map<nat, string>, h: Holdings) {
    forall i {:trigger Truthful(reply[i], batch, h)} | 0 <= i < |reply| :: Truthful(reply[i], batch, h)
  }

  /** Other parties take any free numbers, under any name. */
  method Others(h: Holdings) returns (later: Holdings)
    requires Valid(h)
    ensures Valid(later) && Grew(h, later) && later.made == h.made
  {
    var more: map<nat, Slot> := *;
    var slots := more + h.slots;
    var ours := set n | n in slots && OwnSlot(n, slots[n]);
    return Holdings(slots, ours, h.made);
  }

  /** One item of a batch. */
  method CreateOne(h: Holdings, n: nat, secret: string, w: Trouble) returns (outcome: Outcome, later: Holdings)
    requires Valid(h)
    ensures outcome.Failed? && !IsReserved(outcome.text) ==> w.refuses
    ensures Valid(later) && Grew(h, later) && MadeIn(h.made, later.made, map[n := secret])
    ensures Truthful(Item(n, outcome), map[n := secret], later)
  {
    var refused: bool := *;
    if w.refuses && refused {
      var text: string := *;
      return Failed(if IsReserved(text) then "" else text), h;
    }
    if n in h.slots {
      LeftoverIsAdopted(n, h.slots[n].holder);
      assert OwnSlot(n, h.slots[n]) <==> IsOwn(TakenText(n, h.slots[n].holder), n);
      return Failed(TakenText(n, h.slots[n].holder)), h;
    }
    var id: nat, username: nat := *, *;
    HolderIsOwn(n);
    return Created(id), Holdings(h.slots[n := Slot(Holder(n), id, secret, username)], h.ours + {n}, h.made + {n});
  }

  /** A batch create. Items are applied in any order; at any point the request can fail, with whatever has been
      applied by then staying applied. */
  method CreateExtensionsBatch(before: Holdings, batch: map<nat, string>, w: Trouble)
    returns (reply: Option<seq<Item>>, h: Holdings)
    requires Valid(before)
    ensures if reply.None? then w.requestsFail else AllFair(reply.value, batch, w)
    ensures Valid(h) && Grew(before, h) && MadeIn(before.made, h.made, batch)
    ensures reply.Some? ==> Lists(reply.value, batch.Keys) && AllTruthful(reply.value, batch, h)
  {
    h := before;
    var remaining, results := batch.Keys, [];
    while remaining != {}
      invariant Valid(h) && Grew(before, h) && MadeIn(before.made, h.made, batch)
      invariant remaining <= batch.Keys
      invariant Lists(results, batch.Keys - remaining) && AllTruthful(results, batch, h)
      invariant forall i | 0 <= i < |results| :: results[i].number !in remaining
      invariant AllFair(results, batch, w)
    {
      var lost: bool := *;
      if w.requestsFail && lost { return None, h; }
      ghost var was := h;
      h := Others(h);
      var n :| n in remaining;
      var outcome;
      outcome, h := CreateOne(h, n, batch[n], w);
      AllTruthfulLater(results, batch, was, h);
      ListsMore(results, batch.Keys - remaining, Item(n, outcome));
      assert batch.Keys - (remaining - {n}) == batch.Keys - remaining + {n};
      results, remaining := results + [Item(n, outcome)], remaining - {n};
    }
    assert batch.Keys - remaining == batch.Keys;
    if w.strangers {
      var strange: Item := *;
      if strange.number !in batch && Fair(strange, batch, w) {
        ListsStranger(results, batch.Keys, strange);
        results := results + [strange];
      }
    }
    var lost: bool := *;
    if w.requestsFail && lost { return None, h; }
    return Some(results), h;
  }

  /** The extension at a number, unless the read fails. */
  method GetExtensionByNumber(h: Holdings, n: nat, w: Trouble) returns (found: Option<Slot>)
    ensures found.Some? ==> n in h.slots && h.slots[n] == found.value
    ensures found.None? ==> w.readsFail || n !in h.slots
  {
    var lost: bool := *;
    if w.readsFail && lost { return None; }
    return if n in h.slots then Some(h.slots[n]) else None;
  }

  lemma {:induction false} ListsMore(reply: seq<Item>, numbers: set<nat>, item: Item)
    requires Lists(reply, numbers) && forall i | 0 <= i < |reply| :: reply[i].number != item.number
    ensures Lists(reply + [item], numbers + {item.number})
  {
    var more := reply + [item];
    assert more[|reply|] == item;
    forall m | m in numbers + {item.number} ensures exists i | 0 <= i < |more| :: more[i].number == m {
      if m != item.number {
        var i :| 0 <= i < |reply| && reply[i].number == m;
        assert more[i].number == m;
      }
    }
  }

  lemma {:induction false} ListsStranger(reply: seq<Item>, numbers: set<nat>, item: Item)
    requires Lists(reply, numbers) && item.number !in numbers
    ensures Lists(reply + [item], numbers)
  {
    var more := reply + [item];
    forall m | m in numbers ensures exists i | 0 <= i < |more| :: more[i].number == m {
      var i :| 0 <= i < |reply| && reply[i].number == m;
      assert more[i].number == m;
    }
  }

  // ---------------------------------------------------------------------------------------------
  // One batch, retried
  // ---------------------------------------------------------------------------------------------

  /** At least `d` goes by. */
  method Pass(now: int, d: nat) returns (later: int)
    ensures later >= now + d
  {
    var extra :| extra >= 0;
    return now + d + extra;
  }

  /** The wait after attempt `k`, counting from 0: 2 s, doubling until it is over 30 s. */
  function Backoff(k: nat): int { if k == 0 then 2 * SECOND else Next(Backoff(k - 1)) }

  function Next(backoff: int): int { if backoff < 30 * SECOND then 2 * backoff else backoff }

  /** The waits between the first `k + 1` attempts. */
  function Waits(k: nat): int { if k == 0 then 0 else Waits(k - 1) + Backoff(k - 1) }

  lemma {:induction false} WaitsAre(k: nat)
    ensures Backoff(0) == 2 * SECOND && Backoff(1) == 4 * SECOND && Backoff(2) == 8 * SECOND
    ensures Backoff(3) == 16 * SECOND && (k >= 4 ==> Backoff(k) == 32 * SECOND) && Backoff(k) >= 2 * SECOND
    ensures k >= 4 ==> Waits(k) == (30 + 32 * (k - 4)) * SECOND
    ensures Waits(k) >= 2 * k * SECOND
  {
    assert Backoff(1) == Next(Backoff(0)) && Backoff(2) == Next(Backoff(1)) && Backoff(3) == Next(Backoff(2));
    if k > 0 {
      WaitsAre(k - 1);
      if k == 4 { assert Waits(1) == 2 * SECOND && Waits(2) == 6 * SECOND && Waits(3) == 14 * SECOND; }
    }
  }

  method CreateBatchWithRetry(before: Holdings, start: int, batch: map<nat, string>, maxWait: int, w: Trouble)
    returns (r: Result<seq<Item>>, h: Holdings, now: int, ghost attempts: nat)
    requires Valid(before)
    ensures Valid(h) && Grew(before, h) && MadeIn(before.made, h.made, batch)
    ensures r.Ok? ==> Lists(r.value, batch.Keys) && AllTruthful(r.value, batch, h) && AllFair(r.value, batch, w)
    ensures attempts >= 1 && (attempts == 1 || Waits(attempts - 1) <= maxWait)
    ensures r.Err? ==> (r.error == Cancelled && w.cancels) || (r.error == GaveUp && w.requestsFail)
    ensures r == Err(GaveUp) ==> now + Backoff(attempts - 1) > start + maxWait
  {
    var deadline, backoff := start + maxWait, 2 * SECOND;
    h, now, attempts := before, start, 0;
    while true
      invariant Valid(h) && Grew(before, h) && MadeIn(before.made, h.made, batch)
      invariant backoff == Backoff(attempts) && backoff >= 2 * SECOND
      invariant now >= start + Waits(attempts)
      invariant attempts == 0 || Waits(attempts) <= maxWait
      decreases deadline - now
    {
      now := Pass(now, 0);
      var reply;
      reply, h := CreateExtensionsBatch(h, batch, w);
      attempts := attempts + 1;
      if reply.Some? { return Ok(reply.value), h, now, attempts; }
      if now + backoff > deadline { return Err(GaveUp), h, now, attempts; }
      var cancelled: bool := *;
      if w.cancels && cancelled { return Err(Cancelled), h, now, attempts; }
      now := Pass(now, backoff);
      backoff := Next(backoff);
      WaitsAre(attempts);
    }
  }

  // ---------------------------------------------------------------------------------------------
  // What has been provisioned so far
  // ---------------------------------------------------------------------------------------------

  datatype Ext = Ext(id: nat, number: nat, secret: string)

  /** The server has this extension with this id and secret, and names SwarmDialer as its holder. */
  ghost predicate Kept(e: Ext, held: Holdings) {
    && e.number in held.ours && e.number in held.slots
    && held.slots[e.number].id == e.id && held.slots[e.number].secret == e.secret
  }

  ghost predicate Has(exts: seq<Ext>, n: nat) { exists i | 0 <= i < |exts| :: exts[i].number == n }

  /** The server has number `n`, and `exts` lists it exactly if it is ours there. */
  ghost predicate Told(exts: seq<Ext>, held: Holdings, n: nat) {
    n in held.slots && (n in held.ours <==> Has(exts, n))
  }

  /** Of the numbers `tried`, exactly those that are ours on the server are in `exts`, each once. */
  ghost predicate Sound(exts: seq<Ext>, held: Holdings, tried: set<nat>) {
    && (forall i | 0 <= i < |exts| :: exts[i].number in tried && Kept(exts[i], held))
    && (forall i, j | 0 <= i < j < |exts| :: exts[i].number != exts[j].number)
    && (forall n {:trigger Told(exts, held, n)} | n in tried :: Told(exts, held, n))
  }

  lemma {:induction false} SoundLater(exts: seq<Ext>, was: Holdings, now: Holdings, tried: set<nat>)
    requires Sound(exts, was, tried) && Grew(was, now)
    ensures Sound(exts, now, tried)
  {
    forall n | n in tried ensures Told(exts, now, n) { assert Told(exts, was, n); }
  }

  lemma {:induction false} SoundSkipped(exts: seq<Ext>, held: Holdings, tried: set<nat>, n: nat)
    requires Sound(exts, held, tried) && n !in tried && n in held.slots && n !in held.ours
    ensures Sound(exts, held, tried + {n})
  {
    forall m | m in tried + {n} ensures Told(exts, held, m) { assert m != n ==> Told(exts, held, m); }
  }

  lemma {:induction false} SoundMore(exts: seq<Ext>, held: Holdings, tried: set<nat>, e: Ext)
    requires Sound(exts, held, tried) && e.number !in tried && Kept(e, held)
    ensures Sound(exts + [e], held, tried + {e.number})
  {
    var more := exts + [e];
    assert more[|exts|] == e;
    forall n | n in tried + {e.number} ensures Told(more, held, n) {
      if n != e.number { assert Told(exts, held, n); }
      if Has(exts, n) {
        var i :| 0 <= i < |exts| && exts[i].number == n;
        assert more[i].number == n;
      }
    }
  }

  /** Extension `w` of the server is named by this prefix and its number. */
  predicate NamedBy(prefix: string, w: nat, held: Holdings) {
    w in held.slots && Decimal(held.slots[w].username) == prefix + Decimal(w)
  }

  /** The prefix was read from an extension of the server. */
  ghost predicate ReadFrom(prefix: string, held: Holdings) { exists w: nat :: NamedBy(prefix, w, held) }

  lemma {:induction false} ReadFromLater(prefix: string, was: Holdings, now: Holdings)
    requires ReadFrom(prefix, was) && Grew(was, now)
    ensures ReadFrom(prefix, now)
  {
    var w: nat :| NamedBy(prefix, w, was);
    assert NamedBy(prefix, w, now);
  }

  // ---------------------------------------------------------------------------------------------
  // What a run may fail for
  // ---------------------------------------------------------------------------------------------

  predicate HasSuffix(s: string, suffix: string) { |suffix| <= |s| && s[|s| - |suffix|..] == suffix }

  /** The numbers among these that the server holds in someone else's name. */
  function Foreign(held: Holdings, numbers: set<nat>): set<nat> {
    set n | n in numbers && n in held.slots && n !in held.ours
  }

  /** An error has its cause outside: there is such trouble, a number of ours is oddly named, or too many of the numbers
      tried are someone else's. */
  ghost predicate Excused(error: Error, held: Holdings, tried: set<nat>, w: Trouble) {
    match error
    case TooManyReserved => |Foreign(held, tried)| > MAX_SKIPS
    case Rejected(n, text) => w.refuses && n in tried && !IsReserved(text)
    case ReadBackFailed(n) => w.readsFail && n in tried && n in held.slots && n in held.ours
    case OddUsername(n) => n in tried && n in held.slots && !HasSuffix(Decimal(held.slots[n].username), Decimal(n))
    case Cancelled => w.cancels
    case NoSecret => w.noSecrets
    case GaveUp => w.requestsFail
    case UnknownItem(_) => w.strangers
  }

  lemma {:induction false} SubsetSize(a: set<nat>, b: set<nat>)
    requires a <= b
    ensures |a| <= |b|
  {
    assert b == a + (b - a);
  }

  lemma {:induction false} ExcusedLater(
    error: Error, was: Holdings, now: Holdings, tried: set<nat>, more: set<nat>, w: Trouble)
    requires Excused(error, was, tried, w) && Grew(was, now) && tried <= more
    ensures Excused(error, now, more, w)
  {
    if error.TooManyReserved? { SubsetSize(Foreign(was, tried), Foreign(now, more)); }
  }

  function NumberSet(exts: seq<Ext>): set<nat> { set e | e in exts :: e.number }

  lemma {:induction false} NumberSetSize(exts: seq<Ext>)
    requires forall i, j | 0 <= i < j < |exts| :: exts[i].number != exts[j].number
    ensures |NumberSet(exts)| == |exts|
  {
    if exts != [] {
      var last := |exts| - 1;
      NumberSetSize(exts[..last]);
      assert exts == exts[..last] + [exts[last]];
      assert NumberSet(exts) == NumberSet(exts[..last]) + {exts[last].number};
    }
  }

  /** The numbers tried that are not among the extensions are someone else's. */
  lemma {:induction false} RestIsForeign(exts: seq<Ext>, held: Holdings, tried: set<nat>)
    requires Sound(exts, held, tried)
    ensures |Foreign(held, tried)| == |tried| - |exts|
  {
    NumberSetSize(exts);
    forall n | n in tried ensures n in Foreign(held, tried) <==> n !in NumberSet(exts) {
      assert Told(exts, held, n);
    }
    assert NumberSet(exts) <= tried;
    assert tried == NumberSet(exts) + Foreign(held, tried);
  }

  // ---------------------------------------------------------------------------------------------
  // One item of a reply
  // ---------------------------------------------------------------------------------------------

  /** What the item means for its number: an extension of ours, or a number to skip. */
  method Settle(held: Holdings, n: nat, secret: string, outcome: Outcome, w: Trouble) returns (r: Result<Option<Ext>>)
    requires Truthful(Item(n, outcome), map[n := secret], held) && Fair(Item(n, outcome), map[n := secret], w)
    ensures r.Ok? ==> n in held.slots
    ensures r.Ok? && r.value.Some? ==> r.value.value.number == n && Kept(r.value.value, held)
    ensures r.Ok? && r.value.None? ==> n !in held.ours
    ensures r.Err? ==> Excused(r.error, held, {n}, w) && !r.error.TooManyReserved?
  {
    match outcome {
      case Created(id) =>
        return Ok(Some(Ext(id, n, secret)));
      case Failed(text) =>
        if IsReserved(text) && IsOwn(text, n) {
          var existing := GetExtensionByNumber(held, n, w);
          if existing.None? { return Err(ReadBackFailed(n)); }
          return Ok(Some(Ext(existing.value.id, n, existing.value.secret)));
        }
        if IsReserved(text) { return Ok(None); }
        return Err(Rejected(n, text));
    }
  }

  method SipUsernamePrefix(held: Holdings, n: nat, w: Trouble) returns (r: Result<string>)
    requires n in held.ours && n in held.slots
    ensures r.Ok? ==> Decimal(held.slots[n].username) == r.value + Decimal(n)
    ensures r.Err? ==> Excused(r.error, held, {n}, w)
  {
    var found := GetExtensionByNumber(held, n, w);
    if found.None? { return Err(ReadBackFailed(n)); }
    var username, num := Decimal(found.value.username), Decimal(n);
    if !HasSuffix(username, num) { return Err(OddUsername(n)); }
    return Ok(username[..|username| - |num|]);
  }

  // ---------------------------------------------------------------------------------------------
  // Names
  // ---------------------------------------------------------------------------------------------

  lemma {:induction false} ContainsAt(before: string, part: string, after: string)
    ensures Contains(before + part + after, part)
  {
    var s := before + part + after;
    assert s[|before|..] == part + after;
    assert HasPrefix(s[|before|..], part);
  }

  /** An extension SwarmDialer created is recognised as its own. */
  lemma {:induction false} HolderIsOwn(n: nat)
    ensures IsOwn(TakenText(n, Holder(n)), n)
  {
    var before := NUMBER + Decimal(n) + IS;
    ContainsAt(before, OwnMark(n), "");
    assert TakenText(n, Holder(n)) == before + OwnMark(n) + "";
  }

  lemma {:induction false} LowerAt(before: string, part: string, after: string)
    requires forall i | 0 <= i < |part| :: LowerChar(part[i]) == part[i]
    ensures Contains(ToLower(before + part + after), part)
  {
    var s := before + part + after;
    assert forall i | 0 <= i < |part| :: s[|before| + i] == part[i];
    assert ToLower(s)[|before|..][..|part|] == part;
    assert HasPrefix(ToLower(s)[|before|..], part);
  }

  /** The refusal of a taken number reads as one, and that of a number that an earlier attempt created is recognised as
      its own: leftovers are adopted. */
  lemma {:induction false} LeftoverIsAdopted(n: nat, holder: string)
    ensures IsReserved(TakenText(n, holder)) && IsOwn(TakenText(n, Holder(n)), n)
  {
    HolderIsOwn(n);
    var before, after := NUMBER + Decimal(n) + " ", " by " + holder;
    assert IS == " " + "is " && RESERVED_BY == "reserved" + " by ";
    assert "is reserved" == "is " + "reserved";
    assert TakenText(n, holder) == before + "is reserved" + after;
    LowerAt(before, "is reserved", after);
  }

  // ---------------------------------------------------------------------------------------------
  // In number order
  // ---------------------------------------------------------------------------------------------

  ghost predicate Increasing(exts: seq<Ext>) {
    forall i, j | 0 <= i < j < |exts| :: exts[i].number < exts[j].number
  }

  function Insert(e: Ext, exts: seq<Ext>): seq<Ext> {
    if exts == [] || e.number < exts[0].number then [e] + exts else [exts[0]] + Insert(e, exts[1..])
  }

  /** sort.Slice by number. */
  function SortByNumber(exts: seq<Ext>): seq<Ext> {
    if exts == [] then [] else Insert(exts[0], SortByNumber(exts[1..]))
  }

  lemma {:induction false} InsertHas(e: Ext, exts: seq<Ext>, x: Ext)
    ensures |Insert(e, exts)| == |exts| + 1
    ensures x in Insert(e, exts) <==> x == e || x in exts
  {
    if exts != [] && e.number >= exts[0].number {
      InsertHas(e, exts[1..], x);
    }
  }

  lemma {:induction false} InsertIncreasing(e: Ext, exts: seq<Ext>)
    requires Increasing(exts) && forall x | x in exts :: x.number != e.number
    ensures Increasing(Insert(e, exts))
  {
    if exts != [] && e.number > exts[0].number {
      var rest := Insert(e, exts[1..]);
      InsertIncreasing(e, exts[1..]);
      forall i | 0 <= i < |rest| ensures exts[0].number < rest[i].number {
        InsertHas(e, exts[1..], rest[i]);
      }
    } else if exts != [] {
      assert e.number < exts[0].number;
    }
  }

  lemma {:induction false} SortHas(exts: seq<Ext>, x: Ext)
    ensures |SortByNumber(exts)| == |exts|
    ensures x in SortByNumber(exts) <==> x in exts
  {
    if exts != [] {
      SortHas(exts[1..], x);
      InsertHas(exts[0], SortByNumber(exts[1..]), x);
    }
  }

  lemma {:induction false} SortIncreasing(exts: seq<Ext>)
    requires forall i, j | 0 <= i < j < |exts| :: exts[i].number != exts[j].number
    ensures Increasing(SortByNumber(exts))
  {
    if exts != [] {
      SortIncreasing(exts[1..]);
      forall x | x in SortByNumber(exts[1..]) ensures x.number != exts[0].number {
        SortHas(exts[1..], x);
      }
      InsertIncreasing(exts[0], SortByNumber(exts[1..]));
    }
  }

  ghost predicate SameMembers(a: seq<Ext>, b: seq<Ext>) { forall x :: x in a <==> x in b }

  lemma {:induction false} HasSame(a: seq<Ext>, b: seq<Ext>, n: nat)
    requires SameMembers(a, b) && Has(a, n)
    ensures Has(b, n)
  {
    var i :| 0 <= i < |a| && a[i].number == n;
    assert a[i] in b;
  }

  lemma {:induction false} SoundSame(a: seq<Ext>, b: seq<Ext>, held: Holdings, tried: set<nat>)
    requires SameMembers(a, b) && Sound(a, held, tried) && Increasing(b)
    ensures Sound(b, held, tried)
  {
    forall n | n in tried ensures Told(b, held, n) {
      assert Told(a, held, n);
      if Has(a, n) { HasSame(a, b, n); }
      if Has(b, n) { HasSame(b, a, n); }
    }
    forall i | 0 <= i < |b| ensures b[i].number in tried && Kept(b[i], held) { assert b[i] in a; }
  }

  lemma {:induction false} SortSame(exts: seq<Ext>)
    ensures SameMembers(exts, SortByNumber(exts)) && |SortByNumber(exts)| == |exts|
  {
    forall x ensures |SortByNumber(exts)| == |exts| && (x in exts <==> x in SortByNumber(exts)) {
      SortHas(exts, x);
    }
    SortHas(exts, Ext(0, 0, ""));
  }

  /** The same extensions in number order are as sound. */
  lemma {:induction false} SortKeeps(exts: seq<Ext>, held: Holdings, tried: set<nat>)
    requires Sound(exts, held, tried)
    ensures var sorted := SortByNumber(exts);
      Increasing(sorted) && |sorted| == |exts| && Sound(sorted, held, tried)
  {
    SortIncreasing(exts);
    SortSame(exts);
    SoundSame(exts, SortByNumber(exts), held, tried);
  }

  // ---------------------------------------------------------------------------------------------
  // The whole run
  // ---------------------------------------------------------------------------------------------

  /** The first number with `digits` digits. */
  function Base(digits: int): nat
    ensures Base(digits) > 0
  {
    if digits <= 1 then 1 else 10 * Base(digits - 1)
  }

  /** A positive number has that many digits exactly when it is at least that base and below ten times it. */
  lemma {:induction false} DigitsAre(digits: nat, n: nat)
    requires digits >= 1 && n > 0
    ensures |Decimal(n)| == digits <==> Base(digits) <= n < 10 * Base(digits)
  {
    if digits > 1 && n >= 10 { DigitsAre(digits - 1, n / 10); }
  }

  lemma {:induction false} BaseGrows(d: nat, e: nat)
    requires 1 <= d <= e
    ensures Base(d) <= Base(e)
  {
    if d < e { BaseGrows(d, e - 1); }
  }

  /** It is the first number with that many digits. */
  lemma {:induction false} BaseIsFirst(digits: nat, n: nat)
    requires digits >= 1 && n > 0
    ensures |Decimal(Base(digits))| == digits
    ensures n < Base(digits) <==> |Decimal(n)| < digits
  {
    DigitsAre(digits, Base(digits));
    DigitsAre(|Decimal(n)|, n);
    if n < Base(digits) {
      if |Decimal(n)| >= digits { BaseGrows(digits, |Decimal(n)|); }
    } else if |Decimal(n)| < digits {
      BaseGrows(|Decimal(n)| + 1, digits);
    }
  }

  /** All numbers have at least that many digits, and exactly as many if there are enough of those for the count and
      the numbers that may be skipped. */
  predicate AllOfLength(exts: seq<Ext>, digits: nat, count: nat)
    requires digits >= 1
  {
    forall i | 0 <= i < |exts| ::
      |Decimal(exts[i].number)| >= digits &&
      (count + MAX_SKIPS <= 9 * Base(digits) ==> |Decimal(exts[i].number)| == digits)
  }

  lemma {:induction false} LengthsFit(exts: seq<Ext>, count: nat, digits: nat, tried: nat, held: Holdings)
    requires digits >= 1 && Provisioned(exts, count, Base(digits), tried, held)
    ensures AllOfLength(exts, digits, count)
  {
    NumbersAre(Base(digits), tried);
    forall i | 0 <= i < |exts|
      ensures |Decimal(exts[i].number)| >= digits &&
        (count + MAX_SKIPS <= 9 * Base(digits) ==> |Decimal(exts[i].number)| == digits)
    {
      assert exts[i].number in Numbers(Base(digits), tried);
      BaseIsFirst(digits, exts[i].number);
      DigitsAre(digits, exts[i].number);
    }
  }

  function Numbers(lo: nat, n: nat): set<nat> {
    if n == 0 then {} else Numbers(lo, n - 1) + {lo + n - 1}
  }

  lemma {:induction false} NumbersAre(lo: nat, n: nat)
    ensures |Numbers(lo, n)| == n && forall i :: i in Numbers(lo, n) <==> lo <= i < lo + n
  {
    if n > 0 { NumbersAre(lo, n - 1); }
  }

  lemma {:induction false} NumbersFollow(lo: nat, m: nat, n: nat)
    ensures Numbers(lo, m + n) == Numbers(lo, m) + Numbers(lo + m, n) && Numbers(lo, m) !! Numbers(lo + m, n)
  {
    NumbersAre(lo, m);
    NumbersAre(lo + m, n);
    NumbersAre(lo, m + n);
  }

  /** How many rounds are behind us when `done` of `count` extensions are made and `skips` numbers skipped. */
  ghost predicate RoundsFit(rounds: nat, count: nat, done: nat, skips: nat) {
    && done <= count
    && (count - done >= BATCH_SIZE ==> BATCH_SIZE * rounds == done + skips)
    && (0 < count - done < BATCH_SIZE ==> rounds <= count / BATCH_SIZE + skips)
    && (done == count ==> rounds <= count / BATCH_SIZE + skips + 1)
  }

  lemma {:induction false} AnotherRound(rounds: nat, count: nat, done: nat, skips: nat, made: nat, skipped: nat)
    requires RoundsFit(rounds, count, done, skips) && done < count
    requires made + skipped == if count - done > BATCH_SIZE then BATCH_SIZE else count - done
    ensures RoundsFit(rounds + 1, count, done + made, skips + skipped)
  {
    if count - done >= BATCH_SIZE {
      assert BATCH_SIZE * (rounds + 1) == done + made + (skips + skipped);
    }
  }

  lemma {:induction false} TruthfulLater(item: Item, batch: map<nat, string>, was: Holdings, now: Holdings)
    requires Truthful(item, batch, was) && Grew(was, now)
    ensures Truthful(item, batch, now)
  {}

  /** What a run has so far: the extensions, how many numbers it skipped, and the username prefix. */
  datatype Haul = Haul(exts: seq<Ext>, skips: nat, prefix: Option<string>)

  ghost predicate Good(h: Haul, held: Holdings, tried: set<nat>) {
    && Sound(h.exts, held, tried) && (h.exts != [] ==> h.prefix.Some?)
    && (h.prefix.Some? ==> ReadFrom(h.prefix.value, held))
    && h.skips <= MAX_SKIPS && |h.exts| + h.skips == |tried|
  }

  ghost predicate MoreThan(h: Haul, before: Haul) { |h.exts| >= |before.exts| && h.skips >= before.skips }

  lemma {:induction false} GoodLater(h: Haul, was: Holdings, now: Holdings, tried: set<nat>)
    requires Good(h, was, tried) && Grew(was, now)
    ensures Good(h, now, tried)
  {
    SoundLater(h.exts, was, now, tried);
    if h.prefix.Some? { ReadFromLater(h.prefix.value, was, now); }
  }

  /** One item of a reply, added to the haul. */
  method TakeItem(
    held: Holdings, n: nat, secret: string, outcome: Outcome, h: Haul, ghost tried: set<nat>, w: Trouble)
    returns (r: Result<Haul>)
    requires Truthful(Item(n, outcome), map[n := secret], held) && Fair(Item(n, outcome), map[n := secret], w)
    requires Good(h, held, tried) && n !in tried
    ensures r.Ok? ==> Good(r.value, held, tried + {n}) && MoreThan(r.value, h)
    ensures r.Err? ==> Excused(r.error, held, tried + {n}, w)
  {
    var settled := Settle(held, n, secret, outcome, w);
    if settled.Err? { return Err(settled.error); }
    if settled.value.None? {
      SoundSkipped(h.exts, held, tried, n);
      RestIsForeign(h.exts, held, tried + {n});
      if h.skips + 1 > MAX_SKIPS { return Err(TooManyReserved); }
      return Ok(h.(skips := h.skips + 1));
    }
    var ext, prefix := settled.value.value, h.prefix;
    if prefix.None? {
      var found := SipUsernamePrefix(held, n, w);
      if found.Err? { return Err(found.error); }
      assert NamedBy(found.value, n, held);
      prefix := Some(found.value);
    }
    SoundMore(h.exts, held, tried, ext);
    return Ok(h.(exts := h.exts + [ext], prefix := prefix));
  }

  /** The next item of a reply, other parties having been at work meanwhile. */
  method TakeNext(before: Holdings, batch: map<nat, string>, item: Item, h: Haul, ghost tried: set<nat>, w: Trouble)
    returns (r: Result<Haul>, held: Holdings)
    requires Fair(item, batch, w)
    requires Valid(before) && Truthful(item, batch, before) && Good(h, before, tried)
    requires item.number in batch ==> item.number !in tried
    ensures Valid(held) && Grew(before, held) && held.made == before.made
    ensures r.Ok? ==> item.number in batch && MoreThan(r.value, h) && Good(r.value, held, tried + {item.number})
    ensures r.Err? ==> if item.number in batch then Excused(r.error, held, tried + {item.number}, w)
                       else r.error.UnknownItem? && w.strangers
  {
    held := Others(before);
    if item.number !in batch { return Err(UnknownItem(item.number)), held; }
    GoodLater(h, before, held, tried);
    TruthfulLater(item, batch, before, held);
    r := TakeItem(held, item.number, batch[item.number], item.outcome, h, tried, w);
  }

  lemma {:induction false} AllTruthfulLater(reply: seq<Item>, batch: map<nat, string>, was: Holdings, now: Holdings)
    requires AllTruthful(reply, batch, was) && Grew(was, now)
    ensures AllTruthful(reply, batch, now)
  {
    forall i | 0 <= i < |reply| ensures Truthful(reply[i], batch, now) { TruthfulLater(reply[i], batch, was, now); }
  }

  /** `tried` and the numbers of the first `k` items. */
  ghost function After(tried: set<nat>, reply: seq<Item>, k: nat): set<nat>
    requires k <= |reply|
  {
    if k == 0 then tried else After(tried, reply, k - 1) + {reply[k - 1].number}
  }

  lemma {:induction false} AfterHas(tried: set<nat>, reply: seq<Item>, k: nat, n: nat)
    requires k <= |reply|
    ensures n in After(tried, reply, k) <==> n in tried || exists i | 0 <= i < k :: reply[i].number == n
  {
    if k > 0 { AfterHas(tried, reply, k - 1, n); }
  }

  ghost predicate NewAt(tried: set<nat>, reply: seq<Item>, k: nat, batch: map<nat, string>)
    requires k < |reply|
  {
    reply[k].number in batch ==> reply[k].number !in After(tried, reply, k)
  }

  /** No item is about a requested number that was dealt with before. */
  ghost predicate Fresh(tried: set<nat>, reply: seq<Item>, batch: map<nat, string>) {
    forall k | 0 <= k < |reply| :: NewAt(tried, reply, k, batch)
  }

  lemma {:induction false} ListedIsFresh(tried: set<nat>, reply: seq<Item>, batch: map<nat, string>)
    requires Lists(reply, batch.Keys) && forall n | n in batch :: n !in tried
    ensures Fresh(tried, reply, batch)
  {
    forall k | 0 <= k < |reply| ensures NewAt(tried, reply, k, batch) {
      AfterHas(tried, reply, k, reply[k].number);
    }
  }

  ghost predicate AllAsked(reply: seq<Item>, k: nat, batch: map<nat, string>)
    requires k <= |reply|
  {
    forall i | 0 <= i < k :: reply[i].number in batch
  }

  lemma {:induction false} AfterAll(tried: set<nat>, reply: seq<Item>, batch: map<nat, string>)
    requires Lists(reply, batch.Keys) && AllAsked(reply, |reply|, batch)
    ensures After(tried, reply, |reply|) == tried + batch.Keys
  {
    forall n ensures n in After(tried, reply, |reply|) <==> n in tried + batch.Keys {
      AfterHas(tried, reply, |reply|, n);
    }
  }

  /** The numbers dealt with were tried before or asked for. */
  lemma {:induction false} AfterWithin(tried: set<nat>, reply: seq<Item>, k: nat, batch: map<nat, string>)
    requires k <= |reply| && AllAsked(reply, k, batch)
    ensures After(tried, reply, k) <= tried + batch.Keys
  {
    if k > 0 { AfterWithin(tried, reply, k - 1, batch); }
  }

  lemma {:induction false} ExcusedWithin(
    error: Error, held: Holdings, tried: set<nat>, reply: seq<Item>, k: nat, batch: map<nat, string>, w: Trouble)
    requires k < |reply| && AllAsked(reply, k, batch)
    requires if reply[k].number in batch then Excused(error, held, After(tried, reply, k) + {reply[k].number}, w)
             else error.UnknownItem? && w.strangers
    ensures Excused(error, held, tried + batch.Keys, w)
  {
    if reply[k].number in batch {
      AfterWithin(tried, reply, k, batch);
      ExcusedLater(error, held, held, After(tried, reply, k) + {reply[k].number}, tried + batch.Keys, w);
    }
  }

  method TakeResults(
    before: Holdings, batch: map<nat, string>, reply: seq<Item>, start: Haul, ghost tried: set<nat>, w: Trouble)
    returns (r: Result<Haul>, held: Holdings)
    requires AllFair(reply, batch, w)
    requires Valid(before) && AllTruthful(reply, batch, before)
    requires Good(start, before, tried) && Fresh(tried, reply, batch)
    ensures Valid(held) && Grew(before, held) && held.made == before.made
    ensures r.Ok? ==> AllAsked(reply, |reply|, batch) && MoreThan(r.value, start)
    ensures r.Ok? ==> Good(r.value, held, After(tried, reply, |reply|))
    ensures r.Err? ==> Excused(r.error, held, tried + batch.Keys, w)
  {
    var h := start;
    held := before;
    for k := 0 to |reply|
      invariant Valid(held) && Grew(before, held) && held.made == before.made
      invariant AllTruthful(reply, batch, held) && AllAsked(reply, k, batch)
      invariant Good(h, held, After(tried, reply, k)) && MoreThan(h, start)
    {
      ghost var was := held;
      var taken;
      assert NewAt(tried, reply, k, batch) && Truthful(reply[k], batch, held) && Fair(reply[k], batch, w);
      taken, held := TakeNext(held, batch, reply[k], h, After(tried, reply, k), w);
      if taken.Err? {
        ExcusedWithin(taken.error, held, tried, reply, k, batch, w);
        return Err(taken.error), held;
      }
      h := taken.value;
      AllTruthfulLater(reply, batch, was, held);
    }
    return Ok(h), held;
  }

  method FirstNumber(digits: int) returns (base: nat)
    ensures base == Base(digits)
  {
    base := 1;
    var i := 1;
    while i < digits
      invariant i >= 1 && (i <= digits || i == 1) && base == Base(i)
    {
      base := 10 * base;
      i := i + 1;
    }
  }

  /** The numbers of a batch with a fresh secret for each, or nothing if a secret cannot be made. */
  method MakeBatch(candidate: nat, n: nat, w: Trouble) returns (batch: Option<map<nat, string>>)
    ensures batch.None? ==> w.noSecrets
    ensures batch.Some? ==> batch.value.Keys == Numbers(candidate, n)
  {
    var made: map<nat, string> := map[];
    for i := 0 to n
      invariant made.Keys == Numbers(candidate, i)
    {
      var fails: bool := *;
      if w.noSecrets && fails { return None; }
      var secret: string := *;
      made := made[candidate + i := secret];
    }
    return Some(made);
  }

  /** The promise of a successful run that tried `tried` numbers from `base` on: exactly `count` extensions in
      number order, each held by the server with that id and secret; and of the numbers tried, exactly
      those the server holds in SwarmDialer's name are returned, the others being taken by someone else. */
  ghost predicate Provisioned(exts: seq<Ext>, count: nat, base: nat, tried: nat, held: Holdings) {
    && |exts| == count && Increasing(exts) && Sound(exts, held, Numbers(base, tried))
    && count <= tried <= count + MAX_SKIPS
  }

  /** What a successful run hands back: the extensions, and the prefix that makes a SIP username of each. */
  datatype Provision = Provision(exts: seq<Ext>, prefix: string)

  function Username(p: Provision, e: Ext): string { p.prefix + Decimal(e.number) }

  /** The server makes each username of one prefix and the number. */
  ghost predicate Uniform(held: Holdings, prefix: string) {
    forall n | n in held.slots :: NamedBy(prefix, n, held)
  }

  /** If it does, every username handed back is the server's. */
  lemma {:induction false} UsernamesAreRight(p: Provision, held: Holdings, prefix: string, tried: set<nat>, i: nat)
    requires Sound(p.exts, held, tried) && ReadFrom(p.prefix, held) && Uniform(held, prefix) && i < |p.exts|
    ensures Username(p, p.exts[i]) == Decimal(held.slots[p.exts[i].number].username)
  {
    var w: nat :| NamedBy(p.prefix, w, held);
    assert NamedBy(prefix, w, held);
    assert (p.prefix + Decimal(w))[..|p.prefix|] == p.prefix && (prefix + Decimal(w))[..|prefix|] == prefix;
    assert NamedBy(prefix, p.exts[i].number, held);
  }

  /** Good for the first `tried` numbers from `base` on. */
  ghost predicate GoodTo(h: Haul, held: Holdings, base: nat, tried: nat) {
    Good(h, held, Numbers(base, tried)) && |h.exts| + h.skips == tried
  }

  /** Only numbers from `base` on, `n` of them, have been created since. */
  ghost predicate MadeFrom(was: set<nat>, now: set<nat>, base: nat, n: nat) {
    was <= now && forall m | m in now :: m in was || base <= m < base + n
  }

  lemma {:induction false} GoodNext(h: Haul, held: Holdings, base: nat, tried: nat, n: nat)
    requires Good(h, held, Numbers(base, tried) + Numbers(base + tried, n))
    ensures GoodTo(h, held, base, tried + n)
  {
    NumbersFollow(base, tried, n);
    NumbersAre(base, tried + n);
  }

  /** Whoever goes through the whole reply has dealt with each number of the batch, once. */
  ghost predicate Covers(tried: set<nat>, reply: seq<Item>, batch: map<nat, string>) {
    && Fresh(tried, reply, batch)
    && (AllAsked(reply, |reply|, batch) ==> After(tried, reply, |reply|) == tried + batch.Keys)
  }

  lemma {:induction false} ListedCovers(tried: set<nat>, reply: seq<Item>, batch: map<nat, string>)
    requires Lists(reply, batch.Keys) && forall n | n in batch :: n !in tried
    ensures Covers(tried, reply, batch)
  {
    ListedIsFresh(tried, reply, batch);
    if AllAsked(reply, |reply|, batch) { AfterAll(tried, reply, batch); }
  }

  /** The next `n` numbers sent off, with the reply if there is one. */
  method SendBatch(
    before: Holdings, start: int, base: nat, ghost tried: nat, candidate: nat, n: nat, maxWait: int, w: Trouble)
    returns (r: Result<seq<Item>>, batch: map<nat, string>, held: Holdings, now: int)
    requires Valid(before) && candidate == base + tried && 1 <= n <= BATCH_SIZE
    ensures Valid(held) && Grew(before, held) && MadeFrom(before.made, held.made, candidate, n)
    ensures r.Ok? ==> AllTruthful(r.value, batch, held) && AllFair(r.value, batch, w)
    ensures r.Ok? ==> batch.Keys == Numbers(candidate, n) && Covers(Numbers(base, tried), r.value, batch)
    ensures r.Err? ==> Excused(r.error, held, {}, w) && (r.error.NoSecret? || r.error.Cancelled? || r.error.GaveUp?)
  {
    var made := MakeBatch(candidate, n, w);
    if made.None? { return Err(NoSecret), map[], before, start; }
    batch := made.value;
    NumbersAre(candidate, n);
    ghost var attempts;
    r, held, now, attempts := CreateBatchWithRetry(before, start, batch, maxWait, w);
    if r.Ok? {
      assert forall m | m in batch :: m !in Numbers(base, tried) by { NumbersAre(base, tried); }
      ListedCovers(Numbers(base, tried), r.value, batch);
    }
  }

  /** What a complete haul hands back, in number order. */
  method Finish(h: Haul, ghost held: Holdings, ghost base: nat, ghost tried: nat) returns (p: Provision)
    requires GoodTo(h, held, base, tried)
    ensures Provisioned(p.exts, |h.exts|, base, tried, held)
    ensures p.exts != [] ==> ReadFrom(p.prefix, held)
  {
    SortKeeps(h.exts, held, Numbers(base, tried));
    return Provision(SortByNumber(h.exts), if h.prefix.Some? then h.prefix.value else "");
  }

  /** Where the loop is: nothing lost on the server, and the haul good for what was tried. */
  ghost predicate Underway(before: Holdings, held: Holdings, h: Haul, base: nat, tried: nat) {
    && Valid(held) && Grew(before, held) && MadeFrom(before.made, held.made, base, tried)
    && GoodTo(h, held, base, tried)
  }

  /** One round of the loop: the next `n` numbers. */
  method Round(
    ghost before: Holdings, now: Holdings, start: int, base: nat, ghost tried: nat, candidate: nat, n: nat,
    maxWait: int, h: Haul, w: Trouble)
    returns (r: Result<Haul>, held: Holdings, time: int)
    requires candidate == base + tried && 1 <= n <= BATCH_SIZE && Underway(before, now, h, base, tried)
    ensures Valid(held) && Grew(before, held) && MadeFrom(before.made, held.made, base, tried + n)
    ensures r.Ok? ==> Underway(before, held, r.value, base, tried + n) && MoreThan(r.value, h)
    ensures r.Err? ==> Excused(r.error, held, Numbers(base, tried + n), w)
  {
    var sent, batch;
    sent, batch, held, time := SendBatch(now, start, base, tried, candidate, n, maxWait, w);
    if sent.Err? { return Err(sent.error), held, time; }
    ghost var first := Numbers(base, tried);
    GoodLater(h, now, held, first);
    r, held := TakeResults(held, batch, sent.value, h, first, w);
    NumbersFollow(base, tried, n);
    if r.Ok? { GoodNext(r.value, held, base, tried, n); }
  }

  const MAX_ROUNDS_MORE := MAX_SKIPS + 1

  /** Neither too many rounds nor too many numbers, also when one more round fails. */
  lemma {:induction false} RoundsBounded(rounds: nat, count: nat, done: nat, skips: nat)
    requires RoundsFit(rounds, count, done, skips) && skips <= MAX_SKIPS
    ensures rounds <= count / BATCH_SIZE + MAX_ROUNDS_MORE
    ensures done < count ==> rounds + 1 <= count / BATCH_SIZE + MAX_ROUNDS_MORE
  {}

  /** One turn of the loop: as many numbers as are still needed, up to a batch. */
  method NextRound(
    ghost before: Holdings, now: Holdings, start: int, base: nat, ghost tried: nat, ghost rounds: nat, candidate: nat,
    count: nat, maxWait: int, h: Haul, w: Trouble)
    returns (r: Result<Haul>, held: Holdings, time: int, n: nat)
    requires candidate == base + tried && Underway(before, now, h, base, tried)
    requires RoundsFit(rounds, count, |h.exts|, h.skips) && |h.exts| < count
    ensures n > 0 && tried + n <= count + MAX_SKIPS && rounds + 1 <= count / BATCH_SIZE + MAX_ROUNDS_MORE
    ensures Valid(held) && Grew(before, held) && MadeFrom(before.made, held.made, base, tried + n)
    ensures r.Ok? ==> Underway(before, held, r.value, base, tried + n)
    ensures r.Ok? ==> RoundsFit(rounds + 1, count, |r.value.exts|, r.value.skips)
    ensures r.Err? ==> Excused(r.error, held, Numbers(base, tried + n), w)
  {
    n := if count - |h.exts| > BATCH_SIZE then BATCH_SIZE else count - |h.exts|;
    RoundsBounded(rounds, count, |h.exts|, h.skips);
    r, held, time := Round(before, now, start, base, tried, candidate, n, maxWait, h, w);
    if r.Ok? {
      AnotherRound(rounds, count, |h.exts|, h.skips, |r.value.exts| - |h.exts|, r.value.skips - h.skips);
    }
  }

  /** The loop, for the numbers from `base` on. */
  method ProvisionLoop(before: Holdings, start: int, base: nat, count: nat, maxWait: int, w: Trouble)
    returns (r: Result<Haul>, held: Holdings, ghost tried: nat, ghost rounds: nat)
    requires Valid(before)
    ensures Valid(held) && Grew(before, held) && MadeFrom(before.made, held.made, base, tried)
    ensures tried <= count + MAX_SKIPS && rounds <= count / BATCH_SIZE + MAX_ROUNDS_MORE
    ensures r.Ok? ==> |r.value.exts| == count && GoodTo(r.value, held, base, tried)
    ensures r.Err? ==> Excused(r.error, held, Numbers(base, tried), w)
  {
    var h, candidate, now := Haul([], 0, None), base, start;
    held, tried, rounds := before, 0, 0;
    while |h.exts| < count
      invariant candidate == base + tried && Underway(before, held, h, base, tried)
      invariant RoundsFit(rounds, count, |h.exts|, h.skips)
      decreases count + MAX_SKIPS - tried
    {
      RoundsBounded(rounds, count, |h.exts|, h.skips);
      var cancelled: bool := *;
      if w.cancels && cancelled { return Err(Cancelled), held, tried, rounds; }
      var taken, n;
      taken, held, now, n := NextRound(before, held, now, base, tried, rounds, candidate, count, maxWait, h, w);
      candidate, tried, rounds := candidate + n, tried + n, rounds + 1;
      if taken.Err? { return Err(taken.error), held, tried, rounds; }
      h := taken.value;
    }
    RoundsBounded(rounds, count, |h.exts|, h.skips);
    return Ok(h), held, tried, rounds;
  }

  method ProvisionExtensions(before: Holdings, start: int, digits: int, count: nat, maxWait: int, w: Trouble)
    returns (r: Result<Provision>, held: Holdings, ghost tried: nat, ghost rounds: nat)
    requires Valid(before)
    ensures Valid(held) && Grew(before, held) && MadeFrom(before.made, held.made, Base(digits), tried)
    ensures tried <= count + MAX_SKIPS && rounds <= count / BATCH_SIZE + MAX_ROUNDS_MORE
    ensures r.Ok? ==> Provisioned(r.value.exts, count, Base(digits), tried, held)
    ensures r.Ok? && r.value.exts != [] ==> ReadFrom(r.value.prefix, held)
    ensures r.Ok? && digits >= 1 ==> AllOfLength(r.value.exts, digits, count)
    ensures r.Err? ==> Excused(r.error, held, Numbers(Base(digits), tried), w)
  {
    var base := FirstNumber(digits);
    var h;
    h, held, tried, rounds := ProvisionLoop(before, start, base, count, maxWait, w);
    if h.Err? { return Err(h.error), held, tried, rounds; }
    var p := Finish(h.value, held, base, tried);
    if digits >= 1 { LengthsFit(p.exts, count, digits, tried, held); }
    return Ok(p), held, tried, rounds;
  }

  /** Nothing a successful run created is orphaned: it is handed back, once, with the secret it has on the
      server, and that even when the reply that reported its creation was lost. */
  lemma {:induction false} NothingOrphaned(
    before: Holdings, held: Holdings, exts: seq<Ext>, count: nat, base: nat, tried: nat, n: nat)
    requires Valid(held) && MadeFrom(before.made, held.made, base, tried)
    requires Provisioned(exts, count, base, tried, held)
    requires n in held.made && n !in before.made
    ensures exists i | 0 <= i < |exts| :: exts[i].number == n && exts[i].secret == held.slots[n].secret
  {
    NumbersAre(base, tried);
    assert Told(exts, held, n);
    var i :| 0 <= i < |exts| && exts[i].number == n;
    assert Kept(exts[i], held);
  }

  /** Every number tried and not handed back is someone else's, and there are at most twenty of them. */
  lemma {:induction false} SkippedAreForeign(held: Holdings, exts: seq<Ext>, count: nat, base: nat, tried: nat, n: nat)
    requires Valid(held) && Provisioned(exts, count, base, tried, held)
    requires base <= n < base + tried && !Has(exts, n)
    ensures n in held.slots && !OwnSlot(n, held.slots[n]) && tried - |exts| <= MAX_SKIPS
  {
    NumbersAre(base, tried);
    assert Told(exts, held, n);
  }

  // ---------------------------------------------------------------------------------------------
  // How exact the test for our own extensions is
  // ---------------------------------------------------------------------------------------------

  lemma {:induction false} NoBrackets(n: nat)
    ensures forall i | 0 <= i < |Decimal(n)| :: Decimal(n)[i] != '('
  {
    assert forall i | 0 <= i < |Decimal(n)| :: IsDigit(Decimal(n)[i]);
  }

  /** Where the mark of number `n` can occur in the refusal of a number held by extension SwarmDialer `m`:
      the opening bracket fixes the place. */
  lemma {:induction false} MarkPlace(n: nat, m: nat, i: nat)
    requires i <= |TakenText(n, Holder(m))| && HasPrefix(TakenText(n, Holder(m))[i..], OwnMark(n))
    ensures i == |NUMBER + Decimal(n) + IS|
  {
    var before := NUMBER + Decimal(n) + IS;
    var text := TakenText(n, Holder(m));
    assert text == before + (RESERVED_BY + Holder(m));
    assert OwnMark(n)[|RESERVED_BY|] == '(' by { assert SWARM_DIALER[0] == '('; }
    assert text[i + |RESERVED_BY|] == '(' by { assert text[i..][|RESERVED_BY|] == OwnMark(n)[|RESERVED_BY|]; }
    OneBracket(n, m, i + |RESERVED_BY|);
  }

  lemma {:induction false} OneBracket(n: nat, m: nat, k: nat)
    requires k < |TakenText(n, Holder(m))| && TakenText(n, Holder(m))[k] == '('
    ensures k == |NUMBER + Decimal(n) + IS| + |RESERVED_BY|
  {
    var a, b := NUMBER + Decimal(n) + IS, RESERVED_BY + Holder(m);
    assert TakenText(n, Holder(m)) == a + b;
    if k < |a| {
      NoBracketBefore(n, k);
    } else {
      assert b[k - |a|] == '(';
      OneBracketAfter(m, k - |a|);
    }
  }

  lemma {:induction false} NoBracketBefore(n: nat, k: nat)
    requires k < |NUMBER + Decimal(n) + IS|
    ensures (NUMBER + Decimal(n) + IS)[k] != '('
  {
    NoBrackets(n);
  }

  lemma {:induction false} OneBracketAfter(m: nat, k: nat)
    requires k < |RESERVED_BY + Holder(m)| && (RESERVED_BY + Holder(m))[k] == '('
    ensures k == |RESERVED_BY|
  {
    NoBrackets(m);
  }

  /** An extension that SwarmDialer made as `m` is taken for its own at number `n` exactly when the digits of
      `n` begin those of `m`. */
  lemma {:induction false} OwnExactly(n: nat, m: nat)
    ensures IsOwn(TakenText(n, Holder(m)), n) <==> HasPrefix(Decimal(m), Decimal(n))
  {
    var before, text := NUMBER + Decimal(n) + IS, TakenText(n, Holder(m));
    assert text[|before|..] == RESERVED_BY + Holder(m);
    PrefixCut(RESERVED_BY, Holder(m), Holder(n));
    PrefixCut(SWARM_DIALER, Decimal(m), Decimal(n));
    if IsOwn(text, n) {
      var i :| 0 <= i <= |text| && HasPrefix(text[i..], OwnMark(n));
      MarkPlace(n, m, i);
    }
    if HasPrefix(Decimal(m), Decimal(n)) {
      assert HasPrefix(text[|before|..], OwnMark(n));
    }
  }

  lemma {:induction false} PrefixCut(a: string, s: string, t: string)
    ensures HasPrefix(a + s, a + t) <==> HasPrefix(s, t)
  {
    if HasPrefix(a + s, a + t) {
      assert forall i | 0 <= i < |t| :: s[i] == (a + s)[|a| + i] && t[i] == (a + t)[|a| + i];
    }
    if HasPrefix(s, t) { assert a + s == a + t + s[|t|..]; }
  }

  /** So among numbers of one length it is exact. */
  lemma {:induction false} OwnAmongEqualLengths(n: nat, m: nat)
    requires |Decimal(n)| == |Decimal(m)|
    ensures IsOwn(TakenText(n, Holder(m)), n) <==> n == m
  {
    OwnExactly(n, m);
    if HasPrefix(Decimal(m), Decimal(n)) {
      assert Decimal(m) == Decimal(n);
      DecimalValue(n);
      DecimalValue(m);
    }
  }

  /** Across lengths it is not: number 100 held by the extension made as 1000 would be adopted. */
  lemma {:induction false} OwnAcrossLengths()
    ensures IsOwn(TakenText(100, Holder(1000)), 100)
  {
    assert Decimal(100) == Decimal(10) + [DigitChar(0)];
    assert Decimal(1000) == Decimal(100) + [DigitChar(0)];
    OwnExactly(100, 1000);
  }
}
