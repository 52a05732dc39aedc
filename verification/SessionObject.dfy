/** The critical sections of a Session on the objects they change in place, each proved to do to those
    objects exactly what the transition system of `CallSession` says of its step. A local session's caller
    and callee pool are one and the same object. */
module SessionObject {
  import opened MapSums
  import opened CallSession
  import opened CallSessionSafety

  class Pool {
    var available: map<Aor, bool>
    var preferred: map<Aor, Codec>       // each phone's preferred codec, once set

    /** newPool: every registered extension starts free. */
    constructor (aors: set<Aor>)
      ensures available == (map a | a in aors :: true) && preferred == map[]
    {
      available := map a | a in aors :: true;
      preferred := map[];
    }
  }

  class StopChannel {
    var closed: bool

    constructor ()
      ensures !closed
    {
      closed := false;
    }

    /** Closing a closed channel panics. */
    method Close()
      requires !closed
      modifies this
      ensures closed
    {
      closed := true;
    }
  }

  /** `joined` is both pools' maps as one; a local session has one map. */
  ghost predicate Joins<T>(local: bool, callers: map<Aor, T>, callees: map<Aor, T>, joined: map<Ext, T>) {
    && (forall a :: Ext(false, a) in joined <==> a in callers)
    && (forall a :: a in callers ==> joined[Ext(false, a)] == callers[a])
    && (forall a :: Ext(true, a) in joined <==> !local && a in callees)
    && (forall a :: !local && a in callees ==> joined[Ext(true, a)] == callees[a])
  }

  ghost function Both<T>(local: bool, callers: map<Aor, T>, callees: map<Aor, T>): (joined: map<Ext, T>)
    ensures Joins(local, callers, callees, joined)
  {
    var a := map x | x in callers :: Ext(false, x) := callers[x];
    if local then a else a + map x | x in callees :: Ext(true, x) := callees[x]
  }

  /** What two pools hold, as the transition system sees it. */
  ghost predicate Shows(
    view: Pools, local: bool, callers: map<Aor, bool>, callees: map<Aor, bool>,
    callerCodecs: map<Aor, Codec>, calleeCodecs: map<Aor, Codec>)
  {
    view.local == local && Joins(local, callers, callees, view.available) &&
    Joins(local, callerCodecs, calleeCodecs, view.preferred)
  }

  lemma {:induction false} ViewOf(
    local: bool, callers: map<Aor, bool>, callees: map<Aor, bool>,
    callerCodecs: map<Aor, Codec>, calleeCodecs: map<Aor, Codec>)
    returns (view: Pools)
    ensures Shows(view, local, callers, callees, callerCodecs, calleeCodecs)
  {
    view := Pools(local, Both(local, callers, callees), Both(local, callerCodecs, calleeCodecs));
  }

  /** freeList: every free extension once, in some order. */
  method FreeList(available: map<Aor, bool>) returns (free: seq<Aor>)
    ensures forall i, j :: 0 <= i < j < |free| ==> free[i] != free[j]
    ensures forall a :: a in free <==> a in available && available[a]
  {
    free := [];
    var rest := available.Keys;
    while rest != {}
      invariant rest <= available.Keys
      invariant forall i, j :: 0 <= i < j < |free| ==> free[i] != free[j]
      invariant forall a :: a in free <==> a in available && a !in rest && available[a]
      decreases |rest|
    {
      var a :| a in rest;
      rest := rest - {a};
      if available[a] { free := free + [a]; }
    }
  }

  class Session {
    const callerPool: Pool
    const calleePool: Pool               // the same object as callerPool for a local session
    var calls: map<nat, (Aor, Aor)>
    var nextCallID: nat
    var stopCh: StopChannel
    var failures: map<FailKey, nat>      // health.Failures

    ghost var view: Pools                // what the two pools hold, as the transition system sees it
    ghost var channels: seq<StopChannel> // every stop channel so far, in the order they were made
    ghost var stops: Stops               // and their state, as the transition system sees it

    ghost predicate Valid()
      reads this`view, callerPool, calleePool
    {
      Shows(view, callerPool == calleePool, callerPool.available, calleePool.available,
            callerPool.preferred, calleePool.preferred)
    }

    ghost predicate StopsValid()
      reads this`stopCh, this`channels, this`stops, channels
    {
      && |channels| == stops.current + 1 && channels[stops.current] == stopCh && ChannelsOnce(stops)
      && (forall c, d | 0 <= c < d < |channels| :: channels[c] != channels[d])
      && (forall c | 0 <= c < |channels| :: channels[c].closed <==> c in stops.closed)
    }

    ghost function ListedView(): Listed
      reads this
    {
      Listed(calls, nextCallID)
    }

    /** NewSession with one pool twice, NewRemoteSession with two. */
    constructor (callers: Pool, callees: Pool)
      ensures Valid()
      ensures callerPool == callers && calleePool == callees
      ensures ListedView() == Listed(map[], 0) && failures == map[]
      ensures StopsValid() && fresh(stopCh) && channels == [stopCh] && stops == Stops(0, {}, multiset{}, false)
    {
      callerPool, calleePool := callers, callees;
      calls, nextCallID, failures := map[], 0, map[];
      var ch := new StopChannel();
      stopCh, channels, stops := ch, [ch], Stops(0, {}, multiset{}, false);
      ghost var v := ViewOf(
        callers == callees, callers.available, callees.available, callers.preferred, callees.preferred);
      view := v;
    }

    /** reservePairs: takes the pairs that the transition system's Reserve step takes, for the two free
        lists it found. */
    method ReservePairs(n: nat) returns (pairs: seq<(Aor, Aor)>, ghost callers: seq<Aor>, ghost callees: seq<Aor>)
      requires Valid()
      modifies this`view, callerPool`available, calleePool`available
      ensures Valid()
      ensures FreeLists(old(view), callers, callees)
      ensures pairs == Pairs(view.local, n, callers, callees)
      ensures view == Reserved(old(view), pairs)
    {
      var sameSided := callerPool == calleePool;
      var freeCallers, freeCallees := FreeBothSides();
      var maxPairs: nat := n;
      if sameSided {
        if |freeCallers| / 2 < maxPairs { maxPairs := |freeCallers| / 2; }
      } else {
        if |freeCallers| < maxPairs { maxPairs := |freeCallers|; }
        if |freeCallees| < maxPairs { maxPairs := |freeCallees|; }
      }
      callers, callees := freeCallers, freeCallees;
      PairsKnown(view, n, callers, callees);
      pairs := TakePairs(maxPairs, freeCallers, freeCallees, Pairs(view.local, n, callers, callees));
    }

    /** The loop of reservePairs, which is to take the pairs `wanted`. */
    method TakePairs(maxPairs: nat, freeCallers: seq<Aor>, freeCallees: seq<Aor>, ghost wanted: seq<(Aor, Aor)>)
      returns (pairs: seq<(Aor, Aor)>)
      requires Valid() && |wanted| == maxPairs && AllKnown(view, wanted)
      requires if callerPool == calleePool then 2 * maxPairs <= |freeCallers|
               else maxPairs <= |freeCallers| && maxPairs <= |freeCallees|
      requires callerPool == calleePool ==>
        forall i | 0 <= i < maxPairs :: wanted[i] == (freeCallers[2 * i], freeCallers[2 * i + 1])
      requires callerPool != calleePool ==>
        forall i | 0 <= i < maxPairs :: wanted[i] == (freeCallers[i], freeCallees[i])
      modifies this`view, callerPool`available, calleePool`available
      ensures Valid() && pairs == wanted && view == Reserved(old(view), wanted)
    {
      ghost var before := view;
      pairs := [];
      NoneReserved(view);
      for i := 0 to maxPairs
        invariant |pairs| == i && forall k | 0 <= k < i :: pairs[k] == wanted[k]
        invariant Valid() && view == Reserved(before, pairs)
      {
        var caller, callee;
        if callerPool == calleePool {
          caller, callee := freeCallers[2 * i], freeCallers[2 * i + 1];
        } else {
          caller, callee := freeCallers[i], freeCallees[i];
        }
        assert wanted[i] == (caller, callee);
        TakePair(caller, callee, before, pairs);
        pairs := pairs + [(caller, callee)];
      }
    }

    method FreeBothSides() returns (callers: seq<Aor>, callees: seq<Aor>)
      requires Valid()
      ensures FreeLists(view, callers, callees)
    {
      callers := FreeList(callerPool.available);
      callees := callers;
      if callerPool != calleePool { callees := FreeList(calleePool.available); }
    }

    /** The two map writes of reservePairs' loop, after the pairs already taken from `before`. */
    method TakePair(caller: Aor, callee: Aor, ghost before: Pools, ghost taken: seq<(Aor, Aor)>)
      requires Valid() && view == Reserved(before, taken)
      requires Ext(false, caller) in before.available && Ext(!before.local, callee) in before.available
      modifies this`view, callerPool`available, calleePool`available
      ensures Valid() && view == Reserved(before, taken + [(caller, callee)])
    {
      ReservedOneMore(before, taken, caller, callee);
      MarkPair(caller, callee);
    }

    method MarkPair(caller: Aor, callee: Aor)
      requires Valid()
      modifies this`view, callerPool`available, calleePool`available
      ensures Valid()
      ensures view == Marked(old(view), caller, callee)
    {
      callerPool.available := callerPool.available[caller := false];
      calleePool.available := calleePool.available[callee := false];
      view := Marked(view, caller, callee);
    }

    method Release(caller: Aor, callee: Aor)
      requires Valid()
      modifies this`view, callerPool`available, calleePool`available
      ensures Valid() && view == Released(old(view), caller, callee)
    {
      callerPool.available := callerPool.available[caller := true];
      calleePool.available := calleePool.available[callee := true];
      view := Released(view, caller, callee);
    }

    /** The callee's SetPreferredCodec in runCall. */
    method SetPreferredCodec(job: Job)
      requires Valid()
      modifies this`view, calleePool`preferred
      ensures Valid() && view == PoolsAfter(old(view), Task(job, SetCodec))
    {
      calleePool.preferred := calleePool.preferred[job.callee := job.calleeCodec];
      view := PoolsAfter(view, Task(job, SetCodec));
    }

    /** nextCallID.Add(1), then the insertion into `calls`. */
    method Publish(job: Job) returns (id: nat)
      modifies this`calls, this`nextCallID
      ensures id == Target(old(nextCallID), AnswerId, Straight).id
      ensures ListedView() ==
        ListedAfter(ListedAfter(old(ListedView()), Task(job, AnswerId)), Task(job, AnswerPublish(id)))
    {
      nextCallID := nextCallID + 1;
      id := nextCallID;
      calls := calls[id := (job.caller, job.callee)];
    }

    method Unpublish(job: Job, id: nat, talk: Talk)
      modifies this`calls
      ensures ListedView() == ListedAfter(old(ListedView()), Task(job, EndUnpublish(id, talk)))
    {
      calls := calls - {id};
    }

    /** health.update with Failures[key]++; the failure causes together grow by one. */
    method NoteFailure(key: FailKey)
      modifies this`failures
      ensures failures == Bump(old(failures), key)
      ensures SumOf(failures) == old(SumOf(failures)) + 1
    {
      SumOfUpdate(failures, key, At(failures, key) + 1);
      failures := failures[key := (if key in failures then failures[key] else 0) + 1];
    }

    /** Stop's critical section: a fresh channel takes the place of the current one, which is now to be closed. */
    method SwapStop() returns (oldStop: StopChannel, ghost c: nat)
      requires StopsValid()
      modifies this`stopCh, this`channels, this`stops
      ensures StopsValid() && fresh(stopCh) && stops == Swapped(old(stops))
      ensures c == old(stops).current && channels == old(channels) + [stopCh] && oldStop == channels[c]
    {
      oldStop, c := stopCh, stops.current;
      stopCh := new StopChannel();
      channels, stops := channels + [stopCh], Swapped(stops);
    }

    /** The close that follows. It never panics, whatever other Stops have done since. */
    method CloseStop(oldStop: StopChannel, ghost c: nat)
      requires StopsValid() && c in stops.closing && oldStop == channels[c]
      modifies oldStop, this`stops
      ensures StopsValid() && stops == Closed(old(stops), c)
    {
      oldStop.Close();
      stops := Closed(stops, c);
    }

    /** Stop, undisturbed: the transition system's swap and then its close of the channel swapped out. */
    method Stop()
      requires StopsValid()
      modifies this`stopCh, this`channels, this`stops, stopCh
      ensures StopsValid() && fresh(stopCh) && channels == old(channels) + [stopCh]
      ensures stops == Closed(Swapped(old(stops)), old(stops).current)
    {
      var oldStop, c := SwapStop();
      CloseStop(oldStop, c);
    }
  }

  function AllFree(aors: set<Aor>): map<Aor, bool> { map a | a in aors :: true }

  /** What two new pools show is what the transition system starts from. */
  lemma {:induction false} NewPoolsShowInit(view: Pools, local: bool, callers: set<Aor>, callees: set<Aor>)
    requires Shows(view, local, AllFree(callers), AllFree(callees), map[], map[])
    ensures view == Init(local, callers, callees).pools
  {
    var init := Init(local, callers, callees).pools;
    forall e: Ext
      ensures (e in view.available <==> e in init.available) && e !in view.preferred
      ensures e in view.available ==> view.available[e]
    {
      assert e == Ext(e.answering, e.aor);
    }
    assert view.available == init.available && view.preferred == init.preferred;
  }

  ghost predicate AllKnown(p: Pools, pairs: seq<(Aor, Aor)>) {
    forall i | 0 <= i < |pairs| :: Ext(false, pairs[i].0) in p.available && Ext(!p.local, pairs[i].1) in p.available
  }

  lemma {:induction false} PairsKnown(p: Pools, n: nat, callers: seq<Aor>, callees: seq<Aor>)
    requires FreeLists(p, callers, callees)
    ensures AllKnown(p, Pairs(p.local, n, callers, callees))
  {
    var pairs := Pairs(p.local, n, callers, callees);
    forall i | 0 <= i < |pairs|
      ensures Ext(false, pairs[i].0) in p.available && Ext(!p.local, pairs[i].1) in p.available
    {
      assert pairs[i].0 in callers && pairs[i].1 in callees;
    }
  }

  function Marked(p: Pools, caller: Aor, callee: Aor): Pools {
    p.(available := p.available[Ext(false, caller) := false][Ext(!p.local, callee) := false])
  }

  lemma {:induction false} NoneReserved(p: Pools)
    ensures Reserved(p, []) == p
  {
    assert Reserved(p, []).available == p.available;
  }

  lemma {:induction false} ReservedOneMore(p: Pools, pairs: seq<(Aor, Aor)>, caller: Aor, callee: Aor)
    requires Ext(false, caller) in p.available && Ext(!p.local, callee) in p.available
    ensures Reserved(p, pairs + [(caller, callee)]) == Marked(Reserved(p, pairs), caller, callee)
  {
    var more := pairs + [(caller, callee)];
    forall e
      ensures Among(p.local, more, e) <==>
        Among(p.local, pairs, e) || e == Ext(false, caller) || e == Ext(!p.local, callee)
    {
      assert more[|pairs|] == (caller, callee);
      assert forall i | 0 <= i < |pairs| :: more[i] == pairs[i];
    }
    assert Reserved(p, more).available == Marked(Reserved(p, pairs), caller, callee).available;
  }
}
