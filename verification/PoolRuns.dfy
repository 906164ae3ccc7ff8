/** Properties of every run of the object pool. */
module PoolRuns {
  import opened Options
  import opened Sequences
  import opened PoolPlaces
  import opened PoolSteps

  ghost predicate Inv(s: State) {
    && Referring(s.threads, s.ptrs) && MutexHeld(s) && Limited(s)
    && (forall key :: ConservedKey(s, key))
    && (exists places :: Placed(s.data.free, s.data.all, HoldingsOf(s), places))
  }

  lemma {:induction false} NoHoldings(hs: seq<Holding>, key: Option<string>)
    requires forall i :: 0 <= i < |hs| ==> hs[i].None?
    ensures Count(hs, key) == 0
  {
    if hs != [] {
      NoHoldings(hs[1..], key);
    }
  }

  lemma {:induction false} NoTokens(threads: seq<Thread>)
    requires forall t :: 0 <= t < |threads| ==> !HasToken(threads[t])
    ensures Tokens(threads) == 0
  {
    if threads != [] {
      NoTokens(threads[1..]);
    }
  }

  lemma InitialInv(limit: Option<nat>, n: nat)
    ensures Inv(Initial(limit, n))
  {
    var s := Initial(limit, n);
    forall key ensures ConservedKey(s, key) {
      NoHoldings(Holders(s.threads), Some(key));
      NoHoldings(Owners(s.ptrs), Some(key));
    }
    NoHoldings(Owners(s.ptrs), None);
    NoTokens(s.threads);
    assert Placed(s.data.free, s.data.all, HoldingsOf(s), []);
  }

  lemma StepKeepsInv(s: State, e: Event)
    requires Inv(s) && Enabled(s, e)
    ensures Inv(Do(s, e))
  {
    hide Referring, MutexHeld, Limited, ConservedKey, Placed, Enabled, Do;
    StepKeepsReferring(s, e);
    StepKeepsMutex(s, e);
    StepKeepsLimited(s, e);
    forall key ensures ConservedKey(Do(s, e), key) {
      StepConservesKey(s, e, key);
    }
    var places :| Placed(s.data.free, s.data.all, HoldingsOf(s), places);
    var after := StepKeepsPlaces(s, e, places);
  }

  lemma {:induction false} RunKeepsInv(s: State, run: seq<Event>)
    requires Inv(s) && Possible(s, run)
    ensures Inv(After(s, run)) && After(s, run).limit == s.limit
    decreases |run|
  {
    if run != [] {
      StepKeepsInv(s, run[0]);
      RunKeepsInv(Do(s, run[0]), run[1..]);
    }
  }

  lemma Reachable(limit: Option<nat>, n: nat, run: seq<Event>)
    requires Possible(Initial(limit, n), run)
    ensures Inv(After(Initial(limit, n), run)) && After(Initial(limit, n), run).limit == limit
  {
    InitialInv(limit, n);
    RunKeepsInv(Initial(limit, n), run);
  }

  // Item i lies in a queue, is owned by a pointer or is in the hands of a thread, under any key.
  ghost predicate Lies(s: State, i: nat, x: Place) {
    match x
    case InFree => exists key :: IsFree(s.data.free, key, i)
    case InPtr(p) => p < |s.ptrs| && OwnedBy(s.ptrs[p]).Some? && OwnedBy(s.ptrs[p]).value.0 == i
    case InThread(t) => t < |s.threads| && HeldBy(s.threads[t]).Some? && HeldBy(s.threads[t]).value.0 == i
  }

  // In every interleaving every item of _all is in exactly one place, wherever it is under the key it
  // was created with, and once in its queue.
  lemma ExactlyOnePlace(limit: Option<nat>, n: nat, run: seq<Event>, i: nat) returns (x: Place)
    requires Possible(Initial(limit, n), run) && i < |After(Initial(limit, n), run).data.all|
    ensures
      var s := After(Initial(limit, n), run);
      && (forall y :: Lies(s, i, y) <==> y == x)
      && (forall key :: IsFree(s.data.free, key, i) ==> key == s.data.all[i] && Distinct(Queue(s.data.free, key)))
      && (x.InPtr? ==> x.p < |s.ptrs| && OwnedBy(s.ptrs[x.p]) == Some((i, s.data.all[i])))
      && (x.InThread? ==> x.t < |s.threads| && HeldBy(s.threads[x.t]) == Some((i, s.data.all[i])))
  {
    Reachable(limit, n, run);
    var s := After(Initial(limit, n), run);
    var h := HoldingsOf(s);
    var places :| Placed(s.data.free, s.data.all, h, places);
    x := places[i];
    Settled(s.data.free, s.data.all, h, places, i);
    forall y ensures Lies(s, i, y) <==> y == x {
      if Lies(s, i, y) {
        match y
        case InFree =>
          var key :| IsFree(s.data.free, key, i);
        case InPtr(p) => assert h.owners[p].Some? && h.owners[p].value.0 == i;
        case InThread(t) => assert h.holders[t].Some? && h.holders[t].value.0 == i;
      }
    }
  }

  // Nothing that is not in _all is anywhere.
  lemma OnlyCreatedItems(limit: Option<nat>, n: nat, run: seq<Event>, i: nat, x: Place)
    requires Possible(Initial(limit, n), run) && Lies(After(Initial(limit, n), run), i, x)
    ensures i < |After(Initial(limit, n), run).data.all|
  {
    Reachable(limit, n, run);
    var s := After(Initial(limit, n), run);
    var h := HoldingsOf(s);
    var places :| Placed(s.data.free, s.data.all, h, places);
    match x
    case InFree => var key :| IsFree(s.data.free, key, i);
    case InPtr(p) => assert h.owners[p].Some? && h.owners[p].value.0 == i;
    case InThread(t) => assert h.holders[t].Some? && h.holders[t].value.0 == i;
  }

  // With the limited policy: count, callers between lock() and unlock(), and creations that threw.
  lemma SemaphoreConserved(limit: nat, n: nat, run: seq<Event>)
    requires Possible(Initial(Some(limit), n), run)
    ensures
      var s := After(Initial(Some(limit), n), run);
      s.sem + Count(Owners(s.ptrs), None) + Tokens(s.threads) + s.failed == limit
  {
    Reachable(Some(limit), n, run);
  }

  // The largest number of items of a key handed out at a time, over the states of a run.
  function Peak(s: State, run: seq<Event>, key: string): nat
    requires Possible(s, run)
    decreases |run|
  {
    var now := Outstanding(s, Some(key));
    var later := if run == [] then 0 else Peak(Do(s, run[0]), run[1..], key);
    if now > later then now else later
  }

  function Max(a: nat, b: nat): nat {
    if a > b then a else b
  }

  // An item is created only when all items of its key are handed out.
  lemma CreationMeetsDemand(s: State, e: Event, key: string)
    requires Inv(s) && Enabled(s, e)
    ensures
      var before, after := Created(s.data.all, key), Created(Do(s, e).data.all, key);
      after == before || (after == before + 1 == Outstanding(Do(s, e), Some(key)))
  {
    hide Outstanding, Created, Referring, MutexHeld, Limited, Placed, ConservedKey;
    StepKeepsInv(s, e);
    Conserve(s, key);
    Conserve(Do(s, e), key);
    if e.Advance? && s.threads[e.t].AcqBody? {
      CreatedAppend(s.data.all, s.threads[e.t].key, key);
    }
  }

  lemma Conserve(s: State, key: string)
    requires Inv(s)
    ensures |Queue(s.data.free, key)| + Outstanding(s, Some(key)) == Created(s.data.all, key)
  {
    assert ConservedKey(s, key);
  }

  lemma {:induction false} CreatedOverRun(s: State, run: seq<Event>, key: string)
    requires Inv(s) && Possible(s, run)
    ensures Created(After(s, run).data.all, key) == Max(Created(s.data.all, key), Peak(s, run, key))
    decreases |run|
  {
    hide Outstanding, Created, Inv, Enabled, Do;
    Conserve(s, key);
    if run != [] {
      var d := Do(s, run[0]);
      StepKeepsInv(s, run[0]);
      Conserve(d, key);
      CreationMeetsDemand(s, run[0], key);
      CreatedOverRun(d, run[1..], key);
      PeakNow(d, run[1..], key);
    }
  }

  lemma PeakNow(s: State, run: seq<Event>, key: string)
    requires Possible(s, run)
    ensures Peak(s, run, key) >= Outstanding(s, Some(key))
  {}

  // As many items are ever created under a key as were handed out at a time at most.
  lemma CreatedIsPeak(limit: Option<nat>, n: nat, run: seq<Event>, key: string)
    requires Possible(Initial(limit, n), run)
    ensures Created(After(Initial(limit, n), run).data.all, key) == Peak(Initial(limit, n), run, key)
  {
    InitialInv(limit, n);
    CreatedOverRun(Initial(limit, n), run, key);
  }

  // size() and in_use().

  ghost function TotalFree(free: map<string, seq<nat>>): nat
    decreases |free|
  {
    if free == map[] then 0
    else
      var key :| key in free;
      |free[key]| + TotalFree(free - {key})
  }

  lemma {:induction false} TotalRemove(free: map<string, seq<nat>>, key: string)
    requires key in free
    ensures TotalFree(free) == |free[key]| + TotalFree(free - {key})
    decreases |free|
  {
    var k :| k in free && TotalFree(free) == |free[k]| + TotalFree(free - {k});
    if k != key {
      TotalRemove(free - {k}, key);
      TotalRemove(free - {key}, k);
      assert free - {k} - {key} == free - {key} - {k};
    }
  }

  lemma TotalUpdate(free: map<string, seq<nat>>, key: string, q: seq<nat>)
    ensures TotalFree(free[key := q]) + |Queue(free, key)| == TotalFree(free) + |q|
  {
    TotalRemove(free[key := q], key);
    if key in free {
      TotalRemove(free, key);
      assert free[key := q] - {key} == free - {key};
    } else {
      assert free[key := q] - {key} == free;
    }
  }

  ghost predicate Totalled(s: State) {
    |s.data.all| == TotalFree(s.data.free) + Outstanding(s, None)
  }

  lemma StepKeepsTotal(s: State, e: Event)
    requires Referring(s.threads, s.ptrs) && Enabled(s, e) && Totalled(s)
    ensures Totalled(Do(s, e))
  {
    hide Outstanding, Referring;
    StepCountsHoldings(s, e, None);
    if e.Advance? {
      var c := s.threads[e.t];
      if c.AcqBody? {
        var q := Queue(s.data.free, c.key);
        TotalUpdate(s.data.free, c.key, if q == [] then [] else q[1..]);
      } else if c.RelBody? {
        TotalUpdate(s.data.free, c.key, Queue(s.data.free, c.key) + [c.item]);
      }
    }
  }

  lemma {:induction false} RunKeepsTotal(s: State, run: seq<Event>)
    requires Inv(s) && Totalled(s) && Possible(s, run)
    ensures Totalled(After(s, run))
    decreases |run|
  {
    if run != [] {
      StepKeepsInv(s, run[0]);
      StepKeepsTotal(s, run[0]);
      RunKeepsTotal(Do(s, run[0]), run[1..]);
    }
  }

  lemma InitiallyTotalled(limit: Option<nat>, n: nat)
    ensures Totalled(Initial(limit, n))
  {
    NoHoldings(Owners(Initial(limit, n).ptrs), None);
    NoHoldings(Holders(Initial(limit, n).threads), None);
  }

  lemma IdleHoldNothing(s: State)
    requires forall t :: 0 <= t < |s.threads| ==> s.threads[t].Idle?
    ensures Outstanding(s, None) == Count(Owners(s.ptrs), None)
  {
    NoHoldings(Holders(s.threads), None);
  }

  // in_use() is the number of items that pointers own plus those in the middle of an operation; with
  // no operation in progress it is the number owned.
  lemma InUseIsHeld(limit: Option<nat>, n: nat, run: seq<Event>)
    requires Possible(Initial(limit, n), run)
    ensures
      var s := After(Initial(limit, n), run);
      && |s.data.all| - TotalFree(s.data.free) == Outstanding(s, None)
      && ((forall t :: 0 <= t < |s.threads| ==> s.threads[t].Idle?) ==>
          |s.data.all| - TotalFree(s.data.free) == Count(Owners(s.ptrs), None))
  {
    hide Initial, Do, Enabled, Inv, Outstanding, Count, TotalFree, Owners;
    InitialInv(limit, n);
    InitiallyTotalled(limit, n);
    RunKeepsTotal(Initial(limit, n), run);
    var s := After(Initial(limit, n), run);
    if forall t :: 0 <= t < |s.threads| ==> s.threads[t].Idle? {
      IdleHoldNothing(s);
    }
  }

  // When no thread can go on, every thread is idle or waits in size_policy->lock() while pointers
  // and failed creations have used up the whole limit.
  lemma OnlyLimitBlocks(limit: Option<nat>, n: nat, run: seq<Event>)
    requires Possible(Initial(limit, n), run)
    requires var s := After(Initial(limit, n), run); forall t :: 0 <= t < |s.threads| ==> !Enabled(s, Advance(t))
    ensures
      var s := After(Initial(limit, n), run);
      forall t :: 0 <= t < |s.threads| && !s.threads[t].Idle? ==>
        s.threads[t].AcqLock? && limit.Some? && Count(Owners(s.ptrs), None) + s.failed == limit.value
  {
    Reachable(limit, n, run);
    var s := After(Initial(limit, n), run);
    if s.mutex.Some? {
      HolderGoesOn(s, s.mutex.value);
    }
    forall t | 0 <= t < |s.threads| ensures s.threads[t].Idle? || (s.threads[t].AcqLock? && limit.Some? && s.sem == 0) {
      assert !Enabled(s, Advance(t));
    }
    NoTokens(s.threads);
  }

  // The thread that holds the mutex is never blocked.
  lemma HolderGoesOn(s: State, t: nat)
    requires Inv(s) && s.mutex == Some(t)
    ensures Enabled(s, Advance(t))
  {
    assert InMutex(s.threads[t]);
    if Releases(s.threads[t]) {
      assert Serves(s.ptrs, t, s.threads[t].next);
    }
  }

  lemma {:induction false} Extend(s: State, run: seq<Event>, e: Event)
    requires Possible(s, run) && Enabled(After(s, run), e)
    ensures Possible(s, run + [e]) && After(s, run + [e]) == Do(After(s, run), e)
    decreases |run|
  {
    hide Enabled, Do;
    if run == [] {
      assert run + [e] == [e] && [e][1..] == [];
    } else {
      assert (run + [e])[1..] == run[1..] + [e];
      Extend(Do(s, run[0]), run[1..], e);
    }
  }

  // size() against the limit.

  // Threads that have taken a count but no item yet, and threads that have given their count back but
  // not their item.
  predicate IsArriving(c: Thread) {
    c.AcqWait? || c.AcqBody?
  }

  predicate IsReturning(c: Thread) {
    c.RelWait? || c.RelBody?
  }

  function Arriving(threads: seq<Thread>): nat {
    if threads == [] then 0 else (if IsArriving(threads[0]) then 1 else 0) + Arriving(threads[1..])
  }

  function Returning(threads: seq<Thread>): nat {
    if threads == [] then 0 else (if IsReturning(threads[0]) then 1 else 0) + Returning(threads[1..])
  }

  lemma {:induction false} HeldAndTokens(threads: seq<Thread>)
    ensures Count(Holders(threads), None) + Arriving(threads) == Tokens(threads) + Returning(threads)
  {
    if threads != [] {
      assert Holders(threads)[1..] == Holders(threads[1..]);
      HeldAndTokens(threads[1..]);
    }
  }

  lemma {:induction false} NoneUnderWay(threads: seq<Thread>)
    requires forall t :: 0 <= t < |threads| ==> threads[t].Idle?
    ensures Arriving(threads) == Returning(threads) == 0
  {
    if threads != [] {
      NoneUnderWay(threads[1..]);
    }
  }

  // size() is within the limit exactly when the items lying free or on their way back are no more
  // than the counts that nobody has an item for: those of the semaphore, of arriving threads and of
  // failed creations. With no operation in progress: the free items are no more than the counts left.
  lemma SizeWithinLimit(limit: nat, n: nat, run: seq<Event>)
    requires Possible(Initial(Some(limit), n), run)
    ensures
      var s := After(Initial(Some(limit), n), run);
      && (|s.data.all| <= limit <==>
          TotalFree(s.data.free) + Returning(s.threads) <= s.sem + Arriving(s.threads) + s.failed)
      && ((forall t :: 0 <= t < |s.threads| ==> s.threads[t].Idle?) ==>
          (|s.data.all| <= limit <==> TotalFree(s.data.free) <= s.sem + s.failed))
  {
    InUseIsHeld(Some(limit), n, run);
    SemaphoreConserved(limit, n, run);
    var s := After(Initial(Some(limit), n), run);
    HeldAndTokens(s.threads);
    if forall t :: 0 <= t < |s.threads| ==> s.threads[t].Idle? {
      NoneUnderWay(s.threads);
    }
  }

  // The branch that creates: thread t, finding its queue empty, takes size() past the limit exactly
  // when every count without an item is matched by an item that lies free or is on its way back. Any
  // other step leaves size() alone.
  lemma CreationExceedsLimit(limit: nat, n: nat, run: seq<Event>, e: Event)
    requires Possible(Initial(Some(limit), n), run) && Enabled(After(Initial(Some(limit), n), run), e)
    ensures
      var s := After(Initial(Some(limit), n), run);
      if IsCreation(s, e) then
        |Do(s, e).data.all| > limit <==>
        TotalFree(s.data.free) + Returning(s.threads) >= s.sem + Arriving(s.threads) + s.failed
      else |Do(s, e).data.all| == |s.data.all|
  {
    InUseIsHeld(Some(limit), n, run);
    SemaphoreConserved(limit, n, run);
    HeldAndTokens(After(Initial(Some(limit), n), run).threads);
  }

  // A step that creates an item.
  predicate IsCreation(s: State, e: Event) {
    && e.Advance? && e.t < |s.threads| && s.threads[e.t].AcqBody?
    && Queue(s.data.free, s.threads[e.t].key) == []
  }

  function Creations(s: State, run: seq<Event>): nat
    requires Possible(s, run)
    decreases |run|
  {
    if run == [] then 0 else (if IsCreation(s, run[0]) then 1 else 0) + Creations(Do(s, run[0]), run[1..])
  }

  lemma {:induction false} SizeGrows(s: State, run: seq<Event>)
    requires Possible(s, run)
    ensures |After(s, run).data.all| == |s.data.all| + Creations(s, run)
    decreases |run|
  {
    if run != [] {
      SizeGrows(Do(s, run[0]), run[1..]);
    }
  }

  // size() is the number of creations of the run: no item ever leaves the pool.
  lemma SizeIsCreations(limit: Option<nat>, n: nat, run: seq<Event>)
    requires Possible(Initial(limit, n), run)
    ensures |After(Initial(limit, n), run).data.all| == Creations(Initial(limit, n), run)
  {
    SizeGrows(Initial(limit, n), run);
  }

  // Thread 0 of two has acquired the first item and released it up to unlock().
  function MidRelease(): State {
    State(Some(1), Data(map["" := []], [""]), 1, None, [Releasing(Ptr(Some(0), true, ""), 0)],
          [RelWait(0, "", Destroyed(0)), Idle], 0)
  }

  // The same, still owned by a pointer.
  function MidUse(): State {
    State(Some(1), Data(map["" := []], [""]), 0, None, [Live(Ptr(Some(0), true, ""))], [Idle, Idle], 0)
  }

  lemma ReachMidUse() returns (run: seq<Event>)
    ensures Possible(Initial(Some(1), 2), run) && After(Initial(Some(1), 2), run) == MidUse()
  {
    hide Possible, After;
    var s0 := Initial(Some(1), 2);
    var s := s0;
    run := [];
    Nothing(s0);
    assert s.threads == [Idle, Idle];
    run, s := Then(s0, run, s, AcquireCall(0, ""));
    assert s.threads == [AcqLock(""), Idle];
    run, s := Then(s0, run, s, Advance(0));
    run, s := Then(s0, run, s, Advance(0));
    run, s := Then(s0, run, s, Advance(0));
    assert s.threads == [AcqLeave(0, ""), Idle] && s.data == Data(map["" := []], [""]);
    run, s := Then(s0, run, s, Advance(0));
    assert s.threads == [Idle, Idle] && s.ptrs == [Live(Ptr(Some(0), true, ""))];
  }

  lemma ReachMidRelease() returns (run: seq<Event>)
    ensures Possible(Initial(Some(1), 2), run) && After(Initial(Some(1), 2), run) == MidRelease()
  {
    hide Possible, After;
    var s0 := Initial(Some(1), 2);
    run := ReachMidUse();
    var s := MidUse();
    run, s := Then(s0, run, s, DestroyCall(0, 0));
    run, s := Then(s0, run, s, Advance(0));
    assert s.ptrs == [Releasing(Ptr(Some(0), true, ""), 0)] && s.threads == [RelWait(0, "", Destroyed(0)), Idle];
  }

  // A release in flight: thread 1 acquires before the item is back, and a second one is created.
  lemma SizeExceedsLimit() returns (run: seq<Event>)
    ensures Possible(Initial(Some(1), 2), run) && |After(Initial(Some(1), 2), run).data.all| == 2
  {
    hide Possible, After;
    var s0 := Initial(Some(1), 2);
    run := ReachMidRelease();
    var s := MidRelease();
    run, s := Then(s0, run, s, AcquireCall(1, ""));
    run, s := Then(s0, run, s, Advance(1));
    run, s := Then(s0, run, s, Advance(1));
    assert s.threads == [RelWait(0, "", Destroyed(0)), AcqBody("")] && s.data == Data(map["" := []], [""]);
    run, s := Then(s0, run, s, Advance(1));
  }

  // No release in flight: one thread acquires under "a", releases to the end and acquires under "b".
  lemma TwoKeysExceedLimit() returns (run: seq<Event>)
    ensures Possible(Initial(Some(1), 1), run) && |After(Initial(Some(1), 1), run).data.all| == 2
  {
    hide Possible, After;
    var s0 := Initial(Some(1), 1);
    run := ReachFreeA();
    var s := FreeA();
    run, s := Then(s0, run, s, AcquireCall(0, "b"));
    run, s := Then(s0, run, s, Advance(0));
    run, s := Then(s0, run, s, Advance(0));
    assert s.threads == [AcqBody("b")] && s.data == Data(map["a" := [0]], ["a"]);
    run, s := Then(s0, run, s, Advance(0));
  }

  function FreeA(): State {
    State(Some(1), Data(map["a" := [0]], ["a"]), 1, None, [Gone], [Idle], 0)
  }

  function OwnedA(): State {
    State(Some(1), Data(map["a" := []], ["a"]), 0, None, [Live(Ptr(Some(0), true, "a"))], [Idle], 0)
  }

  lemma ReachOwnedA() returns (run: seq<Event>)
    ensures Possible(Initial(Some(1), 1), run) && After(Initial(Some(1), 1), run) == OwnedA()
  {
    hide Possible, After;
    var s0 := Initial(Some(1), 1);
    var s := s0;
    run := [];
    Nothing(s0);
    assert s.threads == [Idle];
    run, s := Then(s0, run, s, AcquireCall(0, "a"));
    assert s.threads == [AcqLock("a")];
    run, s := Then(s0, run, s, Advance(0));
    run, s := Then(s0, run, s, Advance(0));
    run, s := Then(s0, run, s, Advance(0));
    assert s.threads == [AcqLeave(0, "a")] && s.data == Data(map["a" := []], ["a"]);
    run, s := Then(s0, run, s, Advance(0));
    assert s.threads == [Idle] && s.ptrs == [Live(Ptr(Some(0), true, "a"))];
  }

  lemma ReachFreeA() returns (run: seq<Event>)
    ensures Possible(Initial(Some(1), 1), run) && After(Initial(Some(1), 1), run) == FreeA()
  {
    hide Possible, After;
    var s0 := Initial(Some(1), 1);
    run := ReachOwnedA();
    var s := OwnedA();
    run, s := Then(s0, run, s, DestroyCall(0, 0));
    run, s := Then(s0, run, s, Advance(0));
    assert s.ptrs == [Releasing(Ptr(Some(0), true, "a"), 0)] && s.threads == [RelWait(0, "a", Destroyed(0))];
    run, s := Then(s0, run, s, Advance(0));
    run, s := Then(s0, run, s, Advance(0));
    assert Queue(OwnedA().data.free, "a") + [0] == [0];
    assert s.data == Data(map["a" := []]["a" := [0]], ["a"]);
    assert map["a" := []]["a" := [0]] == map["a" := [0]];
    assert s.threads == [RelLeave(Destroyed(0))];
    run, s := Then(s0, run, s, Advance(0));
    assert s.threads == [Idle] && s.ptrs == [Gone];
  }

  lemma Nothing(s: State)
    ensures Possible(s, []) && After(s, []) == s
  {}

  lemma Then(s0: State, run: seq<Event>, s: State, e: Event) returns (longer: seq<Event>, next: State)
    requires Possible(s0, run) && After(s0, run) == s && Enabled(s, e)
    ensures next == Do(s, e) && Possible(s0, longer) && After(s0, longer) == next
  {
    Extend(s0, run, e);
    longer, next := run + [e], Do(s, e);
  }

  // What a step puts into the free items of a key, and which of them it takes out again: seen from the
  // threads that release an item, and from those that come to hold one that was there before.

  function ReturnedBy(s: State, e: Event, key: string): seq<nat>
    requires Enabled(s, e)
  {
    var c := s.threads[e.t];
    if e.Advance? && c.RelBody? && c.key == key then [c.item] else []
  }

  function ReusedBy(s: State, e: Event, key: string): seq<nat>
    requires Enabled(s, e)
  {
    var c, d := s.threads[e.t], Do(s, e);
    if e.Advance? && c.AcqBody? && c.key == key && d.data.all == s.data.all && d.threads[e.t].AcqLeave? then
      [d.threads[e.t].item]
    else []
  }

  function Returned(s: State, run: seq<Event>, key: string): seq<nat>
    requires Possible(s, run)
    decreases |run|
  {
    if run == [] then [] else ReturnedBy(s, run[0], key) + Returned(Do(s, run[0]), run[1..], key)
  }

  function Reused(s: State, run: seq<Event>, key: string): seq<nat>
    requires Possible(s, run)
    decreases |run|
  {
    if run == [] then [] else ReusedBy(s, run[0], key) + Reused(Do(s, run[0]), run[1..], key)
  }

  lemma StepKeepsOrder(s: State, e: Event, key: string)
    requires Enabled(s, e)
    ensures Queue(s.data.free, key) + ReturnedBy(s, e, key) == ReusedBy(s, e, key) + Queue(Do(s, e).data.free, key)
  {
    hide Moved, Finished, Queue;
    var c, q := s.threads[e.t], Queue(s.data.free, key);
    assert q + [] == [] + q;
    if e.Advance? && c.AcqBody? {
      TakenKeepsOrder(s.data, c.key, key);
    } else if e.Advance? && c.RelBody? {
      PutKeepsOrder(s.data, c.item, c.key, key);
    }
  }

  lemma TakenKeepsOrder(d: Data, key: string, other: string)
    ensures
      var q, r := Queue(d.free, other), Queue(Taken(d, key).free, other);
      && (Taken(d, key).all == d.all <==> Queue(d.free, key) != [])
      && q == if key == other && Queue(d.free, key) != [] then [ItemTaken(d, key)] + r else r
  {
    assert |d.all + [key]| > |d.all|;
  }

  lemma PutKeepsOrder(d: Data, item: nat, key: string, other: string)
    ensures Queue(Put(d, item, key).free, other)
         == if key == other then Queue(d.free, other) + [item] else Queue(d.free, other)
  {}

  // The free items of a key come back in the order in which they were released, over any run.
  lemma {:induction false} FirstReleasedIsReused(s: State, run: seq<Event>, key: string)
    requires Possible(s, run)
    ensures Queue(s.data.free, key) + Returned(s, run, key) == Reused(s, run, key) + Queue(After(s, run).data.free, key)
    decreases |run|
  {
    hide Enabled, Do, ReturnedBy, ReusedBy, Queue;
    if run == [] {
      assert Queue(s.data.free, key) + [] == [] + Queue(s.data.free, key);
    } else {
      var d := Do(s, run[0]);
      StepKeepsOrder(s, run[0], key);
      FirstReleasedIsReused(d, run[1..], key);
      Associated(Queue(s.data.free, key), ReturnedBy(s, run[0], key), Returned(d, run[1..], key));
      Associated(ReusedBy(s, run[0], key), Queue(d.data.free, key), Returned(d, run[1..], key));
      Associated(ReusedBy(s, run[0], key), Reused(d, run[1..], key), Queue(After(d, run[1..]).data.free, key));
    }
  }
}
