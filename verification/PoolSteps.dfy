/** The keyed object pool of include/dcl/pool.h as a transition system: any number of threads, items,
    keys and smart pointers over the queues of free items, a mutex and the semaphore of the size
    policy. One synchronisation call, or one body under the mutex, is a step. */
module PoolSteps {
  import opened Options

  // What a pool holds: _free, and _all. An item is its index in all, where the key is recorded that
  // it was created under.
  datatype Data = Data(free: map<string, seq<nat>>, all: seq<string>)

  // _free[key], which creates an empty queue for a new key.
  function Queue(free: map<string, seq<nat>>, key: string): seq<nat> {
    if key in free then free[key] else []
  }

  // The body of acquire_item under the mutex: the first free item, or a new one.
  function ItemTaken(d: Data, key: string): nat {
    var q := Queue(d.free, key);
    if q == [] then |d.all| else q[0]
  }

  function Taken(d: Data, key: string): Data {
    var q := Queue(d.free, key);
    if q == [] then Data(d.free[key := []], d.all + [key]) else d.(free := d.free[key := q[1..]])
  }

  // The body of release_item under the mutex.
  function Put(d: Data, item: nat, key: string): Data {
    d.(free := d.free[key := Queue(d.free, key) + [item]])
  }

  // pool_ptr: _item, _pool and _key. The pool is null or the one pool.
  datatype Ptr = Ptr(item: Option<nat>, pool: bool, key: string) {
    predicate Owns() {
      pool && item.Some?
    }

    // What is left when another pointer takes over.
    function Nulled(): Ptr {
      Ptr(None, false, key)
    }
  }

  // A pointer in its life: at rest; the source of an assignment of thread t; in its own destructor
  // or assignment, run by thread t, with its fields still set; destroyed.
  datatype Slot = Live(ptr: Ptr) | Used(ptr: Ptr, t: nat) | Releasing(ptr: Ptr, t: nat) | Gone

  // What follows a release_item: the end of a destructor, or the copy of an assignment p = q.
  datatype Next = Destroyed(p: nat) | Assigned(p: nat, q: nat)

  // The next call of a thread.
  datatype Thread =
    | Idle
    | AcqLock(key: string)
    | AcqWait(key: string)
    | AcqBody(key: string)
    | AcqLeave(item: nat, key: string)
    | AcqFailed
    | RelUnlock(item: nat, key: string, next: Next)
    | RelWait(item: nat, key: string, next: Next)
    | RelBody(item: nat, key: string, next: Next)
    | RelLeave(next: Next)

  // A limit is the initial count of the semaphore; failed counts creations that threw.
  datatype State = State(limit: Option<nat>, data: Data, sem: nat, mutex: Option<nat>, ptrs: seq<Slot>,
                         threads: seq<Thread>, failed: nat)

  datatype Event =
    | AcquireCall(t: nat, key: string)
    | CopyCall(t: nat, q: nat)
    | DestroyCall(t: nat, p: nat)
    | AssignCall(t: nat, p: nat, q: nat)
    | Advance(t: nat)
    | CreationThrows(t: nat)

  function Initial(limit: Option<nat>, n: nat): State {
    State(limit, Data(map[], []), if limit.Some? then limit.value else 0, None, [], seq(n, i => Idle), 0)
  }

  predicate IsLive(s: State, p: nat) {
    p < |s.ptrs| && s.ptrs[p].Live?
  }

  predicate Enabled(s: State, e: Event) {
    e.t < |s.threads| &&
    match e
    case AcquireCall(t, _) => s.threads[t].Idle?
    case CopyCall(t, q) => s.threads[t].Idle? && IsLive(s, q)
    case DestroyCall(t, p) => s.threads[t].Idle? && IsLive(s, p)
    case AssignCall(t, p, q) => s.threads[t].Idle? && IsLive(s, p) && IsLive(s, q)
    case CreationThrows(t) => s.threads[t].AcqBody? && Queue(s.data.free, s.threads[t].key) == []
    case Advance(t) =>
      match s.threads[t]
      case Idle => false
      case AcqLock(_) => s.limit.None? || s.sem > 0
      case AcqWait(_) => s.mutex.None?
      case RelWait(_, _, _) => s.mutex.None?
      case RelLeave(Destroyed(p)) => p < |s.ptrs|
      case RelLeave(Assigned(p, q)) => p < |s.ptrs| && q < |s.ptrs| && !s.ptrs[p].Gone? && !s.ptrs[q].Gone?
      case _ => true
  }

  function Goes(s: State, t: nat, c: Thread): State
    requires t < |s.threads|
  {
    s.(threads := s.threads[t := c])
  }

  // p = q: the fields of q are copied, then q is nulled; p and q may be the same pointer.
  function Moved(ptrs: seq<Slot>, p: nat, q: nat): seq<Slot>
    requires p < |ptrs| && q < |ptrs| && !ptrs[q].Gone?
  {
    var src := ptrs[q].ptr;
    ptrs[p := Live(src)][q := Live(src.Nulled())]
  }

  // The end of a release_item.
  function Finished(ptrs: seq<Slot>, next: Next): seq<Slot>
    requires next.p < |ptrs| && (next.Assigned? ==> next.q < |ptrs| && !ptrs[next.q].Gone?)
  {
    match next
    case Destroyed(p) => ptrs[p := Gone]
    case Assigned(p, q) => Moved(ptrs, p, q)
  }

  // Thread t begins to release what pointer p owns.
  function Released(s: State, t: nat, p: nat, next: Next): State
    requires t < |s.threads| && IsLive(s, p) && s.ptrs[p].ptr.Owns()
    requires next.Assigned? ==> next.q < |s.ptrs| && !s.ptrs[next.q].Gone?
  {
    var x := s.ptrs[p].ptr;
    var ptrs := s.ptrs[p := Releasing(x, t)];
    Goes(s, t, RelUnlock(x.item.value, x.key, next)).(
      ptrs := if next.Assigned? && next.q != p then ptrs[next.q := Used(s.ptrs[next.q].ptr, t)] else ptrs)
  }

  function Do(s: State, e: Event): State
    requires Enabled(s, e)
  {
    match e
    case AcquireCall(t, key) => Goes(s, t, AcqLock(key))
    case CopyCall(_, q) =>
      var src := s.ptrs[q].ptr;
      s.(ptrs := s.ptrs[q := Live(src.Nulled())] + [Live(src)])
    case DestroyCall(t, p) =>
      if s.ptrs[p].ptr.Owns() then Released(s, t, p, Destroyed(p)) else s.(ptrs := s.ptrs[p := Gone])
    case AssignCall(t, p, q) =>
      if s.ptrs[p].ptr.Owns() then Released(s, t, p, Assigned(p, q)) else s.(ptrs := Moved(s.ptrs, p, q))
    case CreationThrows(t) => Goes(s, t, AcqFailed).(failed := s.failed + 1)
    case Advance(t) =>
      match s.threads[t]
      case AcqLock(key) => Goes(s, t, AcqWait(key)).(sem := if s.limit.Some? then s.sem - 1 else s.sem)
      case AcqWait(key) => Goes(s, t, AcqBody(key)).(mutex := Some(t))
      case AcqBody(key) =>
        Goes(s, t, AcqLeave(ItemTaken(s.data, key), key)).(data := Taken(s.data, key))
      case AcqLeave(item, key) =>
        Goes(s, t, Idle).(mutex := None, ptrs := s.ptrs + [Live(Ptr(Some(item), true, key))])
      case AcqFailed => Goes(s, t, Idle).(mutex := None)
      case RelUnlock(item, key, next) =>
        Goes(s, t, RelWait(item, key, next)).(sem := if s.limit.Some? then s.sem + 1 else s.sem)
      case RelWait(item, key, next) => Goes(s, t, RelBody(item, key, next)).(mutex := Some(t))
      case RelBody(item, key, next) => Goes(s, t, RelLeave(next)).(data := Put(s.data, item, key))
      case RelLeave(next) => Goes(s, t, Idle).(mutex := None, ptrs := Finished(s.ptrs, next))
  }

  predicate Possible(s: State, run: seq<Event>)
    decreases |run|
  {
    run == [] || (Enabled(s, run[0]) && Possible(Do(s, run[0]), run[1..]))
  }

  function After(s: State, run: seq<Event>): State
    requires Possible(s, run)
    decreases |run|
  {
    if run == [] then s else After(Do(s, run[0]), run[1..])
  }

  // Who holds what.

  // The item and key that a pointer owns: not while it is being released.
  function OwnedBy(x: Slot): Option<(nat, string)> {
    if (x.Live? || x.Used?) && x.ptr.Owns() then Some((x.ptr.item.value, x.ptr.key)) else None
  }

  // The item in the hands of a thread, with the key it is acquired or released under.
  function HeldBy(c: Thread): Option<(nat, string)> {
    if c.AcqLeave? || c.RelUnlock? || c.RelWait? || c.RelBody? then Some((c.item, c.key)) else None
  }

  // Holdings: an item and its key, or nothing.
  type Holding = Option<(nat, string)>

  function Owners(ptrs: seq<Slot>): (hs: seq<Holding>)
    ensures |hs| == |ptrs| && forall p :: 0 <= p < |ptrs| ==> hs[p] == OwnedBy(ptrs[p])
  {
    seq(|ptrs|, p requires 0 <= p < |ptrs| => OwnedBy(ptrs[p]))
  }

  function Holders(threads: seq<Thread>): (hs: seq<Holding>)
    ensures |hs| == |threads| && forall t :: 0 <= t < |threads| ==> hs[t] == HeldBy(threads[t])
  {
    seq(|threads|, t requires 0 <= t < |threads| => HeldBy(threads[t]))
  }

  // Whether a holding is one of a key, or of any key.
  function Weight(h: Holding, key: Option<string>): nat {
    if h.Some? && (key.None? || key.value == h.value.1) then 1 else 0
  }

  function Count(hs: seq<Holding>, key: Option<string>): nat {
    if hs == [] then 0 else Weight(hs[0], key) + Count(hs[1..], key)
  }

  // The items handed out: owned by a pointer, or in the middle of an acquisition or a release.
  function Outstanding(s: State, key: Option<string>): nat {
    Count(Owners(s.ptrs), key) + Count(Holders(s.threads), key)
  }

  // How many items were ever created under a key.
  function Created(all: seq<string>, key: string): nat {
    if all == [] then 0 else Created(all[..|all| - 1], key) + if all[|all| - 1] == key then 1 else 0
  }

  lemma {:induction false} CountUpdate(hs: seq<Holding>, p: nat, h: Holding, key: Option<string>)
    requires p < |hs|
    ensures Count(hs[p := h], key) == Count(hs, key) - Weight(hs[p], key) + Weight(h, key)
  {
    if p == 0 {
      assert hs[0 := h][1..] == hs[1..];
    } else {
      CountUpdate(hs[1..], p - 1, h, key);
      assert hs[p := h][1..] == hs[1..][p - 1 := h];
    }
  }

  lemma {:induction false} CountAppend(hs: seq<Holding>, h: Holding, key: Option<string>)
    ensures Count(hs + [h], key) == Count(hs, key) + Weight(h, key)
  {
    if hs == [] {
      assert hs + [h] == [h];
    } else {
      CountAppend(hs[1..], h, key);
      assert (hs + [h])[1..] == hs[1..] + [h];
    }
  }

  lemma CreatedAppend(all: seq<string>, x: string, key: string)
    ensures Created(all + [x], key) == Created(all, key) + if x == key then 1 else 0
  {
    assert (all + [x])[..|all|] == all;
  }

  // References: what a thread's next call says about pointers, and who has the mutex.

  predicate Serves(ptrs: seq<Slot>, t: nat, next: Next) {
    && next.p < |ptrs| && ptrs[next.p].Releasing? && ptrs[next.p].t == t
    && (next.Assigned? && next.q != next.p ==> next.q < |ptrs| && ptrs[next.q].Used? && ptrs[next.q].t == t)
  }

  predicate InMutex(c: Thread) {
    c.AcqBody? || c.AcqLeave? || c.AcqFailed? || c.RelBody? || c.RelLeave?
  }

  predicate Releases(c: Thread) {
    c.RelUnlock? || c.RelWait? || c.RelBody? || c.RelLeave?
  }

  // A pointer in the hands of thread t is the one that t's release is about, or the source of its
  // assignment.
  predicate ServedBy(threads: seq<Thread>, p: nat, x: Slot) {
    (x.Used? || x.Releasing?) ==>
      && x.t < |threads| && Releases(threads[x.t])
      && var next := threads[x.t].next;
      if x.Releasing? then next.p == p else next.Assigned? && next.q == p && next.p != p
  }

  ghost predicate Referring(threads: seq<Thread>, ptrs: seq<Slot>) {
    && (forall t :: 0 <= t < |threads| && Releases(threads[t]) ==> Serves(ptrs, t, threads[t].next))
    && (forall p :: 0 <= p < |ptrs| ==> ServedBy(threads, p, ptrs[p]))
  }

  ghost predicate MutexHeld(s: State) {
    && (forall t :: 0 <= t < |s.threads| ==> (InMutex(s.threads[t]) <==> s.mutex == Some(t)))
    && (s.mutex.Some? ==> s.mutex.value < |s.threads|)
  }

  lemma StepKeepsMutex(s: State, e: Event)
    requires MutexHeld(s) && Enabled(s, e)
    ensures MutexHeld(Do(s, e))
  {
    var d := Do(s, e);
    assert forall t :: 0 <= t < |s.threads| && t != e.t ==> d.threads[t] == s.threads[t];
  }

  // A thread that is not releasing, and stays so, leaves the references alone.
  lemma ThreadKeepsReferring(threads: seq<Thread>, ptrs: seq<Slot>, t: nat, c: Thread)
    requires Referring(threads, ptrs) && t < |threads| && Releases(c) == Releases(threads[t])
    requires Releases(c) ==> c.next == threads[t].next
    ensures Referring(threads[t := c], ptrs)
  {}

  lemma AppendKeepsReferring(threads: seq<Thread>, ptrs: seq<Slot>, x: Ptr)
    requires Referring(threads, ptrs)
    ensures Referring(threads, ptrs + [Live(x)])
  {}

  lemma LiveKeepsReferring(threads: seq<Thread>, ptrs: seq<Slot>, p: nat, x: Slot)
    requires Referring(threads, ptrs) && p < |ptrs| && (ptrs[p].Live? || ptrs[p].Gone?) && (x.Live? || x.Gone?)
    ensures Referring(threads, ptrs[p := x])
  {
    var after := ptrs[p := x];
    forall t | 0 <= t < |threads| && Releases(threads[t]) ensures Serves(after, t, threads[t].next) {
      assert Serves(ptrs, t, threads[t].next);
    }
  }

  lemma ReleasedKeepsReferring(s: State, t: nat, p: nat, next: Next)
    requires Referring(s.threads, s.ptrs)
    requires t < |s.threads| && s.threads[t].Idle? && IsLive(s, p) && s.ptrs[p].ptr.Owns() && next.p == p
    requires next.Assigned? ==> IsLive(s, next.q)
    ensures var d := Released(s, t, p, next); Referring(d.threads, d.ptrs)
  {
    var d := Released(s, t, p, next);
    forall u | 0 <= u < |d.threads| && Releases(d.threads[u]) ensures Serves(d.ptrs, u, d.threads[u].next) {
      if u != t { assert Serves(s.ptrs, u, s.threads[u].next); }
    }
    forall x | 0 <= x < |d.ptrs| ensures ServedBy(d.threads, x, d.ptrs[x]) {
      assert ServedBy(s.threads, x, s.ptrs[x]);
    }
  }

  lemma FinishedKeepsReferring(threads: seq<Thread>, ptrs: seq<Slot>, t: nat)
    requires Referring(threads, ptrs) && t < |threads| && threads[t].RelLeave?
    ensures
      var next := threads[t].next;
      && Serves(ptrs, t, next) && Referring(threads[t := Idle], Finished(ptrs, next))
  {
    var next := threads[t].next;
    assert Serves(ptrs, t, next);
    var after := Finished(ptrs, next);
    forall u | 0 <= u < |threads| && u != t && Releases(threads[u]) ensures Serves(after, u, threads[u].next) {
      assert Serves(ptrs, u, threads[u].next);
    }
    forall x | 0 <= x < |after| ensures ServedBy(threads[t := Idle], x, after[x]) {
      assert ServedBy(threads, x, ptrs[x]);
    }
  }

  lemma StepKeepsReferring(s: State, e: Event)
    requires Referring(s.threads, s.ptrs) && Enabled(s, e)
    ensures Referring(Do(s, e).threads, Do(s, e).ptrs)
  {
    hide Referring, Taken, ItemTaken, Put, Queue;
    var d := Do(s, e);
    match e
    case AcquireCall(t, key) => ThreadKeepsReferring(s.threads, s.ptrs, t, AcqLock(key));
    case CreationThrows(t) => ThreadKeepsReferring(s.threads, s.ptrs, t, AcqFailed);
    case CopyCall(_, q) =>
      var src := s.ptrs[q].ptr;
      LiveKeepsReferring(s.threads, s.ptrs, q, Live(src.Nulled()));
      AppendKeepsReferring(s.threads, s.ptrs[q := Live(src.Nulled())], src);
    case DestroyCall(t, p) =>
      if s.ptrs[p].ptr.Owns() {
        ReleasedKeepsReferring(s, t, p, Destroyed(p));
      } else {
        LiveKeepsReferring(s.threads, s.ptrs, p, Gone);
      }
    case AssignCall(t, p, q) =>
      if s.ptrs[p].ptr.Owns() {
        ReleasedKeepsReferring(s, t, p, Assigned(p, q));
      } else {
        var src := s.ptrs[q].ptr;
        LiveKeepsReferring(s.threads, s.ptrs, p, Live(src));
        LiveKeepsReferring(s.threads, s.ptrs[p := Live(src)], q, Live(src.Nulled()));
      }
    case Advance(t) =>
      if s.threads[t].RelLeave? {
        FinishedKeepsReferring(s.threads, s.ptrs, t);
      } else {
        ThreadKeepsReferring(s.threads, s.ptrs, t, d.threads[t]);
        if s.threads[t].AcqLeave? {
          AppendKeepsReferring(s.threads[t := Idle], s.ptrs, Ptr(Some(s.threads[t].item), true, s.threads[t].key));
        }
      }
  }

  // How one step moves holdings between the pointers and the threads.

  // What the pointers own when p has taken over from q.
  function MovedOwners(hs: seq<Holding>, p: nat, q: nat): seq<Holding>
    requires p < |hs| && q < |hs|
  {
    hs[p := hs[q]][q := None]
  }

  datatype Holdings = Holdings(owners: seq<Holding>, holders: seq<Holding>)

  function HoldingsOf(s: State): Holdings {
    Holdings(Owners(s.ptrs), Holders(s.threads))
  }

  // The effect of a step on the holdings, pointers by pointers and threads by threads.
  predicate Effect(s: State, e: Event, h: Holdings)
    requires Enabled(s, e)
  {
    var o := Owners(s.ptrs);
    var t := Holders(s.threads);
    match e
    case AcquireCall(_, _) => h == Holdings(o, t)
    case CreationThrows(_) => h == Holdings(o, t)
    case CopyCall(_, q) => h == Holdings(o[q := None] + [o[q]], t)
    case DestroyCall(u, p) => h == Holdings(o[p := None], t[u := o[p]])
    case AssignCall(u, p, q) =>
      h == if o[p].Some? then Holdings(o[p := None], t[u := o[p]]) else Holdings(MovedOwners(o, p, q), t)
    case Advance(u) =>
      match s.threads[u]
      case AcqBody(key) => h == Holdings(o, t[u := Some((ItemTaken(s.data, key), key))])
      case AcqLeave(_, _) => h == Holdings(o + [t[u]], t[u := None])
      case RelBody(_, _, _) => h == Holdings(o, t[u := None])
      case RelLeave(Assigned(p, q)) => h == Holdings(MovedOwners(o, p, q), t) && o[p].None?
      case RelLeave(Destroyed(p)) => h == Holdings(o, t)
      case _ => h == Holdings(o, t)
  }

  lemma StepMovesHoldings(s: State, e: Event)
    requires Referring(s.threads, s.ptrs) && Enabled(s, e)
    ensures Effect(s, e, HoldingsOf(Do(s, e)))
  {
    hide *;
    if !e.Advance? {
      CallMovesHoldings(s, e);
    } else {
      AdvanceMovesHoldings(s, e);
    }
  }

  lemma CallMovesHoldings(s: State, e: Event)
    requires Enabled(s, e) && !e.Advance?
    ensures Effect(s, e, HoldingsOf(Do(s, e)))
  {}

  lemma AdvanceMovesHoldings(s: State, e: Event)
    requires Referring(s.threads, s.ptrs) && Enabled(s, e) && e.Advance?
    ensures Effect(s, e, HoldingsOf(Do(s, e)))
  {
    hide Taken, ItemTaken, Put, Queue, Referring;
    if s.threads[e.t].RelLeave? {
      FinishedKeepsReferring(s.threads, s.ptrs, e.t);
    }
  }

  lemma CountMoved(hs: seq<Holding>, p: nat, q: nat, key: Option<string>)
    requires p < |hs| && q < |hs| && hs[p].None?
    ensures Count(MovedOwners(hs, p, q), key) == Count(hs, key)
  {
    CountUpdate(hs, p, hs[q], key);
    CountUpdate(hs[p := hs[q]], q, None, key);
  }

  // The items a step puts into circulation: acquired minus released, of a key.
  function Inflow(s: State, e: Event, key: Option<string>): int {
    if e.Advance? && e.t < |s.threads| then
      var c := s.threads[e.t];
      var w: int := if key.None? || ((c.AcqBody? || c.RelBody?) && key.value == c.key) then 1 else 0;
      if c.AcqBody? then w else if c.RelBody? then -w else 0
    else 0
  }

  lemma StepCountsHoldings(s: State, e: Event, key: Option<string>)
    requires Referring(s.threads, s.ptrs) && Enabled(s, e)
    ensures Outstanding(Do(s, e), key) == Outstanding(s, key) + Inflow(s, e, key)
  {
    hide Referring, Do, Count, Taken, ItemTaken, Put, Queue;
    StepMovesHoldings(s, e);
    var o := Owners(s.ptrs);
    var t := Holders(s.threads);
    match e
    case CopyCall(_, q) =>
      CountUpdate(o, q, None, key);
      CountAppend(o[q := None], o[q], key);
    case DestroyCall(u, p) =>
      CountUpdate(o, p, None, key);
      CountUpdate(t, u, o[p], key);
    case AssignCall(u, p, q) =>
      if o[p].Some? {
        CountUpdate(o, p, None, key);
        CountUpdate(t, u, o[p], key);
      } else {
        CountMoved(o, p, q, key);
      }
    case Advance(u) =>
      match s.threads[u] {
        case AcqBody(k) => CountUpdate(t, u, Some((ItemTaken(s.data, k), k)), key);
        case AcqLeave(_, _) =>
          CountAppend(o, t[u], key);
          CountUpdate(t, u, None, key);
        case RelBody(_, _, _) => CountUpdate(t, u, None, key);
        case RelLeave(Assigned(p, q)) => CountMoved(o, p, q, key);
        case _ =>
      }
    case _ =>
  }

  // Items are conserved key by key: free ones and handed out ones are the created ones.
  ghost predicate ConservedKey(s: State, key: string) {
    |Queue(s.data.free, key)| + Outstanding(s, Some(key)) == Created(s.data.all, key)
  }

  lemma StepConservesKey(s: State, e: Event, key: string)
    requires Referring(s.threads, s.ptrs) && Enabled(s, e) && ConservedKey(s, key)
    ensures ConservedKey(Do(s, e), key)
  {
    hide Referring, Outstanding, Created;
    StepCountsHoldings(s, e, Some(key));
    if e.Advance? && s.threads[e.t].AcqBody? {
      CreatedAppend(s.data.all, s.threads[e.t].key, key);
    }
  }

  // The semaphore of the limited policy.

  // A thread between size_policy->lock() and unlock() that no pointer accounts for.
  predicate HasToken(c: Thread) {
    c.AcqWait? || c.AcqBody? || c.AcqLeave? || c.RelUnlock?
  }

  function Tokens(threads: seq<Thread>): nat {
    if threads == [] then 0 else (if HasToken(threads[0]) then 1 else 0) + Tokens(threads[1..])
  }

  lemma {:induction false} TokensUpdate(threads: seq<Thread>, t: nat, c: Thread)
    requires t < |threads|
    ensures Tokens(threads[t := c]) == Tokens(threads) - (if HasToken(threads[t]) then 1 else 0)
                                       + if HasToken(c) then 1 else 0
  {
    if t == 0 {
      assert threads[0 := c][1..] == threads[1..];
    } else {
      TokensUpdate(threads[1..], t - 1, c);
      assert threads[t := c][1..] == threads[1..][t - 1 := c];
    }
  }

  // Count, callers between lock and unlock, and creations that threw add up to the limit.
  predicate Limited(s: State) {
    s.limit.Some? ==> s.sem + Count(Owners(s.ptrs), None) + Tokens(s.threads) + s.failed == s.limit.value
  }

  lemma StepKeepsLimited(s: State, e: Event)
    requires Referring(s.threads, s.ptrs) && Enabled(s, e) && Limited(s)
    ensures Limited(Do(s, e))
  {
    hide Referring, Count, Tokens, Taken, ItemTaken, Put, Queue, Owners, Holders;
    StepMovesHoldings(s, e);
    var o := Owners(s.ptrs);
    OwnersAre(s.ptrs);
    HoldersAre(s.threads);
    TokensUpdate(s.threads, e.t, Do(s, e).threads[e.t]);
    match e
    case CopyCall(_, q) =>
      CountUpdate(o, q, None, None);
      CountAppend(o[q := None], o[q], None);
    case DestroyCall(u, p) =>
      CountUpdate(o, p, None, None);
    case AssignCall(u, p, q) =>
      if o[p].Some? {
        CountUpdate(o, p, None, None);
      } else {
        CountMoved(o, p, q, None);
      }
    case Advance(u) =>
      match s.threads[u] {
        case AcqLeave(_, _) => CountAppend(o, Holders(s.threads)[u], None);
        case RelLeave(Assigned(p, q)) => CountMoved(o, p, q, None);
        case _ =>
      }
    case _ =>
  }

  lemma OwnersAre(ptrs: seq<Slot>)
    ensures |Owners(ptrs)| == |ptrs| && forall p :: 0 <= p < |ptrs| ==> Owners(ptrs)[p] == OwnedBy(ptrs[p])
  {}

  lemma HoldersAre(threads: seq<Thread>)
    ensures |Holders(threads)| == |threads|
    ensures forall t :: 0 <= t < |threads| ==> Holders(threads)[t] == HeldBy(threads[t])
  {}
}
