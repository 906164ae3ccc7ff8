/** The four operations of src/dcl/win32/rwlock_impl.cpp as imperative code over the semaphore and the
    mutex. What the other clients do while an operation waits is a parameter; each operation is proved
    to be a run of the transition system, so every property of its reachable states holds of it. */
module RwLock {
  import opened Options
  import opened RwLockSteps

  // Events of clients other than t.
  predicate Others(run: seq<Event>, t: nat) {
    forall i :: 0 <= i < |run| ==> run[i].t != t
  }

  lemma {:induction false} PossibleSplit(s: State, a: seq<Event>, b: seq<Event>)
    ensures Possible(s, a + b) <==> Possible(s, a) && Possible(After(s, a), b)
    ensures Possible(s, a + b) ==> After(s, a + b) == After(After(s, a), b)
    decreases |a|
  {
    if a == [] {
      assert a + b == b;
    } else {
      assert (a + b)[1..] == a[1..] + b;
      if Enabled(s, a[0]) {
        PossibleSplit(Do(s, a[0]), a[1..], b);
      }
    }
  }

  lemma {:induction false} OthersLeave(s: State, run: seq<Event>, t: nat)
    requires Possible(s, run) && Others(run, t) && t < |s.clients|
    ensures |After(s, run).clients| == |s.clients| && After(s, run).clients[t] == s.clients[t]
    decreases |run|
  {
    if run != [] {
      OthersLeave(Do(s, run[0]), run[1..], t);
    }
  }

  // The call of client t, then its first n steps, each preceded by what the others do meanwhile.
  function Schedule(call: Event, waits: seq<seq<Event>>, n: nat): seq<Event>
    requires n <= |waits|
  {
    if n == 0 then [call] else Schedule(call, waits, n - 1) + waits[n - 1] + [Advance(call.t)]
  }

  // An operation whose waits all return: the others make every step of t possible in time.
  ghost predicate Returns(s: State, call: Event, waits: seq<seq<Event>>) {
    && Possible(s, Schedule(call, waits, |waits|))
    && forall i :: 0 <= i < |waits| ==> Others(waits[i], call.t)
  }

  lemma {:induction false} SchedulePrefix(s: State, call: Event, waits: seq<seq<Event>>, n: nat, k: nat)
    requires k <= n <= |waits| && Possible(s, Schedule(call, waits, n))
    ensures Possible(s, Schedule(call, waits, k))
  {
    if k < n {
      PossibleSplit(s, Schedule(call, waits, n - 1) + waits[n - 1], [Advance(call.t)]);
      PossibleSplit(s, Schedule(call, waits, n - 1), waits[n - 1]);
      SchedulePrefix(s, call, waits, n - 1, k);
    }
  }

  // Step k of an operation: after the others have run, t finds its object available.
  lemma ScheduleStep(s: State, call: Event, waits: seq<seq<Event>>, k: nat)
    requires Returns(s, call, waits) && k < |waits|
    ensures Possible(s, Schedule(call, waits, k)) && Possible(s, Schedule(call, waits, k + 1))
    ensures
      var now := After(s, Schedule(call, waits, k));
      && Possible(now, waits[k])
      && Enabled(After(now, waits[k]), Advance(call.t))
      && After(s, Schedule(call, waits, k + 1)) == Do(After(now, waits[k]), Advance(call.t))
      && call.t < |now.clients| == |After(now, waits[k]).clients|
      && After(now, waits[k]).clients[call.t] == now.clients[call.t]
  {
    SchedulePrefix(s, call, waits, |waits|, k + 1);
    var before := Schedule(call, waits, k);
    PossibleSplit(s, before + waits[k], [Advance(call.t)]);
    PossibleSplit(s, before, waits[k]);
    var now := After(s, before);
    assert Possible(After(now, waits[k]), [Advance(call.t)]);
    assert [Advance(call.t)][0] == Advance(call.t);
    SameNumber(now, waits[k]);
    OthersLeave(now, waits[k], call.t);
  }

  lemma ScheduleStart(s: State, call: Event, waits: seq<seq<Event>>)
    requires Returns(s, call, waits)
    ensures Enabled(s, call) && Possible(s, Schedule(call, waits, 0))
    ensures After(s, Schedule(call, waits, 0)) == Do(s, call)
  {
    SchedulePrefix(s, call, waits, |waits|, 0);
    assert [call][0] == call;
  }

  lemma {:induction false} SameNumber(s: State, run: seq<Event>)
    requires Possible(s, run)
    ensures |After(s, run).clients| == |s.clients|
    decreases |run|
  {
    if run != [] {
      SameNumber(Do(s, run[0]), run[1..]);
    }
  }

  class Lock {
    var sem: nat
    var mutex: Option<nat>
    var clients: seq<Client>

    ghost function Value(): State
      reads this
    {
      State(sem, mutex, clients)
    }

    constructor (n: nat)
      ensures Value() == Initial(n)
    {
      sem := MAX_READERS;
      mutex := None;
      clients := seq(n, i => Idle);
    }

    // One event, on the fields.
    method Perform(e: Event)
      requires Enabled(Value(), e)
      modifies this
      ensures Value() == Do(old(Value()), e)
    {
      var t := e.t;
      match e
      case ReadCall(_) => clients := clients[t := WantsRead];
      case WriteCall(_) => clients := clients[t := WantsWrite];
      case Advance(_) =>
        match clients[t]
        case WantsRead => sem, clients := sem - 1, clients[t := Reading];
        case Reading => sem, clients := Released(sem, 1), clients[t := Idle];
        case WantsWrite => mutex, clients := Some(t), clients[t := Collecting(0)];
        case Collecting(k) =>
          if k < MAX_READERS {
            sem, clients := sem - 1, clients[t := Collecting(k + 1)];
          } else {
            mutex, clients := None, clients[t := Writing];
          }
        case Writing => sem, clients := Released(sem, MAX_READERS), clients[t := Idle];
    }

    // The other clients run while one waits.
    method Wait(run: seq<Event>)
      requires Possible(Value(), run)
      modifies this
      ensures Value() == After(old(Value()), run)
    {
      for i := 0 to |run|
        invariant Possible(Value(), run[i..]) && After(Value(), run[i..]) == After(old(Value()), run)
      {
        assert run[i..][0] == run[i] && run[i..][1..] == run[i + 1..];
        Perform(run[i]);
      }
    }

    method EnterRead(t: nat, wait: seq<Event>)
      requires Returns(Value(), ReadCall(t), [wait])
      modifies this
      ensures Value() == After(old(Value()), Schedule(ReadCall(t), [wait], 1))
      ensures t < |clients| && clients[t] == Reading
    {
      hide Possible, After, Schedule, Returns;
      ghost var s := Value();
      ScheduleStart(s, ReadCall(t), [wait]);
      ScheduleStep(s, ReadCall(t), [wait], 0);
      clients := clients[t := WantsRead];
      Wait(wait);
      sem := sem - 1;
      clients := clients[t := Reading];
    }

    method LeaveRead(t: nat)
      requires Inv(Value()) && t < |clients| && clients[t] == Reading
      modifies this
      ensures Value() == Do(old(Value()), Advance(t)) && Inv(Value())
      ensures sem == old(sem) + 1
    {
      StepKeepsInv(Value(), Advance(t));
      HeldAtLeast(clients, t);
      sem := Released(sem, 1);
      clients := clients[t := Idle];
    }

    // waits[0] is what the others do before the mutex is free, waits[1 .. 64] before each token,
    // waits[65] before the mutex is released.
    method EnterWrite(t: nat, waits: seq<seq<Event>>)
      requires |waits| == MAX_READERS + 2 && Returns(Value(), WriteCall(t), waits)
      modifies this
      ensures Value() == After(old(Value()), Schedule(WriteCall(t), waits, |waits|))
      ensures t < |clients| && clients[t] == Writing
    {
      hide Possible, After, Schedule, Returns;
      ghost var s := Value();
      ScheduleStart(s, WriteCall(t), waits);
      ScheduleStep(s, WriteCall(t), waits, 0);
      clients := clients[t := WantsWrite];
      Wait(waits[0]);
      mutex := Some(t);
      clients := clients[t := Collecting(0)];
      for i := 0 to MAX_READERS
        invariant Possible(s, Schedule(WriteCall(t), waits, i + 1))
        invariant Value() == After(s, Schedule(WriteCall(t), waits, i + 1))
        invariant t < |clients| && clients[t] == Collecting(i)
      {
        ScheduleStep(s, WriteCall(t), waits, i + 1);
        Wait(waits[i + 1]);
        sem := sem - 1;
        clients := clients[t := Collecting(i + 1)];
      }
      ScheduleStep(s, WriteCall(t), waits, MAX_READERS + 1);
      Wait(waits[MAX_READERS + 1]);
      mutex := None;
      clients := clients[t := Writing];
    }

    method LeaveWrite(t: nat)
      requires Inv(Value()) && t < |clients| && clients[t] == Writing
      modifies this
      ensures Value() == Do(old(Value()), Advance(t)) && Inv(Value())
      ensures old(sem) == 0 && sem == MAX_READERS
    {
      StepKeepsInv(Value(), Advance(t));
      HeldAtLeast(clients, t);
      sem := Released(sem, MAX_READERS);
      clients := clients[t := Idle];
    }
  }
}
