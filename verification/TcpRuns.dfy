/** Properties of every run of the server. */
module TcpRuns {
  import opened Options
  import opened Sequences
  import opened TcpConnection
  import opened TcpSteps

  // How often a request occurs in a queue.
  function Times(q: seq<nat>, id: nat): nat {
    if q == [] then 0 else (if q[0] == id then 1 else 0) + Times(q[1..], id)
  }

  // The request a worker holds.
  function HeldBy(c: Worker): Option<nat> {
    if c.Handling? || c.Returning? || c.Pushing? then Some(c.rq) else None
  }

  function TimesHeld(workers: seq<Worker>, id: nat): nat {
    if workers == [] then 0 else (if HeldBy(workers[0]) == Some(id) then 1 else 0) + TimesHeld(workers[1..], id)
  }

  // The request that the I/O thread has accepted and not yet queued.
  function HeldByIo(c: IoThread): Option<nat> {
    if c.AccHolds? || c.AccPush? then Some(c.rq) else None
  }

  // The places of a request: a_reqs, reqs, a worker, the accepting I/O thread, destroyed, dropped.
  function Places(s: State, id: nat): nat {
    Times(s.aReqs, id) + Times(s.reqs, id) + TimesHeld(s.workers, id)
    + (if HeldByIo(s.io) == Some(id) then 1 else 0) + Times(s.destroyed, id) + Times(s.dropped, id)
  }

  lemma {:induction false} TimesAppend(q: seq<nat>, x: nat, id: nat)
    ensures Times(q + [x], id) == Times(q, id) + if x == id then 1 else 0
  {
    if q == [] {
      assert q + [x] == [x];
    } else {
      assert (q + [x])[1..] == q[1..] + [x];
      TimesAppend(q[1..], x, id);
    }
  }

  lemma {:induction false} TimesErased(q: seq<nat>, i: nat, id: nat)
    requires i < |q|
    ensures Times(q, id) == Times(Erased(q, i), id) + if q[i] == id then 1 else 0
  {
    if i == 0 {
      assert Erased(q, 0) == q[1..];
    } else {
      assert Erased(q, i)[1..] == Erased(q[1..], i - 1);
      TimesErased(q[1..], i - 1, id);
    }
  }

  lemma {:induction false} TimesIn(q: seq<nat>, i: nat)
    requires i < |q|
    ensures Times(q, q[i]) >= 1
  {
    TimesErased(q, i, q[i]);
  }

  lemma {:induction false} HeldUpdate(workers: seq<Worker>, w: nat, c: Worker, id: nat)
    requires w < |workers|
    ensures TimesHeld(workers[w := c], id) + (if HeldBy(workers[w]) == Some(id) then 1 else 0)
         == TimesHeld(workers, id) + if HeldBy(c) == Some(id) then 1 else 0
  {
    if w == 0 {
      assert workers[0 := c][1..] == workers[1..];
    } else {
      assert workers[w := c][1..] == workers[1..][w - 1 := c];
      HeldUpdate(workers[1..], w - 1, c, id);
    }
  }

  lemma {:induction false} HeldSame(a: seq<Worker>, b: seq<Worker>, id: nat)
    requires |a| == |b| && forall w :: 0 <= w < |a| ==> HeldBy(a[w]) == HeldBy(b[w])
    ensures TimesHeld(a, id) == TimesHeld(b, id)
  {
    if a != [] {
      HeldSame(a[1..], b[1..], id);
    }
  }

  // One step moves a request from place to place, and accepting creates one.

  lemma WorkMoves(s: State, e: Event, id: nat)
    requires Enabled(s, e) && (e.Work? || e.Wake? || e.Process?)
    ensures Places(Do(s, e), id) == Places(s, id)
  {
    hide TimesHeld, Times;
    HeldUpdate(s.workers, e.w, Do(s, e).workers[e.w], id);
    if e.Work? && s.workers[e.w].Checking? && s.reqs != [] {
      FirstOf(s.reqs, id);
    } else if e.Work? && s.workers[e.w].Pushing? {
      TimesAppend(s.aReqs, s.workers[e.w].rq, id);
    } else if e.Process? {
      TimesAppend(s.dropped, s.workers[e.w].rq, id);
    }
  }

  lemma FirstOf(q: seq<nat>, id: nat)
    requires q != []
    ensures Times(q, id) == (if q[0] == id then 1 else 0) + Times(q[1..], id)
  {}

  lemma IoStepMoves(s: State, id: nat)
    requires Enabled(s, IoStep)
    ensures Places(Do(s, IoStep), id) == Places(s, id)
  {
    hide TimesHeld, Times, Drained;
    HeldSame(s.workers, Do(s, IoStep).workers, id);
    if s.io.IoClosing? && s.io.i < |s.aReqs| {
      TimesErased(s.aReqs, s.io.i, id);
      TimesAppend(s.destroyed, s.aReqs[s.io.i], id);
    } else if s.io.AccPush? {
      TimesAppend(s.aReqs, s.io.rq, id);
    }
  }

  lemma IoMoves(s: State, e: Event, id: nat)
    requires Enabled(s, e) && (e.Poll? || e.AcceptThrew? || e.Accept? || e.ServeRequest?)
    ensures Places(Do(s, e), id) == Places(s, id) + if e.Accept? && id == |s.conns| then 1 else 0
  {
    hide TimesHeld, Times, Served, Threw;
    HeldSame(s.workers, Do(s, e).workers, id);
    match e
    case Accept(_, _) => TimesAppend(s.dropped, |s.conns|, id);
    case ServeRequest(_, _) =>
      TimesErased(s.aReqs, s.io.i, id);
      TimesAppend(s.reqs, s.aReqs[s.io.i], id);
    case _ =>
  }

  lemma ControlMoves(s: State, e: Event, id: nat)
    requires Joined(s) && Enabled(s, e) && (e.StartCall? || e.StopCall? || e.ControlStep?)
    ensures Places(Do(s, e), id) == Places(s, id)
  {
    hide TimesHeld, Times;
    HeldSame(s.workers, Do(s, e).workers, id);
  }

  lemma StepMoves(s: State, e: Event, id: nat)
    requires Joined(s) && Enabled(s, e)
    ensures Places(Do(s, e), id) == Places(s, id) + if e.Accept? && id == |s.conns| then 1 else 0
  {
    hide *;
    if e.Work? || e.Wake? || e.Process? {
      WorkMoves(s, e, id);
    } else if e.StartCall? || e.StopCall? || e.ControlStep? {
      ControlMoves(s, e, id);
    } else if e.IoStep? {
      IoStepMoves(s, id);
    } else {
      IoMoves(s, e, id);
    }
  }

  ghost predicate Accounted(s: State) {
    forall id: nat :: Places(s, id) == if id < |s.conns| then 1 else 0
  }

  // The request that a step reads or changes.
  function Touched(s: State, e: Event): Option<nat>
    requires Enabled(s, e)
  {
    if e.Process? then Some(s.workers[e.w].rq)
    else if e.ServeRequest? then Some(s.aReqs[s.io.i])
    else if e.IoStep? && s.io.IoClosing? && s.io.i < |s.aReqs| then Some(s.aReqs[s.io.i])
    else None
  }

  lemma {:induction false} WorkerHolds(workers: seq<Worker>, w: nat)
    requires w < |workers| && HeldBy(workers[w]).Some?
    ensures TimesHeld(workers, HeldBy(workers[w]).value) >= 1
  {
    HeldUpdate(workers, w, Out, HeldBy(workers[w]).value);
  }

  lemma TouchedIsAlive(s: State, e: Event)
    requires Accounted(s) && Enabled(s, e) && Touched(s, e).Some?
    ensures
      var id := Touched(s, e).value;
      id < |s.conns| && id !in s.destroyed && id !in s.dropped && id !in s.reqs
  {
    hide Do;
    var id := Touched(s, e).value;
    assert Places(s, id) <= 1;
    if e.Process? {
      WorkerHolds(s.workers, e.w);
    } else {
      TimesIn(s.aReqs, s.io.i);
    }
    NotIn(s.destroyed, id);
    NotIn(s.dropped, id);
    NotIn(s.reqs, id);
  }

  lemma NotIn(q: seq<nat>, id: nat)
    ensures Times(q, id) == 0 ==> id !in q
  {
    if i :| 0 <= i < |q| && q[i] == id {
      TimesIn(q, i);
    }
  }

  // A step changes no request but the one it touches; closing is for good, and the bytes add up.
  lemma ConnectionStep(s: State, e: Event, id: nat)
    requires Enabled(s, e) && id < |s.conns| && Valid(s.conns[id])
    ensures |s.conns| <= |Do(s, e).conns| && Valid(Do(s, e).conns[id])
    ensures Touched(s, e) != Some(id) ==> Do(s, e).conns[id] == s.conns[id]
    ensures s.conns[id].closing ==> Do(s, e).conns[id].closing
  {
    hide Valid, Inserted, Written;
    var c := s.conns[id];
    if e.Process? && id == s.workers[e.w].rq {
      InsertKeepsValid(c, e.reply.out);
      HandledIsValid(c, e.reply);
    } else if e.ServeRequest? && id == s.aReqs[s.io.i] {
      ServedIsValid(c, e.write, e.read);
    }
  }

  lemma HandledIsValid(c: Connection, reply: Reply)
    requires Valid(Inserted(c, reply.out))
    ensures Valid(Handled(c, reply)) && (c.closing ==> Handled(c, reply).closing)
  {}

  lemma ServedIsValid(c: Connection, write: Option<WriteResult>, read: Option<ReadResult>)
    requires Valid(c) && (write.Some? ==> Takes(c, write.value))
    ensures Valid(Served(c, write, read)) && (c.closing ==> Served(c, write, read).closing)
  {
    hide Valid;
    if write.Some? {
      WriteKeepsValid(c, write.value);
    }
    if read.Some? {
      ReadKeepsValid(AfterWrite(c, write), read.value);
    }
  }

  ghost predicate Connected(s: State) {
    && (forall id :: 0 <= id < |s.conns| ==> Valid(s.conns[id]))
    && (forall id :: id in s.reqs ==> id < |s.conns| && !s.conns[id].closing)
    && (forall id :: id in s.destroyed ==> id < |s.conns| && Drained(s.conns[id]))
  }

  // What a step puts into reqs and into destroyed.
  lemma NewInQueues(s: State, e: Event, id: nat)
    requires Enabled(s, e)
    ensures id in Do(s, e).reqs && id !in s.reqs ==>
              e.ServeRequest? && id == s.aReqs[s.io.i] < |s.conns| && !Do(s, e).conns[id].closing
    ensures id in Do(s, e).destroyed && id !in s.destroyed ==>
              e.IoStep? && s.io.IoClosing? && s.io.i < |s.aReqs| && id == s.aReqs[s.io.i] < |s.conns|
              && Drained(s.conns[id])
  {
    hide Served, Handled, Drained, Inserted;
  }

  lemma StepKeepsConnected(s: State, e: Event)
    requires Accounted(s) && Connected(s) && Enabled(s, e)
    ensures Connected(Do(s, e))
  {
    hide Valid, Drained, Do, Enabled, Accounted, Inserted;
    var d := Do(s, e);
    if Touched(s, e).Some? {
      TouchedIsAlive(s, e);
    }
    Growth(s, e);
    forall id | 0 <= id < |d.conns| ensures Valid(d.conns[id]) {
      if id < |s.conns| {
        ConnectionStep(s, e, id);
      }
    }
    forall id | id in d.reqs ensures id < |d.conns| && !d.conns[id].closing {
      NewInQueues(s, e, id);
      if id in s.reqs {
        ConnectionStep(s, e, id);
      }
    }
    forall id | id in d.destroyed ensures id < |d.conns| && Drained(d.conns[id]) {
      NewInQueues(s, e, id);
      ConnectionStep(s, e, id);
      if id !in s.destroyed {
        ClosingOnlyLooks(s, e);
      }
    }
  }

  lemma ClosingOnlyLooks(s: State, e: Event)
    requires Enabled(s, e) && e.IoStep?
    ensures Do(s, e).conns == s.conns
  {}

  // A new connection is valid, and no other step adds one.
  lemma Growth(s: State, e: Event)
    requires Enabled(s, e)
    ensures |Do(s, e).conns| == |s.conns| + if e.Accept? then 1 else 0
    ensures e.Accept? ==> Valid(Do(s, e).conns[|s.conns|])
  {
    NewIsValid();
    if e.Accept? {
      InsertKeepsValid(New(), e.greeting);
    }
  }

  ghost predicate Inv(s: State) {
    Locking(s) && Joined(s) && Awake(s) && Accounted(s) && Connected(s)
  }

  lemma StepKeepsInv(s: State, e: Event)
    requires Inv(s) && Enabled(s, e)
    ensures Inv(Do(s, e))
  {
    hide Locking, Joined, Awake, Connected, Do, Enabled, Places;
    StepKeepsLocking(s, e);
    StepKeepsJoined(s, e);
    StepKeepsAwake(s, e);
    StepKeepsConnected(s, e);
    Growth(s, e);
    forall id: nat ensures Places(Do(s, e), id) == if id < |Do(s, e).conns| then 1 else 0 {
      StepMoves(s, e, id);
    }
  }

  lemma {:induction false} NoneHeld(workers: seq<Worker>, id: nat)
    requires forall w :: 0 <= w < |workers| ==> HeldBy(workers[w]).None?
    ensures TimesHeld(workers, id) == 0
  {
    if workers != [] {
      NoneHeld(workers[1..], id);
    }
  }

  lemma InitialInv(workers: nat, queueSize: nat)
    ensures Inv(Initial(workers, queueSize))
  {
    var s := Initial(workers, queueSize);
    forall id: nat ensures Places(s, id) == 0 {
      NoneHeld(s.workers, id);
    }
  }

  lemma {:induction false} RunKeepsInv(s: State, run: seq<Event>)
    requires Inv(s) && Possible(s, run)
    ensures Inv(After(s, run))
    decreases |run|
  {
    hide Inv, Enabled, Do;
    if run != [] {
      StepKeepsInv(s, run[0]);
      RunKeepsInv(Do(s, run[0]), run[1..]);
    }
  }

  lemma Reachable(workers: nat, queueSize: nat, run: seq<Event>)
    requires Possible(Initial(workers, queueSize), run)
    ensures Inv(After(Initial(workers, queueSize), run))
  {
    InitialInv(workers, queueSize);
    RunKeepsInv(Initial(workers, queueSize), run);
  }

  // Every request ever created is in exactly one place: once in a_reqs, once in reqs, held by one
  // worker, held by the accepting I/O thread, destroyed once, or dropped by a handler that threw.
  lemma ExactlyOnePlace(workers: nat, queueSize: nat, run: seq<Event>, id: nat)
    requires Possible(Initial(workers, queueSize), run)
    ensures
      var s := After(Initial(workers, queueSize), run);
      Times(s.aReqs, id) + Times(s.reqs, id) + TimesHeld(s.workers, id)
      + (if HeldByIo(s.io) == Some(id) then 1 else 0) + Times(s.destroyed, id) + Times(s.dropped, id)
      == if id < |s.conns| then 1 else 0
  {
    Reachable(workers, queueSize, run);
    var s := After(Initial(workers, queueSize), run);
    assert Places(s, id) == if id < |s.conns| then 1 else 0;
  }

  // No request is touched after its destruction, nor one left behind by an exception.
  lemma NeverTouchedAgain(workers: nat, queueSize: nat, run: seq<Event>, e: Event)
    requires Possible(Initial(workers, queueSize), run)
    requires Enabled(After(Initial(workers, queueSize), run), e)
    ensures
      var s := After(Initial(workers, queueSize), run);
      Touched(s, e).Some? ==>
        var id := Touched(s, e).value;
        id < |s.conns| && id !in s.destroyed && id !in s.dropped && Times(s.destroyed, id) == 0
  {
    Reachable(workers, queueSize, run);
    var s := After(Initial(workers, queueSize), run);
    if Touched(s, e).Some? {
      TouchedIsAlive(s, e);
      NeverIn(s.destroyed, Touched(s, e).value);
    }
  }

  lemma {:induction false} NeverIn(q: seq<nat>, id: nat)
    requires id !in q
    ensures Times(q, id) == 0
  {
    if q != [] {
      NeverIn(q[1..], id);
    }
  }

  // CLOSING is absorbing, over any run.
  lemma {:induction false} ClosingIsForGood(s: State, run: seq<Event>, id: nat)
    requires Inv(s) && Possible(s, run) && id < |s.conns| && s.conns[id].closing
    ensures id < |After(s, run).conns| && After(s, run).conns[id].closing
    decreases |run|
  {
    hide Enabled, Do, Locking, Joined, Awake, Accounted;
    if run != [] {
      StepKeepsInv(s, run[0]);
      ConnectionStep(s, run[0], id);
      ClosingIsForGood(Do(s, run[0]), run[1..], id);
    }
  }

  // A closing request is never queued to a worker; a destroyed one was closing, and everything it
  // accepted was sent unless a write error is latched; the bytes of every connection add up.
  lemma RequestsAreSound(workers: nat, queueSize: nat, run: seq<Event>, id: nat)
    requires Possible(Initial(workers, queueSize), run)
    ensures
      var s := After(Initial(workers, queueSize), run);
      id < |s.conns| ==>
        var c := s.conns[id];
        && c.sent + Pending(c.buffer) == c.accepted
        && (id in s.reqs ==> !c.closing)
        && (id in s.destroyed ==> c.closing && (c.sent == c.accepted || c.buffer.bad))
  {
    Reachable(workers, queueSize, run);
    var s := After(Initial(workers, queueSize), run);
    if id < |s.conns| && id in s.destroyed {
      DrainedIsSent(s.conns[id]);
    }
  }

  // No lost wake-up: outside a critical section, work in reqs finds no worker parked; and a worker
  // parked while the server is being stopped is still to be woken by stop().
  lemma NoLostWakeUp(workers: nat, queueSize: nat, run: seq<Event>, w: nat)
    requires Possible(Initial(workers, queueSize), run)
    ensures
      var s := After(Initial(workers, queueSize), run);
      w < |s.workers| && s.workers[w].Parked? ==>
        && (s.lock.None? ==> s.reqs == [])
        && (s.stopped ==> s.control.Raising?)
  {
    Reachable(workers, queueSize, run);
  }

  lemma NobodyLocks(s: State)
    requires Locking(s) && !IoLocks(s.io) && !ControlLocks(s.control)
    requires forall w :: 0 <= w < |s.workers| ==> !WorkerLocks(s.workers[w])
    ensures s.lock.None?
  {
    forall w | 0 <= w < |s.workers| ensures s.lock != Some(Holder.Worker(w)) {
      assert !WorkerLocks(s.workers[w]);
    }
    Holders(s.lock);
  }

  lemma Holders(l: Option<Holder>)
    ensures l.None? || l == Some(Io) || l == Some(Owner) || exists w :: l == Some(Holder.Worker(w))
  {
    if l.Some? {
      match l.value
      case Worker(w) => assert l == Some(Holder.Worker(w));
      case _ =>
    }
  }

  // Once stop() has joined all threads, none of them holds a request, and none has the mutex.
  lemma StoppedHoldsNothing(workers: nat, queueSize: nat, run: seq<Event>, id: nat)
    requires Possible(Initial(workers, queueSize), run)
    ensures
      var s := After(Initial(workers, queueSize), run);
      s.stopped && s.control.Ready? ==>
        s.lock.None? && TimesHeld(s.workers, id) == 0 && HeldByIo(s.io).None?
  {
    Reachable(workers, queueSize, run);
    var s := After(Initial(workers, queueSize), run);
    if s.stopped && s.control.Ready? {
      NobodyLocks(s);
      NoneHeld(s.workers, id);
    }
  }

  // A step that leaves a request behind: its handler throws on the worker that holds it, or the connect
  // handler throws on the request just created.
  predicate Drops(s: State, e: Event, id: nat) {
    || (e.Process? && e.reply.verdict.Throw? && e.w < |s.workers| && HeldBy(s.workers[e.w]) == Some(id))
    || (e.Accept? && e.threw && id == |s.conns|)
  }

  predicate Dropping(s: State, run: seq<Event>, id: nat)
    requires Possible(s, run)
    decreases |run|
  {
    run != [] && (Drops(s, run[0], id) || Dropping(Do(s, run[0]), run[1..], id))
  }

  lemma StepDrops(s: State, e: Event, id: nat)
    requires Enabled(s, e)
    ensures id in Do(s, e).dropped <==> id in s.dropped || Drops(s, e, id)
  {
    hide Served, Handled, Drained, Inserted, Threw;
  }

  lemma {:induction false} RunDrops(s: State, run: seq<Event>, id: nat)
    requires Possible(s, run)
    ensures id in After(s, run).dropped <==> id in s.dropped || Dropping(s, run, id)
    decreases |run|
  {
    hide Enabled, Do, Drops;
    if run != [] {
      StepDrops(s, run[0], id);
      RunDrops(Do(s, run[0]), run[1..], id);
    }
  }

  // Over any run a request is dropped if and only if a handler threw on it; it is then for good in no
  // list and in no thread's hands, and never destroyed.
  lemma DroppedByThrowing(workers: nat, queueSize: nat, run: seq<Event>, id: nat)
    requires Possible(Initial(workers, queueSize), run)
    ensures
      var s := After(Initial(workers, queueSize), run);
      && (id in s.dropped <==> Dropping(Initial(workers, queueSize), run, id))
      && (id in s.dropped ==>
            Times(s.aReqs, id) + Times(s.reqs, id) + TimesHeld(s.workers, id) + Times(s.destroyed, id) == 0
            && HeldByIo(s.io) != Some(id))
  {
    RunDrops(Initial(workers, queueSize), run, id);
    Reachable(workers, queueSize, run);
    var s := After(Initial(workers, queueSize), run);
    if i :| 0 <= i < |s.dropped| && s.dropped[i] == id {
      TimesIn(s.dropped, i);
      assert Places(s, id) <= 1;
    }
  }

  // A step that closes a request: its handler answers so on the worker that holds it, or on the data
  // that the I/O thread read; or that read fails. A write that throws is not followed by a read.
  predicate Closes(s: State, e: Event, id: nat) {
    || (e.Process? && e.reply.verdict.Close? && e.w < |s.workers| && HeldBy(s.workers[e.w]) == Some(id))
    || (e.ServeRequest? && s.io.IoServing? && s.io.i < |s.aReqs| && s.aReqs[s.io.i] == id
        && e.write != Some(WriteThrew) && e.read.Some?
        && (e.read.value.ReadFailed? || (e.read.value.ReadData? && e.read.value.reply.verdict.Close?)))
  }

  predicate Closing(s: State, run: seq<Event>, id: nat)
    requires Possible(s, run)
    decreases |run|
  {
    run != [] && (Closes(s, run[0], id) || Closing(Do(s, run[0]), run[1..], id))
  }

  predicate IsClosing(s: State, id: nat) {
    id < |s.conns| && s.conns[id].closing
  }

  lemma ServedCloses(c: Connection, write: Option<WriteResult>, read: Option<ReadResult>)
    requires write.Some? ==> Takes(c, write.value)
    ensures Served(c, write, read).closing <==>
            c.closing || (write != Some(WriteThrew) && read.Some?
              && (read.value.ReadFailed? || (read.value.ReadData? && read.value.reply.verdict.Close?)))
  {}

  lemma StepCloses(s: State, e: Event, id: nat)
    requires Enabled(s, e)
    ensures IsClosing(Do(s, e), id) <==> IsClosing(s, id) || Closes(s, e, id)
  {
    hide Served, Drained, Threw;
    if e.ServeRequest? {
      ServedCloses(s.conns[s.aReqs[s.io.i]], e.write, e.read);
    }
  }

  lemma {:induction false} RunCloses(s: State, run: seq<Event>, id: nat)
    requires Possible(s, run)
    ensures IsClosing(After(s, run), id) <==> IsClosing(s, id) || Closing(s, run, id)
    decreases |run|
  {
    hide Enabled, Do, Closes, IsClosing;
    if run != [] {
      StepCloses(s, run[0], id);
      RunCloses(Do(s, run[0]), run[1..], id);
    }
  }

  // Over any run a request is closing if and only if one of its reads failed or a handler has answered
  // so on it.
  lemma ClosedByReadOrHandler(workers: nat, queueSize: nat, run: seq<Event>, id: nat)
    requires Possible(Initial(workers, queueSize), run)
    ensures
      var s := After(Initial(workers, queueSize), run);
      id < |s.conns| && s.conns[id].closing <==> Closing(Initial(workers, queueSize), run, id)
  {
    RunCloses(Initial(workers, queueSize), run, id);
  }

  // When the I/O thread hands a request to the workers: after an event, unless an exception ended the
  // sweep or the request is closing by then.
  lemma WhenHandedOver(s: State, write: Option<WriteResult>, read: Option<ReadResult>)
    requires Inv(s) && Enabled(s, ServeRequest(write, read))
    ensures
      var id := s.aReqs[s.io.i];
      id in Do(s, ServeRequest(write, read)).reqs <==>
        && (write.Some? || read.Some?) && !s.conns[id].closing
        && write != Some(WriteThrew) && read != Some(ReadThrew) && read != Some(ReadFailed)
        && (read.Some? && read.value.ReadData? ==> read.value.reply.verdict.Keep?)
  {
    hide Served, Valid, Locking, Awake, Joined, Connected;
    TouchedIsAlive(s, ServeRequest(write, read));
    ServedCloses(s.conns[s.aReqs[s.io.i]], write, read);
  }

  // A client is accepted if and only if a_reqs is within the limit when the I/O thread looks.
  lemma WhenAccepting(s: State)
    requires s.io.AccChecking?
    ensures Do(s, IoStep).io.Accepting? <==> |s.aReqs| <= s.queueSize
  {}

  // A worker under the lock leaves a stopped server, whatever is left in reqs; otherwise it waits if
  // reqs is empty, and takes a request if not.
  lemma WhenChecking(s: State, w: nat)
    requires w < |s.workers| && s.workers[w].Checking?
    ensures
      var c := Do(s, Work(w)).workers[w];
      && (c.Out? <==> s.stopped) && (c.Parked? <==> !s.stopped && s.reqs == [])
      && (c.Handling? <==> !s.stopped && s.reqs != [])
  {}

  // What the I/O thread has handed over in a run, and what the workers have taken, in order: seen from
  // the I/O thread going on to wake a worker, and from a worker that comes to hold a request.

  function HandedBy(s: State, e: Event): seq<nat>
    requires Enabled(s, e)
  {
    if e.ServeRequest? && Do(s, e).io.IoRaising? then [s.aReqs[s.io.i]] else []
  }

  function TakenBy(s: State, e: Event): seq<nat>
    requires Enabled(s, e)
  {
    if e.Work? && HeldBy(s.workers[e.w]).None? && HeldBy(Do(s, e).workers[e.w]).Some? then
      [HeldBy(Do(s, e).workers[e.w]).value]
    else []
  }

  function Handed(s: State, run: seq<Event>): seq<nat>
    requires Possible(s, run)
    decreases |run|
  {
    if run == [] then [] else HandedBy(s, run[0]) + Handed(Do(s, run[0]), run[1..])
  }

  function Taken(s: State, run: seq<Event>): seq<nat>
    requires Possible(s, run)
    decreases |run|
  {
    if run == [] then [] else TakenBy(s, run[0]) + Taken(Do(s, run[0]), run[1..])
  }

  lemma WorkKeepsOrder(s: State, w: nat)
    requires Enabled(s, Work(w))
    ensures s.reqs == TakenBy(s, Work(w)) + Do(s, Work(w)).reqs
  {}

  lemma StepKeepsOrder(s: State, e: Event)
    requires Enabled(s, e)
    ensures s.reqs + HandedBy(s, e) == TakenBy(s, e) + Do(s, e).reqs
  {
    if e.Work? {
      hide Do, Enabled, TakenBy;
      WorkKeepsOrder(s, e.w);
    } else {
      hide Served, Handled, Drained, Inserted, Threw, HeldBy;
    }
  }

  // Requests are processed in the order in which they were handed over, over any run.
  lemma {:induction false} FirstComeFirstServed(s: State, run: seq<Event>)
    requires Possible(s, run)
    ensures s.reqs + Handed(s, run) == Taken(s, run) + After(s, run).reqs
    decreases |run|
  {
    hide Enabled, Do, HandedBy, TakenBy;
    if run != [] {
      var d := Do(s, run[0]);
      StepKeepsOrder(s, run[0]);
      FirstComeFirstServed(d, run[1..]);
      Associated(s.reqs, HandedBy(s, run[0]), Handed(d, run[1..]));
      Associated(TakenBy(s, run[0]), d.reqs, Handed(d, run[1..]));
      Associated(TakenBy(s, run[0]), Taken(d, run[1..]), After(d, run[1..]).reqs);
    } else {
      assert s.reqs + [] == s.reqs;
    }
  }

  // A step of a thread that is under way: no new call of start() or stop().
  predicate Calm(e: Event) {
    !e.StartCall? && !e.StopCall?
  }

  // The thread that holds the mutex can go on.
  lemma HolderGoesOn(s: State) returns (e: Event)
    requires Inv(s) && s.lock.Some?
    ensures Enabled(s, e) && Calm(e)
  {
    match s.lock.value
    case Worker(w) => e := Work(w);
    case Owner => e := ControlStep;
    case Io =>
      e := IoStep;
      if (s.io.IoClosing? || s.io.IoServing?) && s.io.i < |s.aReqs| {
        TimesIn(s.aReqs, s.io.i);
        assert Places(s, s.aReqs[s.io.i]) >= 1;
        if s.io.IoServing? {
          e := ServeRequest(None, None);
        }
      }
  }

  // A running thread that waits for nothing but the mutex, or not at all.
  lemma WorkerGoesOn(s: State, w: nat) returns (e: Event)
    requires Inv(s) && s.lock.None? && w < |s.workers| && !s.workers[w].Out? && !s.workers[w].Parked?
    ensures Enabled(s, e) && Calm(e)
  {
    if s.workers[w].Handling? {
      WorkerHolds(s.workers, w);
      assert Places(s, s.workers[w].rq) >= 1;
      e := Event.Process(w, Reply([], Keep));
    } else {
      e := Work(w);
    }
  }

  lemma IoGoesOn(s: State) returns (e: Event)
    requires Inv(s) && s.lock.None? && !s.io.IoOut?
    ensures Enabled(s, e) && Calm(e)
  {
    e := if s.io.IoPolled? then Poll(Serve) else if s.io.Accepting? then AcceptThrew else IoStep;
  }

  lemma GoesOn(s: State) returns (e: Event)
    requires Inv(s) && !s.control.Ready?
    ensures Enabled(s, e) && Calm(e)
  {
    if s.lock.Some? {
      e := HolderGoesOn(s);
    } else if s.control.JoiningIo? && !s.io.IoOut? {
      e := IoGoesOn(s);
    } else if s.control.Joining? && s.control.k < |s.workers| && !s.workers[s.control.k].Out? {
      e := WorkerGoesOn(s, s.control.k);
    } else {
      e := ControlStep;
    }
  }

  // start() and stop() are never stuck: while one of them has not returned, some thread can go on.
  lemma NoDeadlock(workers: nat, queueSize: nat, run: seq<Event>) returns (e: Event)
    requires Possible(Initial(workers, queueSize), run)
    requires !After(Initial(workers, queueSize), run).control.Ready?
    ensures Enabled(After(Initial(workers, queueSize), run), e) && !e.StartCall? && !e.StopCall?
  {
    Reachable(workers, queueSize, run);
    e := GoesOn(After(Initial(workers, queueSize), run));
  }
}
