/** The server of src/dcl/tcp_server.cpp as a transition system: one I/O thread, any number of workers
    and a thread that starts and stops the server, over a mutex and a condition variable. A step is a
    synchronisation call, one round of a loop under the mutex, or a call outside it. */
module TcpSteps {
  import opened Octets
  import opened Options
  import opened TcpConnection

  datatype Holder = Io | Worker(w: nat) | Owner

  // working_process: not running; about to lock; under the lock, in the test of the inner loop; in
  // wait(), not yet woken; woken, about to lock; in the handler; about to lock; under the lock, about
  // to give the request back.
  datatype Worker =
    Out | Top | Checking | Parked | Woken | Handling(rq: nat) | Returning(rq: nat) | Pushing(rq: nat)

  // io_process.
  datatype IoThread =
    | IoOut
    | IoTop
    | IoChecking
    | IoSweep
    | IoClosing(i: nat)
    | IoPolled(left: nat)
    | AccWait(left: nat)
    | AccChecking(left: nat)
    | Accepting(left: nat)
    | AccHolds(rq: nat, left: nat)
    | AccPush(rq: nat, left: nat)
    | IoServe
    | IoServing(i: nat)
    | IoRaising(i: nat)

  // start() and stop().
  datatype Control =
    | Ready
    | StartCalled(n: nat)
    | StartLocked(n: nat)
    | Launching(k: nat)
    | StopCalled
    | StopLocked
    | Raising
    | JoiningIo
    | Joining(k: nat)

  // The requests are numbered in the order of their creation. The last two record their fates: deleted
  // by disconnect_client; left behind by an exception of a handler. listeners is the number of listening
  // sockets that start() has bound.
  datatype State = State(queueSize: nat, listeners: nat, lock: Option<Holder>, stopped: bool, aReqs: seq<nat>, reqs: seq<nat>,
                         conns: seq<Connection>, workers: seq<Worker>, io: IoThread, control: Control,
                         destroyed: seq<nat>, dropped: seq<nat>)

  function Initial(workers: nat, queueSize: nat): State {
    State(queueSize, 0, None, true, [], [], [], seq(workers, w => Out), IoOut, Ready, [], [])
  }

  // What select() reports: nothing; the next ready one of the listening sockets that are left; none of those.
  datatype Choice = Timeout | Listening | Serve

  datatype Event =
    | Work(w: nat)
    | Wake(w: nat)
    | Process(w: nat, reply: Reply)
    | IoStep
    | Poll(choice: Choice)
    | AcceptThrew
    | Accept(greeting: seq<byte>, threw: bool)
    | ServeRequest(write: Option<WriteResult>, read: Option<ReadResult>)
    | StartCall(n: nat)
    | StopCall
    | ControlStep

  function Erased<T>(q: seq<T>, i: nat): seq<T>
    requires i < |q|
  {
    q[..i] + q[i + 1..]
  }

  // wait() returns in every parked worker.
  function Broadcast(workers: seq<Worker>): (after: seq<Worker>)
    ensures |after| == |workers|
    ensures forall w :: 0 <= w < |workers| ==> after[w] == if workers[w].Parked? then Woken else workers[w]
  {
    seq(|workers|, w requires 0 <= w < |workers| => if workers[w].Parked? then Woken else workers[w])
  }

  // What the ready events do to a connection in the I/O thread, and whether an exception ends the sweep.
  function AfterWrite(c: Connection, write: Option<WriteResult>): Connection
    requires write.Some? ==> Takes(c, write.value)
  {
    if write.Some? then Written(c, write.value) else c
  }

  function Threw(write: Option<WriteResult>, read: Option<ReadResult>): bool {
    || (write.Some? && write.value.WriteThrew?)
    || (read.Some? && (read.value.ReadThrew? || (read.value.ReadData? && read.value.reply.verdict.Throw?)))
  }

  function Served(c: Connection, write: Option<WriteResult>, read: Option<ReadResult>): Connection
    requires write.Some? ==> Takes(c, write.value)
  {
    var d := AfterWrite(c, write);
    if read.None? || (write.Some? && write.value.WriteThrew?) then d else Read(d, read.value)
  }

  predicate Enabled(s: State, e: Event) {
    match e
    case Work(w) =>
      w < |s.workers| && (
        match s.workers[w]
        case Top => s.lock.None?
        case Checking => true
        case Woken => s.lock.None?
        case Returning(_) => s.lock.None?
        case Pushing(_) => true
        case _ => false)
    case Wake(w) => w < |s.workers| && s.workers[w].Parked?
    case Process(w, _) => w < |s.workers| && s.workers[w].Handling? && s.workers[w].rq < |s.conns|
    case IoStep => (
      match s.io
      case IoTop => s.lock.None?
      case IoChecking => true
      case IoSweep => s.lock.None?
      case IoClosing(i) => i < |s.aReqs| ==> s.aReqs[i] < |s.conns|
      case AccWait(_) => s.lock.None?
      case AccChecking(_) => true
      case AccHolds(_, _) => s.lock.None?
      case AccPush(_, _) => true
      case IoServe => s.lock.None?
      case IoServing(i) => i >= |s.aReqs|
      case IoRaising(_) => true
      case _ => false)
    case Poll(choice) =>
      s.io.IoPolled? && (choice.Timeout? ==> s.io.left == s.listeners) && (choice.Listening? ==> s.io.left > 0)
    case AcceptThrew => s.io.Accepting?
    case Accept(_, _) => s.io.Accepting?
    case ServeRequest(write, _) =>
      s.io.IoServing? && s.io.i < |s.aReqs| && s.aReqs[s.io.i] < |s.conns|
      && (write.Some? ==> Takes(s.conns[s.aReqs[s.io.i]], write.value))
    case StartCall(_) => s.control.Ready?
    case StopCall => s.control.Ready?
    case ControlStep => (
      match s.control
      case Ready => false
      case StartCalled(_) => s.lock.None?
      case StopCalled => s.lock.None?
      case JoiningIo => s.io.IoOut?
      case Joining(k) => k < |s.workers| ==> s.workers[k].Out?
      case _ => true)
  }

  function WorkStep(s: State, w: nat): State
    requires Enabled(s, Work(w))
  {
    match s.workers[w]
    case Checking =>
      if s.reqs == [] && !s.stopped then s.(workers := s.workers[w := Parked], lock := None)
      else if s.stopped then s.(workers := s.workers[w := Out], lock := None)
      else s.(workers := s.workers[w := Handling(s.reqs[0])], reqs := s.reqs[1..], lock := None)
    case Returning(rq) => s.(workers := s.workers[w := Pushing(rq)], lock := Some(Holder.Worker(w)))
    case Pushing(rq) => s.(workers := s.workers[w := Top], aReqs := s.aReqs + [rq], lock := None)
    case _ => s.(workers := s.workers[w := Checking], lock := Some(Holder.Worker(w)))
  }

  // The handler of a worker; when it throws, nothing refers to the request any more.
  function ProcessStep(s: State, w: nat, reply: Reply): State
    requires Enabled(s, Process(w, reply))
  {
    var rq := s.workers[w].rq;
    var d := s.(conns := s.conns[rq := Handled(s.conns[rq], reply)]);
    if reply.verdict.Throw? then d.(workers := s.workers[w := Top], dropped := s.dropped + [rq])
    else d.(workers := s.workers[w := Returning(rq)])
  }

  function IoNext(s: State): State
    requires Enabled(s, IoStep)
  {
    match s.io
    case IoTop => s.(io := IoChecking, lock := Some(Io))
    case IoChecking => s.(io := if s.stopped then IoOut else IoSweep, lock := None)
    case IoSweep => s.(io := IoClosing(0), lock := Some(Io))
    case IoClosing(i) =>
      if i >= |s.aReqs| then s.(io := IoPolled(s.listeners), lock := None)
      else if Drained(s.conns[s.aReqs[i]]) then
        s.(aReqs := Erased(s.aReqs, i), destroyed := s.destroyed + [s.aReqs[i]])
      else s.(io := IoClosing(i + 1))
    case AccWait(left) => s.(io := AccChecking(left), lock := Some(Io))
    case AccChecking(left) =>
      s.(io := if |s.aReqs| > s.queueSize then IoPolled(left) else Accepting(left), lock := None)
    case AccHolds(rq, left) => s.(io := AccPush(rq, left), lock := Some(Io))
    case AccPush(rq, left) => s.(io := IoPolled(left), aReqs := s.aReqs + [rq], lock := None)
    case IoServe => s.(io := IoServing(0), lock := Some(Io))
    case IoServing(_) => s.(io := IoTop, lock := None)
    case IoRaising(i) => s.(io := IoServing(i), workers := Broadcast(s.workers))
  }

  // accept(), the construction of the request and the connect handler.
  function AcceptStep(s: State, greeting: seq<byte>, threw: bool): State
    requires Enabled(s, Accept(greeting, threw))
  {
    var rq := |s.conns|;
    var d := s.(conns := s.conns + [Inserted(New(), greeting)]);
    if threw then d.(io := IoTop, dropped := s.dropped + [rq]) else d.(io := AccHolds(rq, s.io.left))
  }

  // One round of the second sweep.
  function ServeStep(s: State, write: Option<WriteResult>, read: Option<ReadResult>): State
    requires Enabled(s, ServeRequest(write, read))
  {
    var i := s.io.i;
    var rq := s.aReqs[i];
    var c := Served(s.conns[rq], write, read);
    var d := s.(conns := s.conns[rq := c]);
    if Threw(write, read) then d.(io := IoTop, lock := None)
    else if (write.Some? || read.Some?) && !c.closing then
      d.(reqs := s.reqs + [rq], aReqs := Erased(s.aReqs, i), io := IoRaising(i))
    else d.(io := IoServing(i + 1))
  }

  function ControlNext(s: State): State
    requires Enabled(s, ControlStep)
  {
    match s.control
    case StartCalled(n) => s.(control := StartLocked(n), lock := Some(Owner))
    case StartLocked(n) =>
      if s.stopped then s.(stopped := false, listeners := n, control := Launching(0), lock := None)
      else s.(control := Ready, lock := None)
    case Launching(k) =>
      if k < |s.workers| then s.(workers := s.workers[k := Top], control := Launching(k + 1))
      else s.(io := IoTop, control := Ready)
    case StopCalled => s.(control := StopLocked, lock := Some(Owner))
    case StopLocked =>
      if s.stopped then s.(control := Ready, lock := None)
      else s.(stopped := true, control := Raising, lock := None)
    case Raising => s.(workers := Broadcast(s.workers), control := JoiningIo)
    case JoiningIo => s.(control := Joining(0))
    case Joining(k) =>
      if k < |s.workers| then s.(control := Joining(k + 1)) else s.(control := Ready, listeners := 0)
  }

  function Do(s: State, e: Event): State
    requires Enabled(s, e)
  {
    match e
    case Work(w) => WorkStep(s, w)
    case Wake(w) => s.(workers := s.workers[w := Woken])
    case Process(w, reply) => ProcessStep(s, w, reply)
    case IoStep => IoNext(s)
    case Poll(choice) =>
      s.(io := match choice case Timeout => IoTop case Listening => AccWait(s.io.left - 1) case Serve => IoServe)
    case AcceptThrew => s.(io := IoTop)
    case Accept(greeting, threw) => AcceptStep(s, greeting, threw)
    case ServeRequest(write, read) => ServeStep(s, write, read)
    case StartCall(n) => s.(control := StartCalled(n))
    case StopCall => s.(control := StopCalled)
    case ControlStep => ControlNext(s)
  }

  predicate Possible(s: State, run: seq<Event>)
    decreases |run|
  {
    run == [] || (Enabled(s, run[0]) && Possible(Do(s, run[0]), run[1..]))
  }

  function After(s: State, run: seq<Event>): State
    requires Possible(s, run)
    decreases |run|
  {
    if run == [] then s else After(Do(s, run[0]), run[1..])
  }

  // A run that goes on where another ends.
  lemma {:induction false} Append(s: State, run: seq<Event>, more: seq<Event>)
    requires Possible(s, run) && Possible(After(s, run), more)
    ensures Possible(s, run + more) && After(s, run + more) == After(After(s, run), more)
    decreases |run|
  {
    hide Enabled, Do;
    if run == [] {
      assert run + more == more;
    } else {
      assert (run + more)[1..] == run[1..] + more;
      Append(Do(s, run[0]), run[1..], more);
    }
  }

  lemma OneStep(s: State, e: Event)
    requires Enabled(s, e)
    ensures Possible(s, [e]) && After(s, [e]) == Do(s, e)
  {
    hide Enabled, Do;
    assert [e][1..] == [];
  }

  lemma Extend(s: State, run: seq<Event>, e: Event)
    requires Possible(s, run) && Enabled(After(s, run), e)
    ensures Possible(s, run + [e]) && After(s, run + [e]) == Do(After(s, run), e)
  {
    hide Enabled, Do;
    OneStep(After(s, run), e);
    Append(s, run, [e]);
  }

  // Who has the mutex.

  predicate WorkerLocks(c: Worker) {
    c.Checking? || c.Pushing?
  }

  predicate IoLocks(c: IoThread) {
    c.IoChecking? || c.IoClosing? || c.AccChecking? || c.AccPush? || c.IoServing? || c.IoRaising?
  }

  predicate ControlLocks(c: Control) {
    c.StartLocked? || c.StopLocked?
  }

  // Each critical section is run by the holder of the mutex alone.
  ghost predicate Locking(s: State) {
    && (forall w :: 0 <= w < |s.workers| ==> (WorkerLocks(s.workers[w]) <==> s.lock == Some(Holder.Worker(w))))
    && (IoLocks(s.io) <==> s.lock == Some(Io))
    && (ControlLocks(s.control) <==> s.lock == Some(Owner))
    && (s.lock.Some? && s.lock.value.Worker? ==> s.lock.value.w < |s.workers|)
  }

  lemma WorkKeepsLocking(s: State, e: Event)
    requires Locking(s) && Enabled(s, e) && (e.Work? || e.Wake? || e.Process?)
    ensures Locking(Do(s, e))
  {
    var d := Do(s, e);
    assert forall w :: 0 <= w < |s.workers| && w != e.w ==> d.workers[w] == s.workers[w];
  }

  lemma IoKeepsLocking(s: State, e: Event)
    requires Locking(s) && Enabled(s, e)
    requires e.IoStep? || e.Poll? || e.AcceptThrew? || e.Accept? || e.ServeRequest?
    ensures Locking(Do(s, e))
  {
    hide Served, Threw, Drained, Inserted;
    var d := Do(s, e);
    assert forall w :: 0 <= w < |s.workers| ==> (WorkerLocks(d.workers[w]) <==> WorkerLocks(s.workers[w]));
  }

  lemma ControlKeepsLocking(s: State, e: Event)
    requires Locking(s) && Joined(s) && Enabled(s, e) && (e.StartCall? || e.StopCall? || e.ControlStep?)
    ensures Locking(Do(s, e))
  {
    var d := Do(s, e);
    assert forall w :: 0 <= w < |s.workers| ==> (WorkerLocks(d.workers[w]) <==> WorkerLocks(s.workers[w]));
  }

  lemma StepKeepsLocking(s: State, e: Event)
    requires Locking(s) && Joined(s) && Enabled(s, e)
    ensures Locking(Do(s, e))
  {
    hide *;
    if e.Work? || e.Wake? || e.Process? {
      WorkKeepsLocking(s, e);
    } else if e.StartCall? || e.StopCall? || e.ControlStep? {
      ControlKeepsLocking(s, e);
    } else {
      IoKeepsLocking(s, e);
    }
  }

  predicate NoneParked(workers: seq<Worker>) {
    forall w :: 0 <= w < |workers| ==> !workers[w].Parked?
  }

  // No lost wake-up.
  ghost predicate Awake(s: State) {
    && (s.reqs != [] && !s.io.IoRaising? ==> NoneParked(s.workers))
    && (s.stopped && !s.control.Raising? ==> NoneParked(s.workers))
  }

  lemma WorkKeepsAwake(s: State, e: Event)
    requires Awake(s) && Enabled(s, e) && (e.Work? || e.Wake? || e.Process?)
    ensures Awake(Do(s, e))
  {
    var d := Do(s, e);
    assert d.workers[e.w].Parked? ==> s.reqs == [] && !s.stopped;
    assert forall w :: 0 <= w < |s.workers| && w != e.w ==> d.workers[w] == s.workers[w];
  }

  lemma OthersKeepAwake(s: State, e: Event)
    requires Joined(s) && Awake(s) && Enabled(s, e) && !e.Work? && !e.Wake? && !e.Process?
    ensures Awake(Do(s, e))
  {
    var d := Do(s, e);
    assert NoneParked(s.workers) ==> NoneParked(d.workers);
    assert e.IoStep? && s.io.IoRaising? ==> NoneParked(d.workers);
  }

  lemma StepKeepsAwake(s: State, e: Event)
    requires Joined(s) && Awake(s) && Enabled(s, e)
    ensures Awake(Do(s, e))
  {
    hide *;
    if e.Work? || e.Wake? || e.Process? {
      WorkKeepsAwake(s, e);
    } else {
      OthersKeepAwake(s, e);
    }
  }

  // Which threads are out when.
  ghost predicate Joined(s: State) {
    match s.control
    case Launching(k) =>
      !s.stopped && s.io.IoOut? && forall w :: k <= w < |s.workers| ==> s.workers[w].Out?
    case Raising => s.stopped
    case JoiningIo => s.stopped
    case Joining(k) => s.stopped && s.io.IoOut? && forall w :: 0 <= w < k && w < |s.workers| ==> s.workers[w].Out?
    case _ => s.stopped ==> s.io.IoOut? && forall w :: 0 <= w < |s.workers| ==> s.workers[w].Out?
  }

  // A thread that is out starts again only when start() launches it.
  lemma ThreadsStayOut(s: State, e: Event)
    requires Enabled(s, e) && !e.StartCall? && !e.StopCall? && !e.ControlStep?
    ensures var d := Do(s, e); d.stopped == s.stopped && d.control == s.control && |d.workers| == |s.workers|
    ensures s.io.IoOut? ==> Do(s, e).io.IoOut?
    ensures forall w :: 0 <= w < |s.workers| && s.workers[w].Out? ==> Do(s, e).workers[w].Out?
  {
    hide Served, Handled, Drained, Inserted;
  }

  lemma ThreadsKeepJoined(s: State, e: Event)
    requires Joined(s) && Enabled(s, e) && !e.StartCall? && !e.StopCall? && !e.ControlStep?
    ensures Joined(Do(s, e))
  {
    hide Do, Enabled;
    ThreadsStayOut(s, e);
  }

  lemma ControlKeepsJoined(s: State, e: Event)
    requires Joined(s) && Enabled(s, e) && (e.StartCall? || e.StopCall? || e.ControlStep?)
    ensures Joined(Do(s, e))
  {}

  lemma StepKeepsJoined(s: State, e: Event)
    requires Joined(s) && Enabled(s, e)
    ensures Joined(Do(s, e))
  {
    hide *;
    if e.StartCall? || e.StopCall? || e.ControlStep? {
      ControlKeepsJoined(s, e);
    } else {
      ThreadsKeepJoined(s, e);
    }
  }
}
