/** The requests of include/dcl/tcp_server.h and the loops of src/dcl/tcp_server.cpp as imperative code:
    the calls that connection_write makes on its stream, and the two sweeps of io_process, each proved
    to be a run of the transition system. */
module TcpServer {
  import opened Octets
  import opened Options
  import opened TcpConnection
  import opened TcpSchedules
  import opened TcpSteps
  import opened TcpSweeps

  // std::stringstream, written at its end and read at g.
  class StringStream {
    var content: seq<byte>
    var g: nat
    var eof: bool
    var fail: bool
    var bad: bool

    function Value(): Buffer
      reads this
    {
      Buffer(content, g, eof, fail, bad)
    }

    constructor ()
      ensures Value() == New().buffer
    {
      content, g, eof, fail, bad := [], 0, true, false, false;
    }

    // tellg(): the attempt on a stream that is not good fails.
    method Tellg() returns (pos: int)
      modifies `fail
      ensures Value() == old(Value()).(fail := fail)
      ensures if old(Value()).Good() then pos == g && !fail else pos == -1 && fail
    {
      if eof || fail || bad {
        fail := true;
      }
      pos := if fail then -1 else g;
    }

    // seekg(pos): clears the end-of-file flag first.
    method Seekg(pos: int)
      modifies `eof, `g, `fail
      ensures Value() == (
        var b := old(Value()).(eof := false);
        if b.Good() && 0 <= pos <= |content| then b.(g := pos) else b.(fail := true))
    {
      eof := false;
      if fail || bad || pos < 0 || pos > |content| {
        fail := true;
      } else {
        g := pos;
      }
    }

    // read(buffer, n): the bytes read; the end of the stream sets two flags.
    method Read(n: nat) returns (bytes: seq<byte>)
      requires g <= |content|
      modifies this
      ensures old(Value()).Good() && n <= |content| - old(g) ==>
                Value() == old(Value()).(g := old(g) + n) && bytes == content[old(g)..old(g) + n]
      ensures old(Value()).Good() && n > |content| - old(g) ==>
                Value() == old(Value()).(g := |content|, eof := true, fail := true) && bytes == content[old(g)..]
      ensures !old(Value()).Good() ==> Value() == old(Value()).(fail := true) && bytes == []
    {
      if eof || fail || bad {
        fail := true;
        bytes := [];
      } else if n <= |content| - g {
        bytes := content[g..g + n];
        g := g + n;
      } else {
        bytes := content[g..];
        g, eof, fail := |content|, true, true;
      }
    }

    // operator<<.
    method Insert(bytes: seq<byte>) returns (accepted: seq<byte>)
      modifies `content, `fail
      ensures Value() == if bytes == [] then old(Value())
                         else if old(Value()).Good() then old(Value()).(content := old(content) + bytes)
                         else old(Value()).(fail := true)
      ensures accepted == if old(Value()).Good() then bytes else []
    {
      accepted := [];
      if bytes != [] {
        if eof || fail || bad {
          fail := true;
        } else {
          content := content + bytes;
          accepted := bytes;
        }
      }
    }

    method Clear()
      modifies `eof, `fail, `bad
      ensures Value() == old(Value()).Cleared()
    {
      eof, fail, bad := false, false, false;
    }
  }

  // request: cur_state and write_buffer, with the history of the connection.
  class Request {
    var closing: bool
    const writeBuffer: StringStream
    ghost var sent: seq<byte>
    ghost var accepted: seq<byte>

    ghost function Value(): Connection
      reads this, writeBuffer
    {
      Connection(closing, writeBuffer.Value(), sent, accepted)
    }

    constructor ()
      ensures Value() == New() && fresh(writeBuffer)
    {
      closing := false;
      writeBuffer := new StringStream();
      sent, accepted := [], [];
    }

    // A handler runs.
    method Handle(reply: Reply)
      modifies this, writeBuffer
      ensures Value() == Handled(old(Value()), reply)
    {
      var taken := writeBuffer.Insert(reply.out);
      accepted := accepted + taken;
      assert reply.out == [] ==> accepted == old(accepted);
      if reply.verdict.Close? {
        closing := true;
      }
    }

    // connection_write, where the socket answers as given.
    method ConnectionWrite(socket: WriteResult)
      requires Valid(Value()) && Takes(Value(), socket)
      modifies this`sent, writeBuffer
      ensures Value() == Written(old(Value()), socket) && Valid(Value())
    {
      WriteKeepsValid(Value(), socket);
      if writeBuffer.eof {
        return;
      }
      ghost var pending := Pending(writeBuffer.Value());
      var pos := writeBuffer.Tellg();
      writeBuffer.Seekg(|writeBuffer.content|);
      var end := writeBuffer.Tellg();
      var size := end - pos;
      if size == 0 {
        writeBuffer.eof := true;
      } else {
        writeBuffer.Seekg(pos);
        var tmp := writeBuffer.Read(size);
        assert tmp == pending;
        writeBuffer.Seekg(pos);
        match socket
        case WriteThrew => return;
        case WriteFailed => writeBuffer.bad := true;
        case Wrote(rsize) =>
          if rsize > 0 {
            sent := sent + tmp[..rsize];
            if size == rsize {
              assert tmp[..rsize] == tmp;
              writeBuffer.content, writeBuffer.g := [], 0;
            } else {
              writeBuffer.Clear();
              writeBuffer.Seekg(writeBuffer.g + rsize);
            }
          }
      }
    }

    // connection_read, where the socket and the handler answer as given.
    method ConnectionRead(socket: ReadResult)
      requires Valid(Value())
      modifies this, writeBuffer
      ensures Value() == TcpConnection.Read(old(Value()), socket) && Valid(Value())
    {
      ReadKeepsValid(Value(), socket);
      match socket
      case ReadFailed => closing := true;
      case ReadNothing =>
      case ReadThrew =>
      case ReadData(reply) =>
        writeBuffer.Clear();
        Handle(reply);
    }
  }

  class Server {
    const queueSize: nat
    var listeners: nat
    var lock: Option<Holder>
    var stopped: bool
    var aReqs: seq<nat>
    var reqs: seq<nat>
    var conns: seq<Connection>
    var workers: seq<Worker>
    var io: IoThread
    var control: Control
    var destroyed: seq<nat>
    var dropped: seq<nat>

    function Value(): State
      reads this
    {
      State(queueSize, listeners, lock, stopped, aReqs, reqs, conns, workers, io, control, destroyed, dropped)
    }

    constructor (workers: nat, queueSize: nat)
      ensures Value() == Initial(workers, queueSize)
    {
      this.queueSize := queueSize;
      listeners := 0;
      lock, stopped, aReqs, reqs, conns := None, true, [], [], [];
      this.workers, io, control := seq(workers, w => Out), IoOut, Control.Ready;
      destroyed, dropped := [], [];
    }

    // The other threads run: whatever they do, they leave a thread where it is, but for waking it, and
    // the number of threads that are out to start() and stop().
    method Interfere(run: seq<Event>, ghost a: Holder)
      requires Joined(Value()) && Possible(Value(), run) && Others(run, a)
      modifies this
      ensures Joined(Value()) && Stays(old(Value()), Value(), a)
      ensures Value() == After(old(Value()), run)
    {
      hide Possible, After, Joined, Others, Acts;
      OthersStay(Value(), run, a);
      var t := After(Value(), run);
      listeners := t.listeners;
      lock, stopped, aReqs, reqs, conns := t.lock, t.stopped, t.aReqs, t.reqs, t.conns;
      workers, io, control := t.workers, t.io, t.control;
      destroyed, dropped := t.destroyed, t.dropped;
    }

    // A thread waits until its next step is possible.
    method Await(a: Holder, x: Answers, waits: seq<seq<Event>>, n: nat, ghost s0: State, ghost own: seq<Event>)
      requires n == |own| && Underway(s0, Value(), a, x, waits, own) && (own == [] || !Finished(Value(), a))
      modifies this
      ensures n < |waits| && Stays(old(Value()), Value(), a) && Enabled(Value(), Own(Value(), a, x))
      ensures Underway(s0, Do(Value(), Own(Value(), a, x)), a, x, waits, own + [Own(Value(), a, x)])
    {
      hide Enabled, Do, Finished, Own, Underway, Possible, After;
      Proceeds(s0, Value(), a, x, waits, own);
      Interfere(waits[n], a);
    }

    // The same for a worker that is not in its handler, for the I/O thread outside accept(), and for
    // start() and stop() under way.
    method AwaitWorker(w: nat, x: Answers, waits: seq<seq<Event>>, n: nat, ghost s0: State, ghost own: seq<Event>)
      requires n == |own| && Underway(s0, Value(), Holder.Worker(w), x, waits, own)
      requires w < |workers| && !workers[w].Out? && !workers[w].Handling? && (own == [] || !workers[w].Top?)
      modifies this
      ensures n < |waits| && Enabled(Value(), Work(w)) && w < |workers|
      ensures workers[w] == if old(workers[w]).Parked? then Woken else old(workers[w])
      ensures Underway(s0, Do(Value(), Work(w)), Holder.Worker(w), x, waits, own + [Work(w)])
    {
      hide Enabled, Do, Underway;
      Await(Holder.Worker(w), x, waits, n, s0, own);
      WokenWhenEnabled(Value(), w);
    }

    method AwaitIo(x: Answers, waits: seq<seq<Event>>, n: nat, ghost s0: State, ghost own: seq<Event>)
      requires n == |own| && Underway(s0, Value(), Io, x, waits, own)
      requires !io.IoOut? && !io.Accepting? && (own == [] || (!io.IoPolled? && !io.IoTop?))
      modifies this
      ensures n < |waits| && Enabled(Value(), IoStep) && io == old(io)
      ensures Underway(s0, Do(Value(), IoStep), Io, x, waits, own + [IoStep])
    {
      hide Enabled, Do, Underway;
      Await(Io, x, waits, n, s0, own);
    }

    method AwaitOwner(x: Answers, waits: seq<seq<Event>>, n: nat, ghost s0: State, ghost own: seq<Event>)
      requires n == |own| && Underway(s0, Value(), Owner, x, waits, own) && !control.Ready?
      modifies this
      ensures n < |waits| && Enabled(Value(), ControlStep) && control == old(control)
      ensures stopped == old(stopped) && listeners == old(listeners) && |workers| == |old(workers)|
      ensures Underway(s0, Do(Value(), ControlStep), Owner, x, waits, own + [ControlStep])
    {
      hide Enabled, Do, Underway;
      Await(Owner, x, waits, n, s0, own);
    }

    // The worker gets the mutex, at the top of its round or back from wait(), and comes to its test.
    method EnterTest(w: nat, x: Answers, waits: seq<seq<Event>>, n0: nat, ghost s0: State, ghost own0: seq<Event>)
      returns (n: nat, ghost own: seq<Event>)
      requires n0 == |own0| && Underway(s0, Value(), Holder.Worker(w), x, waits, own0) && w < |workers|
      requires (workers[w].Top? && own0 == []) || workers[w].Parked?
      modifies this
      ensures n == |own| < |waits| && n > n0 && w < |workers| && workers[w].Checking? && Enabled(Value(), Work(w))
      ensures Underway(s0, Do(Value(), Work(w)), Holder.Worker(w), x, waits, own + [Work(w)])
    {
      hide Enabled, Do, Own, Stays, Finished, Underway, Possible, After, Returns, Joined;
      var a := Holder.Worker(w);
      AwaitWorker(w, x, waits, n0, s0, own0);
      own, n := own0 + [Work(w)], n0 + 1;
      WorkUnfolds(Value(), w);
      lock, workers := Some(a), workers[w := Checking];
      AwaitWorker(w, x, waits, n, s0, own);
    }

    // The first critical section of a round: the worker waits for a request, or for the end.
    method TakeRequest(w: nat, x: Answers, waits: seq<seq<Event>>, ghost s0: State)
      returns (rq: Option<nat>, n: nat, ghost own: seq<Event>)
      requires Underway(s0, Value(), Holder.Worker(w), x, waits, []) && w < |workers| && workers[w].Top?
      modifies this
      ensures n == |own| && own != [] && Underway(s0, Value(), Holder.Worker(w), x, waits, own) && w < |workers|
      ensures if rq.None? then workers[w].Out? && stopped else workers[w] == Handling(rq.value)
    {
      hide Enabled, Do, Own, Stays, Finished, Underway;
      rq := None;
      n, own := EnterTest(w, x, waits, 0, s0, []);
      while reqs == [] && !stopped
        invariant n == |own| < |waits| && w < |workers| && workers[w].Checking? && Enabled(Value(), Work(w))
        invariant Underway(s0, Do(Value(), Work(w)), Holder.Worker(w), x, waits, own + [Work(w)])
        decreases |waits| - n
      {
        // _event.wait()
        WorkUnfolds(Value(), w);
        lock, workers := None, workers[w := Parked];
        n, own := EnterTest(w, x, waits, n + 1, s0, own + [Work(w)]);
      }
      WorkUnfolds(Value(), w);
      own, n := own + [Work(w)], n + 1;
      lock := None;
      if stopped {
        workers := workers[w := Out];
      } else {
        rq := Some(reqs[0]);
        workers := workers[w := Handling(reqs[0])];
        reqs := reqs[1..];
      }
    }

    // The handler of a worker; an exception leaves the request behind.
    method ProcessRequest(w: nat, rq: nat, x: Answers, waits: seq<seq<Event>>, n0: nat, ghost s0: State, ghost own0: seq<Event>)
      returns (n: nat, ghost own: seq<Event>)
      requires n0 == |own0| && Underway(s0, Value(), Holder.Worker(w), x, waits, own0)
      requires w < |workers| && workers[w] == Handling(rq)
      modifies this
      ensures n == |own| && Underway(s0, Value(), Holder.Worker(w), x, waits, own) && w < |workers|
      ensures if x.reply.verdict.Throw? then workers[w].Top? && dropped != [] && dropped[|dropped| - 1] == rq
              else workers[w] == Returning(rq)
    {
      hide Enabled, Do, Underway, Possible, After, Returns, Joined, Handled;
      Await(Holder.Worker(w), x, waits, n0, s0, own0);
      own, n := own0 + [Event.Process(w, x.reply)], n0 + 1;
      ProcessUnfolds(Value(), w, x.reply);
      conns := conns[rq := Handled(conns[rq], x.reply)];
      if x.reply.verdict.Throw? {
        workers, dropped := workers[w := Top], dropped + [rq];
      } else {
        workers := workers[w := Returning(rq)];
      }
    }

    // The second critical section: the request goes back to the active ones.
    method ReturnRequest(w: nat, rq: nat, x: Answers, waits: seq<seq<Event>>, n0: nat, ghost s0: State, ghost own0: seq<Event>)
      returns (n: nat, ghost own: seq<Event>)
      requires n0 == |own0| && Underway(s0, Value(), Holder.Worker(w), x, waits, own0)
      requires w < |workers| && workers[w] == Returning(rq)
      modifies this
      ensures n == |own| && Underway(s0, Value(), Holder.Worker(w), x, waits, own)
      ensures w < |workers| && workers[w].Top? && aReqs != [] && aReqs[|aReqs| - 1] == rq
    {
      hide Enabled, Do, Own, Stays, Finished, Underway, Possible, After, Returns, Joined;
      var a := Holder.Worker(w);
      AwaitWorker(w, x, waits, n0, s0, own0);
      own, n := own0 + [Work(w)], n0 + 1;
      WorkUnfolds(Value(), w);
      lock, workers := Some(a), workers[w := Pushing(rq)];
      AwaitWorker(w, x, waits, n, s0, own);
      own, n := own + [Work(w)], n + 1;
      WorkUnfolds(Value(), w);
      aReqs := aReqs + [rq];
      lock, workers := None, workers[w := Top];
    }

    // One round of working_process, for a worker at its top. The request that it takes goes back to
    // a_reqs unless the handler throws; without a request the thread is out, because the server stops.
    method WorkingProcess(w: nat, x: Answers, waits: seq<seq<Event>>) returns (rq: Option<nat>, ghost own: seq<Event>)
      requires Joined(Value()) && w < |workers| && workers[w].Top?
      requires Returns(Value(), Holder.Worker(w), x, waits, false)
      modifies this
      ensures Underway(old(Value()), Value(), Holder.Worker(w), x, waits, own) && w < |workers|
      ensures if rq.None? then workers[w].Out? && stopped else workers[w].Top?
      ensures rq.Some? && !x.reply.verdict.Throw? ==> aReqs != [] && aReqs[|aReqs| - 1] == rq.value
      ensures rq.Some? && x.reply.verdict.Throw? ==> dropped != [] && dropped[|dropped| - 1] == rq.value
    {
      hide Underway, Returns, Joined;
      ghost var s0 := Value();
      Begins(s0, Holder.Worker(w), x, waits);
      var n;
      rq, n, own := TakeRequest(w, x, waits, s0);
      if rq.Some? {
        n, own := ProcessRequest(w, rq.value, x, waits, n, s0, own);
        if !x.reply.verdict.Throw? {
          n, own := ReturnRequest(w, rq.value, x, waits, n, s0, own);
        }
      }
    }

    // connection_accept, for the I/O thread that found a listening socket ready: unless there are too
    // many active requests, or accept() or the connect handler throws, the new request is queued.
    method ConnectionAccept(x: Answers, waits: seq<seq<Event>>) returns (rq: Option<nat>, ghost own: seq<Event>)
      requires Joined(Value()) && io.AccWait? && Returns(Value(), Io, x, waits, false)
      modifies this
      ensures Underway(old(Value()), Value(), Io, x, waits, own) && (io.IoPolled? || io.IoTop?)
      ensures rq.Some? ==> !x.acceptThrew && io == if x.connectThrew then IoTop else IoPolled(old(io).left)
      ensures rq.Some? && x.connectThrew ==> dropped != [] && dropped[|dropped| - 1] == rq.value
      ensures rq.Some? && !x.connectThrew ==> aReqs != [] && aReqs[|aReqs| - 1] == rq.value
    {
      hide Enabled, Do, Own, Stays, Finished, Underway, Possible, After, Returns, Joined, Inserted;
      ghost var s0 := Value();
      var left := io.left;
      Begins(s0, Io, x, waits);
      own, rq := [], None;
      // mutex_guard
      AwaitIo(x, waits, 0, s0, own);
      own := own + [IoStep];
      AccWaitUnfolds(Value());
      lock, io := Some(Io), AccChecking(left);
      AwaitIo(x, waits, 1, s0, own);
      own := own + [IoStep];
      AccCheckingUnfolds(Value());
      lock := None;
      if |aReqs| > queueSize {
        io := IoPolled(left);
        return;
      }
      io := Accepting(left);
      rq, own := AcceptClient(x, waits, s0, own);
      if rq.Some? && !x.connectThrew {
        own := LockToPush(rq.value, left, x, waits, s0, own);
        own := PushAccepted(rq.value, left, x, waits, s0, own);
      }
    }

    // accept(), the new request and the connect handler; an exception leaves the request behind.
    method AcceptClient(x: Answers, waits: seq<seq<Event>>, ghost s0: State, ghost own0: seq<Event>)
      returns (rq: Option<nat>, ghost own: seq<Event>)
      requires |own0| == 2 && Underway(s0, Value(), Io, x, waits, own0) && io.Accepting?
      modifies this
      ensures |own| == 3 && Underway(s0, Value(), Io, x, waits, own) && (rq.None? <==> x.acceptThrew)
      ensures rq.None? || x.connectThrew ==> io.IoTop?
      ensures rq.Some? && x.connectThrew ==> dropped != [] && dropped[|dropped| - 1] == rq.value
      ensures rq.Some? && !x.connectThrew ==> io == AccHolds(rq.value, old(io).left)
    {
      hide Enabled, Do, Underway, Possible, After, Returns, Joined, Inserted;
      Await(Io, x, waits, 2, s0, own0);
      own, rq := own0 + [Own(Value(), Io, x)], None;
      AcceptUnfolds(Value(), x.greeting, x.connectThrew);
      if x.acceptThrew {
        io := IoTop;
        return;
      }
      rq := Some(|conns|);
      conns := conns + [Inserted(New(), x.greeting)];
      if x.connectThrew {
        io, dropped := IoTop, dropped + [rq.value];
      } else {
        io := AccHolds(rq.value, io.left);
      }
    }

    // The second critical section of connection_accept.
    method LockToPush(rq: nat, left: nat, x: Answers, waits: seq<seq<Event>>, ghost s0: State, ghost own0: seq<Event>)
      returns (ghost own: seq<Event>)
      requires |own0| == 3 && Underway(s0, Value(), Io, x, waits, own0) && io == AccHolds(rq, left)
      modifies this
      ensures |own| == 4 && Underway(s0, Value(), Io, x, waits, own) && io == AccPush(rq, left)
    {
      hide Enabled, Do, Own, Stays, Finished, Underway, Possible, After, Returns, Joined;
      AwaitIo(x, waits, 3, s0, own0);
      own := own0 + [IoStep];
      AccHoldsUnfolds(Value());
      lock, io := Some(Io), AccPush(rq, left);
    }

    method PushAccepted(rq: nat, left: nat, x: Answers, waits: seq<seq<Event>>, ghost s0: State, ghost own0: seq<Event>)
      returns (ghost own: seq<Event>)
      requires |own0| == 4 && Underway(s0, Value(), Io, x, waits, own0) && io == AccPush(rq, left)
      modifies this
      ensures Underway(s0, Value(), Io, x, waits, own)
      ensures io == IoPolled(left) && aReqs != [] && aReqs[|aReqs| - 1] == rq
    {
      hide Enabled, Do, Own, Stays, Finished, Underway, Possible, After, Returns, Joined;
      AwaitIo(x, waits, 4, s0, own0);
      own := own0 + [IoStep];
      AccPushUnfolds(Value());
      aReqs := aReqs + [rq];
      lock, io := None, IoPolled(left);
    }

    // start(): does nothing if the server runs already.
    method Start(x: Answers, waits: seq<seq<Event>>) returns (ghost own: seq<Event>)
      requires Joined(Value()) && control.Ready? && x.start && Returns(Value(), Owner, x, waits, false)
      modifies this
      ensures Underway(old(Value()), Value(), Owner, x, waits, own) && control.Ready? && !stopped
      ensures old(stopped) ==> listeners == x.listeners
    {
      hide Enabled, Do, Underway, Possible, After, Returns, Joined;
      ghost var s0 := Value();
      Begins(s0, Owner, x, waits);
      own := [];
      Await(Owner, x, waits, 0, s0, own);
      own := own + [StartCall(x.listeners)];
      CallUnfolds(Value(), x.listeners);
      control := StartCalled(x.listeners);
      // mutex_guard
      AwaitOwner(x, waits, 1, s0, own);
      own := own + [ControlStep];
      ControlUnfolds(Value());
      lock, control := Some(Owner), StartLocked(x.listeners);
      AwaitOwner(x, waits, 2, s0, own);
      own := own + [ControlStep];
      ControlUnfolds(Value());
      lock := None;
      if !stopped {
        control := Control.Ready;
        return;
      }
      stopped, listeners, control := false, x.listeners, Launching(0);
      own := Launch(x, waits, s0, own);
    }

    // The worker threads start, then the listening thread.
    method Launch(x: Answers, waits: seq<seq<Event>>, ghost s0: State, ghost own0: seq<Event>) returns (ghost own: seq<Event>)
      requires |own0| == 3 && Underway(s0, Value(), Owner, x, waits, own0) && control == Launching(0)
      modifies this
      ensures Underway(s0, Value(), Owner, x, waits, own) && control.Ready?
      ensures stopped == old(stopped) && listeners == old(listeners)
    {
      hide Enabled, Do, Own, Stays, Finished, Underway, Possible, After, Returns, Joined;
      own := own0;
      var n := 3;
      for k := 0 to |workers|
        invariant n == |own| && own != [] && Underway(s0, Value(), Owner, x, waits, own)
        invariant control == Launching(k) && stopped == old(stopped) && listeners == old(listeners) && |workers| == |old(workers)|
      {
        AwaitOwner(x, waits, n, s0, own);
        own, n := own + [ControlStep], n + 1;
        ControlUnfolds(Value());
        workers, control := workers[k := Top], Launching(k + 1);
      }
      AwaitOwner(x, waits, n, s0, own);
      own := own + [ControlStep];
      ControlUnfolds(Value());
      io, control := IoTop, Control.Ready;
    }

    // stop(): when it returns, no thread runs.
    method Stop(x: Answers, waits: seq<seq<Event>>) returns (ghost own: seq<Event>)
      requires Joined(Value()) && control.Ready? && !x.start && Returns(Value(), Owner, x, waits, false)
      modifies this
      ensures Underway(old(Value()), Value(), Owner, x, waits, own) && control.Ready?
      ensures stopped && io.IoOut? && forall w :: 0 <= w < |workers| ==> workers[w].Out?
    {
      hide Enabled, Do, Underway, Possible, After, Returns, Joined;
      ghost var s0 := Value();
      Begins(s0, Owner, x, waits);
      own := [];
      Await(Owner, x, waits, 0, s0, own);
      own := own + [StopCall];
      CallUnfolds(Value(), x.listeners);
      control := StopCalled;
      // mutex_guard
      AwaitOwner(x, waits, 1, s0, own);
      own := own + [ControlStep];
      ControlUnfolds(Value());
      lock, control := Some(Owner), StopLocked;
      AwaitOwner(x, waits, 2, s0, own);
      own := own + [ControlStep];
      ControlUnfolds(Value());
      lock := None;
      if stopped {
        control := Control.Ready;
      } else {
        stopped, control := true, Raising;
        own := RaiseAndJoin(x, waits, s0, own);
        own := JoinWorkers(x, waits, s0, own);
      }
      AllOut(s0, Value(), x, waits, own);
    }

    // The broadcast, and the wait for the listening thread.
    method RaiseAndJoin(x: Answers, waits: seq<seq<Event>>, ghost s0: State, ghost own0: seq<Event>)
      returns (ghost own: seq<Event>)
      requires |own0| == 3 && Underway(s0, Value(), Owner, x, waits, own0) && control.Raising?
      modifies this
      ensures |own| == 5 && Underway(s0, Value(), Owner, x, waits, own) && control == Joining(0) && stopped == old(stopped)
    {
      hide Enabled, Do, Own, Stays, Finished, Underway, Possible, After, Returns, Joined;
      own := own0;
      // _event.raise()
      AwaitOwner(x, waits, 3, s0, own);
      own := own + [ControlStep];
      ControlUnfolds(Value());
      workers, control := Broadcast(workers), JoiningIo;
      // lt.wait_for()
      AwaitOwner(x, waits, 4, s0, own);
      own := own + [ControlStep];
      ControlUnfolds(Value());
      control := Joining(0);
    }

    // The wait for the worker threads.
    method JoinWorkers(x: Answers, waits: seq<seq<Event>>, ghost s0: State, ghost own0: seq<Event>)
      returns (ghost own: seq<Event>)
      requires |own0| == 5 && Underway(s0, Value(), Owner, x, waits, own0) && control == Joining(0)
      modifies this
      ensures Underway(s0, Value(), Owner, x, waits, own) && control.Ready? && stopped == old(stopped)
    {
      hide Enabled, Do, Own, Stays, Finished, Underway, Possible, After, Returns, Joined;
      own := own0;
      var n := 5;
      for k := 0 to |workers|
        invariant n == |own| && own != [] && Underway(s0, Value(), Owner, x, waits, own)
        invariant control == Joining(k) && stopped == old(stopped) && |workers| == |old(workers)|
      {
        AwaitOwner(x, waits, n, s0, own);
        own, n := own + [ControlStep], n + 1;
        ControlUnfolds(Value());
        control := Joining(k + 1);
      }
      AwaitOwner(x, waits, n, s0, own);
      own := own + [ControlStep];
      ControlUnfolds(Value());
      listeners, control := 0, Control.Ready;
    }

    // One round of the first sweep: disconnect_client and erase, or the next request.
    method CloseOne(i: nat) returns (next: nat)
      requires io == IoClosing(i) && i < |aReqs| && Enabled(Value(), IoStep)
      modifies this
      ensures Value() == Do(old(Value()), IoStep) && io == IoClosing(next)
    {
      hide Enabled, Do, Drained;
      IoRound(Value());
      next := i;
      if Drained(conns[aReqs[i]]) {
        destroyed := destroyed + [aReqs[i]];
        aReqs := aReqs[..i] + aReqs[i + 1..];
      } else {
        next := i + 1;
        io := IoClosing(next);
      }
    }

    // The first sweep: closing requests with nothing left to write are disconnected, under the mutex.
    method CloseDrained() returns (ghost run: seq<Event>)
      requires io.IoSweep? && lock.None? && forall k :: 0 <= k < |aReqs| ==> aReqs[k] < |conns|
      modifies this
      ensures Value() == old(Value()).(io := IoPolled(old(listeners)), aReqs := Remaining(old(aReqs), old(conns)),
                                       destroyed := old(destroyed) + Deleted(old(aReqs), old(conns)))
      ensures Possible(old(Value()), run) && After(old(Value()), run) == Value()
    {
      hide Enabled, Do, Possible, After, Remaining, Deleted, Drained, Swept;
      ghost var s := Value();
      ghost var k := 0;
      SweptEnds(s);
      run := Begun(s, IoStep);
      lock, io := Some(Io), IoClosing(0);
      var i := 0;
      while i != |aReqs|
        invariant 0 <= i <= |aReqs| && k <= |s.aReqs| && |aReqs| - i == |s.aReqs| - k && conns == s.conns
        invariant i < |aReqs| ==> aReqs[i] == s.aReqs[k]
        invariant io == IoClosing(i) && Value() == Swept(s, k)
        invariant Possible(s, run) && After(s, run) == Value()
        decreases |s.aReqs| - k
      {
        SweptStep(s, k);
        Extend(s, run, IoStep);
        run := run + [IoStep];
        SweptSize(s, k);
        i := CloseOne(i);
        k := k + 1;
      }
      Extend(s, run, IoStep);
      run := run + [IoStep];
      lock, io := None, IoPolled(listeners);
    }

    // One round of the second sweep; raised tells that the request went to the workers.
    method ServeOne(write: Option<WriteResult>, read: Option<ReadResult>) returns (threw: bool, raised: bool)
      requires Enabled(Value(), ServeRequest(write, read))
      modifies this
      ensures threw == Threw(write, read)
      ensures
        var d := Do(old(Value()), ServeRequest(write, read));
        && (raised <==> d.io.IoRaising?) && !(threw && raised)
        && (raised ==> Enabled(d, IoStep))
        && Value() == if raised then Do(d, IoStep) else d
    {
      hide Enabled, Do, Served, Threw;
      ServeRound(Value(), write, read);
      var i := io.i;
      var rq := aReqs[i];
      conns := conns[rq := Served(conns[rq], write, read)];
      raised, threw := false, Threw(write, read);
      if threw {
        lock, io := None, IoTop;
      } else if (write.Some? || read.Some?) && !conns[rq].closing {
        raised := true;
        reqs := reqs + [rq];
        aReqs := aReqs[..i] + aReqs[i + 1..];
        io := IoRaising(i);
        RaiseRound(Value());
        workers := Broadcast(workers);
        io := IoServing(i);
      } else {
        io := IoServing(i + 1);
      }
    }

    // The second sweep: the sockets that select() reported are written and read, and requests with
    // events that are not closing go to the workers, under the mutex. An exception ends it after n
    // requests.
    method ServeReady(ready: seq<Ready>) returns (n: nat, threw: bool, ghost run: seq<Event>)
      requires io.IoServe? && lock.None? && Fitting(aReqs, conns, ready)
      modifies this
      ensures n <= |old(aReqs)| && (threw <==> n < |ready| && Threw(ready[n].write, ready[n].read))
      ensures n == |ready| || threw
      ensures forall k :: 0 <= k < n ==> !Threw(ready[k].write, ready[k].read)
      ensures Value() == Serviced(old(Value()), ready, n).(
                lock := None, io := IoTop,
                conns := FirstServed(old(aReqs), old(conns), ready, if threw then n + 1 else n))
      ensures Possible(old(Value()), run) && After(old(Value()), run) == Value()
    {
      hide Enabled, Do, Possible, After, Serviced, Served, Threw, Fitting, FirstServed, IsHanded, Staying, Handed;
      ghost var s := Value();
      ServicedBegins(s, ready);
      run := Begun(s, IoStep);
      lock, io := Some(Io), IoServing(0);
      n, threw := 0, false;
      FittingSizes(s.aReqs, s.conns, ready);
      var i := 0;
      while i != |aReqs|
        invariant n <= |s.aReqs| == |ready| && i <= |aReqs| && |aReqs| - i == |s.aReqs| - n
        invariant io == IoServing(i) && Value() == Serviced(s, ready, n) && !threw
        invariant forall k :: 0 <= k < n ==> !Threw(ready[k].write, ready[k].read)
        invariant Possible(s, run) && After(s, run) == Value()
        decreases |s.aReqs| - n
      {
        NotYetServed(s, ready, n);
        var e := ServeRequest(ready[n].write, ready[n].read);
        Extend(s, run, e);
        run := run + [e];
        var raised;
        threw, raised := ServeOne(ready[n].write, ready[n].read);
        if threw {
          ServicedThrows(s, ready, n);
          return;
        }
        ServicedStep(s, ready, n);
        if raised {
          Extend(s, run, IoStep);
          run := run + [IoStep];
        } else {
          i := i + 1;
        }
        ServicedSize(s, ready, n);
        n := n + 1;
      }
      ServicedEnds(s, ready);
      Extend(s, run, IoStep);
      run := run + [IoStep];
      lock, io := None, IoTop;
      ServicedConns(s, ready);
    }
  }
}
