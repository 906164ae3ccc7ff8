/** One thread of the server among the others: before each of its steps the others make any run of
    theirs, and its waits return in a state that they have made. */
module TcpSchedules {
  import opened Octets
  import opened Options
  import opened TcpConnection
  import opened TcpSteps

  // Whether a step is one of a thread. A worker woken without a cause is nobody's step.
  predicate Acts(a: Holder, e: Event) {
    match e
    case Work(w) => a == Holder.Worker(w)
    case Process(w, _) => a == Holder.Worker(w)
    case Wake(_) => false
    case StartCall(_) => a == Owner
    case StopCall => a == Owner
    case ControlStep => a == Owner
    case _ => a == Io
  }

  predicate Others(run: seq<Event>, a: Holder) {
    forall i :: 0 <= i < |run| ==> !Acts(a, run[i])
  }

  // What the world answers: the handler of a worker; accept() and the connect handler; and whether
  // the owner calls start(), and with how many sockets to bind, or stop().
  datatype Answers = Answers(reply: Reply, greeting: seq<byte>, acceptThrew: bool, connectThrew: bool, start: bool, listeners: nat)

  // The next step of a thread.
  function Own(s: State, a: Holder, x: Answers): Event {
    match a
    case Worker(w) => if w < |s.workers| && s.workers[w].Handling? then Event.Process(w, x.reply) else Work(w)
    case Io =>
      if !s.io.Accepting? then IoStep else if x.acceptThrew then AcceptThrew else Accept(x.greeting, x.connectThrew)
    case Owner => if !s.control.Ready? then ControlStep else if x.start then StartCall(x.listeners) else StopCall
  }

  // A worker at the end of its round; connection_accept, start() and stop() at their ends.
  predicate Finished(s: State, a: Holder) {
    match a
    case Worker(w) => w < |s.workers| ==> s.workers[w].Top? || s.workers[w].Out?
    case Io => s.io.IoPolled? || s.io.IoTop?
    case Owner => s.control.Ready?
  }

  // The thread finishes: each time it waits, the others make its next step possible.
  predicate Returns(s: State, a: Holder, x: Answers, waits: seq<seq<Event>>, begun: bool)
    decreases |waits|
  {
    || (begun && Finished(s, a))
    || (&& waits != [] && Possible(s, waits[0]) && Others(waits[0], a)
        && var t := After(s, waits[0]);
        && Enabled(t, Own(t, a, x)) && Returns(Do(t, Own(t, a, x)), a, x, waits[1..], true))
  }

  // The steps of the thread, each after what the others do.
  function Interleaved(waits: seq<seq<Event>>, own: seq<Event>): seq<Event>
    requires |own| <= |waits|
  {
    if own == [] then []
    else Interleaved(waits, own[..|own| - 1]) + waits[|own| - 1] + [own[|own| - 1]]
  }

  // The thread has made its steps own since state s0, and will finish.
  ghost predicate Underway(s0: State, s: State, a: Holder, x: Answers, waits: seq<seq<Event>>, own: seq<Event>) {
    && |own| <= |waits| && Possible(s0, Interleaved(waits, own)) && After(s0, Interleaved(waits, own)) == s
    && Joined(s) && Returns(s, a, x, waits[|own|..], own != [])
    && forall i :: 0 <= i < |own| ==> Acts(a, own[i])
  }

  // The others leave a thread where it is, but for waking it; only the owner sets is_stopped.
  predicate Stays(s: State, t: State, a: Holder) {
    && |t.workers| == |s.workers| && t.queueSize == s.queueSize
    && match a
       case Worker(w) =>
         w < |s.workers| && !s.workers[w].Out? ==>
           t.workers[w] == s.workers[w] || (s.workers[w].Parked? && t.workers[w].Woken?)
       case Io => !s.io.IoOut? ==> t.io == s.io
       case Owner => t.control == s.control && t.stopped == s.stopped && t.listeners == s.listeners
  }

  lemma WorkStays(s: State, e: Event, a: Holder)
    requires Enabled(s, e) && !Acts(a, e) && (e.Work? || e.Wake? || e.Process?)
    ensures Stays(s, Do(s, e), a)
  {
    hide Handled;
  }

  lemma ControlStays(s: State, e: Event, a: Holder)
    requires Joined(s) && Enabled(s, e) && !Acts(a, e) && (e.StartCall? || e.StopCall? || e.ControlStep?)
    ensures Stays(s, Do(s, e), a)
  {}

  lemma IoStays(s: State, e: Event, a: Holder)
    requires Enabled(s, e) && !Acts(a, e)
    requires e.IoStep? || e.Poll? || e.AcceptThrew? || e.Accept? || e.ServeRequest?
    ensures Stays(s, Do(s, e), a)
  {
    hide Served, Drained, Inserted, Threw;
  }

  lemma OtherStays(s: State, e: Event, a: Holder)
    requires Joined(s) && Enabled(s, e) && !Acts(a, e)
    ensures Stays(s, Do(s, e), a)
  {
    hide *;
    if e.Work? || e.Wake? || e.Process? {
      WorkStays(s, e, a);
    } else if e.StartCall? || e.StopCall? || e.ControlStep? {
      ControlStays(s, e, a);
    } else {
      IoStays(s, e, a);
    }
  }

  lemma {:induction false} OthersStay(s: State, run: seq<Event>, a: Holder)
    requires Joined(s) && Possible(s, run) && Others(run, a)
    ensures Joined(After(s, run)) && Stays(s, After(s, run), a)
    decreases |run|
  {
    hide Enabled, Do, Joined, Acts;
    if run != [] {
      OtherStays(s, run[0], a);
      StepKeepsJoined(s, run[0]);
      OthersStay(Do(s, run[0]), run[1..], a);
    }
  }

  lemma Begins(s: State, a: Holder, x: Answers, waits: seq<seq<Event>>)
    requires Joined(s) && Returns(s, a, x, waits, false)
    ensures Underway(s, s, a, x, waits, [])
  {
    assert waits[0..] == waits;
  }

  lemma NextReturns(s: State, a: Holder, x: Answers, waits: seq<seq<Event>>, n: nat, begun: bool)
    requires n <= |waits| && Returns(s, a, x, waits[n..], begun) && !(begun && Finished(s, a))
    ensures n < |waits| && Possible(s, waits[n]) && Others(waits[n], a)
    ensures
      var t := After(s, waits[n]);
      Enabled(t, Own(t, a, x)) && Returns(Do(t, Own(t, a, x)), a, x, waits[n + 1..], true)
  {
    hide Enabled, Do, Finished, Own, Acts, Possible, After;
    var rest := waits[n..];
    assert rest[0] == waits[n] && rest[1..] == waits[n + 1..];
  }

  lemma NextInterleaved(waits: seq<seq<Event>>, own: seq<Event>, e: Event)
    requires |own| < |waits|
    ensures Interleaved(waits, own + [e]) == Interleaved(waits, own) + waits[|own|] + [e]
  {
    assert (own + [e])[..|own|] == own;
  }

  // The next step of the thread, after what the others do.
  lemma Proceeds(s0: State, s: State, a: Holder, x: Answers, waits: seq<seq<Event>>, own: seq<Event>)
    requires Underway(s0, s, a, x, waits, own) && (own == [] || !Finished(s, a))
    ensures |own| < |waits| && Joined(s) && Possible(s, waits[|own|]) && Others(waits[|own|], a)
    ensures
      var t := After(s, waits[|own|]);
      var e := Own(t, a, x);
      && Stays(s, t, a) && Enabled(t, e) && Underway(s0, Do(t, e), a, x, waits, own + [e])
  {
    hide Enabled, Do, Joined, Stays, Finished, Own, Acts, Others, Returns, Possible, After, Interleaved;
    var n := |own|;
    NextReturns(s, a, x, waits, n, own != []);
    var t := After(s, waits[n]);
    var e := Own(t, a, x);
    OthersStay(s, waits[n], a);
    StepKeepsJoined(t, e);
    OwnActs(t, a, x);
    NextInterleaved(waits, own, e);
    Append(s0, Interleaved(waits, own), waits[n]);
    Extend(s0, Interleaved(waits, own) + waits[n], e);
  }

  lemma OwnActs(s: State, a: Holder, x: Answers)
    ensures Acts(a, Own(s, a, x))
  {}

  lemma WorkUnfolds(s: State, w: nat)
    requires Enabled(s, Work(w))
    ensures w < |s.workers| && Do(s, Work(w)) == WorkStep(s, w)
  {}

  lemma WokenWhenEnabled(s: State, w: nat)
    requires Enabled(s, Work(w))
    ensures w < |s.workers| && !s.workers[w].Parked?
  {}

  lemma ProcessUnfolds(s: State, w: nat, reply: Reply)
    requires Enabled(s, Event.Process(w, reply))
    ensures w < |s.workers| && s.workers[w].Handling? && s.workers[w].rq < |s.conns|
    ensures Do(s, Event.Process(w, reply)) == ProcessStep(s, w, reply)
  {}

  lemma AccWaitUnfolds(s: State)
    requires Enabled(s, IoStep) && s.io.AccWait?
    ensures Do(s, IoStep) == s.(io := AccChecking(s.io.left), lock := Some(Io))
  {}

  lemma AccCheckingUnfolds(s: State)
    requires s.io.AccChecking?
    ensures Enabled(s, IoStep)
    ensures Do(s, IoStep)
         == s.(io := if |s.aReqs| > s.queueSize then IoPolled(s.io.left) else Accepting(s.io.left), lock := None)
  {}

  lemma AccHoldsUnfolds(s: State)
    requires Enabled(s, IoStep) && s.io.AccHolds?
    ensures Do(s, IoStep) == s.(io := AccPush(s.io.rq, s.io.left), lock := Some(Io))
  {}

  lemma AccPushUnfolds(s: State)
    requires s.io.AccPush?
    ensures Enabled(s, IoStep)
    ensures Do(s, IoStep) == s.(io := IoPolled(s.io.left), aReqs := s.aReqs + [s.io.rq], lock := None)
  {}

  lemma AcceptUnfolds(s: State, greeting: seq<byte>, threw: bool)
    requires s.io.Accepting?
    ensures Do(s, AcceptThrew) == s.(io := IoTop)
    ensures Do(s, Accept(greeting, threw)) == AcceptStep(s, greeting, threw)
  {}

  lemma ControlUnfolds(s: State)
    requires Enabled(s, ControlStep)
    ensures Do(s, ControlStep) == ControlNext(s)
  {}

  lemma CallUnfolds(s: State, n: nat)
    requires s.control.Ready?
    ensures Do(s, StartCall(n)) == s.(control := StartCalled(n)) && Do(s, StopCall) == s.(control := StopCalled)
  {}

  lemma AllOut(s0: State, s: State, x: Answers, waits: seq<seq<Event>>, own: seq<Event>)
    requires Underway(s0, s, Owner, x, waits, own) && s.stopped && s.control.Ready?
    ensures s.io.IoOut? && forall w :: 0 <= w < |s.workers| ==> s.workers[w].Out?
  {}
}
