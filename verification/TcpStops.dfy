/** stop() returns: once it has set its flag, the threads make boundedly many steps until all of them
    are joined, whatever the handlers and sockets answer. */
module TcpStops {
  import opened Options
  import opened TcpConnection
  import opened TcpRuns
  import opened TcpSteps

  // The steps a thread still makes. A request in the hands of a thread may lengthen the sweeps of the
  // I/O thread once it is given back, by at most three steps.
  function WorkerRank(c: Worker): nat {
    match c
    case Out => 0
    case Checking => 1
    case Top => 2
    case Woken => 2
    case Parked => 3
    case Pushing(_) => 6
    case Returning(_) => 7
    case Handling(_) => 8
  }

  function WorkersRank(workers: seq<Worker>): nat {
    if workers == [] then 0 else WorkerRank(workers[0]) + WorkersRank(workers[1..])
  }

  // How many of n requests a sweep at position i has before it.
  function Ahead(n: nat, i: nat): nat {
    if i < n then n - i else 0
  }

  // n is the number of active requests, l the number of listening sockets.
  function IoRank(c: IoThread, n: nat, l: nat): nat {
    match c
    case IoOut => 0
    case IoChecking => 1
    case IoTop => 2
    case IoServing(i) => 3 + 2 * Ahead(n, i)
    case IoRaising(i) => 4 + 2 * Ahead(n, i)
    case IoServe => 4 + 2 * n
    case IoPolled(left) => 5 + 2 * n + 8 * left
    case AccPush(_, left) => 8 + 2 * n + 8 * left
    case AccHolds(_, left) => 9 + 2 * n + 8 * left
    case Accepting(left) => 10 + 2 * n + 8 * left
    case AccChecking(left) => 11 + 2 * n + 8 * left
    case AccWait(left) => 12 + 2 * n + 8 * left
    case IoClosing(i) => 6 + 2 * n + Ahead(n, i) + 8 * l
    case IoSweep => 7 + 3 * n + 8 * l
  }

  function ControlRank(c: Control, workers: nat): nat {
    match c
    case Joining(k) => 1 + Ahead(workers, k)
    case JoiningIo => 2 + workers
    case Raising => 3 + workers
    case _ => 0
  }

  function Rank(s: State): nat {
    IoRank(s.io, |s.aReqs|, s.listeners) + WorkersRank(s.workers) + ControlRank(s.control, |s.workers|)
  }

  // stop() has set the flag, and has not returned or has just done so.
  predicate Stopping(s: State) {
    s.stopped && (s.control.Raising? || s.control.JoiningIo? || s.control.Joining? || s.control.Ready?)
  }

  lemma {:induction false} RankUpdate(workers: seq<Worker>, w: nat, c: Worker)
    requires w < |workers|
    ensures WorkersRank(workers[w := c]) + WorkerRank(workers[w]) == WorkersRank(workers) + WorkerRank(c)
  {
    if w == 0 {
      assert workers[0 := c][1..] == workers[1..];
    } else {
      assert workers[w := c][1..] == workers[1..][w - 1 := c];
      RankUpdate(workers[1..], w - 1, c);
    }
  }

  lemma {:induction false} RankBroadcast(workers: seq<Worker>)
    ensures WorkersRank(Broadcast(workers)) <= WorkersRank(workers)
  {
    if workers != [] {
      assert Broadcast(workers)[1..] == Broadcast(workers[1..]);
      RankBroadcast(workers[1..]);
    }
  }

  // One more request lengthens the sweeps by at most three steps.
  lemma Longer(c: IoThread, n: nat, l: nat)
    ensures IoRank(c, n + 1, l) <= IoRank(c, n, l) + 3
  {}

  lemma WorkStops(s: State, e: Event)
    requires Stopping(s) && Enabled(s, e) && (e.Work? || e.Wake? || e.Process?)
    ensures Stopping(Do(s, e)) && Rank(Do(s, e)) < Rank(s)
  {
    hide WorkersRank, IoRank, Handled;
    Longer(s.io, |s.aReqs|, s.listeners);
    RankUpdate(s.workers, e.w, Do(s, e).workers[e.w]);
  }

  lemma IoClosingRank(s: State)
    requires s.io.IoClosing? && Enabled(s, IoStep)
    ensures IoRank(IoNext(s).io, |IoNext(s).aReqs|, IoNext(s).listeners) < IoRank(s.io, |s.aReqs|, s.listeners)
  {
    hide Drained;
  }

  lemma IoOtherRank(s: State)
    requires s.stopped && !s.io.IoClosing? && Enabled(s, IoStep)
    ensures IoRank(IoNext(s).io, |IoNext(s).aReqs|, IoNext(s).listeners) < IoRank(s.io, |s.aReqs|, s.listeners)
  {
    hide Drained, Broadcast, Erased;
  }

  lemma IoNextFrame(s: State)
    requires Enabled(s, IoStep)
    ensures var d := IoNext(s); d.stopped == s.stopped && d.control == s.control
    ensures IoNext(s).workers == s.workers || IoNext(s).workers == Broadcast(s.workers)
  {
    hide Drained, Broadcast;
  }

  lemma IoNextStops(s: State)
    requires Stopping(s) && Enabled(s, IoStep)
    ensures Stopping(Do(s, IoStep)) && Rank(Do(s, IoStep)) < Rank(s)
  {
    assert Do(s, IoStep) == IoNext(s);
    hide Do, Enabled, IoNext, WorkersRank, IoRank, ControlRank;
    if s.io.IoClosing? {
      IoClosingRank(s);
    } else {
      IoOtherRank(s);
    }
    IoNextFrame(s);
    RankBroadcast(s.workers);
  }

  lemma IoStops(s: State, e: Event)
    requires Stopping(s) && Enabled(s, e) && Calm(e) && (e.Poll? || e.AcceptThrew? || e.Accept? || e.ServeRequest?)
    ensures Stopping(Do(s, e)) && Rank(Do(s, e)) < Rank(s)
  {
    hide WorkersRank, Served, Threw, Takes, Inserted;
  }

  lemma ControlStops(s: State)
    requires Stopping(s) && Enabled(s, ControlStep)
    ensures Stopping(Do(s, ControlStep)) && Rank(Do(s, ControlStep)) < Rank(s)
  {
    hide WorkersRank;
    RankBroadcast(s.workers);
  }

  // Every step takes the threads nearer to their end.
  lemma StepStops(s: State, e: Event)
    requires Stopping(s) && Enabled(s, e) && Calm(e)
    ensures Stopping(Do(s, e)) && Rank(Do(s, e)) < Rank(s)
  {
    hide Enabled, Do, Rank, Stopping;
    if e.Work? || e.Wake? || e.Process? {
      WorkStops(s, e);
    } else if e.ControlStep? {
      ControlStops(s);
    } else if e.IoStep? {
      IoNextStops(s);
    } else {
      IoStops(s, e);
    }
  }

  lemma {:induction false} RunStops(s: State, run: seq<Event>)
    requires Inv(s) && Stopping(s) && Possible(s, run) && forall i :: 0 <= i < |run| ==> Calm(run[i])
    ensures Inv(After(s, run)) && Stopping(After(s, run))
    ensures |run| + Rank(After(s, run)) <= Rank(s)
    decreases |run|
  {
    hide Enabled, Do, Rank, Stopping, Inv;
    if run != [] {
      assert Calm(run[0]);
      StepKeepsInv(s, run[0]);
      StepStops(s, run[0]);
      RunStops(Do(s, run[0]), run[1..]);
    }
  }

  // When stop() has returned no thread is left to make a step.
  lemma NothingLeft(s: State, e: Event)
    requires Inv(s) && Stopping(s) && s.control.Ready? && Calm(e)
    ensures !Enabled(s, e)
  {}

  // From every reachable state in which stop() has set its flag, the number of further steps is
  // bounded, and none is left exactly when stop() has returned.
  lemma StopReturns(workers: nat, queueSize: nat, run: seq<Event>, rest: seq<Event>)
    requires Possible(Initial(workers, queueSize), run)
    requires Stopping(After(Initial(workers, queueSize), run)) && Possible(After(Initial(workers, queueSize), run), rest)
    requires forall i :: 0 <= i < |rest| ==> Calm(rest[i])
    ensures |rest| <= Rank(After(Initial(workers, queueSize), run))
    ensures
      var s := After(After(Initial(workers, queueSize), run), rest);
      (forall e | Calm(e) :: !Enabled(s, e)) <==> s.control.Ready?
  {
    hide Enabled, Do, Rank, Stopping, Inv;
    Reachable(workers, queueSize, run);
    RunStops(After(Initial(workers, queueSize), run), rest);
    var s := After(After(Initial(workers, queueSize), run), rest);
    if s.control.Ready? {
      forall e | Calm(e) ensures !Enabled(s, e) {
        NothingLeft(s, e);
      }
    } else {
      var e := GoesOn(s);
    }
  }
}
