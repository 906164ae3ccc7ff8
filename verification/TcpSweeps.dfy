/** The two sweeps of io_process in src/dcl/tcp_server.cpp: what they make of the list of active
    requests, round by round. */
module TcpSweeps {
  import opened Options
  import opened TcpConnection
  import opened TcpSteps

  predicate MayGo(conns: seq<Connection>, id: nat) {
    id < |conns| && Drained(conns[id])
  }

  // The requests of a list that are deleted, and those that remain.
  function Deleted(q: seq<nat>, conns: seq<Connection>): seq<nat> {
    if q == [] then []
    else Deleted(q[..|q| - 1], conns) + if MayGo(conns, q[|q| - 1]) then [q[|q| - 1]] else []
  }

  function Remaining(q: seq<nat>, conns: seq<Connection>): seq<nat> {
    if q == [] then []
    else Remaining(q[..|q| - 1], conns) + if MayGo(conns, q[|q| - 1]) then [] else [q[|q| - 1]]
  }

  lemma LastSplits(q: seq<nat>, conns: seq<Connection>)
    requires q != []
    ensures
      var p, id := q[..|q| - 1], q[|q| - 1];
      && q == p + [id]
      && Deleted(q, conns) == (if MayGo(conns, id) then Deleted(p, conns) + [id] else Deleted(p, conns))
      && Remaining(q, conns) == if MayGo(conns, id) then Remaining(p, conns) else Remaining(p, conns) + [id]
  {}

  // The sweep splits the list: deleted is what is closing with its buffer exhausted, and only that.
  lemma {:induction false} SweepSplits(q: seq<nat>, conns: seq<Connection>)
    ensures multiset(q) == multiset(Deleted(q, conns)) + multiset(Remaining(q, conns))
    ensures forall id :: id in Deleted(q, conns) ==> MayGo(conns, id)
    ensures forall id :: id in Remaining(q, conns) ==> !MayGo(conns, id)
  {
    if q != [] {
      LastSplits(q, conns);
      hide Deleted, Remaining, MayGo;
      SweepSplits(q[..|q| - 1], conns);
    }
  }

  // The first sweep, begun in state s, when it has looked at k requests.
  function Swept(s: State, k: nat): State
    requires k <= |s.aReqs|
  {
    var rest := Remaining(s.aReqs[..k], s.conns);
    s.(lock := Some(Io), io := IoClosing(|rest|), aReqs := rest + s.aReqs[k..],
       destroyed := s.destroyed + Deleted(s.aReqs[..k], s.conns))
  }

  lemma SweptStep(s: State, k: nat)
    requires k < |s.aReqs| && s.aReqs[k] < |s.conns|
    ensures Enabled(Swept(s, k), IoStep) && Do(Swept(s, k), IoStep) == Swept(s, k + 1)
  {
    hide Remaining, Deleted, Drained, Erased;
    Lists(s, k);
    Cursor(Remaining(s.aReqs[..k], s.conns), s.aReqs, k);
    Joined3(s.destroyed, Deleted(s.aReqs[..k], s.conns), s.aReqs[k]);
  }

  lemma SweptSize(s: State, k: nat)
    requires k < |s.aReqs|
    ensures
      var e := Swept(s, k + 1);
      && e.conns == s.conns && e.io.IoClosing? && e.io.i <= |e.aReqs| && |e.aReqs| - e.io.i == |s.aReqs| - (k + 1)
      && (e.io.i < |e.aReqs| ==> e.aReqs[e.io.i] == s.aReqs[k + 1])
  {}

  // The cursor of a list that stands behind the kept part of q[..k].
  lemma Cursor(rest: seq<nat>, q: seq<nat>, k: nat)
    requires k < |q|
    ensures (rest + q[k..])[|rest|] == q[k]
    ensures Erased(rest + q[k..], |rest|) == rest + q[k + 1..]
    ensures rest + q[k..] == (rest + [q[k]]) + q[k + 1..]
  {}

  lemma Joined3(a: seq<nat>, b: seq<nat>, x: nat)
    ensures (a + b) + [x] == a + (b + [x])
  {}

  lemma Lists(s: State, k: nat)
    requires k < |s.aReqs|
    ensures
      var id := s.aReqs[k];
      var rest, gone := Remaining(s.aReqs[..k], s.conns), Deleted(s.aReqs[..k], s.conns);
      && Remaining(s.aReqs[..k + 1], s.conns) == (if MayGo(s.conns, id) then rest else rest + [id])
      && Deleted(s.aReqs[..k + 1], s.conns) == if MayGo(s.conns, id) then gone + [id] else gone
  {
    assert s.aReqs[..k + 1][..k] == s.aReqs[..k];
  }

  lemma SweptEnds(s: State)
    requires s.io.IoSweep? && s.lock.None?
    ensures Enabled(s, IoStep) && Do(s, IoStep) == Swept(s, 0) == s.(lock := Some(Io), io := IoClosing(0))
    ensures
      var e := Swept(s, |s.aReqs|);
      && Enabled(e, IoStep) && Do(e, IoStep) == e.(lock := None, io := IoPolled(s.listeners))
      && Do(e, IoStep) == s.(io := IoPolled(s.listeners), aReqs := Remaining(s.aReqs, s.conns),
                             destroyed := s.destroyed + Deleted(s.aReqs, s.conns))
  {
    assert s.aReqs[..0] == [] && s.aReqs[0..] == s.aReqs && s.aReqs[..|s.aReqs|] == s.aReqs;
  }

  // What select() reported for a connection, and how its socket and handler answer.
  datatype Ready = Ready(write: Option<WriteResult>, read: Option<ReadResult>) {
    predicate Any() {
      write.Some? || read.Some?
    }
  }

  predicate Fitting(q: seq<nat>, conns: seq<Connection>, ready: seq<Ready>) {
    && |ready| == |q| && (forall k :: 0 <= k < |q| ==> q[k] < |conns|)
    && (forall k :: 0 <= k < |q| && ready[k].write.Some? ==> Takes(conns[q[k]], ready[k].write.value))
    && (forall j, k :: 0 <= j < k < |q| ==> q[j] != q[k])
  }

  // The k-th request after its events.
  function Result(q: seq<nat>, conns: seq<Connection>, ready: seq<Ready>, k: nat): Connection
    requires Fitting(q, conns, ready) && k < |q|
  {
    Served(conns[q[k]], ready[k].write, ready[k].read)
  }

  // Whether the k-th request goes to the workers.
  predicate IsHanded(q: seq<nat>, conns: seq<Connection>, ready: seq<Ready>, k: nat)
    requires Fitting(q, conns, ready) && k < |q|
  {
    ready[k].Any() && !Result(q, conns, ready, k).closing
  }

  // Of the first n requests, those that go to the workers and those that stay.
  function Handed(q: seq<nat>, conns: seq<Connection>, ready: seq<Ready>, n: nat): seq<nat>
    requires Fitting(q, conns, ready) && n <= |q|
  {
    if n == 0 then []
    else Handed(q, conns, ready, n - 1) + if IsHanded(q, conns, ready, n - 1) then [q[n - 1]] else []
  }

  function Staying(q: seq<nat>, conns: seq<Connection>, ready: seq<Ready>, n: nat): seq<nat>
    requires Fitting(q, conns, ready) && n <= |q|
  {
    if n == 0 then []
    else Staying(q, conns, ready, n - 1) + if IsHanded(q, conns, ready, n - 1) then [] else [q[n - 1]]
  }

  // The connections when the first n requests have had their events.
  function FirstServed(q: seq<nat>, conns: seq<Connection>, ready: seq<Ready>, n: nat): (after: seq<Connection>)
    requires Fitting(q, conns, ready) && n <= |q|
    ensures |after| == |conns|
  {
    if n == 0 then conns
    else FirstServed(q, conns, ready, n - 1)[q[n - 1] := Result(q, conns, ready, n - 1)]
  }

  // Each of them has had its own events, and no other connection has changed.
  lemma {:induction false} ServedOnce(q: seq<nat>, conns: seq<Connection>, ready: seq<Ready>, n: nat, id: nat)
    requires Fitting(q, conns, ready) && n <= |q| && id < |conns|
    ensures
      var after := FirstServed(q, conns, ready, n);
      && (forall k :: 0 <= k < n && q[k] == id ==> after[id] == Result(q, conns, ready, k))
      && (id !in q[..n] ==> after[id] == conns[id])
  {
    hide Result;
    if n > 0 {
      ServedOnce(q, conns, ready, n - 1, id);
      assert q[..n] == q[..n - 1] + [q[n - 1]];
    }
  }

  // The second sweep, begun in state s, when k requests have had their events and none has thrown.
  function Serviced(s: State, ready: seq<Ready>, k: nat): State
    requires Fitting(s.aReqs, s.conns, ready) && k <= |s.aReqs|
  {
    var stay := Staying(s.aReqs, s.conns, ready, k);
    var handed := Handed(s.aReqs, s.conns, ready, k);
    s.(lock := Some(Io), io := IoServing(|stay|), aReqs := stay + s.aReqs[k..], reqs := s.reqs + handed,
       conns := FirstServed(s.aReqs, s.conns, ready, k),
       workers := if handed == [] then s.workers else Broadcast(s.workers))
  }

  lemma BroadcastTwice(workers: seq<Worker>)
    ensures Broadcast(Broadcast(workers)) == Broadcast(workers)
  {}

  lemma NotYetServed(s: State, ready: seq<Ready>, k: nat)
    requires Fitting(s.aReqs, s.conns, ready) && k < |s.aReqs|
    ensures
      var e := Serviced(s, ready, k);
      var id := s.aReqs[k];
      && id < |e.conns| == |s.conns| && e.conns[id] == s.conns[id]
      && e.io == IoServing(|Staying(s.aReqs, s.conns, ready, k)|) && e.io.i < |e.aReqs| && e.aReqs[e.io.i] == id
      && |e.aReqs| - e.io.i == |s.aReqs| - k
      && Enabled(e, ServeRequest(ready[k].write, ready[k].read))
  {
    ServedOnce(s.aReqs, s.conns, ready, k, s.aReqs[k]);
  }

  // A round of the second sweep, with the wake-up call if the request goes to the workers.
  lemma ServicedStep(s: State, ready: seq<Ready>, k: nat)
    requires Fitting(s.aReqs, s.conns, ready) && k < |s.aReqs| && !Threw(ready[k].write, ready[k].read)
    ensures Enabled(Serviced(s, ready, k), ServeRequest(ready[k].write, ready[k].read))
    ensures
      var d := Do(Serviced(s, ready, k), ServeRequest(ready[k].write, ready[k].read));
      && (d.io.IoRaising? <==> IsHanded(s.aReqs, s.conns, ready, k))
      && (if d.io.IoRaising? then Enabled(d, IoStep) && Do(d, IoStep) == Serviced(s, ready, k + 1)
          else d == Serviced(s, ready, k + 1))
      && var i := |Staying(s.aReqs, s.conns, ready, k)|;
      Serviced(s, ready, k + 1).io == IoServing(if d.io.IoRaising? then i else i + 1)
  {
    hide Served, Threw, Takes, FirstServed, Erased;
    NotYetServed(s, ready, k);
    NextServed(s.aReqs, s.conns, ready, k);
    Cursor(Staying(s.aReqs, s.conns, ready, k), s.aReqs, k);
    Joined3(s.reqs, Handed(s.aReqs, s.conns, ready, k), s.aReqs[k]);
    BroadcastTwice(s.workers);
  }

  lemma NextServed(q: seq<nat>, conns: seq<Connection>, ready: seq<Ready>, k: nat)
    requires Fitting(q, conns, ready) && k < |q|
    ensures |FirstServed(q, conns, ready, k)| == |conns|
    ensures FirstServed(q, conns, ready, k + 1)
         == FirstServed(q, conns, ready, k)[q[k] := Served(conns[q[k]], ready[k].write, ready[k].read)]
  {}

  lemma ServicedThrows(s: State, ready: seq<Ready>, k: nat)
    requires Fitting(s.aReqs, s.conns, ready) && k < |s.aReqs| && Threw(ready[k].write, ready[k].read)
    ensures Enabled(Serviced(s, ready, k), ServeRequest(ready[k].write, ready[k].read))
    ensures Do(Serviced(s, ready, k), ServeRequest(ready[k].write, ready[k].read))
         == Serviced(s, ready, k).(lock := None, io := IoTop, conns := FirstServed(s.aReqs, s.conns, ready, k + 1))
  {
    hide Served, Threw, Takes, FirstServed;
    NotYetServed(s, ready, k);
    NextServed(s.aReqs, s.conns, ready, k);
  }

  lemma ServicedBegins(s: State, ready: seq<Ready>)
    requires Fitting(s.aReqs, s.conns, ready) && s.io.IoServe? && s.lock.None?
    ensures Enabled(s, IoStep) && Do(s, IoStep) == s.(lock := Some(Io), io := IoServing(0))
    ensures Serviced(s, ready, 0) == s.(lock := Some(Io), io := IoServing(0))
  {
    hide Served, Threw, Takes, Result;
    assert [] + s.aReqs[0..] == s.aReqs && s.reqs + [] == s.reqs;
  }

  lemma ServicedEnds(s: State, ready: seq<Ready>)
    requires Fitting(s.aReqs, s.conns, ready)
    ensures
      var e := Serviced(s, ready, |s.aReqs|);
      e.io.IoServing? && e.io.i == |e.aReqs| && Enabled(e, IoStep) && Do(e, IoStep) == e.(lock := None, io := IoTop)
  {
    hide Staying, Handed, FirstServed, Result, Takes;
  }

  lemma FittingSizes(q: seq<nat>, conns: seq<Connection>, ready: seq<Ready>)
    requires Fitting(q, conns, ready)
    ensures |ready| == |q|
  {}

  lemma ServicedConns(s: State, ready: seq<Ready>)
    requires Fitting(s.aReqs, s.conns, ready)
    ensures Serviced(s, ready, |s.aReqs|).conns == FirstServed(s.aReqs, s.conns, ready, |s.aReqs|)
  {}

  lemma ServicedSize(s: State, ready: seq<Ready>, k: nat)
    requires Fitting(s.aReqs, s.conns, ready) && k < |s.aReqs|
    ensures
      var e := Serviced(s, ready, k + 1);
      e.io.IoServing? && e.io.i <= |e.aReqs| && |e.aReqs| - e.io.i == |s.aReqs| - (k + 1)
  {
    hide Staying, Handed, FirstServed;
  }

  lemma ServeRound(s: State, write: Option<WriteResult>, read: Option<ReadResult>)
    requires Enabled(s, ServeRequest(write, read))
    ensures s.io.IoServing? && s.io.i < |s.aReqs|
    ensures
      var i := s.io.i;
      var rq := s.aReqs[i];
      && rq < |s.conns| && (write.Some? ==> Takes(s.conns[rq], write.value))
      && var c := Served(s.conns[rq], write, read);
      var d := s.(conns := s.conns[rq := c]);
      Do(s, ServeRequest(write, read))
      == if Threw(write, read) then d.(io := IoTop, lock := None)
         else if (write.Some? || read.Some?) && !c.closing then
           d.(reqs := s.reqs + [rq], aReqs := s.aReqs[..i] + s.aReqs[i + 1..], io := IoRaising(i))
         else d.(io := IoServing(i + 1))
  {
    hide Served, Threw, Takes;
  }

  lemma RaiseRound(s: State)
    requires s.io.IoRaising?
    ensures Enabled(s, IoStep) && Do(s, IoStep) == s.(io := IoServing(s.io.i), workers := Broadcast(s.workers))
  {}

  lemma Begun(s: State, e: Event) returns (run: seq<Event>)
    requires Enabled(s, e)
    ensures run == [e] && Possible(s, run) && After(s, run) == Do(s, e)
  {
    run := [e];
    assert run[1..] == [];
  }

  // What a round of the first sweep does.
  lemma IoRound(s: State)
    requires Enabled(s, IoStep) && s.io.IoClosing? && s.io.i < |s.aReqs|
    ensures
      var i := s.io.i;
      && s.aReqs[i] < |s.conns|
      && Do(s, IoStep) == if Drained(s.conns[s.aReqs[i]]) then
           s.(aReqs := s.aReqs[..i] + s.aReqs[i + 1..], destroyed := s.destroyed + [s.aReqs[i]])
         else s.(io := IoClosing(i + 1))
  {}
}
