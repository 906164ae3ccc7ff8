/** The reader/writer lock of src/dcl/win32/rwlock_impl.cpp as a transition system: any number of
    client threads over a semaphore of 64 tokens and a mutex, one Win32 call a step. */
module RwLockSteps {
  import opened Options

  const MAX_READERS := 64

  // Where a client is: outside, waiting in enter_read, inside as a reader, waiting for the mutex of
  // enter_write, in the loop of enter_write with some tokens collected, inside as a writer.
  datatype Client = Idle | WantsRead | Reading | WantsWrite | Collecting(tokens: nat) | Writing

  datatype State = State(sem: nat, mutex: Option<nat>, clients: seq<Client>)

  // A client calls enter_read or enter_write, or performs the next call of what it is doing.
  datatype Event = ReadCall(t: nat) | WriteCall(t: nat) | Advance(t: nat)

  function Initial(n: nat): State {
    State(64, None, seq(n, i => Idle))
  }

  // ReleaseSemaphore leaves the count alone when it would exceed the maximum.
  function Released(sem: nat, n: nat): nat {
    if sem + n <= MAX_READERS then sem + n else sem
  }

  // A wait returns only when its object is available.
  predicate Enabled(s: State, e: Event) {
    e.t < |s.clients| &&
    match e
    case ReadCall(t) => s.clients[t].Idle?
    case WriteCall(t) => s.clients[t].Idle?
    case Advance(t) =>
      match s.clients[t]
      case Idle => false
      case WantsRead => s.sem > 0
      case Reading => true
      case WantsWrite => s.mutex.None?
      case Collecting(k) => k >= 64 || s.sem > 0
      case Writing => true
  }

  function Do(s: State, e: Event): State
    requires Enabled(s, e)
  {
    var t := e.t;
    match e
    case ReadCall(_) => s.(clients := s.clients[t := WantsRead])
    case WriteCall(_) => s.(clients := s.clients[t := WantsWrite])
    case Advance(_) =>
      match s.clients[t]
      case WantsRead => s.(sem := s.sem - 1, clients := s.clients[t := Reading])
      case Reading => s.(sem := Released(s.sem, 1), clients := s.clients[t := Idle])
      case WantsWrite => s.(mutex := Some(t), clients := s.clients[t := Collecting(0)])
      case Collecting(k) =>
        if k < 64 then s.(sem := s.sem - 1, clients := s.clients[t := Collecting(k + 1)])
        else s.(mutex := None, clients := s.clients[t := Writing])
      case Writing => s.(sem := Released(s.sem, 64), clients := s.clients[t := Idle])
  }

  predicate Possible(s: State, run: seq<Event>)
    decreases |run|
  {
    run == [] || (Enabled(s, run[0]) && Possible(Do(s, run[0]), run[1..]))
  }

  function After(s: State, run: seq<Event>): State
    requires Possible(s, run)
    decreases |run|
  {
    if run == [] then s else After(Do(s, run[0]), run[1..])
  }

  // The tokens a client holds.
  function Tokens(c: Client): nat {
    match c
    case Reading => 1
    case Collecting(k) => k
    case Writing => 64
    case _ => 0
  }

  function Held(clients: seq<Client>): nat {
    if clients == [] then 0 else Tokens(clients[0]) + Held(clients[1..])
  }

  ghost predicate Inv(s: State) {
    && s.sem + Held(s.clients) == 64
    && (forall t :: 0 <= t < |s.clients| && s.clients[t].Collecting? ==> s.mutex == Some(t) && s.clients[t].tokens <= 64)
    && (s.mutex.Some? ==> s.mutex.value < |s.clients| && s.clients[s.mutex.value].Collecting?)
  }

  lemma {:induction false} HeldUpdate(clients: seq<Client>, t: nat, c: Client)
    requires t < |clients|
    ensures Held(clients[t := c]) == Held(clients) - Tokens(clients[t]) + Tokens(c)
  {
    if t == 0 {
      assert clients[0 := c][1..] == clients[1..];
    } else {
      HeldUpdate(clients[1..], t - 1, c);
      assert clients[t := c][1..] == clients[1..][t - 1 := c];
    }
  }

  lemma {:induction false} HeldAtLeast(clients: seq<Client>, t: nat)
    requires t < |clients|
    ensures Tokens(clients[t]) <= Held(clients)
  {
    if t > 0 {
      HeldAtLeast(clients[1..], t - 1);
    }
  }

  lemma {:induction false} HeldAtLeastTwo(clients: seq<Client>, t: nat, u: nat)
    requires t < u < |clients|
    ensures Tokens(clients[t]) + Tokens(clients[u]) <= Held(clients)
  {
    if t == 0 {
      HeldAtLeast(clients[1..], u - 1);
    } else {
      HeldAtLeastTwo(clients[1..], t - 1, u - 1);
    }
  }

  lemma {:induction false} HeldByNone(clients: seq<Client>)
    requires forall t :: 0 <= t < |clients| ==> Tokens(clients[t]) == 0
    ensures Held(clients) == 0
  {
    if clients != [] {
      HeldByNone(clients[1..]);
    }
  }

  // Two different clients hold at most 64 tokens together.
  lemma HeldByTwo(s: State, t: nat, u: nat)
    requires Inv(s) && t < |s.clients| && u < |s.clients| && t != u
    ensures s.sem + Tokens(s.clients[t]) + Tokens(s.clients[u]) <= 64
  {
    if t < u {
      HeldAtLeastTwo(s.clients, t, u);
    } else {
      HeldAtLeastTwo(s.clients, u, t);
    }
  }

  lemma InitialInv(n: nat)
    ensures Inv(Initial(n))
  {
    HeldByNone(Initial(n).clients);
  }

  // Every call of every client conserves the tokens.
  lemma StepKeepsInv(s: State, e: Event)
    requires Inv(s) && Enabled(s, e)
    ensures Inv(Do(s, e))
  {
    HeldUpdate(s.clients, e.t, Do(s, e).clients[e.t]);
    HeldAtLeast(s.clients, e.t);
  }

  lemma {:induction false} RunKeepsInv(s: State, run: seq<Event>)
    requires Inv(s) && Possible(s, run)
    ensures Inv(After(s, run)) && |After(s, run).clients| == |s.clients|
    decreases |run|
  {
    if run != [] {
      StepKeepsInv(s, run[0]);
      RunKeepsInv(Do(s, run[0]), run[1..]);
    }
  }

  // Conservation in every reachable state.
  lemma TokensConserved(n: nat, run: seq<Event>)
    requires Possible(Initial(n), run)
    ensures var s := After(Initial(n), run); Inv(s) && |s.clients| == n
  {
    InitialInv(n);
    RunKeepsInv(Initial(n), run);
  }

  predicate Inside(c: Client) {
    c.Reading? || c.Writing?
  }

  // A writer inside excludes every reader and every other writer, and no token is left to collect.
  lemma WriterExcludes(n: nat, run: seq<Event>, t: nat)
    requires Possible(Initial(n), run)
    ensures
      var s := After(Initial(n), run);
      t < |s.clients| && s.clients[t].Writing? ==>
        s.sem == 0 && forall u :: 0 <= u < |s.clients| && u != t ==> !Inside(s.clients[u]) && Tokens(s.clients[u]) == 0
  {
    var s := After(Initial(n), run);
    TokensConserved(n, run);
    forall u | 0 <= u < n && u != t && t < n && s.clients[t].Writing?
      ensures !Inside(s.clients[u]) && Tokens(s.clients[u]) == 0
    {
      HeldByTwo(s, t, u);
    }
    if t < n && s.clients[t].Writing? {
      HeldAtLeast(s.clients, t);
    }
  }

  // ReleaseSemaphore is never asked to exceed the maximum: every token released is put back.
  lemma LeaveFits(n: nat, run: seq<Event>, t: nat)
    requires Possible(Initial(n), run)
    ensures
      var s := After(Initial(n), run);
      t < |s.clients| && Inside(s.clients[t]) ==>
        Released(s.sem, Tokens(s.clients[t])) == s.sem + Tokens(s.clients[t])
  {
    TokensConserved(n, run);
    var s := After(Initial(n), run);
    if t < n {
      HeldAtLeast(s.clients, t);
    }
  }

  // A client inside one of the waits of enter_read or enter_write that cannot return.
  predicate Blocked(s: State, t: nat)
    requires t < |s.clients|
  {
    !s.clients[t].Idle? && !Enabled(s, Advance(t))
  }

  // When tokens are missing and no call can return, some client inside can leave, or the collector has all 64.
  lemma TokenHolder(s: State) returns (u: nat)
    requires Inv(s) && s.sem == 0
    ensures Enabled(s, Advance(u))
  {
    if u' :| 0 <= u' < |s.clients| && Inside(s.clients[u']) {
      return u';
    }
    if s.mutex.None? {
      HeldByNone(s.clients);
    } else {
      u := s.mutex.value;
      HeldUpdate(s.clients, u, Idle);
      HeldByNone(s.clients[u := Idle]);
    }
  }

  // No deadlock: while a client is blocked, another one can perform its next call.
  lemma NoDeadlock(n: nat, run: seq<Event>, t: nat) returns (u: nat)
    requires Possible(Initial(n), run)
    requires t < |After(Initial(n), run).clients| && Blocked(After(Initial(n), run), t)
    ensures u != t && Enabled(After(Initial(n), run), Advance(u))
  {
    var s := After(Initial(n), run);
    TokensConserved(n, run);
    if s.sem == 0 {
      u := TokenHolder(s);
    } else {
      u := s.mutex.value;
    }
  }

  // The calls a client still has to make before it is outside again.
  function Remaining(c: Client): nat {
    match c
    case Idle => 0
    case WantsRead => 2
    case Reading => 1
    case WantsWrite => 67
    case Collecting(k) => if k <= 64 then 66 - k else 2
    case Writing => 1
  }

  function Work(clients: seq<Client>): nat {
    if clients == [] then 0 else Remaining(clients[0]) + Work(clients[1..])
  }

  lemma {:induction false} WorkUpdate(clients: seq<Client>, t: nat, c: Client)
    requires t < |clients|
    ensures Work(clients[t := c]) == Work(clients) - Remaining(clients[t]) + Remaining(c)
  {
    if t == 0 {
      assert clients[0 := c][1..] == clients[1..];
    } else {
      WorkUpdate(clients[1..], t - 1, c);
      assert clients[t := c][1..] == clients[1..][t - 1 := c];
    }
  }

  lemma {:induction false} NoWork(clients: seq<Client>)
    ensures Work(clients) == 0 <==> forall t :: 0 <= t < |clients| ==> clients[t].Idle?
  {
    if clients != [] {
      NoWork(clients[1..]);
      assert forall t :: 0 < t < |clients| ==> clients[t] == clients[1..][t - 1];
      assert forall t :: 0 <= t < |clients[1..]| ==> clients[1..][t] == clients[t + 1];
    }
  }

  predicate OnlyAdvances(run: seq<Event>) {
    forall i :: 0 <= i < |run| ==> run[i].Advance?
  }

  lemma {:induction false} AdvancesDoWork(s: State, run: seq<Event>)
    requires Inv(s) && Possible(s, run) && OnlyAdvances(run)
    ensures Inv(After(s, run)) && Work(s.clients) == |run| + Work(After(s, run).clients)
    decreases |run|
  {
    if run != [] {
      StepKeepsInv(s, run[0]);
      WorkUpdate(s.clients, run[0].t, Do(s, run[0]).clients[run[0].t]);
      AdvancesDoWork(Do(s, run[0]), run[1..]);
    }
  }

  // Progress of the whole lock: from any reachable state, calls made without new arrivals are
  // bounded in number, and when none of them can return any more every client is outside.
  lemma ArrivedClientsGetOut(n: nat, run: seq<Event>, rest: seq<Event>)
    requires Possible(Initial(n), run) && Possible(After(Initial(n), run), rest) && OnlyAdvances(rest)
    ensures
      var s := After(After(Initial(n), run), rest);
      && |rest| <= Work(After(Initial(n), run).clients)
      && ((forall t :: 0 <= t < |s.clients| ==> !Enabled(s, Advance(t))) <==>
          (forall t :: 0 <= t < |s.clients| ==> s.clients[t].Idle?))
  {
    TokensConserved(n, run);
    AdvancesDoWork(After(Initial(n), run), rest);
    var s := After(After(Initial(n), run), rest);
    if t :| 0 <= t < |s.clients| && !s.clients[t].Idle? && !Enabled(s, Advance(t)) {
      if s.sem == 0 {
        var u := TokenHolder(s);
      } else {
        assert Enabled(s, Advance(s.mutex.value));
      }
    }
  }

  // A reader gets in while fewer than 64 tokens are held: the 64th reader does, the 65th waits. A writer
  // is in with 64 tokens only.
  lemma WhenEntering(n: nat, run: seq<Event>, t: nat)
    requires Possible(Initial(n), run) && t < n
    ensures
      var s := After(Initial(n), run);
      && t < |s.clients|
      && (s.clients[t].WantsRead? ==> (Enabled(s, Event.Advance(t)) <==> Held(s.clients) < 64))
      && (s.clients[t].Collecting? ==>
            (Enabled(s, Event.Advance(t)) && Do(s, Event.Advance(t)).clients[t].Writing? <==> s.clients[t].tokens == 64))
  {
    TokensConserved(n, run);
  }
}
