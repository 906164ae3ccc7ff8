/** Every item of the pool in exactly one place: a queue of free items, a pointer or a thread. */
module PoolPlaces {
  import opened Options
  import opened PoolSteps

  datatype Place = InFree | InPtr(p: nat) | InThread(t: nat)

  predicate IsFree(free: map<string, seq<nat>>, key: string, i: nat) {
    i in Queue(free, key)
  }

  // Item i, created under a key, is at a place.
  predicate IsAt(free: map<string, seq<nat>>, h: Holdings, i: nat, key: string, x: Place) {
    match x
    case InFree => IsFree(free, key, i)
    case InPtr(p) => p < |h.owners| && h.owners[p] == Some((i, key))
    case InThread(t) => t < |h.holders| && h.holders[t] == Some((i, key))
  }

  predicate Distinct(q: seq<nat>) {
    forall i, j :: 0 <= i < j < |q| ==> q[i] != q[j]
  }

  // Nothing is anywhere but at its place.
  ghost predicate OnlyFree(free: map<string, seq<nat>>, all: seq<string>, places: seq<Place>)
    requires |places| == |all|
  {
    && (forall key, i: nat :: IsFree(free, key, i) ==> i < |all| && all[i] == key && places[i] == InFree)
    && (forall key :: Distinct(Queue(free, key)))
  }

  ghost predicate OnlyOwned(hs: seq<Holding>, all: seq<string>, places: seq<Place>)
    requires |places| == |all|
  {
    forall p :: 0 <= p < |hs| && hs[p].Some? ==> hs[p].value.0 < |all| && places[hs[p].value.0] == InPtr(p)
  }

  ghost predicate OnlyHeld(hs: seq<Holding>, all: seq<string>, places: seq<Place>)
    requires |places| == |all|
  {
    forall t :: 0 <= t < |hs| && hs[t].Some? ==> hs[t].value.0 < |all| && places[hs[t].value.0] == InThread(t)
  }

  ghost predicate Placed(free: map<string, seq<nat>>, all: seq<string>, h: Holdings, places: seq<Place>) {
    && |places| == |all|
    && (forall i :: 0 <= i < |all| ==> IsAt(free, h, i, all[i], places[i]))
    && OnlyFree(free, all, places) && OnlyOwned(h.owners, all, places) && OnlyHeld(h.holders, all, places)
  }

  // Everything stays where it is, except that item m moves.
  lemma Settled(free: map<string, seq<nat>>, all: seq<string>, h: Holdings, places: seq<Place>, i: nat)
    requires Placed(free, all, h, places) && i < |all|
    ensures IsAt(free, h, i, all[i], places[i])
  {}

  lemma ToThread(free: map<string, seq<nat>>, all: seq<string>, h: Holdings, places: seq<Place>, p: nat, t: nat)
    requires Placed(free, all, h, places)
    requires p < |h.owners| && t < |h.holders| && h.owners[p].Some? && h.holders[t].None?
    ensures h.owners[p].value.0 < |all|
    ensures Placed(free, all, Holdings(h.owners[p := None], h.holders[t := h.owners[p]]),
                   places[h.owners[p].value.0 := InThread(t)])
  {
    var m := h.owners[p].value.0;
    var after, moved := Holdings(h.owners[p := None], h.holders[t := h.owners[p]]), places[m := InThread(t)];
    Settled(free, all, h, places, m);
    forall i | 0 <= i < |all| ensures IsAt(free, after, i, all[i], moved[i]) {
      Settled(free, all, h, places, i);
    }
  }

  lemma ToNewPtr(free: map<string, seq<nat>>, all: seq<string>, h: Holdings, places: seq<Place>, t: nat)
    requires Placed(free, all, h, places) && t < |h.holders| && h.holders[t].Some?
    ensures h.holders[t].value.0 < |all|
    ensures Placed(free, all, Holdings(h.owners + [h.holders[t]], h.holders[t := None]),
                   places[h.holders[t].value.0 := InPtr(|h.owners|)])
  {
    var m := h.holders[t].value.0;
    var after := Holdings(h.owners + [h.holders[t]], h.holders[t := None]);
    var moved := places[m := InPtr(|h.owners|)];
    Settled(free, all, h, places, m);
    forall i | 0 <= i < |all| ensures IsAt(free, after, i, all[i], moved[i]) {
      Settled(free, all, h, places, i);
    }
  }

  lemma ToPtr(free: map<string, seq<nat>>, all: seq<string>, h: Holdings, places: seq<Place>, p: nat, q: nat)
    requires Placed(free, all, h, places)
    requires p < |h.owners| && q < |h.owners| && h.owners[p].None? && h.owners[q].Some?
    ensures h.owners[q].value.0 < |all|
    ensures Placed(free, all, Holdings(MovedOwners(h.owners, p, q), h.holders), places[h.owners[q].value.0 := InPtr(p)])
  {
    var m := h.owners[q].value.0;
    var after, moved := Holdings(MovedOwners(h.owners, p, q), h.holders), places[m := InPtr(p)];
    Settled(free, all, h, places, m);
    forall i | 0 <= i < |all| ensures IsAt(free, after, i, all[i], moved[i]) {
      Settled(free, all, h, places, i);
    }
  }

  lemma ToCopy(free: map<string, seq<nat>>, all: seq<string>, h: Holdings, places: seq<Place>, q: nat)
    requires Placed(free, all, h, places) && q < |h.owners| && h.owners[q].Some?
    ensures h.owners[q].value.0 < |all|
    ensures Placed(free, all, Holdings(h.owners[q := None] + [h.owners[q]], h.holders),
                   places[h.owners[q].value.0 := InPtr(|h.owners|)])
  {
    var m := h.owners[q].value.0;
    var after := Holdings(h.owners[q := None] + [h.owners[q]], h.holders);
    var moved := places[m := InPtr(|h.owners|)];
    Settled(free, all, h, places, m);
    forall i | 0 <= i < |all| ensures IsAt(free, after, i, all[i], moved[i]) {
      Settled(free, all, h, places, i);
    }
  }

  // Queues after a push, after a pop and after the creation of a new item.

  lemma Pushed(d: Data, item: nat, key: string, k: string, i: nat)
    ensures IsFree(Put(d, item, key).free, k, i) <==> IsFree(d.free, k, i) || (k == key && i == item)
    ensures Distinct(Queue(d.free, k)) && !IsFree(d.free, key, item) ==> Distinct(Queue(Put(d, item, key).free, k))
  {}

  lemma Popped(d: Data, key: string, k: string, i: nat)
    requires Queue(d.free, key) != [] && Distinct(Queue(d.free, key))
    ensures
      var m := ItemTaken(d, key);
      && IsFree(d.free, key, m)
      && (IsFree(Taken(d, key).free, k, i) <==> IsFree(d.free, k, i) && !(k == key && i == m))
    ensures Distinct(Queue(d.free, k)) ==> Distinct(Queue(Taken(d, key).free, k))
  {
    var q := Queue(d.free, key);
    assert q == [q[0]] + q[1..];
    assert q[0] in q;
  }

  lemma Unchanged(d: Data, key: string, k: string)
    requires Queue(d.free, key) == []
    ensures Queue(Taken(d, key).free, k) == Queue(d.free, k)
  {}

  lemma ToQueue(d: Data, h: Holdings, places: seq<Place>, t: nat)
    requires Placed(d.free, d.all, h, places) && t < |h.holders| && h.holders[t].Some?
    ensures
      var (i, key) := h.holders[t].value;
      && i < |d.all|
      && Placed(Put(d, i, key).free, d.all, Holdings(h.owners, h.holders[t := None]), places[i := InFree])
  {
    hide Put, IsFree, Distinct, Queue;
    var (m, key) := h.holders[t].value;
    var after, moved := Holdings(h.owners, h.holders[t := None]), places[m := InFree];
    Settled(d.free, d.all, h, places, m);
    var free := Put(d, m, key).free;
    forall k, i: nat
      ensures IsFree(free, k, i) <==> IsFree(d.free, k, i) || (k == key && i == m)
    {
      Pushed(d, m, key, k, i);
    }
    forall k ensures Distinct(Queue(free, k)) {
      Pushed(d, m, key, k, m);
    }
    forall i | 0 <= i < |d.all| ensures IsAt(free, after, i, d.all[i], moved[i]) {
      Settled(d.free, d.all, h, places, i);
    }
  }

  lemma FromQueue(d: Data, h: Holdings, places: seq<Place>, t: nat, key: string)
    requires Placed(d.free, d.all, h, places) && t < |h.holders| && h.holders[t].None? && Queue(d.free, key) != []
    ensures
      var i := ItemTaken(d, key);
      && i < |d.all|
      && Placed(Taken(d, key).free, d.all, Holdings(h.owners, h.holders[t := Some((i, key))]), places[i := InThread(t)])
  {
    hide Taken, ItemTaken, IsFree, Distinct, Queue;
    var m := ItemTaken(d, key);
    Popped(d, key, key, m);
    var after, moved := Holdings(h.owners, h.holders[t := Some((m, key))]), places[m := InThread(t)];
    var free := Taken(d, key).free;
    forall k, i: nat
      ensures IsFree(free, k, i) <==> IsFree(d.free, k, i) && !(k == key && i == m)
    {
      Popped(d, key, k, i);
    }
    forall k ensures Distinct(Queue(free, k)) {
      Popped(d, key, k, m);
    }
    forall i | 0 <= i < |d.all| ensures IsAt(free, after, i, d.all[i], moved[i]) {
      Settled(d.free, d.all, h, places, i);
    }
  }

  lemma FromNew(d: Data, h: Holdings, places: seq<Place>, t: nat, key: string)
    requires Placed(d.free, d.all, h, places) && t < |h.holders| && h.holders[t].None? && Queue(d.free, key) == []
    ensures Placed(Taken(d, key).free, d.all + [key], Holdings(h.owners, h.holders[t := Some((|d.all|, key))]),
                   places + [InThread(t)])
  {
    hide Taken, Distinct, Queue;
    var after, moved := Holdings(h.owners, h.holders[t := Some((|d.all|, key))]), places + [InThread(t)];
    var free, all := Taken(d, key).free, d.all + [key];
    forall k ensures Queue(free, k) == Queue(d.free, k) {
      Unchanged(d, key, k);
    }
    forall i | 0 <= i < |all| ensures IsAt(free, after, i, all[i], moved[i]) {
      if i < |d.all| { Settled(d.free, d.all, h, places, i); }
    }
    forall k, i: nat | IsFree(free, k, i) ensures i < |all| && all[i] == k && moved[i] == InFree {
      assert IsFree(d.free, k, i);
    }
  }

  lemma NoMove(h: Holdings, p: nat)
    requires p < |h.owners| && h.owners[p].None?
    ensures h.owners[p := None] == h.owners
  {}

  lemma StepKeepsPlaces(s: State, e: Event, places: seq<Place>) returns (after: seq<Place>)
    requires Referring(s.threads, s.ptrs) && Enabled(s, e)
    requires Placed(s.data.free, s.data.all, HoldingsOf(s), places)
    ensures var d := Do(s, e); Placed(d.data.free, d.data.all, HoldingsOf(d), after)
  {
    hide Placed, Referring, Taken, ItemTaken, Put, Queue;
    StepMovesHoldings(s, e);
    var h := HoldingsOf(s);
    var o, t := h.owners, h.holders;
    OneEach(s.data.free, s.data.all, h, places);
    after := places;
    match e
    case CopyCall(_, q) =>
      if o[q].Some? {
        ToCopy(s.data.free, s.data.all, h, places, q);
        after := places[o[q].value.0 := InPtr(|o|)];
      } else {
        NoMove(h, q);
        NothingCopied(s.data.free, s.data.all, h, places);
      }
    case DestroyCall(u, p) =>
      if o[p].Some? {
        ToThread(s.data.free, s.data.all, h, places, p, u);
        after := places[o[p].value.0 := InThread(u)];
      } else {
        NoMove(h, p);
        assert t[u := None] == t;
      }
    case AssignCall(u, p, q) =>
      if o[p].Some? {
        ToThread(s.data.free, s.data.all, h, places, p, u);
        after := places[o[p].value.0 := InThread(u)];
      } else {
        after := Moves(s.data.free, s.data.all, h, places, p, q);
      }
    case Advance(u) =>
      match s.threads[u] {
        case AcqBody(key) =>
          if Queue(s.data.free, key) == [] {
            FromNew(s.data, h, places, u, key);
            after := places + [InThread(u)];
            NewItem(s.data, key);
          } else {
            FromQueue(s.data, h, places, u, key);
            after := places[ItemTaken(s.data, key) := InThread(u)];
            OldItem(s.data, key);
          }
        case AcqLeave(item, _) =>
          ToNewPtr(s.data.free, s.data.all, h, places, u);
          after := places[item := InPtr(|o|)];
        case RelBody(item, key, _) =>
          ToQueue(s.data, h, places, u);
          after := places[item := InFree];
          SameItems(s.data, item, key);
        case RelLeave(Assigned(p, q)) =>
          after := Moves(s.data.free, s.data.all, h, places, p, q);
        case _ =>
      }
    case _ =>
  }

  lemma OneEach(free: map<string, seq<nat>>, all: seq<string>, h: Holdings, places: seq<Place>)
    requires Placed(free, all, h, places)
    ensures |places| == |all|
  {}

  lemma NewItem(d: Data, key: string)
    requires Queue(d.free, key) == []
    ensures Taken(d, key).all == d.all + [key] && ItemTaken(d, key) == |d.all|
  {}

  lemma OldItem(d: Data, key: string)
    requires Queue(d.free, key) != []
    ensures Taken(d, key).all == d.all
  {}

  lemma SameItems(d: Data, item: nat, key: string)
    ensures Put(d, item, key).all == d.all
  {}

  lemma NothingCopied(free: map<string, seq<nat>>, all: seq<string>, h: Holdings, places: seq<Place>)
    requires Placed(free, all, h, places)
    ensures Placed(free, all, Holdings(h.owners + [None], h.holders), places)
  {
    forall i | 0 <= i < |all| ensures IsAt(free, Holdings(h.owners + [None], h.holders), i, all[i], places[i]) {
      Settled(free, all, h, places, i);
    }
  }

  lemma Moves(free: map<string, seq<nat>>, all: seq<string>, h: Holdings, places: seq<Place>, p: nat, q: nat)
      returns (after: seq<Place>)
    requires Placed(free, all, h, places) && p < |h.owners| && q < |h.owners| && h.owners[p].None?
    ensures Placed(free, all, Holdings(MovedOwners(h.owners, p, q), h.holders), after)
  {
    if h.owners[q].Some? {
      ToPtr(free, all, h, places, p, q);
      after := places[h.owners[q].value.0 := InPtr(p)];
    } else {
      assert MovedOwners(h.owners, p, q) == h.owners;
      after := places;
    }
  }
}
