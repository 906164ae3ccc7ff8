/** The classes of include/dcl/pool.h as imperative code. One thread's view: size_policy->lock()
    returns, and the bodies under the mutex run undisturbed; PoolSteps has the interleavings. The
    state changes are those of its steps. */
module Pool {
  import opened Options
  import opened PoolRuns
  import opened PoolSteps

  class Pool {
    var free: map<string, seq<nat>>
    var all: seq<string>
    const limited: bool
    var sem: nat

    ghost function Value(): Data
      reads this
    {
      Data(free, all)
    }

    constructor (limit: Option<nat>)
      ensures Value() == Data(map[], []) && limited == limit.Some? && (limit.Some? ==> sem == limit.value)
    {
      free, all := map[], [];
      limited := limit.Some?;
      sem := if limit.Some? then limit.value else 0;
    }

    // The wait for the semaphore is over when lock() returns, so it has a count to take.
    method AcquireItem(key: string) returns (item: nat)
      requires limited ==> sem > 0
      modifies this
      ensures item == ItemTaken(old(Value()), key) && Value() == Taken(old(Value()), key)
      ensures sem == if limited then old(sem) - 1 else old(sem)
    {
      if limited {
        sem := sem - 1;
      }
      if key !in free {
        free := free[key := []];
      }
      if free[key] == [] {
        item := |all|;
        all := all + [key];
        return;
      }
      item := free[key][0];
      free := free[key := free[key][1..]];
    }

    method ReleaseItem(item: nat, key: string)
      modifies this
      ensures Value() == Put(old(Value()), item, key)
      ensures sem == if limited then old(sem) + 1 else old(sem)
    {
      if limited {
        sem := sem + 1;
      }
      if key !in free {
        free := free[key := []];
      }
      free := free[key := free[key] + [item]];
    }

    method InUse() returns (n: int)
      ensures n == |all| - TotalFree(free)
    {
      var total := 0;
      var rest := free;
      while rest != map[]
        invariant rest.Keys <= free.Keys && total + TotalFree(rest) == TotalFree(free)
        invariant forall key :: key in rest ==> key in free && rest[key] == free[key]
        decreases |rest|
      {
        var key :| key in rest;
        TotalRemove(rest, key);
        total := total + |free[key]|;
        rest := rest - {key};
      }
      n := |all| - total;
    }

    method Acquire(key: string) returns (p: PoolPtr)
      requires limited ==> sem > 0
      modifies this
      ensures fresh(p) && p.pool == this && p.Value() == Ptr(Some(ItemTaken(old(Value()), key)), true, key)
      ensures Value() == Taken(old(Value()), key) && sem == if limited then old(sem) - 1 else old(sem)
    {
      var item := AcquireItem(key);
      p := new PoolPtr(item, this, key);
    }
  }

  // A pool once a pointer has given back what it owns.
  function Restored(d: Data, x: Ptr): Data {
    if x.Owns() then Put(d, x.item.value, x.key) else d
  }

  function Unlocks(pool: Pool, x: Ptr): nat {
    if x.Owns() && pool.limited then 1 else 0
  }

  class PoolPtr {
    var item: Option<nat>
    var pool: Pool?
    var key: string

    ghost function Value(): Ptr
      reads this
    {
      Ptr(item, pool != null, key)
    }

    // What the pool behind the pointer holds.
    ghost function Backing(): (d: Data)
      reads this, pool
      ensures pool != null ==> d == pool.Value()
    {
      if pool == null then Data(map[], []) else pool.Value()
    }

    constructor (item: nat, pool: Pool, key: string)
      ensures this.pool == pool && Value() == Ptr(Some(item), true, key)
    {
      this.item, this.pool, this.key := Some(item), pool, key;
    }

    constructor Null()
      ensures pool == null && Value() == Ptr(None, false, "")
    {
      item, pool, key := None, null, "";
    }

    // The copy takes over; the source is left with nothing.
    constructor Copy(src: PoolPtr)
      modifies src
      ensures Value() == old(src.Value()) && pool == old(src.pool)
      ensures src.Value() == Ptr(None, false, old(src.key))
    {
      item, pool, key := src.item, src.pool, src.key;
      new;
      src.pool := null;
      src.item := None;
    }

    // Assignment, also to itself: what this pointer owned goes back to its pool once, and it takes
    // over from the source unless it is the source.
    method Assign(src: PoolPtr)
      modifies this, src, pool
      ensures old(pool) != null ==>
                && old(pool).Value() == Restored(old(Backing()), old(Value()))
                && old(pool).sem == old(if pool == null then 0 else pool.sem) + Unlocks(old(pool), old(Value()))
      ensures src != this ==> Value() == old(src.Value()) && pool == old(src.pool)
      ensures src.Value() == Ptr(None, false, old(src.key))
    {
      if pool != null && item.Some? {
        pool.ReleaseItem(item.value, key);
      }
      item := src.item;
      pool := src.pool;
      key := src.key;
      src.pool := null;
      src.item := None;
    }

    // The destructor.
    method Destroy()
      modifies pool
      ensures pool != null ==>
                && pool.Value() == Restored(old(Backing()), Value())
                && pool.sem == old(if pool == null then 0 else pool.sem) + Unlocks(pool, Value())
    {
      if pool != null && item.Some? {
        pool.ReleaseItem(item.value, key);
      }
    }
  }
}
