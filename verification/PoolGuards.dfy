/** The pool and its RAII guard as objects.  Each operation is the corresponding run of one guard of module
    ConnectionPool with no other guard in between. */
module PoolGuards {
  import opened Wrappers
  import CP = ConnectionPool

  // What another thread does to the pool while a guard waits: gives a connection back, takes one, or stops the pool.
  datatype Other = Pushed(conn: CP.Conn) | Taken | Stopped

  datatype Shared = Shared(stop: bool, queue: seq<CP.Conn>)

  function Happen(s: Shared, o: Other): Shared {
    match o
    case Pushed(c) => s.(queue := s.queue + [c])
    case Taken => if s.queue != [] && !s.stop then s.(queue := s.queue[1..]) else s
    case Stopped => s.(stop := true)
  }

  function Round(s: Shared, others: seq<Other>): Shared {
    if others == [] then s else Happen(Round(s, others[..|others| - 1]), others[|others| - 1])
  }

  // The pool at the k-th look at the wait's predicate; rounds[i] happens between two looks.
  function Look(s: Shared, rounds: seq<seq<Other>>, k: nat): Shared
    requires k <= |rounds|
  {
    if k == 0 then s else Round(Look(s, rounds, k - 1), rounds[k - 1])
  }

  // The predicate of the wait.
  predicate Ready(s: Shared) {
    s.queue != [] || s.stop
  }

  // The first look that finds the predicate true.
  ghost predicate WaitEnds(s: Shared, rounds: seq<seq<Other>>, k: nat) {
    && k <= |rounds| && Ready(Look(s, rounds, k))
    && forall j: nat :: j < k ==> !Ready(Look(s, rounds, j))
  }

  lemma FirstLookIsOne(s: Shared, rounds: seq<seq<Other>>, j: nat, k: nat)
    requires WaitEnds(s, rounds, j) && WaitEnds(s, rounds, k)
    ensures j == k
  {
  }

  datatype Acquired = Got(conn: CP.Conn) | Refused | StillWaiting

  class ConnectionPool {
    var stop: bool
    var queue: seq<CP.Conn>

    function Fields(): Shared
      reads this
    {
      Shared(stop, queue)
    }

    constructor (created: seq<CP.Conn>)
      ensures !stop && queue == created
    {
      stop, queue := false, created;
    }

    // The pool as guard 0 sees it.
    ghost function View(guard: CP.Guard): CP.Pool
      reads this
    {
      CP.Pool(stop, None, queue, map[0 := guard], {}, {})
    }

    method Shutdown()
      modifies this
      ensures stop && queue == []
    {
      stop := true;
      while queue != []
        invariant stop
        decreases |queue|
      {
        queue := queue[1..];
      }
    }

    // Waiting with the mutex given up: other threads work between two looks at the predicate.
    method Wait(rounds: seq<seq<Other>>) returns (ready: bool, ghost looks: nat)
      modifies this
      ensures ready ==> WaitEnds(old(Fields()), rounds, looks) && Fields() == Look(old(Fields()), rounds, looks)
      ensures !ready ==> forall k: nat :: k <= |rounds| ==> !Ready(Look(old(Fields()), rounds, k))
    {
      var i := 0;
      while !(queue != [] || stop)
        invariant i <= |rounds| && Fields() == Look(old(Fields()), rounds, i)
        invariant forall j: nat :: j < i ==> !Ready(Look(old(Fields()), rounds, j))
        decreases |rounds| - i
      {
        if i == |rounds| {
          return false, i;
        }
        var s := Round(Shared(stop, queue), rounds[i]);
        stop, queue := s.stop, s.queue;
        i := i + 1;
      }
      return true, i;
    }

    /** acquire: at the first look that finds the pool stopped or a connection queued, nothing in the one case and
        the front connection, the rest staying in order, in the other; without such a look it never returns. */
    method Acquire(rounds: seq<seq<Other>>) returns (r: Acquired, ghost looks: nat)
      modifies this
      ensures r == StillWaiting ==> forall k: nat :: k <= |rounds| ==> !Ready(Look(old(Fields()), rounds, k))
      ensures r != StillWaiting ==>
                && WaitEnds(old(Fields()), rounds, looks)
                && var found := Look(old(Fields()), rounds, looks);
                   && stop == found.stop
                   && if stop then r == Refused && queue == found.queue else r.Got? && found.queue == [r.conn] + queue
    {
      var ready;
      ready, looks := Wait(rounds);
      if !ready {
        return StillWaiting, looks;
      }
      assert WaitEnds(old(Fields()), rounds, looks);
      if stop {
        return Refused, looks;
      }
      r := Got(queue[0]);
      queue := queue[1..];
    }

    method Release(stub: CP.Conn)
      modifies this
      ensures stop == old(stop) && queue == if stop then old(queue) else old(queue) + [stub]
    {
      if stop {
        return;
      }
      queue := queue + [stub];
    }
  }

  class ConnectionRAII {
    const pool: ConnectionPool
    var status: bool
    var stub: Option<CP.Conn>

    // An active guard has a connection.
    ghost predicate Valid()
      reads this
    {
      status ==> stub.Some?
    }

    // The guard as the machine sees it before its destructor runs.
    ghost function Guard(): CP.Guard
      reads this
      requires Valid()
    {
      if status then CP.Held(stub.value) else if stub.Some? then CP.Spoiled(stub.value) else CP.Inactive
    }

    // Returns only if some look ends the wait.
    constructor (pool: ConnectionPool, rounds: seq<seq<Other>>, ghost looks: nat)
      requires WaitEnds(pool.Fields(), rounds, looks)
      modifies pool
      ensures Valid() && this.pool == pool && status == !pool.stop
      ensures var found := Look(old(pool.Fields()), rounds, looks);
              pool.View(Guard()) == CP.Exec(CP.Pool(found.stop, None, found.queue, map[0 := CP.Waiting], {}, {}),
                                            [CP.Wake(0), CP.Check(0), CP.Pop(0)])
      ensures var found := Look(old(pool.Fields()), rounds, looks);
              && pool.stop == found.stop
              && if status then stub.Some? && found.queue == [stub.value] + pool.queue
                 else stub == None && pool.queue == found.queue
    {
      this.pool := pool;
      status := true;
      stub := None;
      new;
      ghost var start := pool.Fields();
      ghost var found := Look(start, rounds, looks);
      var optional;
      ghost var first;
      optional, first := pool.Acquire(rounds);
      assert Ready(Look(start, rounds, looks));
      FirstLookIsOne(start, rounds, first, looks);
      if optional.Got? {
        stub := Some(optional.conn);
      } else {
        status := false;
      }
      AcquireAlone(CP.Pool(found.stop, None, found.queue, map[0 := CP.Waiting], {}, {}));
    }

    method Invalidate()
      requires Valid()
      modifies this`status
      ensures Valid() && !status
      ensures Guard() == if old(status) then CP.Spoiled(old(stub.value)) else old(Guard())
    {
      status := false;
    }

    // The destructor: an active guard gives its connection back, any other drops it.
    method Release()
      requires Valid()
      modifies this, pool
      ensures Valid() && !status && pool.stop == old(pool.stop)
      ensures pool.queue == CP.Exec(old(pool.View(Guard())), [CP.Destruct(0), CP.Push(0)]).queue
      ensures pool.queue == if old(status) && !pool.stop then old(pool.queue) + [old(stub.value)] else old(pool.queue)
    {
      ReleaseAlone(pool.View(Guard()), 0);
      if status {
        pool.Release(stub.value);
        stub := None;
        status := false;
      }
    }
  }

  lemma AcquireAlone(p: CP.Pool)
    requires p.mutex.None? && CP.At(p, 0) == Some(CP.Waiting) && (p.queue != [] || p.stop)
    ensures CP.Exec(p, [CP.Wake(0), CP.Check(0), CP.Pop(0)])
            == if p.stop then CP.Set(p, 0, CP.Inactive)
               else CP.Set(p, 0, CP.Held(p.queue[0])).(queue := p.queue[1..])
  {
    var awake := CP.Set(p, 0, CP.Awake).(mutex := Some(0));
    var checked := CP.Apply(awake, CP.Check(0));
    CP.ExecOne(p, CP.Wake(0), [CP.Check(0), CP.Pop(0)]);
    CP.ExecOne(awake, CP.Check(0), [CP.Pop(0)]);
    CP.ExecOne(checked, CP.Pop(0), []);
    assert [CP.Wake(0)] + [CP.Check(0), CP.Pop(0)] == [CP.Wake(0), CP.Check(0), CP.Pop(0)];
    assert [CP.Check(0)] + [CP.Pop(0)] == [CP.Check(0), CP.Pop(0)];
    assert [CP.Pop(0)] + [] == [CP.Pop(0)];
    var last := CP.Apply(checked, CP.Pop(0));
    assert last.guards == p.guards[0 := if p.stop then CP.Inactive else CP.Held(p.queue[0])];
  }

  /** A guard constructed with the mutex free and a connection queued, or the pool stopped, is through with acquire at
      once: it has the front connection, or is inactive. */
  lemma ConstructAlone(p: CP.Pool, g: CP.GuardId)
    requires p.mutex.None? && g !in p.guards && (p.queue != [] || p.stop)
    ensures CP.Exec(p, [CP.Construct(g), CP.Wake(g), CP.Check(g), CP.Pop(g)])
            == p.(guards := p.guards[g := if p.stop then CP.Inactive else CP.Held(p.queue[0])],
                  queue := if p.stop then p.queue else p.queue[1..])
  {
    var waiting := CP.Set(p, g, CP.Waiting);
    var awake := CP.Set(p, g, CP.Awake).(mutex := Some(g));
    var checked := if p.stop then CP.Set(p, g, CP.Inactive) else CP.Set(p, g, CP.Popping).(mutex := Some(g));
    var last := p.(guards := p.guards[g := if p.stop then CP.Inactive else CP.Held(p.queue[0])],
                   queue := if p.stop then p.queue else p.queue[1..]);
    assert waiting.guards[g := CP.Awake] == p.guards[g := CP.Awake];
    assert awake.guards[g := CP.Inactive] == p.guards[g := CP.Inactive];
    assert awake.guards[g := CP.Popping] == p.guards[g := CP.Popping];
    assert !p.stop ==> checked.guards[g := CP.Held(p.queue[0])] == last.guards;
    assert CP.Apply(checked, CP.Pop(g)) == last;
    CP.ExecFour(p, CP.Construct(g), CP.Wake(g), CP.Check(g), CP.Pop(g), [], waiting, awake, checked, last);
    assert [CP.Construct(g), CP.Wake(g), CP.Check(g), CP.Pop(g)] + [] == [CP.Construct(g), CP.Wake(g), CP.Check(g), CP.Pop(g)];
  }

  lemma TwoEvents(p: CP.Pool, e: CP.Event, q: CP.Pool, f: CP.Event, r: CP.Pool)
    requires CP.Apply(p, e) == q && CP.Apply(q, f) == r
    ensures CP.Exec(p, [e, f]) == r
  {
    CP.ExecOne(p, e, [f]);
    CP.ExecOne(q, f, []);
    assert [e] + [f] == [e, f] && [f] + [] == [f];
  }

  /** shutdown on its own: the flag is up, the queue is empty, and exactly its connections are destroyed. */
  lemma ShutdownAlone(p: CP.Pool)
    requires p.mutex.None?
    ensures CP.Exec(p, [CP.SetStop, CP.Drain])
            == p.(stop := true, queue := [], destroyed := p.destroyed + set c | c in p.queue)
  {
    var all := set c | c in p.queue;
    assert Elements(p.queue) == all;
    TwoEvents(p, CP.SetStop, p.(stop := true), CP.Drain, p.(stop := true, queue := [], destroyed := p.destroyed + all));
  }

  /** Invalidating a guard that holds a connection, then destroying it: the connection is written off. */
  lemma InvalidateAlone(p: CP.Pool, g: CP.GuardId)
    requires g in p.guards && p.guards[g].Held?
    ensures CP.Exec(p, [CP.Invalidate(g), CP.Destruct(g)])
            == p.(guards := p.guards[g := CP.Gone], invalidated := p.invalidated + {p.guards[g].conn})
  {
    var spoiled := CP.Apply(p, CP.Invalidate(g));
    assert spoiled.guards[g := CP.Gone] == p.guards[g := CP.Gone];
    TwoEvents(p, CP.Invalidate(g), spoiled, CP.Destruct(g), CP.Apply(spoiled, CP.Destruct(g)));
  }

  /** Destroying a guard with the mutex free: one that holds a connection gives it back to the end of the queue, or,
      once the pool is stopped, destroys it with itself; any other leaves everything alone. */
  lemma ReleaseAlone(p: CP.Pool, g: CP.GuardId)
    requires p.mutex.None? && g in p.guards
    requires p.guards[g].Held? || p.guards[g].Spoiled? || p.guards[g].Inactive?
    ensures var held := p.guards[g].Held?;
            CP.Exec(p, [CP.Destruct(g), CP.Push(g)])
            == p.(guards := p.guards[g := CP.Gone],
                  queue := if held && !p.stop then p.queue + [p.guards[g].conn] else p.queue,
                  destroyed := if held && p.stop then p.destroyed + {p.guards[g].conn} else p.destroyed)
  {
    if p.guards[g].Held? && !p.stop {
      var c := p.guards[g].conn;
      var returning := p.(guards := p.guards[g := CP.Returning(c)]);
      assert returning.guards[g := CP.Gone] == p.guards[g := CP.Gone];
      TwoEvents(p, CP.Destruct(g), returning, CP.Push(g), p.(guards := p.guards[g := CP.Gone], queue := p.queue + [c]));
    } else {
      var gone := CP.Apply(p, CP.Destruct(g));
      TwoEvents(p, CP.Destruct(g), gone, CP.Push(g), gone);
    }
  }
}
