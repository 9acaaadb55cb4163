/** What the leased lock guarantees by itself, with leases lapsing at any moment and commands failing
    at will. */
module LeaseSafety {
  import opened Redis
  import opened Cluster

  // Whoever is past the lock with time left is the one the lock key names.
  ghost predicate Exclusive(s: State) {
    forall id :: Holds(s, id) ==>
      var c := s.clients[id];
      LockName(c.job) in s.store.locks && s.store.locks[LockName(c.job)] == Lease(id, c.deadline)
  }

  // The three ways one step can touch the lock keys: not at all, by being granted the free lock, or by
  // deleting a lock that still names this client.
  lemma LockEffect(s: Store, id: ClientId, c: Client, ok: bool)
    ensures var (s', c') := ClientStep(s, id, c, ok);
            var name := LockName(c.job);
            && c'.job == c.job && s'.now == s.now
            && (|| (s'.locks == s.locks && (InSection(c'.pc) ==> InSection(c.pc) && c'.deadline == c.deadline))
                || (&& c.pc.Acquiring? && !Locked(s, name) && c'.deadline == s.now + LEASE_MS
                    && s'.locks == s.locks[name := Lease(id, s.now + LEASE_MS)])
                || (&& Locked(s, name) && s.locks[name].holder == id
                    && s'.locks == s.locks - {name} && c'.pc.Finished?))
  {
  }

  lemma ExclusiveStep(s: State, e: Event)
    requires Exclusive(s)
    ensures Exclusive(Apply(s, e))
  {
    if e.Step? && e.id in s.clients {
      ExclusiveClientStep(s, e.id, e.ok);
    } else {
      var s' := Apply(s, e);
      forall id | Holds(s', id)
        ensures Holds(s, id) && s.clients[id] == s'.clients[id] && s'.store.locks == s.store.locks
      {
      }
    }
  }

  lemma ExclusiveClientStep(s: State, id: ClientId, ok: bool)
    requires Exclusive(s) && id in s.clients
    ensures Exclusive(Apply(s, Step(id, ok)))
  {
    var s' := Apply(s, Step(id, ok));
    var c := s.clients[id];
    LockEffect(s.store, id, c, ok);
    var (store', c') := ClientStep(s.store, id, c, ok);
    assert s'.store == store' && s'.clients == s.clients[id := c'];
    forall other | Holds(s', other)
      ensures var o := s'.clients[other];
              LockName(o.job) in store'.locks && store'.locks[LockName(o.job)] == Lease(other, o.deadline)
    {
      if other != id || InSection(c.pc) {
        assert Holds(s, other);
      }
    }
  }

  lemma {:induction false} ExclusiveRun(s: State, events: seq<Event>)
    requires Exclusive(s)
    ensures Exclusive(Exec(s, events))
    decreases |events|
  {
    if events != [] {
      ExclusiveStep(s, events[0]);
      ExclusiveRun(Apply(s, events[0]), events[1..]);
    }
  }

  /** In every run, at most one client holds an unexpired lease on a name. */
  lemma MutualExclusion(events: seq<Event>, a: ClientId, b: ClientId)
    requires var s := Exec(INITIAL, events);
             Holds(s, a) && Holds(s, b) && LockName(s.clients[a].job) == LockName(s.clients[b].job)
    ensures a == b
  {
    ExclusiveRun(INITIAL, events);
  }

  /** Whatever a client does once its lease has lapsed, a client that holds a lease keeps it, on the
      same lock key.  In particular its late release deletes nobody else's lock. */
  lemma LateStepSparesNewHolder(events: seq<Event>, late: ClientId, ok: bool, holder: ClientId)
    requires var s := Exec(INITIAL, events);
             late != holder && Holds(s, holder)
    ensures var s := Exec(INITIAL, events);
            var s' := Apply(s, Step(late, ok));
            var name := LockName(s.clients[holder].job);
            && Holds(s', holder)
            && name in s.store.locks && name in s'.store.locks && s'.store.locks[name] == s.store.locks[name]
  {
    var s := Exec(INITIAL, events);
    ExclusiveRun(INITIAL, events);
    ExclusiveStep(s, Step(late, ok));
    if late in s.clients { LockEffect(s.store, late, s.clients[late], ok); }
    assert Apply(s, Step(late, ok)).clients[holder] == s.clients[holder];
  }

  /** A release by the holder itself frees the name at once, for the next client to take. */
  lemma ReleaseFreesName(events: seq<Event>, id: ClientId)
    requires var s := Exec(INITIAL, events); Holds(s, id) && s.clients[id].pc.Releasing?
    ensures var s := Exec(INITIAL, events);
            var s' := Apply(s, Step(id, true));
            !Locked(s'.store, LockName(s.clients[id].job)) && s'.clients[id].pc.Finished?
  {
    ExclusiveRun(INITIAL, events);
  }
}
