/** The generic connection pool and its guards.  The mutex, the unsynchronised stop flag and the condition variable
    are modelled: every access to the flag and every critical section is a step, and any number of guards and
    shutdowns interleave. */
module ConnectionPool {
  import opened Wrappers

  type Conn = nat
  type GuardId = nat

  /** A guard: Awake and Popping hold the mutex inside acquire, Returning has passed the flag test of release,
      Spoiled was invalidated and still keeps its pointer. */
  datatype Guard =
    | Waiting | Awake | Popping
    | Held(conn: Conn) | Returning(conn: Conn) | Spoiled(conn: Conn)
    | Inactive | Gone

  datatype Pool = Pool(stop: bool, mutex: Option<GuardId>, queue: seq<Conn>, guards: map<GuardId, Guard>,
                       invalidated: set<Conn>, destroyed: set<Conn>)

  datatype Event =
    | Construct(g: GuardId)       // ConnectionRAII(), entering acquire
    | Wake(g: GuardId)            // the wait is over: the mutex is taken and the predicate held
    | Check(g: GuardId)           // the flag is read again
    | Pop(g: GuardId)             // the front connection is taken and the mutex given back
    | Invalidate(g: GuardId)
    | Destruct(g: GuardId)        // ~ConnectionRAII(), up to the flag test of the pool's release
    | Push(g: GuardId)            // the critical section of release
    | SetStop                     // shutdown, first half
    | Drain                       // shutdown, second half

  function At(p: Pool, g: GuardId): Option<Guard> {
    if g in p.guards then Some(p.guards[g]) else None
  }

  function Set(p: Pool, g: GuardId, to: Guard): Pool {
    p.(guards := p.guards[g := to])
  }

  function Apply(p: Pool, e: Event): Pool {
    match e
    case Construct(g) => if g in p.guards then p else Set(p, g, Waiting)
    case Wake(g) =>
      if At(p, g) == Some(Waiting) && p.mutex.None? && (p.queue != [] || p.stop) then
        Set(p, g, Awake).(mutex := Some(g))
      else p
    case Check(g) =>
      if At(p, g) != Some(Awake) then p
      else if p.stop then Set(p, g, Inactive).(mutex := None)
      else Set(p, g, Popping)
    case Pop(g) =>
      if At(p, g) == Some(Popping) && p.queue != [] then
        Set(p, g, Held(p.queue[0])).(queue := p.queue[1..], mutex := None)
      else p
    case Invalidate(g) =>
      if g in p.guards && p.guards[g].Held? then
        Set(p, g, Spoiled(p.guards[g].conn)).(invalidated := p.invalidated + {p.guards[g].conn})
      else p
    case Destruct(g) =>
      if g !in p.guards then p
      else (
        match p.guards[g]
        case Held(c) => if p.stop then Set(p, g, Gone).(destroyed := p.destroyed + {c}) else Set(p, g, Returning(c))
        case Spoiled(_) => Set(p, g, Gone)
        case Inactive => Set(p, g, Gone)
        case _ => p)
    case Push(g) =>
      if g in p.guards && p.guards[g].Returning? && p.mutex.None? then
        Set(p, g, Gone).(queue := p.queue + [p.guards[g].conn])
      else p
    case SetStop => p.(stop := true)
    case Drain =>
      if p.stop && p.mutex.None? then p.(queue := [], destroyed := p.destroyed + Elements(p.queue)) else p
  }

  function Exec(p: Pool, events: seq<Event>): Pool
    decreases |events|
  {
    if events == [] then p else Exec(Apply(p, events[0]), events[1..])
  }

  // The pool a subclass has filled with its connections.
  function Filled(created: seq<Conn>): Pool {
    Pool(false, None, created, map[], {}, {})
  }

  // The connection a guard has in its hands.
  function Owned(g: Guard): Option<Conn> {
    match g
    case Held(c) => Some(c)
    case Returning(c) => Some(c)
    case Spoiled(c) => Some(c)
    case _ => None
  }

  predicate Holds(p: Pool, g: GuardId) {
    g in p.guards && (p.guards[g].Held? || p.guards[g].Returning?)
  }

  function Holders(p: Pool): set<GuardId> {
    set g | g in p.guards && Holds(p, g)
  }

  // Two guards never have the same connection, and the queue has none of theirs.
  ghost predicate OneOwner(p: Pool) {
    && Distinct(p.queue)
    && (forall g: GuardId :: g in p.guards && Owned(p.guards[g]).Some? ==> Owned(p.guards[g]).value !in p.queue)
    && (forall g: GuardId, h: GuardId :: g in p.guards && h in p.guards && g != h && Owned(p.guards[g]).Some?
          ==> Owned(p.guards[g]) != Owned(p.guards[h]))
  }

  // Only the guard inside the critical section is awake, and a guard about to pop finds a connection.
  ghost predicate MutexOk(p: Pool) {
    forall g: GuardId :: g in p.guards ==>
      && (p.guards[g].Awake? || p.guards[g].Popping? ==> p.mutex == Some(g))
      && (p.guards[g].Awake? ==> p.queue != [] || p.stop)
      && (p.guards[g].Popping? ==> p.queue != [])
  }

  // Invalidated and destroyed connections are nowhere else.
  ghost predicate LostOk(p: Pool) {
    && p.invalidated !! p.destroyed
    && (forall c: Conn :: c in p.queue ==> c !in p.invalidated && c !in p.destroyed)
    && (forall g: GuardId :: Holds(p, g) ==> p.guards[g].conn !in p.invalidated && p.guards[g].conn !in p.destroyed)
    && (forall g: GuardId :: g in p.guards && p.guards[g].Spoiled? ==> p.guards[g].conn in p.invalidated)
    && (!p.stop ==> p.destroyed == {})
  }

  ghost predicate HeldBySome(p: Pool, c: Conn) {
    exists g: GuardId :: Holds(p, g) && p.guards[g].conn == c
  }

  // Where a connection is.
  ghost predicate Somewhere(p: Pool, c: Conn) {
    c in p.queue || HeldBySome(p, c) || c in p.invalidated || c in p.destroyed
  }

  // Every connection created is somewhere, and no other is anywhere.
  ghost predicate Accounted(p: Pool, created: set<Conn>) {
    forall c: Conn :: Somewhere(p, c) <==> c in created
  }

  ghost predicate Inv(p: Pool, created: set<Conn>) {
    OneOwner(p) && MutexOk(p) && LostOk(p) && Accounted(p, created)
  }

  // Guards only let go, and the queue stays or is emptied.
  ghost predicate LetsGo(p: Pool, q: Pool) {
    && (q.queue == p.queue || q.queue == [])
    && forall g: GuardId :: g in q.guards && Owned(q.guards[g]).Some? ==>
         g in p.guards && Owned(p.guards[g]) == Owned(q.guards[g])
  }

  lemma MostStepsLetGo(p: Pool, e: Event)
    requires !e.Pop? && !e.Push?
    ensures LetsGo(p, Apply(p, e))
  {
  }

  lemma PopKeepsOwner(p: Pool, g: GuardId)
    requires OneOwner(p)
    ensures OneOwner(Apply(p, Pop(g)))
  {
  }

  lemma PushKeepsOwner(p: Pool, g: GuardId)
    requires OneOwner(p)
    ensures OneOwner(Apply(p, Push(g)))
  {
  }

  lemma OwnerStep(p: Pool, e: Event)
    requires OneOwner(p)
    ensures OneOwner(Apply(p, e))
  {
    if e.Pop? {
      PopKeepsOwner(p, e.g);
    } else if e.Push? {
      PushKeepsOwner(p, e.g);
    } else {
      MostStepsLetGo(p, e);
    }
  }

  lemma MutexStep(p: Pool, e: Event)
    requires MutexOk(p)
    ensures MutexOk(Apply(p, e))
  {
  }

  // Nothing new is held or queued, and nothing is invalidated or destroyed.
  ghost predicate LosesNothing(p: Pool, q: Pool) {
    && q.invalidated == p.invalidated && q.destroyed == p.destroyed && (p.stop ==> q.stop) && q.queue == p.queue
    && forall g: GuardId :: g in q.guards && Owned(q.guards[g]).Some? ==>
         && g in p.guards && Owned(p.guards[g]) == Owned(q.guards[g])
         && q.guards[g].Spoiled? == p.guards[g].Spoiled?
  }

  lemma QuietStepsLoseNothing(p: Pool, e: Event)
    requires e.Construct? || e.Wake? || e.Check? || e.SetStop?
    ensures LosesNothing(p, Apply(p, e))
  {
  }

  lemma LostQuiet(p: Pool, q: Pool)
    requires LostOk(p) && LosesNothing(p, q)
    ensures LostOk(q)
  {
    forall g | Holds(q, g) ensures Holds(p, g) && p.guards[g].conn == q.guards[g].conn {
      assert Owned(p.guards[g]) == Owned(q.guards[g]);
    }
  }

  lemma LostPop(p: Pool, g: GuardId)
    requires OneOwner(p) && LostOk(p)
    ensures LostOk(Apply(p, Pop(g)))
  {
    if At(p, g) == Some(Popping) && p.queue != [] { assert p.queue[0] in p.queue; }
  }

  lemma LostPush(p: Pool, g: GuardId)
    requires LostOk(p)
    ensures LostOk(Apply(p, Push(g)))
  {
    if g in p.guards && p.guards[g].Returning? { assert Holds(p, g); }
  }

  // The connection of g leaves the guards' hands for one of the two sets.
  lemma LostInvalidate(p: Pool, g: GuardId)
    requires OneOwner(p) && LostOk(p)
    ensures LostOk(Apply(p, Invalidate(g)))
  {
    if g in p.guards && p.guards[g].Held? {
      assert Holds(p, g);
      forall h | Holds(p, h) && h != g ensures p.guards[h].conn != p.guards[g].conn {
        assert Owned(p.guards[h]) != Owned(p.guards[g]);
      }
    }
  }

  lemma LostDestruct(p: Pool, g: GuardId)
    requires OneOwner(p) && LostOk(p)
    ensures LostOk(Apply(p, Destruct(g)))
  {
    if g in p.guards && p.guards[g].Held? {
      assert Holds(p, g);
      forall h | Holds(p, h) && h != g ensures p.guards[h].conn != p.guards[g].conn {
        assert Owned(p.guards[h]) != Owned(p.guards[g]);
      }
    }
  }

  lemma LostDrain(p: Pool)
    requires OneOwner(p) && LostOk(p)
    ensures LostOk(Apply(p, Drain))
  {
    forall g | Holds(p, g) ensures p.guards[g].conn !in p.queue {
      assert Owned(p.guards[g]).value !in p.queue;
    }
  }

  lemma LostStep(p: Pool, e: Event)
    requires OneOwner(p) && LostOk(p)
    ensures LostOk(Apply(p, e))
  {
    match e {
      case Pop(g) => LostPop(p, g);
      case Push(g) => LostPush(p, g);
      case Invalidate(g) => LostInvalidate(p, g);
      case Destruct(g) => LostDestruct(p, g);
      case Drain => LostDrain(p);
      case _ =>
        QuietStepsLoseNothing(p, e);
        LostQuiet(p, Apply(p, e));
    }
  }

  // A connection that is somewhere stays somewhere.
  lemma StaysSomewhere(p: Pool, e: Event, c: Conn)
    requires Somewhere(p, c)
    ensures Somewhere(Apply(p, e), c)
  {
    var q := Apply(p, e);
    if c in p.queue && e.Pop? && At(p, e.g) == Some(Popping) && c == p.queue[0] {
      assert Holds(q, e.g) && q.guards[e.g].conn == c;
    } else if HeldBySome(p, c) && c !in p.queue && c !in p.invalidated && c !in p.destroyed {
      var g: GuardId :| Holds(p, g) && p.guards[g].conn == c;
      assert (Holds(q, g) && q.guards[g].conn == c) || c in q.queue || c in q.invalidated || c in q.destroyed;
    }
  }

  lemma CameFromSomewhere(p: Pool, e: Event, c: Conn)
    requires Somewhere(Apply(p, e), c)
    ensures Somewhere(p, c)
  {
    var q := Apply(p, e);
    if HeldBySome(q, c) {
      var g: GuardId :| Holds(q, g) && q.guards[g].conn == c;
      assert c in p.queue || (Holds(p, g) && p.guards[g].conn == c);
    } else if c in q.queue && c !in p.queue {
      assert Holds(p, e.g) && p.guards[e.g].conn == c;
    } else if c in q.invalidated && c !in p.invalidated {
      assert Holds(p, e.g) && p.guards[e.g].conn == c;
    } else if c in q.destroyed && c !in p.destroyed && c !in p.queue {
      assert Holds(p, e.g) && p.guards[e.g].conn == c;
    }
  }

  lemma InvStep(p: Pool, e: Event, created: set<Conn>)
    requires Inv(p, created)
    ensures Inv(Apply(p, e), created)
  {
    OwnerStep(p, e);
    MutexStep(p, e);
    LostStep(p, e);
    forall c: Conn ensures Somewhere(Apply(p, e), c) <==> c in created {
      if Somewhere(p, c) { StaysSomewhere(p, e, c); }
      if Somewhere(Apply(p, e), c) { CameFromSomewhere(p, e, c); }
    }
  }

  lemma {:induction false} InvRun(p: Pool, events: seq<Event>, created: set<Conn>)
    requires Inv(p, created)
    ensures Inv(Exec(p, events), created)
    decreases |events|
  {
    if events != [] {
      InvStep(p, events[0], created);
      InvRun(Apply(p, events[0]), events[1..], created);
    }
  }

  lemma FilledInv(created: seq<Conn>)
    requires Distinct(created)
    ensures Inv(Filled(created), Elements(created))
  {
  }

  /** In every run no connection is in the hands of two guards, or of a guard and the queue. */
  lemma NoConnectionSharedEver(created: seq<Conn>, events: seq<Event>, g: GuardId, h: GuardId)
    requires Distinct(created)
    ensures var p := Exec(Filled(created), events);
            && Distinct(p.queue)
            && (g in p.guards && Owned(p.guards[g]).Some? ==> Owned(p.guards[g]).value !in p.queue)
            && (g in p.guards && h in p.guards && g != h && Owned(p.guards[g]).Some?
                ==> Owned(p.guards[g]) != Owned(p.guards[h]))
  {
    FilledInv(created);
    InvRun(Filled(created), events, Elements(created));
  }

  /** acquire never takes the front of an empty queue, whatever shutdown does meanwhile. */
  lemma PopFindsConnection(created: seq<Conn>, events: seq<Event>, g: GuardId)
    requires Distinct(created)
    ensures var p := Exec(Filled(created), events); At(p, g) == Some(Popping) ==> p.queue != [] && p.mutex == Some(g)
  {
    FilledInv(created);
    InvRun(Filled(created), events, Elements(created));
  }

  lemma {:induction false} DistinctCount(s: seq<Conn>)
    requires Distinct(s)
    ensures |Elements(s)| == |s|
  {
    if s != [] {
      var k := |s| - 1;
      DistinctCount(s[..k]);
      assert s[k] !in Elements(s[..k]);
      assert Elements(s) == Elements(s[..k]) + {s[k]};
    }
  }

  function HeldConn(p: Pool, g: GuardId): Conn {
    if Holds(p, g) then p.guards[g].conn else 0
  }

  // What the guards of `holders` have in their hands.
  function Hands(p: Pool, holders: set<GuardId>): set<Conn> {
    set g | g in holders :: HeldConn(p, g)
  }

  lemma OneMoreHand(p: Pool, rest: set<GuardId>, g: GuardId)
    requires OneOwner(p) && Holds(p, g) && g !in rest && forall h :: h in rest ==> Holds(p, h)
    ensures HeldConn(p, g) !in Hands(p, rest) && Hands(p, rest + {g}) == Hands(p, rest) + {HeldConn(p, g)}
  {
    forall h | h in rest ensures HeldConn(p, h) != HeldConn(p, g) {
      assert Owned(p.guards[h]) != Owned(p.guards[g]);
    }
  }

  lemma {:induction false} HandsCount(p: Pool, holders: set<GuardId>)
    requires OneOwner(p) && forall g :: g in holders ==> Holds(p, g)
    ensures |Hands(p, holders)| == |holders|
    decreases |holders|
  {
    if holders != {} {
      var g :| g in holders;
      HandsCount(p, holders - {g});
      OneMoreHand(p, holders - {g}, g);
      assert holders - {g} + {g} == holders;
    }
  }

  /** Until shutdown, queued plus held plus invalidated connections are as many as were created; afterwards the
      destroyed ones make up the difference. */
  lemma ConnectionsAreConserved(created: seq<Conn>, events: seq<Event>)
    requires Distinct(created)
    ensures var p := Exec(Filled(created), events);
            && |p.queue| + |Holders(p)| + |p.invalidated| + |p.destroyed| == |created|
            && (!p.stop ==> |p.queue| + |Holders(p)| + |p.invalidated| == |created|)
  {
    FilledInv(created);
    InvRun(Filled(created), events, Elements(created));
    var p := Exec(Filled(created), events);
    DistinctCount(created);
    DistinctCount(p.queue);
    HandsCount(p, Holders(p));
    CountParts(p, Elements(created));
  }

  lemma CountParts(p: Pool, created: set<Conn>)
    requires Inv(p, created)
    ensures |Elements(p.queue)| + |Hands(p, Holders(p))| + |p.invalidated| + |p.destroyed| == |created|
  {
    PartsAreDisjoint(p);
    PartsAreAll(p, created);
    SizeOfParts(Elements(p.queue), Hands(p, Holders(p)), p.invalidated, p.destroyed);
  }

  lemma PartsAreDisjoint(p: Pool)
    requires OneOwner(p) && LostOk(p)
    ensures var q, h := Elements(p.queue), Hands(p, Holders(p));
            q !! h && q !! p.invalidated && h !! p.invalidated && (q + h) !! p.destroyed && p.invalidated !! p.destroyed
  {
    forall g | g in Holders(p)
      ensures HeldConn(p, g) !in p.queue && HeldConn(p, g) !in p.invalidated && HeldConn(p, g) !in p.destroyed
    {
      assert Owned(p.guards[g]) == Some(HeldConn(p, g));
    }
  }

  lemma PartsAreAll(p: Pool, created: set<Conn>)
    requires Accounted(p, created)
    ensures created == Elements(p.queue) + Hands(p, Holders(p)) + p.invalidated + p.destroyed
  {
    forall c: Conn ensures c in created <==> c in Elements(p.queue) + Hands(p, Holders(p)) + p.invalidated + p.destroyed {
      assert Somewhere(p, c) <==> c in created;
      if HeldBySome(p, c) {
        var g: GuardId :| Holds(p, g) && p.guards[g].conn == c;
        assert g in Holders(p) && HeldConn(p, g) == c;
      }
    }
  }

  lemma SizeOfParts(a: set<Conn>, b: set<Conn>, c: set<Conn>, d: set<Conn>)
    requires a !! b && a !! c && b !! c && (a + b) !! d && c !! d
    ensures |a + b + c + d| == |a| + |b| + |c| + |d|
  {
    assert (a + b) !! c && (a + b + c) !! d;
  }

  // No guard is past the flag test inside acquire.
  ghost predicate Closed(p: Pool) {
    p.stop && forall g: GuardId :: g in p.guards ==> !p.guards[g].Popping?
  }

  /** A shutdown that has drained the queue closes the pool: in every continuation no guard gets a connection it did
      not have, though one released late may still be pushed. */
  lemma {:induction false} NothingAcquiredAfterDrain(p: Pool, events: seq<Event>, g: GuardId)
    requires Closed(p)
    ensures var q := Exec(p, events);
            && Closed(q)
            && (Holds(q, g) ==> Holds(p, g) && q.guards[g].conn == p.guards[g].conn)
    decreases |events|
  {
    if events != [] {
      NothingAcquiredAfterDrain(Apply(p, events[0]), events[1..], g);
    }
  }

  lemma DrainCloses(p: Pool)
    requires MutexOk(p) && p.stop && p.mutex.None?
    ensures Closed(Apply(p, Drain)) && Apply(p, Drain).queue == []
  {
  }

  /** The queue need not stay empty after shutdown: a release that read the flag before still pushes. */
  lemma LatePushAfterDrain(c: Conn, g: GuardId)
    ensures Exec(Filled([c]), [Construct(g), Wake(g), Check(g), Pop(g), Destruct(g), SetStop, Drain, Push(g)]).queue == [c]
  {
    var p0 := Filled([c]);
    var p1 := Set(p0, g, Waiting);
    var p2 := Set(p1, g, Awake).(mutex := Some(g));
    var p3 := Set(p2, g, Popping);
    var p4 := Set(p3, g, Held(c)).(queue := [], mutex := None);
    var p5 := Set(p4, g, Returning(c));
    var p6 := p5.(stop := true);
    assert Apply(p0, Construct(g)) == p1 && Apply(p1, Wake(g)) == p2 && Apply(p2, Check(g)) == p3;
    assert Apply(p3, Pop(g)) == p4 && Apply(p4, Destruct(g)) == p5 && Apply(p5, SetStop) == p6;
    var late := [Destruct(g), SetStop, Drain, Push(g)];
    ExecFour(p0, Construct(g), Wake(g), Check(g), Pop(g), late, p1, p2, p3, p4);
    assert [Construct(g), Wake(g), Check(g), Pop(g)] + late
        == [Construct(g), Wake(g), Check(g), Pop(g), Destruct(g), SetStop, Drain, Push(g)];
    assert late + [] == late;
    var p7 := Apply(p6, Drain);
    ExecFour(p4, Destruct(g), SetStop, Drain, Push(g), [], p5, p6, p7, Apply(p7, Push(g)));
  }

  lemma ExecOne(p: Pool, e: Event, rest: seq<Event>)
    ensures Exec(p, [e] + rest) == Exec(Apply(p, e), rest)
  {
    assert ([e] + rest)[1..] == rest;
  }

  lemma ExecFour(p: Pool, a: Event, b: Event, c: Event, d: Event, rest: seq<Event>, p1: Pool, p2: Pool, p3: Pool, p4: Pool)
    requires Apply(p, a) == p1 && Apply(p1, b) == p2 && Apply(p2, c) == p3 && Apply(p3, d) == p4
    ensures Exec(p, [a, b, c, d] + rest) == Exec(p4, rest)
  {
    ExecOne(p, a, [b, c, d] + rest);
    ExecOne(p1, b, [c, d] + rest);
    ExecOne(p2, c, [d] + rest);
    ExecOne(p3, d, rest);
    assert [a, b, c, d] + rest == [a] + ([b, c, d] + rest);
    assert [b, c, d] + rest == [b] + ([c, d] + rest);
    assert [c, d] + rest == [c] + ([d] + rest);
  }
}
