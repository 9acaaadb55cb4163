/** The connection counters refine an atomic counter: a read and a later write under the leased lock
    have the effect of one indivisible operation, in the order in which the lock was granted. */
module CounterSafety {
  import opened Wrappers
  import opened Redis
  import opened Cluster
  import opened LeaseSafety
  import opened BindingSafety

  // One operation on an atomic counter; None is a server without a counter, which reads as 0.
  function After(op: CounterOp, value: Option<nat>): Option<nat> {
    var n := if value.Some? then value.value else 0;
    match op
    case Increase => Some(n + 1)
    case Decrease => if n > 0 then Some(n - 1) else value
    case Reset => Some(0)
    case Remove => None
  }

  // The atomic counter of `server` after the operations granted so far.
  function Atomic(grants: seq<(string, CounterOp)>, server: string): Option<nat> {
    if grants == [] then None
    else
      var (name, op) := grants[|grants| - 1];
      var value := Atomic(grants[..|grants| - 1], server);
      if name == server then After(op, value) else value
  }

  function Stored(s: Store, server: string): Option<nat> {
    if server in s.counters then Some(s.counters[server]) else None
  }

  ghost predicate Counting(s: State, id: ClientId, server: string) {
    id in s.clients && InSection(s.clients[id].pc) && s.clients[id].job.Count? && s.clients[id].job.server == server
  }

  // Until its write, a section owes the stored counter exactly its own operation.
  ghost predicate CountOk(s: State, id: ClientId)
    requires id in s.clients && s.clients[id].job.Count?
  {
    var Count(server, op) := s.clients[id].job;
    var value := Stored(s.store, server);
    var atomic := Atomic(s.grants, server);
    match s.clients[id].pc
    case ReadCounter => (op.Increase? || op.Decrease?) && atomic == After(op, value)
    case WriteCounter(n) => atomic == Some(n)
    case DropCounter => atomic == None
    case _ => atomic == value
  }

  ghost predicate ServerOk(s: State, server: string) {
    && (forall id :: Counting(s, id, server) ==> CountOk(s, id))
    && ((exists id :: Counting(s, id, server)) || Stored(s.store, server) == Atomic(s.grants, server))
  }

  ghost predicate CounterInv(s: State) {
    && Exclusive(s)
    && (forall id :: id in s.clients ==> WellFormed(s, id))
    && (forall server :: ServerOk(s, server))
  }

  lemma CounterLocks(s: State, id: ClientId, server: string)
    requires Exclusive(s) && Timely(s) && Counting(s, id, server)
    ensures Locked(s.store, server) && s.store.locks[server].holder == id
  {
    assert Holds(s, id);
  }

  lemma CountNeedsLock(s: State, server: string)
    requires Exclusive(s) && Timely(s)
    ensures (exists id :: Counting(s, id, server)) ==> Locked(s.store, server)
  {
    if id :| Counting(s, id, server) { CounterLocks(s, id, server); }
  }

  lemma CounterFrame(s: Store, id: ClientId, c: Client, ok: bool, server: string)
    requires !c.job.Count? || c.job.server != server
    ensures Stored(ClientStep(s, id, c, ok).0, server) == Stored(s, server)
  {
  }

  lemma OtherServer(s: State, id: ClientId, ok: bool, server: string)
    requires id in s.clients && ServerOk(s, server)
    requires !s.clients[id].job.Count? || s.clients[id].job.server != server
    ensures ServerOk(Apply(s, Step(id, ok)), server)
  {
    var s' := Apply(s, Step(id, ok));
    LockEffect(s.store, id, s.clients[id], ok);
    CounterFrame(s.store, id, s.clients[id], ok, server);
    if s'.grants != s.grants { AtomicSnoc(s.grants, s.clients[id].job.server, s.clients[id].job.op, server); }
    FrameServerOk(s, s', id, server);
  }

  lemma FrameServerOk(s: State, s': State, id: ClientId, server: string)
    requires ServerOk(s, server) && Stored(s.store, server) == Stored(s'.store, server)
    requires Atomic(s'.grants, server) == Atomic(s.grants, server)
    requires id in s.clients && (!s.clients[id].job.Count? || s.clients[id].job.server != server)
    requires id in s'.clients && s'.clients == s.clients[id := s'.clients[id]]
    requires s'.clients[id].job == s.clients[id].job
    ensures ServerOk(s', server)
  {
    forall other ensures Counting(s', other, server) <==> Counting(s, other, server) { }
  }

  lemma InsideCount(s: State, id: ClientId, ok: bool)
    requires id in s.clients && s.clients[id].job.Count? && InSection(s.clients[id].pc)
    requires WellFormed(s, id) && CountOk(s, id) && !Tears(s, Step(id, ok))
    ensures var s' := Apply(s, Step(id, ok));
            var server := s.clients[id].job.server;
            && s'.grants == s.grants
            && (if InSection(s'.clients[id].pc) then CountOk(s', id)
                else Stored(s'.store, server) == Atomic(s'.grants, server))
  {
  }

  lemma AtomicSnoc(grants: seq<(string, CounterOp)>, name: string, op: CounterOp, server: string)
    ensures Atomic(grants + [(name, op)], server) ==
            (if name == server then After(op, Atomic(grants, server)) else Atomic(grants, server))
  {
    var longer := grants + [(name, op)];
    assert longer[..|longer| - 1] == grants;
  }

  // What being granted the lock changes.
  lemma Granted(s: State, id: ClientId, ok: bool)
    requires id in s.clients && s.clients[id].job.Count? && s.clients[id].pc.Acquiring?
    requires InSection(Apply(s, Step(id, ok)).clients[id].pc)
    ensures var s' := Apply(s, Step(id, ok));
            var Count(server, op) := s.clients[id].job;
            && s'.clients[id].job == s.clients[id].job && s'.clients[id].pc == FirstPc(s.clients[id].job)
            && s'.store.counters == s.store.counters && s'.grants == s.grants + [(server, op)]
  {
  }

  // Being granted the lock is the moment the atomic counter changes.
  lemma GrantCount(s: State, id: ClientId, ok: bool)
    requires id in s.clients && s.clients[id].job.Count? && s.clients[id].pc.Acquiring?
    requires Stored(s.store, s.clients[id].job.server) == Atomic(s.grants, s.clients[id].job.server)
    requires InSection(Apply(s, Step(id, ok)).clients[id].pc)
    ensures CountOk(Apply(s, Step(id, ok)), id)
  {
    var Count(server, op) := s.clients[id].job;
    Granted(s, id, ok);
    AtomicSnoc(s.grants, server, op, server);
  }

  lemma SameOtherCounters(s: State, id: ClientId, ok: bool, server: string)
    requires id in s.clients
    ensures forall other :: other != id ==> (Counting(Apply(s, Step(id, ok)), other, server) <==> Counting(s, other, server))
  {
    assert forall other :: other != id ==> Counting(Apply(s, Step(id, ok)), other, server) == Counting(s, other, server);
  }

  lemma OwnServerInside(s: State, id: ClientId, ok: bool)
    requires Exclusive(s) && Timely(s) && id in s.clients && s.clients[id].job.Count? && InSection(s.clients[id].pc)
    requires WellFormed(s, id) && ServerOk(s, s.clients[id].job.server) && !Tears(s, Step(id, ok))
    ensures ServerOk(Apply(s, Step(id, ok)), s.clients[id].job.server)
  {
    var s' := Apply(s, Step(id, ok));
    var server := s.clients[id].job.server;
    assert Counting(s, id, server);
    CounterLocks(s, id, server);
    forall other | Counting(s, other, server) ensures other == id { CounterLocks(s, other, server); }
    SameOtherCounters(s, id, ok, server);
    InsideCount(s, id, ok);
    LockEffect(s.store, id, s.clients[id], ok);
    if InSection(s'.clients[id].pc) { assert Counting(s', id, server); }
  }

  lemma OwnServerOutside(s: State, id: ClientId, ok: bool)
    requires Exclusive(s) && Timely(s) && id in s.clients && s.clients[id].job.Count? && !InSection(s.clients[id].pc)
    requires ServerOk(s, s.clients[id].job.server)
    ensures ServerOk(Apply(s, Step(id, ok)), s.clients[id].job.server)
  {
    var s' := Apply(s, Step(id, ok));
    var server := s.clients[id].job.server;
    OutsideStep(s, id, ok);
    SameOtherCounters(s, id, ok, server);
    CountNeedsLock(s, server);
    if InSection(s'.clients[id].pc) {
      GrantCount(s, id, ok);
      assert Counting(s', id, server);
    } else {
      OutsideFrame(s, id, ok);
      StillOutside(s, s', id, server);
    }
  }

  lemma StillOutside(s: State, s': State, id: ClientId, server: string)
    requires ServerOk(s, server) && !Counting(s, id, server) && !Counting(s', id, server)
    requires s'.grants == s.grants && s'.store.counters == s.store.counters
    requires id in s'.clients && s'.clients == s.clients[id := s'.clients[id]]
    ensures ServerOk(s', server)
  {
    forall other ensures Counting(s', other, server) <==> Counting(s, other, server) { }
  }

  lemma OutsideFrame(s: State, id: ClientId, ok: bool)
    requires id in s.clients && !InSection(s.clients[id].pc) && !InSection(Apply(s, Step(id, ok)).clients[id].pc)
    ensures Apply(s, Step(id, ok)).grants == s.grants && Apply(s, Step(id, ok)).store.counters == s.store.counters
  {
  }

  lemma CounterServerStep(s: State, e: Event, server: string)
    requires CounterInv(s) && Timely(s) && !Tears(s, e)
    ensures ServerOk(Apply(s, e), server)
  {
    assert ServerOk(s, server);
    if e.Step? && e.id in s.clients {
      if !s.clients[e.id].job.Count? || s.clients[e.id].job.server != server {
        OtherServer(s, e.id, e.ok, server);
      } else if InSection(s.clients[e.id].pc) {
        OwnServerInside(s, e.id, e.ok);
      } else {
        OwnServerOutside(s, e.id, e.ok);
      }
    } else {
      assert forall id :: Counting(Apply(s, e), id, server) <==> Counting(s, id, server);
    }
  }

  lemma CounterStep(s: State, e: Event)
    requires CounterInv(s) && Timely(s) && !Tears(s, e)
    ensures CounterInv(Apply(s, e))
  {
    ExclusiveStep(s, e);
    forall id | id in Apply(s, e).clients ensures WellFormed(Apply(s, e), id) { StaysWellFormed(s, e, id); }
    forall server ensures ServerOk(Apply(s, e), server) { CounterServerStep(s, e, server); }
  }

  lemma {:induction false} CounterRun(s: State, events: seq<Event>)
    requires CounterInv(s) && Orderly(s, events)
    ensures CounterInv(Exec(s, events)) && Timely(Exec(s, events))
    decreases |events|
  {
    if events != [] {
      CounterStep(s, events[0]);
      CounterRun(Apply(s, events[0]), events[1..]);
    }
  }

  /** After any orderly run, whenever a server's lock is free its stored counter is what an atomic
      counter would hold after the granted operations, in the order of the grants: no update is lost. */
  lemma CounterIsAtomic(events: seq<Event>, server: string)
    requires Orderly(INITIAL, events) && !Locked(Exec(INITIAL, events).store, server)
    ensures var s := Exec(INITIAL, events); Stored(s.store, server) == Atomic(s.grants, server)
  {
    CounterRun(INITIAL, events);
    var s := Exec(INITIAL, events);
    CountNeedsLock(s, server);
    assert ServerOk(s, server);
  }

  function Tally(grants: seq<(string, CounterOp)>, server: string, op: CounterOp): nat {
    if grants == [] then 0
    else Tally(grants[..|grants| - 1], server, op) + (if grants[|grants| - 1] == (server, op) then 1 else 0)
  }

  // Since the last reset: no further reset, no removal, and never more purges than logins.
  ghost predicate Balanced(grants: seq<(string, CounterOp)>, server: string) {
    && Tally(grants, server, Reset) == 0 && Tally(grants, server, Remove) == 0
    && forall k :: 0 <= k <= |grants| ==> Tally(grants[..k], server, Decrease) <= Tally(grants[..k], server, Increase)
  }

  lemma BalancedPrefix(grants: seq<(string, CounterOp)>, server: string)
    requires Balanced(grants, server) && grants != []
    ensures Balanced(grants[..|grants| - 1], server)
    ensures Tally(grants, server, Decrease) <= Tally(grants, server, Increase)
  {
    var earlier := grants[..|grants| - 1];
    forall k | 0 <= k <= |earlier|
      ensures Tally(earlier[..k], server, Decrease) <= Tally(earlier[..k], server, Increase)
    {
      assert earlier[..k] == grants[..k];
    }
    assert grants[..|grants|] == grants;
  }

  /** From a server's start-up, which resets its counter, the counter is the number of logins less the number of
      purges, as long as no purge runs ahead of the logins. */
  lemma {:induction false} CounterBalance(before: seq<(string, CounterOp)>, since: seq<(string, CounterOp)>, server: string)
    requires Balanced(since, server)
    ensures Tally(since, server, Increase) >= Tally(since, server, Decrease)
    ensures Atomic(before + [(server, Reset)] + since, server)
            == Some(Tally(since, server, Increase) - Tally(since, server, Decrease))
    decreases |since|
  {
    var start := before + [(server, Reset)];
    if since == [] {
      assert start + since == start;
      AtomicSnoc(before, server, Reset, server);
    } else {
      var k := |since| - 1;
      BalancedPrefix(since, server);
      CounterBalance(before, since[..k], server);
      assert start + since == (start + since[..k]) + [since[k]];
      AtomicSnoc(start + since[..k], since[k].0, since[k].1, server);
    }
  }

  /** In a run: with the lock free, the stored counter of a server that was reset and has since granted logins and
      purges in balance is their difference. */
  lemma CounterCountsSinceStart(events: seq<Event>, server: string,
                                before: seq<(string, CounterOp)>, since: seq<(string, CounterOp)>)
    requires Orderly(INITIAL, events) && !Locked(Exec(INITIAL, events).store, server)
    requires Exec(INITIAL, events).grants == before + [(server, Reset)] + since && Balanced(since, server)
    ensures Tally(since, server, Increase) >= Tally(since, server, Decrease)
    ensures Stored(Exec(INITIAL, events).store, server)
            == Some(Tally(since, server, Increase) - Tally(since, server, Decrease))
  {
    CounterIsAtomic(events, server);
    CounterBalance(before, since, server);
  }
}
