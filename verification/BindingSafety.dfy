/** The binding of a uuid to a server and a session, over every orderly run. */
module BindingSafety {
  import opened Redis
  import opened Cluster
  import opened LeaseSafety

  ghost predicate Working(s: State, id: ClientId, uuid: string) {
    id in s.clients && InSection(s.clients[id].pc) && !s.clients[id].job.Count? && s.clients[id].job.uuid == uuid
  }

  // Both keys are absent, or both are present and the session was created on the named server.
  ghost predicate Consistent(s: State, uuid: string) {
    && (uuid in s.store.servers <==> uuid in s.store.sessions)
    && (uuid in s.store.servers ==>
          var session := s.store.sessions[uuid];
          session in s.homes && s.homes[session] == s.store.servers[uuid])
  }

  // What holds of the two keys while a client is between two of its commands.
  ghost predicate PcOk(s: State, id: ClientId)
    requires id in s.clients && !s.clients[id].job.Count?
  {
    var c := s.clients[id];
    var uuid := c.job.uuid;
    match c.pc
    case WriteServer => uuid !in s.store.servers
    case DropSession => c.job.Login? && uuid in s.store.servers && s.store.servers[uuid] == c.job.server
    case WriteSession =>
      c.job.Login? && uuid in s.store.servers && s.store.servers[uuid] == c.job.server && uuid !in s.store.sessions
    case EraseServer => Consistent(s, uuid) && uuid in s.store.sessions && s.store.sessions[uuid] == c.job.session
    case EraseSession =>
      uuid !in s.store.servers && uuid in s.store.sessions && s.store.sessions[uuid] == c.job.session
    case _ => Consistent(s, uuid)
  }

  ghost predicate PcMatchesJob(c: Client) {
    match c.pc
    case ReadBinding => c.job.Login?
    case Kicking => c.job.Login?
    case DropServer => c.job.Login?
    case WriteServer => c.job.Login?
    case DropSession => c.job.Login?
    case WriteSession => c.job.Login?
    case ReadServer => c.job.Cleanup?
    case ReadSession(_) => c.job.Cleanup?
    case EraseServer => c.job.Cleanup?
    case EraseSession => c.job.Cleanup?
    case ReadCounter => c.job.Count?
    case WriteCounter(_) => c.job.Count?
    case DropCounter => c.job.Count?
    case _ => true
  }

  ghost predicate WellFormed(s: State, id: ClientId)
    requires id in s.clients
  {
    var job := s.clients[id].job;
    PcMatchesJob(s.clients[id]) && (job.Login? ==> job.session in s.homes && s.homes[job.session] == job.server)
  }

  ghost predicate UuidOk(s: State, uuid: string) {
    && (forall id :: Working(s, id, uuid) ==> PcOk(s, id))
    && ((exists id :: Working(s, id, uuid)) || Consistent(s, uuid))
  }

  ghost predicate BindingInv(s: State) {
    && Exclusive(s)
    && (forall id :: id in s.clients ==> WellFormed(s, id))
    && (forall uuid :: UuidOk(s, uuid))
  }

  // While leases last, a working client is the one its uuid's lock names.
  lemma WorkerLocks(s: State, id: ClientId, uuid: string)
    requires Exclusive(s) && Timely(s) && Working(s, id, uuid)
    ensures Locked(s.store, uuid) && s.store.locks[uuid].holder == id
  {
    assert Holds(s, id);
  }

  lemma WorkNeedsLock(s: State, uuid: string)
    requires Exclusive(s) && Timely(s)
    ensures (exists id :: Working(s, id, uuid)) ==> Locked(s.store, uuid)
  {
    if id :| Working(s, id, uuid) { WorkerLocks(s, id, uuid); }
  }

  ghost predicate SameKeys(s: Store, s': Store, uuid: string) {
    && (uuid in s'.servers <==> uuid in s.servers)
    && (uuid in s.servers ==> s'.servers[uuid] == s.servers[uuid])
    && (uuid in s'.sessions <==> uuid in s.sessions)
    && (uuid in s.sessions ==> s'.sessions[uuid] == s.sessions[uuid])
  }

  // A client step leaves every other uuid's keys alone, and a counter change leaves all of them alone.
  lemma StepFrame(s: Store, id: ClientId, c: Client, ok: bool, uuid: string)
    requires c.job.Count? || c.job.uuid != uuid
    ensures SameKeys(s, ClientStep(s, id, c, ok).0, uuid)
  {
    match c.job {
      case Login(_, _, _) => LoginFrame(s, c, ok, uuid);
      case Cleanup(_, _) => CleanupFrame(s, c, ok, uuid);
      case Count(_, _) => CountFrame(s, c, ok, uuid);
    }
  }

  lemma LoginFrame(s: Store, c: Client, ok: bool, uuid: string)
    requires c.job.Login? && c.job.uuid != uuid
    ensures SameKeys(s, LoginStep(s, c, ok).0, uuid)
  {
  }

  lemma CleanupFrame(s: Store, c: Client, ok: bool, uuid: string)
    requires c.job.Cleanup? && c.job.uuid != uuid
    ensures SameKeys(s, CleanupStep(s, c, ok).0, uuid)
  {
  }

  lemma CountFrame(s: Store, c: Client, ok: bool, uuid: string)
    requires c.job.Count?
    ensures SameKeys(s, CountStep(s, c, ok).0, uuid)
  {
  }

  lemma OtherUuid(s: State, id: ClientId, ok: bool, uuid: string)
    requires id in s.clients && UuidOk(s, uuid)
    requires s.clients[id].job.Count? || s.clients[id].job.uuid != uuid
    ensures UuidOk(Apply(s, Step(id, ok)), uuid)
  {
    var s' := Apply(s, Step(id, ok));
    LockEffect(s.store, id, s.clients[id], ok);
    StepFrame(s.store, id, s.clients[id], ok, uuid);
    FrameUuidOk(s, s', id, uuid);
  }

  lemma FrameUuidOk(s: State, s': State, id: ClientId, uuid: string)
    requires UuidOk(s, uuid) && SameKeys(s.store, s'.store, uuid) && s'.homes == s.homes
    requires id in s.clients && (s.clients[id].job.Count? || s.clients[id].job.uuid != uuid)
    requires id in s'.clients && s'.clients == s.clients[id := s'.clients[id]]
    requires s'.clients[id].job == s.clients[id].job
    ensures UuidOk(s', uuid)
  {
    forall other ensures Working(s', other, uuid) <==> Working(s, other, uuid) { }
  }

  // A client inside its section moves from one command's condition to the next one's.
  lemma InsideStep(s: State, id: ClientId, ok: bool)
    requires id in s.clients && !s.clients[id].job.Count? && InSection(s.clients[id].pc)
    requires WellFormed(s, id) && PcOk(s, id) && !Tears(s, Step(id, ok))
    ensures var s' := Apply(s, Step(id, ok));
            if InSection(s'.clients[id].pc) then PcOk(s', id) else Consistent(s', s.clients[id].job.uuid)
  {
  }

  // Only the stepping client can start or stop working on the uuid.
  lemma SameOtherWorkers(s: State, id: ClientId, ok: bool, uuid: string)
    requires id in s.clients
    ensures forall other :: other != id ==> (Working(Apply(s, Step(id, ok)), other, uuid) <==> Working(s, other, uuid))
  {
    assert forall other :: other != id ==> Working(Apply(s, Step(id, ok)), other, uuid) == Working(s, other, uuid);
  }

  lemma OwnUuidInside(s: State, id: ClientId, ok: bool)
    requires Exclusive(s) && Timely(s) && id in s.clients && !s.clients[id].job.Count? && InSection(s.clients[id].pc)
    requires WellFormed(s, id) && UuidOk(s, s.clients[id].job.uuid) && !Tears(s, Step(id, ok))
    ensures UuidOk(Apply(s, Step(id, ok)), s.clients[id].job.uuid)
  {
    var s' := Apply(s, Step(id, ok));
    var uuid := s.clients[id].job.uuid;
    assert Working(s, id, uuid);
    WorkerLocks(s, id, uuid);
    forall other | Working(s, other, uuid) ensures other == id { WorkerLocks(s, other, uuid); }
    SameOtherWorkers(s, id, ok, uuid);
    InsideStep(s, id, ok);
    LockEffect(s.store, id, s.clients[id], ok);
    if InSection(s'.clients[id].pc) { assert Working(s', id, uuid); }
  }

  lemma OutsideStep(s: State, id: ClientId, ok: bool)
    requires id in s.clients && !InSection(s.clients[id].pc)
    ensures var s' := Apply(s, Step(id, ok));
            && s'.store.servers == s.store.servers && s'.store.sessions == s.store.sessions && s'.homes == s.homes
            && s'.clients == s.clients[id := s'.clients[id]] && s'.clients[id].job == s.clients[id].job
            && (InSection(s'.clients[id].pc) ==>
                  !Locked(s.store, LockName(s.clients[id].job)) && s'.clients[id].pc == FirstPc(s.clients[id].job))
  {
  }

  lemma OwnUuidOutside(s: State, id: ClientId, ok: bool)
    requires Exclusive(s) && Timely(s) && id in s.clients && !s.clients[id].job.Count? && !InSection(s.clients[id].pc)
    requires UuidOk(s, s.clients[id].job.uuid)
    ensures UuidOk(Apply(s, Step(id, ok)), s.clients[id].job.uuid)
  {
    var s' := Apply(s, Step(id, ok));
    var uuid := s.clients[id].job.uuid;
    OutsideStep(s, id, ok);
    SameOtherWorkers(s, id, ok, uuid);
    WorkNeedsLock(s, uuid);
    if InSection(s'.clients[id].pc) {
      assert Working(s', id, uuid);
    } else if other :| Working(s, other, uuid) {
      assert Working(s', other, uuid);
    }
  }

  lemma PcFollowsJob(s: Store, id: ClientId, c: Client, ok: bool)
    requires PcMatchesJob(c)
    ensures var c' := ClientStep(s, id, c, ok).1; PcMatchesJob(c') && c'.job == c.job
  {
  }

  lemma StaysWellFormed(s: State, e: Event, id: ClientId)
    requires id in Apply(s, e).clients && (id in s.clients ==> WellFormed(s, id))
    ensures WellFormed(Apply(s, e), id)
  {
    if e.Step? && e.id == id { PcFollowsJob(s.store, id, s.clients[id], e.ok); }
  }

  // Accepting connections, starting and giving up, and time passing do not touch any section.
  lemma QuietEvent(s: State, e: Event, id: ClientId)
    requires !(e.Step? && e.id in s.clients)
    ensures var s' := Apply(s, e);
            && s'.store.servers == s.store.servers && s'.store.sessions == s.store.sessions
            && (forall x :: x in s.homes ==> x in s'.homes && s'.homes[x] == s.homes[x])
            && (id in s.clients && InSection(s.clients[id].pc) ==> id in s'.clients && s'.clients[id] == s.clients[id])
            && (id in s'.clients && InSection(s'.clients[id].pc) ==> id in s.clients && s'.clients[id] == s.clients[id])
  {
  }

  lemma QuietUuid(s: State, e: Event, uuid: string)
    requires UuidOk(s, uuid) && !(e.Step? && e.id in s.clients)
    ensures UuidOk(Apply(s, e), uuid)
  {
    var s' := Apply(s, e);
    QuietEvent(s, e, 0);
    assert Consistent(s, uuid) ==> Consistent(s', uuid);
    forall id | Working(s', id, uuid) ensures PcOk(s', id) {
      QuietEvent(s, e, id);
      assert Working(s, id, uuid) && PcOk(s, id);
    }
    if id :| Working(s, id, uuid) {
      QuietEvent(s, e, id);
      assert Working(s', id, uuid);
    }
  }

  lemma UuidStep(s: State, e: Event, uuid: string)
    requires BindingInv(s) && Timely(s) && !Tears(s, e)
    ensures UuidOk(Apply(s, e), uuid)
  {
    assert UuidOk(s, uuid);
    if e.Step? && e.id in s.clients {
      if s.clients[e.id].job.Count? || s.clients[e.id].job.uuid != uuid {
        OtherUuid(s, e.id, e.ok, uuid);
      } else if InSection(s.clients[e.id].pc) {
        OwnUuidInside(s, e.id, e.ok);
      } else {
        OwnUuidOutside(s, e.id, e.ok);
      }
    } else {
      QuietUuid(s, e, uuid);
    }
  }

  lemma BindingStep(s: State, e: Event)
    requires BindingInv(s) && Timely(s) && !Tears(s, e)
    ensures BindingInv(Apply(s, e))
  {
    ExclusiveStep(s, e);
    forall id | id in Apply(s, e).clients ensures WellFormed(Apply(s, e), id) { StaysWellFormed(s, e, id); }
    forall uuid ensures UuidOk(Apply(s, e), uuid) { UuidStep(s, e, uuid); }
  }

  lemma {:induction false} BindingRun(s: State, events: seq<Event>)
    requires BindingInv(s) && Orderly(s, events)
    ensures BindingInv(Exec(s, events)) && Timely(Exec(s, events))
    decreases |events|
  {
    if events != [] {
      BindingStep(s, events[0]);
      BindingRun(Apply(s, events[0]), events[1..]);
    }
  }

  lemma InitiallyBound()
    ensures BindingInv(INITIAL)
  {
  }

  /** After any orderly run, whenever the lock of a uuid is free its two keys agree. */
  lemma FreeLockMeansConsistent(events: seq<Event>, uuid: string)
    requires Orderly(INITIAL, events) && !Locked(Exec(INITIAL, events).store, uuid)
    ensures Consistent(Exec(INITIAL, events), uuid)
  {
    InitiallyBound();
    BindingRun(INITIAL, events);
    var s := Exec(INITIAL, events);
    WorkNeedsLock(s, uuid);
    assert UuidOk(s, uuid);
  }

  // The event is a command of a login of this uuid, or of the cleanup of this very session.
  ghost predicate Touches(s: State, e: Event, uuid: string, session: string) {
    && e.Step? && e.id in s.clients && InSection(s.clients[e.id].pc)
    && var job := s.clients[e.id].job;
       (job.Login? && job.uuid == uuid) || job == Cleanup(uuid, session)
  }

  ghost predicate Untouched(s: State, events: seq<Event>, uuid: string, session: string)
    decreases |events|
  {
    events != [] ==>
      !Touches(s, events[0], uuid, session) && Untouched(Apply(s, events[0]), events[1..], uuid, session)
  }

  lemma UntouchedStep(s: State, e: Event, uuid: string, session: string)
    requires BindingInv(s) && !Touches(s, e, uuid, session)
    requires uuid in s.store.sessions && s.store.sessions[uuid] == session
    ensures SameKeys(s.store, Apply(s, e).store, uuid)
  {
    if e.Step? && e.id in s.clients {
      var c := s.clients[e.id];
      if c.job.Count? || c.job.uuid != uuid {
        StepFrame(s.store, e.id, c, e.ok, uuid);
      } else if InSection(c.pc) {
        assert Working(s, e.id, uuid) && UuidOk(s, uuid) && WellFormed(s, e.id);
      }
    }
  }

  lemma {:induction false} UntouchedRun(s: State, events: seq<Event>, uuid: string, session: string)
    requires BindingInv(s) && Orderly(s, events) && Untouched(s, events, uuid, session)
    requires uuid in s.store.sessions && s.store.sessions[uuid] == session
    ensures SameKeys(s.store, Exec(s, events).store, uuid)
    decreases |events|
  {
    if events != [] {
      UntouchedStep(s, events[0], uuid, session);
      BindingStep(s, events[0]);
      UntouchedRun(Apply(s, events[0]), events[1..], uuid, session);
    }
  }

  /** In an orderly run, the binding of session `session` survives everything but a command of a login
      of the same uuid or of the cleanup of `session` itself: cleaning up another session, older or not,
      never erases it. */
  lemma OnlyOwnCleanupOrLoginRemoves(before: seq<Event>, events: seq<Event>, uuid: string, session: string)
    requires Orderly(INITIAL, before) && Orderly(Exec(INITIAL, before), events)
    requires var s := Exec(INITIAL, before);
             uuid in s.store.sessions && s.store.sessions[uuid] == session
    requires var s := Exec(INITIAL, before);
             !SameKeys(s.store, Exec(s, events).store, uuid)
    ensures !Untouched(Exec(INITIAL, before), events, uuid, session)
  {
    InitiallyBound();
    BindingRun(INITIAL, before);
    var s := Exec(INITIAL, before);
    if Untouched(s, events, uuid, session) { UntouchedRun(s, events, uuid, session); }
  }
}
