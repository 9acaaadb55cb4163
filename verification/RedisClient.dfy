/** The sections as the servers write them: one Redis command after the other on the shared store, each taking its
    time and succeeding or failing.  Each method is shown to be a run of the corresponding client of module Cluster. */
module RedisClient {
  import opened Wrappers
  import opened Redis
  import opened Cluster
  import opened Solo

  datatype Key = ServerKey(uuid: string) | SessionKey(uuid: string)

  function Lookup(s: Store, key: Key): Reply {
    match key
    case ServerKey(uuid) => Get(s.servers, uuid)
    case SessionKey(uuid) => Get(s.sessions, uuid)
  }

  function Without(s: Store, key: Key): Store {
    match key
    case ServerKey(uuid) => s.(servers := s.servers - {uuid})
    case SessionKey(uuid) => s.(sessions := s.sessions - {uuid})
  }

  function WithValue(s: Store, key: Key, value: string): Store {
    match key
    case ServerKey(uuid) => s.(servers := s.servers[uuid := value])
    case SessionKey(uuid) => s.(sessions := s.sessions[uuid := value])
  }

  predicate FreeAt(locks: map<string, Lease>, name: string, time: nat) {
    name in locks ==> locks[name].deadline <= time
  }

  // One turn of the acquire loop: the command's time and success, and the sleep after it.
  datatype Turn = Turn(wait: nat, ok: bool, nap: nat)

  // The clock at the start of turn k.
  function Clock(start: nat, turns: seq<Turn>, k: nat): nat
    requires k <= |turns|
  {
    if k == 0 then start else Clock(start, turns, k - 1) + turns[k - 1].wait + turns[k - 1].nap
  }

  // Turn k is still begun in time, its command succeeds, and it finds the lock free.
  predicate Succeeds(start: nat, locks: map<string, Lease>, name: string, turns: seq<Turn>, k: nat) {
    && k < |turns| && Clock(start, turns, k) < start + WAIT_MS
    && turns[k].ok && FreeAt(locks, name, Clock(start, turns, k) + turns[k].wait)
  }

  // The first k turns as commands of one client: a sleep is time before the next command.
  function Paces(turns: seq<Turn>, k: nat): seq<Pace>
    requires k <= |turns|
  {
    if k == 0 then []
    else Paces(turns, k - 1) + [Pace((if k == 1 then 0 else turns[k - 2].nap) + turns[k - 1].wait, turns[k - 1].ok)]
  }

  // No turn comes after the waiting time, so nothing is missed by stopping there.
  lemma {:induction false} ClockRises(start: nat, turns: seq<Turn>, i: nat)
    requires i <= |turns|
    ensures forall k :: i <= k <= |turns| ==> Clock(start, turns, k) >= Clock(start, turns, i)
    decreases |turns| - i
  {
    if i < |turns| { ClockRises(start, turns, i + 1); }
  }

  class RedisContext {
    var store: Store

    constructor (store: Store)
      ensures this.store == store
    {
      this.store := store;
    }

    /** SET NX PX: granted exactly when the command succeeds and nobody's lease on the name is running at the time it
        takes effect; then the name is leased to this client from that time, otherwise no key has changed. */
    method AcquireLock(name: string, id: ClientId, wait: nat, ok: bool) returns (granted: bool)
      modifies this
      ensures store.now == old(store).now + wait
      ensures granted <==> ok && (name in old(store).locks ==> old(store).locks[name].deadline <= store.now)
      ensures store == old(store).(now := store.now,
                                   locks := if granted then old(store).locks[name := Lease(id, store.now + LEASE_MS)]
                                            else old(store).locks)
      ensures granted ==> Locked(store, name) && store.locks[name].holder == id
    {
      store := Elapsed(store, wait);
      if !ok {
        return false;
      }
      var (s, reply) := SetNxPx(store, name, id);
      store := s;
      granted := IsSuccessful(reply);
    }

    /** The release script: afterwards no lease of this client on the name is running, and the lock of any other
        client, and everything else, is as before; a failed command leaves every key. */
    method Release(name: string, id: ClientId, p: Pace) returns (freed: bool)
      modifies this
      ensures store.now == old(store).now + p.wait
      ensures freed <==> p.ok && name in old(store).locks && store.now < old(store).locks[name].deadline
                         && old(store).locks[name].holder == id
      ensures p.ok ==> !(Locked(store, name) && store.locks[name].holder == id)
      ensures store == old(store).(now := store.now,
                                   locks := if freed then old(store).locks - {name} else old(store).locks)
    {
      store := Elapsed(store, p.wait);
      if !p.ok {
        return false;
      }
      var (s, reply) := CompareAndDelete(store, name, id);
      store := s;
      freed := reply == Integer(1);
    }

    method CheckValue(key: Key, p: Pace) returns (value: Option<string>)
      modifies this
      ensures store == Elapsed(old(store), p.wait)
      ensures value == Redis.CheckValue(if p.ok then Lookup(store, key) else Error)
      ensures var m := if key.ServerKey? then old(store).servers else old(store).sessions;
              value == if p.ok && key.uuid in m && m[key.uuid] != "" then Some(m[key.uuid]) else None
    {
      store := Elapsed(store, p.wait);
      value := Redis.CheckValue(if p.ok then Lookup(store, key) else Error);
    }

    // Deleting an absent key is a success as well.
    method DelPair(key: Key, p: Pace) returns (ok: bool)
      modifies this
      ensures ok == p.ok
      ensures store == if ok then Without(Elapsed(old(store), p.wait), key) else Elapsed(old(store), p.wait)
    {
      store := Elapsed(store, p.wait);
      if !p.ok {
        return false;
      }
      var reply := match key
                   case ServerKey(uuid) => DelReply(store.servers, uuid)
                   case SessionKey(uuid) => DelReply(store.sessions, uuid);
      store := Without(store, key);
      ok := IsSuccessful(reply);
    }

    method SetValue(key: Key, value: string, p: Pace) returns (ok: bool)
      modifies this
      ensures ok == p.ok
      ensures store == if ok then WithValue(Elapsed(old(store), p.wait), key, value) else Elapsed(old(store), p.wait)
    {
      store := Elapsed(store, p.wait);
      if p.ok {
        store := WithValue(store, key, value);
      }
      ok := p.ok;
    }

    method GetValueFromHash(server: string, p: Pace) returns (value: Option<nat>)
      modifies this
      ensures store == Elapsed(old(store), p.wait)
      ensures value.Some? <==> p.ok && server in store.counters
      ensures value.Some? ==> value.value == store.counters[server]
    {
      store := Elapsed(store, p.wait);
      value := if p.ok && server in store.counters then Some(store.counters[server]) else None;
    }

    method SetValue2Hash(server: string, n: nat, p: Pace) returns (ok: bool)
      modifies this
      ensures ok == p.ok
      ensures store == Elapsed(old(store), p.wait).(counters := if ok then old(store).counters[server := n]
                                                                else old(store).counters)
    {
      store := Elapsed(store, p.wait);
      if p.ok {
        store := store.(counters := store.counters[server := n]);
      }
      ok := p.ok;
    }

    /** acquire: tries until the waiting time is over, sleeping at least a millisecond between tries. */
    method Acquire(name: string, id: ClientId, turns: seq<Turn>, ghost job: Job)
      returns (granted: bool, ghost done: seq<Pace>)
      requires |turns| == WAIT_MS && (forall k :: 0 <= k < |turns| ==> turns[k].nap >= 1) && LockName(job) == name
      modifies this
      ensures granted <==> name != "" && exists k :: Succeeds(old(store.now), old(store.locks), name, turns, k)
      ensures !granted ==> store == old(store).(now := store.now)
      ensures granted ==>
                && store == old(store).(now := store.now,
                                        locks := old(store.locks)[name := Lease(id, store.now + LEASE_MS)])
                && FreeAt(old(store.locks), name, store.now)
                && Alone(old(store), id, Client(job, Acquiring, 0), done)
                   == (store, Client(job, FirstPc(job), store.now + LEASE_MS))
    {
      done := [];
      if name == "" {
        return false, done;
      }
      ghost var first := store;
      ghost var c := Client(job, Acquiring, 0);
      var start := store.now;
      var i := 0;
      while store.now < start + WAIT_MS
        invariant 0 <= i <= WAIT_MS && start == first.now && store.now == Clock(start, turns, i) >= start + i
        invariant store == first.(now := store.now)
        invariant Waiting(first, id, c, turns, i)
        invariant forall k :: 0 <= k < i ==> !Succeeds(start, first.locks, name, turns, k)
        decreases start + WAIT_MS - store.now
      {
        ghost var before := store;
        var ok := AcquireLock(name, id, turns[i].wait, turns[i].ok);
        OneTurn(first, id, c, turns, i, store.now);
        i := i + 1;
        if ok {
          assert Succeeds(start, first.locks, name, turns, i - 1);
          return true, Paces(turns, i);
        }
        store := Elapsed(store, turns[i - 1].nap);
      }
      ClockRises(start, turns, i);
      granted := false;
    }
  }

  // After k turns in vain the client still waits.
  ghost predicate Waiting(s: Store, id: ClientId, c: Client, turns: seq<Turn>, k: nat)
    requires k <= |turns|
  {
    Alone(s, id, c, Paces(turns, k))
    == (s.(now := Clock(s.now, turns, k) - if k == 0 then 0 else turns[k - 1].nap), c)
  }

  // One more turn of the machine's client, taking effect at `time`.
  lemma OneTurn(s: Store, id: ClientId, c: Client, turns: seq<Turn>, k: nat, time: nat)
    requires k < |turns| && Waiting(s, id, c, turns, k) && c == Client(c.job, Acquiring, 0) && LockName(c.job) != ""
    requires time == Clock(s.now, turns, k) + turns[k].wait
    ensures if turns[k].ok && FreeAt(s.locks, LockName(c.job), time)
            then Alone(s, id, c, Paces(turns, k + 1))
                 == (s.(now := time, locks := s.locks[LockName(c.job) := Lease(id, time + LEASE_MS)]),
                     Client(c.job, FirstPc(c.job), time + LEASE_MS))
            else Waiting(s, id, c, turns, k + 1)
  {
    var p := Pace((if k == 0 then 0 else turns[k - 1].nap) + turns[k].wait, turns[k].ok);
    AloneSnoc(s, id, c, Paces(turns, k), p);
    assert Paces(turns, k + 1) == Paces(turns, k) + [p];
  }

  /** A client of the cluster followed from `first` on: what it has done so far. */
  datatype Trace = Trace(first: Store, id: ClientId, job: Job, done: seq<Pace>)

  ghost predicate Follows(t: Trace, store: Store, c: Client) {
    Alone(t.first, t.id, Client(t.job, Acquiring, 0), t.done) == (store, c)
  }

  function Then(t: Trace, p: Pace): Trace {
    t.(done := t.done + [p])
  }

  lemma OneCommand(t: Trace, store: Store, c: Client, p: Pace)
    requires Follows(t, store, c)
    ensures var (store', c') := ClientStep(Elapsed(store, p.wait), t.id, c, p.ok); Follows(Then(t, p), store', c')
  {
    AloneSnoc(t.first, t.id, Client(t.job, Acquiring, 0), t.done, p);
  }

  lemma Released(t: Trace, before: Store, after: Store, c: Client, p: Pace, freed: bool)
    requires Follows(t, before, c) && c.pc.Releasing?
    requires var name := LockName(c.job); var now := before.now + p.wait;
             && (freed <==> p.ok && name in before.locks && now < before.locks[name].deadline
                            && before.locks[name].holder == t.id)
             && after == before.(now := now, locks := if freed then before.locks - {name} else before.locks)
    ensures Follows(Then(t, p), after, c.(pc := Finished))
  {
    OneCommand(t, before, c, p);
  }

  /** labelCurrentUser: delete the server key, then set it. */
  method LabelCurrentUser(redis: RedisContext, uuid: string, server: string, drop: Pace, write: Pace,
                          ghost t: Trace, ghost c: Client)
    returns (ok: bool, ghost u: Trace)
    requires Follows(t, redis.store, c) && c.job.Login? && c.job.uuid == uuid && c.job.server == server
    requires c.pc.DropServer?
    modifies redis
    ensures ok <==> drop.ok && write.ok
    ensures u.first == t.first && u.id == t.id && u.job == t.job
            && Follows(u, redis.store, c.(pc := if ok then DropSession else Releasing))
    ensures redis.store.servers == if ok then old(redis.store).servers[uuid := server]
                                   else if drop.ok then old(redis.store).servers - {uuid} else old(redis.store).servers
    ensures redis.store == old(redis.store).(now := redis.store.now, servers := redis.store.servers)
  {
    ok := redis.DelPair(ServerKey(uuid), drop);
    OneCommand(t, old(redis.store), c, drop);
    u := Then(t, drop);
    if !ok {
      return;
    }
    ghost var dropped := redis.store;
    ok := redis.SetValue(ServerKey(uuid), server, write);
    OneCommand(u, dropped, c.(pc := WriteServer), write);
    u := Then(u, write);
    assert (old(redis.store).servers - {uuid})[uuid := server] == old(redis.store).servers[uuid := server];
  }

  /** labelUserSessionID: delete the session key, then set it. */
  method LabelUserSessionID(redis: RedisContext, uuid: string, session: string, drop: Pace, write: Pace,
                            ghost t: Trace, ghost c: Client)
    returns (ok: bool, ghost u: Trace)
    requires Follows(t, redis.store, c) && c.job.Login? && c.job.uuid == uuid && c.job.session == session
    requires c.pc.DropSession?
    modifies redis
    ensures ok <==> drop.ok && write.ok
    ensures u.first == t.first && u.id == t.id && u.job == t.job
            && Follows(u, redis.store, c.(pc := Releasing))
    ensures redis.store.sessions == if ok then old(redis.store).sessions[uuid := session]
                                    else if drop.ok then old(redis.store).sessions - {uuid} else old(redis.store).sessions
    ensures redis.store == old(redis.store).(now := redis.store.now, sessions := redis.store.sessions)
  {
    ok := redis.DelPair(SessionKey(uuid), drop);
    OneCommand(t, old(redis.store), c, drop);
    u := Then(t, drop);
    if !ok {
      return;
    }
    ghost var dropped := redis.store;
    ok := redis.SetValue(SessionKey(uuid), session, write);
    OneCommand(u, dropped, c.(pc := WriteSession), write);
    u := Then(u, write);
    assert (old(redis.store).sessions - {uuid})[uuid := session] == old(redis.store).sessions[uuid := session];
  }

  /** The commands of a login's section; `kick` is the answer of the other server to a distributed kick. */
  datatype LoginPaces = LoginPaces(read: Pace, kick: Pace, dropServer: Pace, writeServer: Pace,
                                   dropSession: Pace, writeSession: Pace, release: Pace)

  // The read of the binding and, if another server holds it, the kick.
  method FindBinding(redis: RedisContext, uuid: string, server: string, paces: LoginPaces, ghost t: Trace, ghost c: Client)
    returns (refused: bool, ghost u: Trace)
    requires Follows(t, redis.store, c) && c.job.Login? && c.job.uuid == uuid && c.job.server == server
    requires c.pc.ReadBinding?
    modifies redis
    ensures refused <==> && paces.read.ok && uuid in old(redis.store).servers
                         && old(redis.store).servers[uuid] !in {"", server} && !paces.kick.ok
    ensures u.first == t.first && u.id == t.id && u.job == t.job
            && Follows(u, redis.store, c.(pc := if refused then Releasing else DropServer))
    ensures redis.store == old(redis.store).(now := redis.store.now)
  {
    var current := redis.CheckValue(ServerKey(uuid), paces.read);
    OneCommand(t, old(redis.store), c, paces.read);
    u := Then(t, paces.read);
    refused := false;
    if current.Some? && current.value != server {
      ghost var read := redis.store;
      redis.store := Elapsed(redis.store, paces.kick.wait);
      OneCommand(u, read, c.(pc := Kicking), paces.kick);
      u := Then(u, paces.kick);
      refused := !paces.kick.ok;
    }
  }

  /** updateRedisCache.  Whatever the commands do, the section is a run of the login client.  Both keys end as the first
      command that fails leaves them: with every write succeeding, and no kick refused, bound to this server and session. */
  method UpdateRedisCache(redis: RedisContext, id: ClientId, uuid: string, server: string, session: string,
                          turns: seq<Turn>, paces: LoginPaces)
    returns (granted: bool, ghost done: seq<Pace>, ghost deadline: nat)
    requires |turns| == WAIT_MS && forall k :: 0 <= k < |turns| ==> turns[k].nap >= 1
    modifies redis
    ensures !granted ==> redis.store == old(redis.store).(now := redis.store.now)
    ensures granted ==>
              Alone(old(redis.store), id, Client(Login(uuid, server, session), Acquiring, 0), done)
              == (redis.store, Client(Login(uuid, server, session), Finished, deadline))
    ensures granted ==>
              var first := old(redis.store);
              var refused := && paces.read.ok && uuid in first.servers && first.servers[uuid] !in {"", server}
                             && !paces.kick.ok;
              var dropped := !refused && paces.dropServer.ok;
              var named := dropped && paces.writeServer.ok;
              && redis.store.servers == (if named then first.servers[uuid := server]
                                         else if dropped then first.servers - {uuid} else first.servers)
              && redis.store.sessions == (if named && paces.dropSession.ok && paces.writeSession.ok
                                          then first.sessions[uuid := session]
                                          else if named && paces.dropSession.ok then first.sessions - {uuid}
                                          else first.sessions)
              && redis.store.counters == first.counters
              && (paces.release.ok ==> !(Locked(redis.store, uuid) && redis.store.locks[uuid].holder == id))
  {
    ghost var job := Login(uuid, server, session);
    granted, done := redis.Acquire(uuid, id, turns, job);
    deadline := redis.store.now + LEASE_MS;
    if !granted {
      return;
    }
    ghost var c := Client(job, ReadBinding, deadline);
    ghost var t := Trace(old(redis.store), id, job, done);
    var refused;
    refused, t := FindBinding(redis, uuid, server, paces, t, c);
    if !refused {
      var labelled;
      labelled, t := LabelCurrentUser(redis, uuid, server, paces.dropServer, paces.writeServer, t, c.(pc := DropServer));
      if labelled {
        labelled, t := LabelUserSessionID(redis, uuid, session, paces.dropSession, paces.writeSession, t,
                                          c.(pc := DropSession));
      }
    }
    ghost var written := redis.store;
    var freed := redis.Release(uuid, id, paces.release);
    Released(t, written, redis.store, c.(pc := Releasing), paces.release, freed);
    done := Then(t, paces.release).done;
  }

  datatype CleanupPaces = CleanupPaces(readServer: Pace, readSession: Pace, dropServer: Pace, dropSession: Pace, release: Pace)

  // The two reads: whether the binding is still that of the session being cleaned up.
  method StillMine(redis: RedisContext, uuid: string, session: string, paces: CleanupPaces, ghost t: Trace, ghost c: Client)
    returns (mine: bool, ghost u: Trace)
    requires Follows(t, redis.store, c) && c.job == Cleanup(uuid, session) && c.pc.ReadServer?
    modifies redis
    ensures mine <==> && paces.readServer.ok && uuid in old(redis.store).servers && old(redis.store).servers[uuid] != ""
                      && paces.readSession.ok && uuid in old(redis.store).sessions
                      && old(redis.store).sessions[uuid] == session != ""
    ensures u.first == t.first && u.id == t.id && u.job == t.job
            && Follows(u, redis.store, c.(pc := if mine then EraseServer else Releasing))
    ensures redis.store == old(redis.store).(now := redis.store.now)
  {
    var server := redis.CheckValue(ServerKey(uuid), paces.readServer);
    OneCommand(t, old(redis.store), c, paces.readServer);
    u := Then(t, paces.readServer);
    ghost var read := redis.store;
    var current := redis.CheckValue(SessionKey(uuid), paces.readSession);
    OneCommand(u, read, c.(pc := ReadSession(server.Some?)), paces.readSession);
    u := Then(u, paces.readSession);
    mine := server.Some? && current.Some? && current.value == session;
  }

  // The two deletions, each issued whatever becomes of the other.
  method EraseBinding(redis: RedisContext, uuid: string, paces: CleanupPaces, ghost t: Trace, ghost c: Client)
    returns (ghost u: Trace)
    requires Follows(t, redis.store, c) && c.job.Cleanup? && c.job.uuid == uuid && c.pc.EraseServer?
    modifies redis
    ensures u.first == t.first && u.id == t.id && u.job == t.job && Follows(u, redis.store, c.(pc := Releasing))
    ensures redis.store == old(redis.store).(
              now := redis.store.now,
              servers := if paces.dropServer.ok then old(redis.store).servers - {uuid} else old(redis.store).servers,
              sessions := if paces.dropSession.ok then old(redis.store).sessions - {uuid} else old(redis.store).sessions)
  {
    var _ := redis.DelPair(ServerKey(uuid), paces.dropServer);
    OneCommand(t, old(redis.store), c, paces.dropServer);
    u := Then(t, paces.dropServer);
    ghost var dropped := redis.store;
    var _ := redis.DelPair(SessionKey(uuid), paces.dropSession);
    OneCommand(u, dropped, c.(pc := EraseSession), paces.dropSession);
    u := Then(u, paces.dropSession);
  }

  /** removeRedisCache.  Whatever the commands do, the section is a run of the cleanup client; a key goes exactly
      when both keys were read as present, the session key still being this session's, and its deletion succeeds. */
  method RemoveRedisCache(redis: RedisContext, id: ClientId, uuid: string, session: string,
                          turns: seq<Turn>, paces: CleanupPaces)
    returns (granted: bool, ghost done: seq<Pace>, ghost deadline: nat)
    requires |turns| == WAIT_MS && forall k :: 0 <= k < |turns| ==> turns[k].nap >= 1
    modifies redis
    ensures !granted ==> redis.store == old(redis.store).(now := redis.store.now)
    ensures granted ==>
              Alone(old(redis.store), id, Client(Cleanup(uuid, session), Acquiring, 0), done)
              == (redis.store, Client(Cleanup(uuid, session), Finished, deadline))
    ensures granted ==>
              var first := old(redis.store);
              var mine := && paces.readServer.ok && uuid in first.servers && first.servers[uuid] != ""
                          && paces.readSession.ok && uuid in first.sessions && first.sessions[uuid] == session != "";
              && redis.store.servers == (if mine && paces.dropServer.ok then old(redis.store).servers - {uuid}
                                         else old(redis.store).servers)
              && redis.store.sessions == (if mine && paces.dropSession.ok then old(redis.store).sessions - {uuid}
                                          else old(redis.store).sessions)
              && redis.store.counters == old(redis.store).counters
              && (paces.release.ok ==> !(Locked(redis.store, uuid) && redis.store.locks[uuid].holder == id))
  {
    ghost var job := Cleanup(uuid, session);
    granted, done := redis.Acquire(uuid, id, turns, job);
    deadline := redis.store.now + LEASE_MS;
    if !granted {
      return;
    }
    ghost var c := Client(job, ReadServer, deadline);
    ghost var t := Trace(old(redis.store), id, job, done);
    var mine;
    mine, t := StillMine(redis, uuid, session, paces, t, c);
    if mine {
      t := EraseBinding(redis, uuid, paces, t, c.(pc := EraseServer));
    }
    ghost var erased := redis.store;
    var freed := redis.Release(uuid, id, paces.release);
    Released(t, erased, redis.store, c.(pc := Releasing), paces.release, freed);
    done := Then(t, paces.release).done;
  }

  datatype CountPaces = CountPaces(read: Pace, write: Pace, release: Pace)

  // What a counter reads as: an absent one, and one that cannot be read, as zero.
  function Reading(s: Store, server: string, read: Pace): nat {
    if read.ok && server in s.counters then s.counters[server] else 0
  }

  /** incrementConnection: a run of the counting client; the counter goes up by one from what was read. */
  method IncrementConnection(redis: RedisContext, id: ClientId, server: string, turns: seq<Turn>, paces: CountPaces)
    returns (granted: bool, ghost done: seq<Pace>, ghost deadline: nat)
    requires |turns| == WAIT_MS && forall k :: 0 <= k < |turns| ==> turns[k].nap >= 1
    modifies redis
    ensures !granted ==> redis.store == old(redis.store).(now := redis.store.now)
    ensures granted ==>
              Alone(old(redis.store), id, Client(Count(server, Increase), Acquiring, 0), done)
              == (redis.store, Client(Count(server, Increase), Finished, deadline))
    ensures granted ==>
              && redis.store.counters == (if paces.write.ok
                   then old(redis.store).counters[server := Reading(old(redis.store), server, paces.read) + 1]
                   else old(redis.store).counters)
              && redis.store.servers == old(redis.store).servers && redis.store.sessions == old(redis.store).sessions
              && (paces.release.ok ==> !(Locked(redis.store, server) && redis.store.locks[server].holder == id))
  {
    ghost var job := Count(server, Increase);
    granted, done := redis.Acquire(server, id, turns, job);
    deadline := redis.store.now + LEASE_MS;
    if !granted {
      return;
    }
    ghost var c := Client(job, ReadCounter, deadline);
    ghost var t := Trace(old(redis.store), id, job, done);
    var number;
    number, t := ReadCounterValue(redis, server, paces.read, t, c);
    ghost var read := redis.store;
    var _ := redis.SetValue2Hash(server, number + 1, paces.write);
    OneCommand(t, read, c.(pc := WriteCounter(number + 1)), paces.write);
    t := Then(t, paces.write);
    ghost var written := redis.store;
    var freed := redis.Release(server, id, paces.release);
    Released(t, written, redis.store, c.(pc := Releasing), paces.release, freed);
    done := Then(t, paces.release).done;
  }

  // HGET, an absent value leaving the number at zero.
  method ReadCounterValue(redis: RedisContext, server: string, read: Pace, ghost t: Trace, ghost c: Client)
    returns (number: nat, ghost u: Trace)
    requires Follows(t, redis.store, c) && c.job.Count? && c.job.server == server && c.pc.ReadCounter?
    modifies redis
    ensures number == Reading(old(redis.store), server, read)
    ensures u.first == t.first && u.id == t.id && u.job == t.job
            && Follows(u, redis.store, c.(pc := if c.job.op.Increase? then WriteCounter(number + 1)
                                                else if number > 0 then WriteCounter(number - 1) else Releasing))
    ensures redis.store == old(redis.store).(now := redis.store.now)
  {
    var counter := redis.GetValueFromHash(server, read);
    number := 0;
    if counter.Some? {
      number := counter.value;
    }
    OneCommand(t, old(redis.store), c, read);
    u := Then(t, read);
  }

  /** decrementConnection: a run of the counting client; the counter goes down by one from what was read, never
      below zero. */
  method DecrementConnection(redis: RedisContext, id: ClientId, server: string, turns: seq<Turn>, paces: CountPaces)
    returns (granted: bool, ghost done: seq<Pace>, ghost deadline: nat)
    requires |turns| == WAIT_MS && forall k :: 0 <= k < |turns| ==> turns[k].nap >= 1
    modifies redis
    ensures !granted ==> redis.store == old(redis.store).(now := redis.store.now)
    ensures granted ==>
              Alone(old(redis.store), id, Client(Count(server, Decrease), Acquiring, 0), done)
              == (redis.store, Client(Count(server, Decrease), Finished, deadline))
    ensures granted ==>
              var n := Reading(old(redis.store), server, paces.read);
              && redis.store.counters == (if n > 0 && paces.write.ok then old(redis.store).counters[server := n - 1]
                                          else old(redis.store).counters)
              && redis.store.servers == old(redis.store).servers && redis.store.sessions == old(redis.store).sessions
              && (paces.release.ok ==> !(Locked(redis.store, server) && redis.store.locks[server].holder == id))
  {
    ghost var job := Count(server, Decrease);
    granted, done := redis.Acquire(server, id, turns, job);
    deadline := redis.store.now + LEASE_MS;
    if !granted {
      return;
    }
    ghost var c := Client(job, ReadCounter, deadline);
    ghost var t := Trace(old(redis.store), id, job, done);
    var number;
    number, t := ReadCounterValue(redis, server, paces.read, t, c);
    if number > 0 {
      ghost var read := redis.store;
      var _ := redis.SetValue2Hash(server, number - 1, paces.write);
      OneCommand(t, read, c.(pc := WriteCounter(number - 1)), paces.write);
      t := Then(t, paces.write);
    }
    ghost var written := redis.store;
    var freed := redis.Release(server, id, paces.release);
    Released(t, written, redis.store, c.(pc := Releasing), paces.release, freed);
    done := Then(t, paces.release).done;
  }
}
