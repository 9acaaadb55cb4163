/** Any number of chat servers working on one Redis, one command per step.

    A client is one critical section: a login writing its binding, a cleanup removing one, or a change
    of a server's connection counter.  It takes the leased lock, issues its commands one by one, and
    releases.  Time passes between any two commands, and steps of different clients interleave freely. */
module Cluster {
  import opened Wrappers
  import opened Redis

  datatype CounterOp = Increase | Decrease | Reset | Remove

  datatype Job =
    | Login(uuid: string, server: string, session: string)
    | Cleanup(uuid: string, session: string)
    | Count(server: string, op: CounterOp)

  datatype Pc =
    | Acquiring
    // updateRedisCache
    | ReadBinding | Kicking | DropServer | WriteServer | DropSession | WriteSession
    // removeRedisCache
    | ReadServer | ReadSession(found: bool) | EraseServer | EraseSession
    // incrementConnection, decrementConnection, start-up and shutdown
    | ReadCounter | WriteCounter(n: nat) | DropCounter
    | Releasing
    | Finished

  // `deadline` is when the lease this client was granted lapses.
  datatype Client = Client(job: Job, pc: Pc, deadline: nat)

  /** `homes` records on which server each session was created, `grants` the counter changes in the
      order in which they were granted their lock. */
  datatype State = State(
    store: Store,
    clients: map<ClientId, Client>,
    homes: map<string, string>,
    grants: seq<(string, CounterOp)>)

  datatype Event =
    | Accept(session: string, server: string)  // a connection gets a session with a new id
    | Begin(id: ClientId, job: Job)
    | Step(id: ClientId, ok: bool)             // the next command; not ok: it fails without effect
    | GiveUp(id: ClientId)                     // the waiting time for the lock is over
    | Elapse(ms: nat)

  const INITIAL := State(EMPTY_STORE, map[], map[], [])

  function LockName(job: Job): string {
    if job.Count? then job.server else job.uuid
  }

  function FirstPc(job: Job): Pc {
    match job
    case Login(_, _, _) => ReadBinding
    case Cleanup(_, _) => ReadServer
    case Count(_, op) =>
      match op
      case Increase => ReadCounter
      case Decrease => ReadCounter
      case Reset => WriteCounter(0)
      case Remove => DropCounter
  }

  predicate InSection(pc: Pc) {
    !pc.Acquiring? && !pc.Finished?
  }

  function TryAcquire(s: Store, id: ClientId, c: Client, ok: bool): (Store, Client) {
    var name := LockName(c.job);
    if name == "" then (s, c.(pc := Finished))
    else if !ok then (s, c)
    else
      var (s', reply) := SetNxPx(s, name, id);
      if IsSuccessful(reply) then (s', c.(pc := FirstPc(c.job), deadline := s.now + LEASE_MS))
      else (s', c)
  }

  function LoginStep(s: Store, c: Client, ok: bool): (Store, Pc)
    requires c.job.Login?
  {
    var Login(uuid, server, session) := c.job;
    match c.pc
    case ReadBinding =>
      var current := CheckValue(if ok then Get(s.servers, uuid) else Error);
      (s, if current.Some? && current.value != server then Kicking else DropServer)
    case Kicking => (s, if ok then DropServer else Releasing)
    case DropServer =>
      if ok && IsSuccessful(DelReply(s.servers, uuid)) then (s.(servers := s.servers - {uuid}), WriteServer)
      else (s, Releasing)
    case WriteServer =>
      if ok then (s.(servers := s.servers[uuid := server]), DropSession) else (s, Releasing)
    case DropSession =>
      if ok && IsSuccessful(DelReply(s.sessions, uuid)) then (s.(sessions := s.sessions - {uuid}), WriteSession)
      else (s, Releasing)
    case WriteSession =>
      (if ok then s.(sessions := s.sessions[uuid := session]) else s, Releasing)
    case _ => (s, c.pc)
  }

  function CleanupStep(s: Store, c: Client, ok: bool): (Store, Pc)
    requires c.job.Cleanup?
  {
    var Cleanup(uuid, session) := c.job;
    match c.pc
    case ReadServer =>
      var server := CheckValue(if ok then Get(s.servers, uuid) else Error);
      (s, ReadSession(server.Some?))
    case ReadSession(found) =>
      var current := CheckValue(if ok then Get(s.sessions, uuid) else Error);
      (s, if found && current == Some(session) then EraseServer else Releasing)
    case EraseServer =>
      (if ok then s.(servers := s.servers - {uuid}) else s, EraseSession)
    case EraseSession =>
      (if ok then s.(sessions := s.sessions - {uuid}) else s, Releasing)
    case _ => (s, c.pc)
  }

  function CountStep(s: Store, c: Client, ok: bool): (Store, Pc)
    requires c.job.Count?
  {
    var server := c.job.server;
    match c.pc
    case ReadCounter =>
      var n := if ok && server in s.counters then s.counters[server] else 0;
      (s, if c.job.op.Increase? then WriteCounter(n + 1)
          else if n > 0 then WriteCounter(n - 1)
          else Releasing)
    case WriteCounter(n) =>
      (if ok then s.(counters := s.counters[server := n]) else s, Releasing)
    case DropCounter =>
      (if ok then s.(counters := s.counters - {server}) else s, Releasing)
    case _ => (s, c.pc)
  }

  function ClientStep(s: Store, id: ClientId, c: Client, ok: bool): (Store, Client) {
    match c.pc
    case Acquiring => TryAcquire(s, id, c, ok)
    case Finished => (s, c)
    case Releasing =>
      (if ok then CompareAndDelete(s, LockName(c.job), id).0 else s, c.(pc := Finished))
    case _ =>
      var (s', pc') := if c.job.Login? then LoginStep(s, c, ok)
                       else if c.job.Cleanup? then CleanupStep(s, c, ok)
                       else CountStep(s, c, ok);
      (s', c.(pc := pc'))
  }

  // An event that cannot happen leaves the state as it is.
  function Apply(s: State, e: Event): State {
    match e
    case Accept(session, server) =>
      if session in s.homes then s else s.(homes := s.homes[session := server])
    case Begin(id, job) =>
      if id in s.clients || (job.Login? && !(job.session in s.homes && s.homes[job.session] == job.server)) then s
      else s.(clients := s.clients[id := Client(job, Acquiring, 0)])
    case Step(id, ok) =>
      if id !in s.clients then s
      else
        var c := s.clients[id];
        var (store', c') := ClientStep(s.store, id, c, ok);
        s.(store := store', clients := s.clients[id := c'],
           grants := if c.pc.Acquiring? && InSection(c'.pc) && c.job.Count?
                     then s.grants + [(c.job.server, c.job.op)] else s.grants)
    case GiveUp(id) =>
      if id in s.clients && s.clients[id].pc.Acquiring?
      then s.(clients := s.clients[id := s.clients[id].(pc := Finished)])
      else s
    case Elapse(ms) => s.(store := s.store.(now := s.store.now + ms))
  }

  function Exec(s: State, events: seq<Event>): State
    decreases |events|
  {
    if events == [] then s else Exec(Apply(s, events[0]), events[1..])
  }

  // A client that is past the lock and whose lease has not lapsed.
  ghost predicate Holds(s: State, id: ClientId) {
    id in s.clients && InSection(s.clients[id].pc) && s.store.now < s.clients[id].deadline
  }

  // Every critical section under way still has its lease.
  ghost predicate Timely(s: State) {
    forall id :: id in s.clients && InSection(s.clients[id].pc) ==> Holds(s, id)
  }

  // The commands whose failure loses or tears a write.
  predicate Tearing(pc: Pc) {
    pc.WriteServer? || pc.DropSession? || pc.WriteSession? || pc.EraseServer? || pc.EraseSession?
    || pc.ReadCounter? || pc.WriteCounter? || pc.DropCounter?
  }

  predicate Tears(s: State, e: Event) {
    e.Step? && !e.ok && e.id in s.clients && Tearing(s.clients[e.id].pc)
  }

  /** A run in which every section ends before its lease does and no write fails.  Failing
      acquisitions, binding reads, kicks, first deletions and releases are all allowed. */
  ghost predicate Orderly(s: State, events: seq<Event>)
    decreases |events|
  {
    Timely(s) &&
    (events != [] ==> !Tears(s, events[0]) && Orderly(Apply(s, events[0]), events[1..]))
  }
}
