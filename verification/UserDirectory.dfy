/** The users of one chat server: the live map and the waiting-to-close map of UserManager, and the logic thread
    that logs sessions in and out while other threads sweep, kick and close. */
module UserDirectory {
  import opened Wrappers
  import opened WritePump

  type Uuid = string

  // One accepted connection; its number stands for the identifier the session generates.
  type SessionId = nat

  /** What the directory sees of a session: `handler` is the uuid its registered close callback erases, and `closed`
      says that the callback has closed its socket. */
  datatype Entry = Entry(uuid: Uuid, state: SessionState, handler: Option<Uuid>, closed: bool, lastBeat: int)

  datatype Directory = Directory(sessions: map<SessionId, Entry>,
                                 live: map<Uuid, SessionId>, waiting: map<Uuid, SessionId>)

  function Find(m: map<Uuid, SessionId>, u: Uuid): Option<SessionId> {
    if u in m then Some(m[u]) else None
  }

  // moveUserToTerminationZone: an older session waiting under the same uuid is overwritten.
  function Move(d: Directory, u: Uuid): Directory {
    if u in d.live then d.(waiting := d.waiting[u := d.live[u]], live := d.live - {u}) else d
  }

  // markAsDeferredTerminated with a callback for u
  function Mark(d: Directory, s: SessionId, u: Uuid): Directory {
    if s in d.sessions then d.(sessions := d.sessions[s := d.sessions[s].(state := LogoutPending, handler := Some(u))])
    else d
  }

  // removeUsrSession
  function Remove(d: Directory, u: Uuid): Directory {
    if u in d.waiting then Mark(d, d.waiting[u], u) else d
  }

  // removeUsrSession with the session id expected
  function RemoveIf(d: Directory, u: Uuid, s: SessionId): Directory {
    if u in d.waiting && d.waiting[u] == s then Mark(d, s, u) else d
  }

  // createUserSession: a tbb insert keeps an entry that is already there.
  function Create(d: Directory, u: Uuid, s: SessionId): Directory {
    if u in d.live then d else d.(live := d.live[u := s])
  }

  function SetUuid(d: Directory, s: SessionId, u: Uuid): Directory {
    if s in d.sessions then d.(sessions := d.sessions[s := d.sessions[s].(uuid := u)]) else d
  }

  // The registered callback: close the socket and forget the waiting entry.
  function Fire(d: Directory, s: SessionId): Directory {
    if s in d.sessions && d.sessions[s].handler.Some? && d.sessions[s].state in {LogoutPending, Kicked} then
      var e := d.sessions[s];
      d.(sessions := d.sessions[s := e.(state := Terminated, handler := None, closed := true)],
         waiting := d.waiting - {e.handler.value})
    else d
  }

  // sendOfflineMessage: the message makes an idle write pump notice that its session is to be closed.
  function Notify(d: Directory, s: SessionId, idle: bool): Directory {
    if idle then Fire(d, s) else d
  }

  /** The logic thread between two effects on the directory. */
  datatype Pc =
    | Idle
    | Checked(s: SessionId, u: Uuid)
    | OldMove(s: SessionId, u: Uuid, previous: SessionId) | OldRemove(s: SessionId, u: Uuid, previous: SessionId)
    | Cached(s: SessionId, u: Uuid) | Named(s: SessionId, u: Uuid) | Created(s: SessionId)
    | KickMove(s: SessionId) | KickRemove(s: SessionId)
    | LogoutMove(s: SessionId, u: Uuid) | LogoutRemove(s: SessionId, u: Uuid)

  /** What the section of updateRedisCache finds: no lock, no binding, this server, or another one, which kicks its
      session or refuses to. */
  datatype Binding = NoLock | NotBound | Here | Elsewhere(kicked: bool)

  /** What the outside answers: the account check, the binding, whether the write pump of the session that is sent
      an offline message is at rest, and whether the user's data was found. */
  datatype Answers = Answers(accepted: bool, binding: Binding, idle: bool, known: bool)

  /** What a handler does beside changing the directory: messages to sessions, changes of a binding, changes of the
      connection counter. */
  datatype Call =
    | Offline(s: SessionId) | Failure(s: SessionId) | Success(s: SessionId)
    | Bind(u: Uuid, s: SessionId) | Unbind(u: Uuid, s: SessionId)
    | CountUp | CountDown

  function UuidOf(d: Directory, s: SessionId): Uuid {
    if s in d.sessions then d.sessions[s].uuid else ""
  }

  // check_and_kick_existing_session
  function Guard(d: Directory, s: SessionId, u: Uuid): Pc {
    if UuidOf(d, s) in d.live then KickMove(s) else Checked(s, u)
  }

  // What is left of updateRedisCache once a previous session here is out of the way.
  function BindCalls(binding: Binding, u: Uuid, s: SessionId): seq<Call> {
    match binding
    case NoLock => []
    case Elsewhere(false) => [Failure(s)]
    case _ => [Bind(u, s)]
  }

  function LogicStep(d: Directory, pc: Pc, a: Answers): (Directory, Pc, seq<Call>) {
    match pc
    case Idle => (d, Idle, [])
    // handlingLogin, with updateRedisCache
    case Checked(s, u) =>
      if !a.accepted then (d, Idle, [Failure(s)])
      else if a.binding.Here? && u in d.live then
        (Notify(d, d.live[u], a.idle), OldMove(s, u, d.live[u]), [Offline(d.live[u])])
      else (d, Cached(s, u), BindCalls(a.binding, u, s))
    case OldMove(s, u, previous) => (Move(d, UuidOf(d, previous)), OldRemove(s, u, previous), [])
    case OldRemove(s, u, previous) =>
      (RemoveIf(d, UuidOf(d, previous), previous), Cached(s, u), BindCalls(a.binding, u, s))
    case Cached(s, u) => (SetUuid(d, s, u), Named(s, u), [])
    case Named(s, u) => (Create(d, u, s), Created(s), [])
    case Created(s) => if a.known then (d, Idle, [Success(s), CountUp]) else (d, KickMove(s), [Failure(s)])
    // kick_session
    case KickMove(s) =>
      (Move(Notify(d, s, a.idle), UuidOf(d, s)), KickRemove(s), [Offline(s), Unbind(UuidOf(d, s), s)])
    case KickRemove(s) => (Remove(d, UuidOf(d, s)), Idle, [])
    // handlingLogout, by the uuid the client names
    case LogoutMove(s, u) =>
      if !a.accepted then (d, Idle, [Failure(s)])
      else (Move(Notify(d, s, a.idle), u), LogoutRemove(s, u), [Offline(s)])
    case LogoutRemove(s, u) => (RemoveIf(d, u, s), Idle, [])
  }

  /** `calls` lists what the logic thread has done beside. */
  datatype Machine = Machine(dir: Directory, pc: Pc, calls: seq<Call>)

  /** One step of the logic thread, or of any other thread: a sweep, a kick from another server, a purge, the
      write pump running a callback, a heartbeat, a new connection. */
  datatype Event =
    | Login(s: SessionId, u: Uuid) | Logout(s: SessionId, u: Uuid) | Logic(answers: Answers)
    | OtherMove(u: Uuid) | OtherRemove(u: Uuid) | OtherRemoveIf(u: Uuid, s: SessionId)
    | Callback(s: SessionId) | Beat(s: SessionId, now: int) | Connect(s: SessionId, now: int)

  function Apply(m: Machine, e: Event): Machine {
    match e
    case Login(s, u) => if m.pc.Idle? && s in m.dir.sessions then m.(pc := Guard(m.dir, s, u)) else m
    case Logout(s, u) => if m.pc.Idle? && s in m.dir.sessions then m.(pc := LogoutMove(s, u)) else m
    case Logic(a) => var (d, pc, calls) := LogicStep(m.dir, m.pc, a); Machine(d, pc, m.calls + calls)
    case OtherMove(u) => m.(dir := Move(m.dir, u))
    case OtherRemove(u) => m.(dir := Remove(m.dir, u))
    case OtherRemoveIf(u, s) => m.(dir := RemoveIf(m.dir, u, s))
    case Callback(s) => m.(dir := Fire(m.dir, s))
    case Beat(s, now) =>
      if s in m.dir.sessions then
        m.(dir := m.dir.(sessions := m.dir.sessions[s := m.dir.sessions[s].(lastBeat := now)]))
      else m
    case Connect(s, now) =>
      if s in m.dir.sessions then m
      else m.(dir := m.dir.(sessions := m.dir.sessions[s := Entry("", Alive, None, false, now)]))
  }

  function Exec(m: Machine, events: seq<Event>): Machine
    decreases |events|
  {
    if events == [] then m else Exec(Apply(m, events[0]), events[1..])
  }

  const START := Machine(Directory(map[], map[], map[]), Idle, [])

  // The logic thread undisturbed until it is idle again: the directory it leaves and its calls.
  function Rank(pc: Pc): nat {
    match pc
    case Checked(_, _) => 9
    case OldMove(_, _, _) => 8
    case OldRemove(_, _, _) => 7
    case Cached(_, _) => 6
    case Named(_, _) => 5
    case Created(_) => 4
    case KickMove(_) => 3
    case KickRemove(_) => 2
    case LogoutMove(_, _) => 2
    case LogoutRemove(_, _) => 1
    case Idle => 0
  }

  function Alone(d: Directory, pc: Pc, a: Answers): (Directory, seq<Call>)
    decreases Rank(pc)
  {
    if pc.Idle? then (d, [])
    else
      var (after, next, calls) := LogicStep(d, pc, a);
      var (last, more) := Alone(after, next, a);
      (last, calls + more)
  }
}
