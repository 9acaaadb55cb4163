/** The write pump of a session: a concurrent queue, a flag that says "a write is in progress", and
    completion handlers that keep draining.  Every atomic operation of sendMessage, handle_write,
    checkDeferredTermination and markAsDeferredTerminated is one step, and any number of threads and
    completions interleave. */
module WritePump {
  import opened Wrappers

  type Message = seq<bv8>

  datatype SessionState = Alive | Kicked | LogoutPending | Terminated

  // The fields of the session that the threads share.
  datatype Core = Core(
    writing: bool,               // m_write_in_progress
    state: SessionState,         // m_state
    handler: Option<nat>,        // m_finalSendCompleteHandler, by registration number
    current: Option<Message>,    // m_current_write_msg
    queue: seq<Message>)         // m_concurrent_sent_queue

  // Where a thread is.  From Pop to StartWrite, and in Purging and Retired, it owns the write flag.
  datatype Pc =
    | Push(msg: Message) | Claim
    | Pop | LoadState | TestHandler | StoreTerminated | RunHandler | ClearHandler
    | ResetFlag(drained: bool) | StartWrite
    | Purging | Retired
    | MarkState | MarkHandler(id: nat)
    | Done

  // What a step does besides changing the shared fields.
  datatype Effect = Silent | Pushed(msg: Message) | Popped(msg: Message) | Dropped | Wrote(msg: Message) | Ran(id: nat)

  const FRESH := Core(false, Alive, None, None, [])

  function LocalStep(c: Core, pc: Pc): (Core, Pc, Effect) {
    match pc
    // sendMessage
    case Push(msg) => (c.(queue := c.queue + [msg]), Claim, Pushed(msg))
    case Claim => if c.writing then (c, Done, Silent) else (c.(writing := true), Pop, Silent)
    // sendMessage and handle_write alike
    case Pop =>
      if c.queue == [] then (c, ResetFlag(true), Silent)
      else (c.(current := Some(c.queue[0]), queue := c.queue[1..]), LoadState, Popped(c.queue[0]))
    // checkDeferredTermination
    case LoadState =>
      if c.state.LogoutPending? || c.state.Kicked? then (c, TestHandler, Dropped) else (c, StartWrite, Silent)
    case TestHandler => (c, if c.handler.Some? then StoreTerminated else ResetFlag(false), Silent)
    case StoreTerminated => (c.(state := Terminated), RunHandler, Silent)
    case RunHandler =>
      // only the owner of the flag clears the handler, so it is still there
      (c, ClearHandler, if c.handler.Some? then Ran(c.handler.value) else Silent)
    case ClearHandler => (c.(handler := None), ResetFlag(false), Silent)
    case ResetFlag(_) => (c.(writing := false), Done, Silent)
    case StartWrite => (c, Done, if c.current.Some? then Wrote(c.current.value) else Silent)
    // handle_write with an error code: the flag is never given back
    case Purging => (c, Retired, Silent)
    case Retired => (c, Retired, Silent)
    // markAsDeferredTerminated
    case MarkState => (c.(state := LogoutPending), MarkHandler(0), Silent)
    case MarkHandler(id) => (c.(handler := Some(id)), Done, Silent)
    case Done => (c, Done, Silent)
  }

  /** The whole system.  `pushed`, `popped`, `wire` and `ran` are histories; `places[i]` is where in
      `pushed` the i-th message on the wire stands. */
  datatype State = State(
    core: Core,
    threads: map<nat, Pc>,
    outstanding: seq<Message>,   // async_write operations under way
    pushed: seq<Message>,
    popped: seq<Message>,
    wire: seq<Message>,
    places: seq<nat>,
    drops: nat,
    registered: nat,
    ran: seq<nat>)

  datatype Event =
    | Send(thread: nat, msg: Message)          // some thread calls sendMessage
    | Defer(thread: nat)                       // some thread calls markAsDeferredTerminated
    | Step(thread: nat)
    | Complete(thread: nat, write: nat, ok: bool)  // an outstanding write ends, its handler starts

  const INITIAL := State(FRESH, map[], [], [], [], [], [], 0, 0, [])

  function Record(s: State, core: Core, threads: map<nat, Pc>, effect: Effect): State {
    var s' := s.(core := core, threads := threads);
    match effect
    case Silent => s'
    case Pushed(msg) => s'.(pushed := s.pushed + [msg])
    case Popped(msg) => s'.(popped := s.popped + [msg])
    case Dropped => s'.(drops := s.drops + 1)
    case Wrote(msg) =>
      s'.(outstanding := s.outstanding + [msg], wire := s.wire + [msg],
          places := s.places + [if s.popped == [] then 0 else |s.popped| - 1])
    case Ran(id) => s'.(ran := s.ran + [id])
  }

  // An event that cannot happen leaves the state as it is.
  function Apply(s: State, e: Event): State {
    match e
    case Send(t, msg) => if t in s.threads then s else s.(threads := s.threads[t := Push(msg)])
    case Defer(t) => if t in s.threads then s else s.(threads := s.threads[t := MarkState])
    case Step(t) =>
      if t !in s.threads then s
      else if s.threads[t].MarkState? then
        // the callback being registered gets the next number
        s.(core := s.core.(state := LogoutPending), threads := s.threads[t := MarkHandler(s.registered)],
           registered := s.registered + 1)
      else
        var (core, pc, effect) := LocalStep(s.core, s.threads[t]);
        Record(s, core, s.threads[t := pc], effect)
    case Complete(t, i, ok) =>
      if t in s.threads || i >= |s.outstanding| then s
      else s.(outstanding := s.outstanding[..i] + s.outstanding[i + 1..],
              threads := s.threads[t := if ok then Pop else Purging])
  }

  function Exec(s: State, events: seq<Event>): State
    decreases |events|
  {
    if events == [] then s else Exec(Apply(s, events[0]), events[1..])
  }
}
