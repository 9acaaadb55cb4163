/** No session is live under two uuids, in any run; and what the guard before the login has to do with it. */
module UserDirectorySafety {
  import opened Wrappers
  import WritePump
  import opened UserDirectory

  // Every live entry's session carries that entry's uuid.
  ghost predicate Carries(d: Directory) {
    forall u: Uuid :: u in d.live ==> d.live[u] in d.sessions && d.sessions[d.live[u]].uuid == u
  }

  ghost predicate NotLive(d: Directory, s: SessionId) {
    forall u: Uuid :: u in d.live ==> d.live[u] != s
  }

  ghost predicate PcOk(d: Directory, pc: Pc) {
    && (pc.Idle? || pc.s in d.sessions)
    && (pc.Checked? || pc.OldMove? || pc.OldRemove? || pc.Cached? ==> NotLive(d, pc.s))
    && (pc.Named? ==> d.sessions[pc.s].uuid == pc.u)
  }

  ghost predicate Inv(m: Machine) {
    Carries(m.dir) && PcOk(m.dir, m.pc)
  }

  /** Renaming a session keeps the directory consistent exactly when it is live under no other uuid. */
  lemma RenamingIsSafeIff(d: Directory, s: SessionId, u: Uuid)
    requires Carries(d) && s in d.sessions
    ensures Carries(SetUuid(d, s, u)) <==> (forall v: Uuid :: v in d.live && d.live[v] == s ==> v == u)
  {
    var d' := SetUuid(d, s, u);
    if Carries(d') {
      forall v: Uuid | v in d.live && d.live[v] == s ensures v == u {
        assert v in d'.live && d'.sessions[d'.live[v]].uuid == u;
      }
    }
  }

  /** A session the guard lets pass is live under no uuid at all. */
  lemma GuardRulesOutLive(d: Directory, s: SessionId, u: Uuid)
    requires Carries(d) && s in d.sessions && Guard(d, s, u).Checked?
    ensures NotLive(d, s)
  {
  }

  // What a step of any thread may do to the directory and the session the logic thread works on.
  ghost predicate Harmless(before: Directory, after: Directory) {
    && before.sessions.Keys <= after.sessions.Keys
    && (forall s: SessionId :: s in before.sessions ==> after.sessions[s].uuid == before.sessions[s].uuid)
    && (forall u: Uuid :: u in after.live ==> u in before.live && after.live[u] == before.live[u])
  }

  lemma HarmlessKeeps(before: Directory, after: Directory, pc: Pc)
    requires Harmless(before, after) && Carries(before) && PcOk(before, pc)
    ensures Carries(after) && PcOk(after, pc)
  {
  }

  lemma OthersAreHarmless(m: Machine, e: Event)
    requires !e.Login? && !e.Logout? && !e.Logic?
    ensures Apply(m, e).pc == m.pc && Harmless(m.dir, Apply(m, e).dir)
  {
  }

  lemma LogicKeeps(d: Directory, pc: Pc, a: Answers)
    requires Carries(d) && PcOk(d, pc)
    ensures var r := LogicStep(d, pc, a); Carries(r.0) && PcOk(r.0, r.1)
  {
    if pc.Cached? {
      RenamingIsSafeIff(d, pc.s, pc.u);
    } else if !pc.Named? {
      LogicIsHarmless(d, pc, a);
      HarmlessKeeps(d, LogicStep(d, pc, a).0, pc);
    }
  }

  // All its steps but the two that bind a session.
  lemma LogicIsHarmless(d: Directory, pc: Pc, a: Answers)
    requires !pc.Cached? && !pc.Named?
    ensures Harmless(d, LogicStep(d, pc, a).0)
  {
  }

  lemma InvStep(m: Machine, e: Event)
    requires Inv(m)
    ensures Inv(Apply(m, e))
  {
    if e.Logic? {
      LogicKeeps(m.dir, m.pc, e.answers);
    } else if e.Login? {
      if m.pc.Idle? && e.s in m.dir.sessions && Guard(m.dir, e.s, e.u).Checked? {
        GuardRulesOutLive(m.dir, e.s, e.u);
      }
    } else if !e.Logout? {
      OthersAreHarmless(m, e);
      HarmlessKeeps(m.dir, Apply(m, e).dir, m.pc);
    }
  }

  lemma {:induction false} InvRun(m: Machine, events: seq<Event>)
    requires Inv(m)
    ensures Carries(Exec(m, events).dir) && PcOk(Exec(m, events).dir, Exec(m, events).pc)
    decreases |events|
  {
    if events != [] {
      InvStep(m, events[0]);
      InvRun(Apply(m, events[0]), events[1..]);
    }
  }

  /** In every run, whatever the other threads do in between: each live session carries its entry's uuid, and
      no session is live under two. */
  lemma NoSessionLiveTwice(events: seq<Event>)
    ensures var d := Exec(START, events).dir;
            && Carries(d)
            && forall u: Uuid, v: Uuid :: u in d.live && v in d.live && d.live[u] == d.live[v] ==> u == v
  {
    InvRun(START, events);
  }

  // ---- what one login or logout comes to ----

  lemma AloneStep(d: Directory, pc: Pc, a: Answers, after: Directory, next: Pc, calls: seq<Call>)
    requires !pc.Idle? && LogicStep(d, pc, a) == (after, next, calls)
    ensures Alone(d, pc, a) == (Alone(after, next, a).0, calls + Alone(after, next, a).1)
  {
  }

  // u's previous session here is asked to leave, moved out and marked.
  function Evicted(d: Directory, u: Uuid, idle: bool): Directory
    requires u in d.live
  {
    RemoveIf(Move(Notify(d, d.live[u], idle), u), u, d.live[u])
  }

  // The directory and the calls of a login once the binding is settled.
  function Settled(d: Directory, s: SessionId, u: Uuid, a: Answers): (Directory, seq<Call>) {
    if a.binding.Here? && u in d.live then (Evicted(d, u, a.idle), [Offline(d.live[u])] + BindCalls(a.binding, u, s))
    else (d, BindCalls(a.binding, u, s))
  }

  // An offline message to a previous session here, then the binding: left without a lock, refused when another
  // server keeps its session, and written in every other case.
  lemma SettledCalls(d: Directory, s: SessionId, u: Uuid, a: Answers)
    ensures Settled(d, s, u, a).1
            == (if a.binding.Here? && u in d.live then [Offline(d.live[u])] else [])
               + (if a.binding.NoLock? then [] else if a.binding == Elsewhere(false) then [Failure(s)] else [Bind(u, s)])
  {
    assert [] + BindCalls(a.binding, u, s) == BindCalls(a.binding, u, s);
  }

  lemma NotifyKeeps(d: Directory, s: SessionId, idle: bool)
    ensures Harmless(d, Notify(d, s, idle)) && Notify(d, s, idle).live == d.live
    ensures Notify(d, s, idle).sessions.Keys == d.sessions.Keys
  {
  }

  lemma ReachSettled(d: Directory, s: SessionId, u: Uuid, a: Answers)
    requires Carries(d) && a.accepted
    ensures var (settled, calls) := Settled(d, s, u, a);
            var (last, more) := Alone(settled, Cached(s, u), a);
            Alone(d, Checked(s, u), a) == (last, calls + more)
  {
    if a.binding.Here? && u in d.live {
      var previous := d.live[u];
      var notified := Notify(d, previous, a.idle);
      NotifyKeeps(d, previous, a.idle);
      var moved := Move(notified, u);
      AloneStep(d, Checked(s, u), a, notified, OldMove(s, u, previous), [Offline(previous)]);
      AloneStep(notified, OldMove(s, u, previous), a, moved, OldRemove(s, u, previous), []);
      AloneStep(moved, OldRemove(s, u, previous), a, Evicted(d, u, a.idle), Cached(s, u), BindCalls(a.binding, u, s));
      assert [] + Alone(moved, OldRemove(s, u, previous), a).1 == Alone(moved, OldRemove(s, u, previous), a).1;
      Regroup([Offline(previous)], BindCalls(a.binding, u, s), Alone(Evicted(d, u, a.idle), Cached(s, u), a).1);
    } else {
      AloneStep(d, Checked(s, u), a, d, Cached(s, u), BindCalls(a.binding, u, s));
    }
  }

  // The session is named and, unless somebody is still live under the uuid, made live.
  function Bound(d: Directory, s: SessionId, u: Uuid): Directory {
    Create(SetUuid(d, s, u), u, s)
  }

  lemma ReachCreated(d: Directory, s: SessionId, u: Uuid, a: Answers)
    ensures Alone(d, Cached(s, u), a) == Alone(Bound(d, s, u), Created(s), a)
  {
    AloneStep(d, Cached(s, u), a, SetUuid(d, s, u), Named(s, u), []);
    AloneStep(SetUuid(d, s, u), Named(s, u), a, Bound(d, s, u), Created(s), []);
    var last := Alone(Bound(d, s, u), Created(s), a);
    assert [] + last.1 == last.1;
  }

  // kick_session: whoever is live under the session's uuid is moved out and marked.
  lemma KickAlone(d: Directory, s: SessionId, a: Answers)
    ensures var u := UuidOf(d, s);
            Alone(d, KickMove(s), a) == (Remove(Move(Notify(d, s, a.idle), u), u), [Offline(s), Unbind(u, s)])
  {
    var u := UuidOf(d, s);
    NotifyKeeps(d, s, a.idle);
    var moved := Move(Notify(d, s, a.idle), u);
    assert UuidOf(moved, s) == u;
    AloneStep(d, KickMove(s), a, moved, KickRemove(s), [Offline(s), Unbind(u, s)]);
    AloneStep(moved, KickRemove(s), a, Remove(moved, u), Idle, []);
    assert Alone(Remove(moved, u), Idle, a) == (Remove(moved, u), []);
    assert [Offline(s), Unbind(u, s)] + ([] + []) == [Offline(s), Unbind(u, s)];
  }

  // The session moved out of the live map waits, about to be closed by a callback of its own.
  ghost predicate WaitsMarked(d: Directory, u: Uuid, s: SessionId) {
    && u !in d.live && u in d.waiting && d.waiting[u] == s
    && s in d.sessions && d.sessions[s].state == WritePump.LogoutPending && d.sessions[s].handler == Some(u)
  }

  /** The kick of the double-login guard takes whoever is live under the session's own uuid out of the live map and
      arranges for that session to be closed; the message and the removal of the binding are for the session that
      asked, which is the same one exactly when it is live itself. */
  lemma GuardKickOutcome(d: Directory, s: SessionId, u: Uuid, a: Answers)
    requires Carries(d) && s in d.sessions && d.sessions[s].uuid in d.live
    ensures var v := d.sessions[s].uuid;
            var (after, calls) := Alone(d, Guard(d, s, u), a);
            && calls == [Offline(s), Unbind(v, s)]
            && after.live == d.live - {v} && WaitsMarked(after, v, d.live[v])
  {
    KickAlone(d, s, a);
    NotifyKeeps(d, s, a.idle);
  }

  lemma EvictedWaits(d: Directory, u: Uuid, idle: bool)
    requires Carries(d) && u in d.live
    ensures Evicted(d, u, idle).live == d.live - {u} && WaitsMarked(Evicted(d, u, idle), u, d.live[u])
    ensures Harmless(d, Evicted(d, u, idle))
  {
    NotifyKeeps(d, d.live[u], idle);
  }

  // Once the binding is settled the session that logs in is as it was, and nobody is live under the uuid unless the
  // previous session could not be moved out.
  lemma SettledOutcome(d: Directory, s: SessionId, u: Uuid, a: Answers)
    requires Carries(d) && s in d.sessions && NotLive(d, s)
    ensures var settled := Settled(d, s, u, a).0;
            && Harmless(d, settled) && Carries(settled) && NotLive(settled, s)
            && settled.live == (if a.binding.Here? then d.live - {u} else d.live)
            && (u in d.live && a.binding.Here? ==> WaitsMarked(settled, u, d.live[u]) && d.live[u] != s)
  {
    if a.binding.Here? && u in d.live { EvictedWaits(d, u, a.idle); }
    HarmlessKeeps(d, Settled(d, s, u, a).0, Idle);
  }

  lemma BoundOutcome(d: Directory, s: SessionId, u: Uuid)
    requires s in d.sessions
    ensures var bound := Bound(d, s, u);
            && bound.live == (if u in d.live then d.live else d.live[u := s]) && bound.waiting == d.waiting
            && u in bound.live && bound.live[u] == (if u in d.live then d.live[u] else s)
            && s in bound.sessions && bound.sessions[s].uuid == u
            && (forall t: SessionId :: t in d.sessions && t != s ==> t in bound.sessions && bound.sessions[t] == d.sessions[t])
  {
  }

  lemma AloneCreated(d: Directory, s: SessionId, a: Answers)
    ensures a.known ==> Alone(d, Created(s), a) == (d, [Success(s), CountUp])
    ensures !a.known ==> Alone(d, Created(s), a) == (Alone(d, KickMove(s), a).0, [Failure(s)] + Alone(d, KickMove(s), a).1)
  {
    if a.known {
      AloneStep(d, Created(s), a, d, Idle, [Success(s), CountUp]);
      assert [Success(s), CountUp] + [] == [Success(s), CountUp];
    } else {
      AloneStep(d, Created(s), a, d, KickMove(s), [Failure(s)]);
    }
  }

  // From the guard to the reply.
  lemma LoginAlone(d: Directory, s: SessionId, u: Uuid, a: Answers)
    requires Carries(d) && s in d.sessions && Guard(d, s, u).Checked? && a.accepted
    ensures var (settled, calls) := Settled(d, s, u, a);
            var (last, more) := Alone(Bound(settled, s, u), Created(s), a);
            Alone(d, Guard(d, s, u), a) == (last, calls + more)
  {
    ReachSettled(d, s, u, a);
    ReachCreated(Settled(d, s, u, a).0, s, u, a);
  }

  /** A login the account check refuses is answered and changes nothing. */
  lemma RefusedLogin(d: Directory, s: SessionId, u: Uuid, a: Answers)
    requires !a.accepted
    ensures Alone(d, Checked(s, u), a) == (d, [Failure(s)])
  {
    AloneStep(d, Checked(s, u), a, d, Idle, [Failure(s)]);
    assert [Failure(s)] + [] == [Failure(s)];
  }

  /** An accepted login of a known user ends with its session live exactly when nobody was live under the uuid or the
      previous session could be moved out, which then waits, marked for closing; otherwise the previous session stays.
      It is answered with success and counted in either case. */
  lemma LoginOutcome(d: Directory, s: SessionId, u: Uuid, a: Answers)
    requires Carries(d) && s in d.sessions && d.sessions[s].uuid !in d.live && a.accepted && a.known
    ensures var (after, calls) := Alone(d, Guard(d, s, u), a);
            && s in after.sessions && after.sessions[s].uuid == u
            && after.live == (if u in d.live && !a.binding.Here? then d.live else d.live[u := s])
            && (u in d.live && a.binding.Here? ==>
                  && var t := d.live[u];
                     && u in after.waiting && after.waiting[u] == t && t in after.sessions
                     && after.sessions[t].state == WritePump.LogoutPending && after.sessions[t].handler == Some(u))
            && calls == (if a.binding.Here? && u in d.live then [Offline(d.live[u])] else [])
                        + (if a.binding.NoLock? then [] else if a.binding == Elsewhere(false) then [Failure(s)]
                           else [Bind(u, s)])
                        + [Success(s), CountUp]
  {
    GuardRulesOutLive(d, s, u);
    SettledCalls(d, s, u, a);
    SettledOutcome(d, s, u, a);
    LoginAlone(d, s, u, a);
    BoundOutcome(Settled(d, s, u, a).0, s, u);
    AloneCreated(Bound(Settled(d, s, u, a).0, s, u), s, a);
  }

  /** An accepted login of a user without data ends with nobody live under the uuid: the session just made live, or the
      previous one if that could not be moved out, waits, marked for closing.  It is answered with a failure, its binding
      is removed, and it is not counted. */
  lemma UnknownUserOutcome(d: Directory, s: SessionId, u: Uuid, a: Answers)
    requires Carries(d) && s in d.sessions && d.sessions[s].uuid !in d.live && a.accepted && !a.known
    ensures var (after, calls) := Alone(d, Guard(d, s, u), a);
            && after.live == d.live - {u}
            && WaitsMarked(after, u, if u in d.live && !a.binding.Here? then d.live[u] else s)
            && calls == (if a.binding.Here? && u in d.live then [Offline(d.live[u])] else [])
                        + (if a.binding.NoLock? then [] else if a.binding == Elsewhere(false) then [Failure(s)]
                           else [Bind(u, s)])
                        + [Failure(s), Offline(s), Unbind(u, s)]
  {
    GuardRulesOutLive(d, s, u);
    SettledCalls(d, s, u, a);
    SettledOutcome(d, s, u, a);
    LoginAlone(d, s, u, a);
    var settled := Settled(d, s, u, a).0;
    var bound := Bound(settled, s, u);
    BoundOutcome(settled, s, u);
    AloneCreated(bound, s, a);
    assert bound.live - {u} == d.live - {u};
    KickedOut(bound, s, u, a);
    assert [Failure(s)] + [Offline(s), Unbind(u, s)] == [Failure(s), Offline(s), Unbind(u, s)];
  }

  lemma KickedOut(d: Directory, s: SessionId, u: Uuid, a: Answers)
    requires s in d.sessions && d.sessions[s].uuid == u && u in d.live && d.live[u] in d.sessions
    ensures var (after, calls) := Alone(d, KickMove(s), a);
            after.live == d.live - {u} && WaitsMarked(after, u, d.live[u]) && calls == [Offline(s), Unbind(u, s)]
  {
    KickAlone(d, s, a);
    NotifyKeeps(d, s, a.idle);
  }

  /** An accepted logout takes whoever is live under the uuid the client names out of the live map, and arranges for
      that session to be closed exactly when it is the session that asked; the message goes to the latter. */
  lemma LogoutOutcome(d: Directory, s: SessionId, u: Uuid, a: Answers)
    requires Carries(d) && s in d.sessions && u in d.live && a.accepted
    ensures var (after, calls) := Alone(d, LogoutMove(s, u), a);
            var t := d.live[u];
            && calls == [Offline(s)]
            && after.live == d.live - {u} && u in after.waiting && after.waiting[u] == t && t in after.sessions
            && (if t == s then WaitsMarked(after, u, s) else after.sessions[t] == d.sessions[t])
  {
    NotifyKeeps(d, s, a.idle);
    var moved := Move(Notify(d, s, a.idle), u);
    AloneStep(d, LogoutMove(s, u), a, moved, LogoutRemove(s, u), [Offline(s)]);
    AloneStep(moved, LogoutRemove(s, u), a, RemoveIf(moved, u, s), Idle, []);
    assert [Offline(s)] + ([] + []) == [Offline(s)];
  }

  /** An undisturbed login or logout is one of the runs the theorems above speak about. */
  lemma {:induction false} AloneIsARun(m: Machine, a: Answers) returns (events: seq<Event>)
    ensures Exec(m, events) == Machine(Alone(m.dir, m.pc, a).0, Idle, m.calls + Alone(m.dir, m.pc, a).1)
    decreases Rank(m.pc)
  {
    if m.pc.Idle? {
      events := [];
      assert m.calls + [] == m.calls;
    } else {
      var next := Apply(m, Logic(a));
      var rest := AloneIsARun(next, a);
      events := [Logic(a)] + rest;
      assert events[1..] == rest;
      var (d, pc, calls) := LogicStep(m.dir, m.pc, a);
      Regroup(m.calls, calls, Alone(d, pc, a).1);
    }
  }

  /** A login or logout that an idle logic thread takes up and sees through undisturbed is a run that starts with its
      event, a login with the guard. */
  lemma TakenUpIsARun(m: Machine, s: SessionId, u: Uuid, a: Answers) returns (login: seq<Event>, logout: seq<Event>)
    requires m.pc.Idle? && s in m.dir.sessions
    ensures var pc := if m.dir.sessions[s].uuid in m.dir.live then KickMove(s) else Checked(s, u);
            && Guard(m.dir, s, u) == pc
            && Exec(m, [Login(s, u)] + login) == Machine(Alone(m.dir, pc, a).0, Idle, m.calls + Alone(m.dir, pc, a).1)
    ensures var pc := LogoutMove(s, u);
            Exec(m, [Logout(s, u)] + logout) == Machine(Alone(m.dir, pc, a).0, Idle, m.calls + Alone(m.dir, pc, a).1)
  {
    login := AloneIsARun(Apply(m, Login(s, u)), a);
    logout := AloneIsARun(Apply(m, Logout(s, u)), a);
    assert ([Login(s, u)] + login)[1..] == login;
    assert ([Logout(s, u)] + logout)[1..] == logout;
  }

  // ---- what the state of a session says ----

  /** Alive is open and without a callback, LogoutPending has one, Terminated is closed and has none left. */
  ghost predicate StateTells(e: Entry) {
    && !e.state.Kicked?
    && (e.state.Alive? ==> !e.closed && e.handler.None?)
    && (e.state.LogoutPending? ==> e.handler.Some?)
    && (e.state.Terminated? ==> e.closed && e.handler.None?)
  }

  ghost predicate StatesTell(d: Directory) {
    forall s: SessionId :: s in d.sessions ==> StateTells(d.sessions[s])
  }

  lemma CallbackTells(d: Directory, s: SessionId)
    requires StatesTell(d)
    ensures StatesTell(Fire(d, s))
  {
  }

  lemma MoversTell(d: Directory, u: Uuid, s: SessionId)
    requires StatesTell(d)
    ensures StatesTell(Move(d, u)) && StatesTell(Remove(d, u)) && StatesTell(RemoveIf(d, u, s))
    ensures StatesTell(SetUuid(d, s, u)) && StatesTell(Create(d, u, s))
  {
  }

  lemma LogicTells(d: Directory, pc: Pc, a: Answers)
    requires StatesTell(d)
    ensures StatesTell(LogicStep(d, pc, a).0)
  {
    match pc {
      case Idle => MoversTell(d, "", 0);
      case Checked(s, u) => if u in d.live { CallbackTells(d, d.live[u]); }
      case OldMove(s, u, previous) => MoversTell(d, UuidOf(d, previous), previous);
      case OldRemove(s, u, previous) => MoversTell(d, UuidOf(d, previous), previous);
      case Cached(s, u) => MoversTell(d, u, s);
      case Named(s, u) => MoversTell(d, u, s);
      case Created(s) => MoversTell(d, "", s);
      case KickMove(s) =>
        CallbackTells(d, s);
        MoversTell(Notify(d, s, a.idle), UuidOf(d, s), s);
      case KickRemove(s) => MoversTell(d, UuidOf(d, s), s);
      case LogoutMove(s, u) =>
        CallbackTells(d, s);
        MoversTell(Notify(d, s, a.idle), u, s);
      case LogoutRemove(s, u) => MoversTell(d, u, s);
    }
  }

  lemma TellsStep(m: Machine, e: Event)
    requires StatesTell(m.dir)
    ensures StatesTell(Apply(m, e).dir)
  {
    match e {
      case Logic(a) => LogicTells(m.dir, m.pc, a);
      case OtherMove(u) => MoversTell(m.dir, u, 0);
      case OtherRemove(u) => MoversTell(m.dir, u, 0);
      case OtherRemoveIf(u, s) => MoversTell(m.dir, u, s);
      case Callback(s) => CallbackTells(m.dir, s);
      case _ =>
    }
  }

  /** In every run the state of a session says whether its socket is closed and whether a callback is still to come:
      none is Terminated and open, and none is about to log out without a callback. */
  lemma {:induction false} TellsRun(m: Machine, events: seq<Event>)
    requires StatesTell(m.dir)
    ensures StatesTell(Exec(m, events).dir)
    decreases |events|
  {
    if events != [] {
      TellsStep(m, events[0]);
      TellsRun(Apply(m, events[0]), events[1..]);
    }
  }

  /** A close callback closes the socket, leaves the session Terminated with no callback to come, and takes away the
      waiting entry it was registered for; it does nothing else. */
  lemma CallbackOutcome(m: Machine, s: SessionId)
    requires s in m.dir.sessions && m.dir.sessions[s].handler.Some? && m.dir.sessions[s].state == WritePump.LogoutPending
    ensures var d, after := m.dir, Apply(m, Callback(s)).dir;
            var e, fired := d.sessions[s], after.sessions[s];
            && fired.state == WritePump.Terminated && fired.handler == None && fired.closed
            && fired.uuid == e.uuid && fired.lastBeat == e.lastBeat
            && after.sessions == d.sessions[s := fired]
            && after.live == d.live && after.waiting == d.waiting - {e.handler.value}
  {
    assert s in Apply(m, Callback(s)).dir.sessions;
  }

  // ---- counted logins ----

  function Successes(calls: seq<Call>): nat {
    if calls == [] then 0 else Successes(calls[..|calls| - 1]) + if calls[|calls| - 1].Success? then 1 else 0
  }

  function Counted(calls: seq<Call>): nat {
    if calls == [] then 0 else Counted(calls[..|calls| - 1]) + if calls[|calls| - 1].CountUp? then 1 else 0
  }

  lemma {:induction false} TalliesConcat(a: seq<Call>, b: seq<Call>)
    ensures Successes(a + b) == Successes(a) + Successes(b) && Counted(a + b) == Counted(a) + Counted(b)
  {
    if b == [] {
      assert a + b == a;
    } else {
      assert (a + b)[..|a + b| - 1] == a + b[..|b| - 1];
      TalliesConcat(a, b[..|b| - 1]);
    }
  }

  lemma TallyTwo(x: Call, y: Call)
    ensures Successes([x]) == (if x.Success? then 1 else 0) && Counted([x]) == (if x.CountUp? then 1 else 0)
    ensures Successes([x, y]) == Successes([x]) + Successes([y]) && Counted([x, y]) == Counted([x]) + Counted([y])
  {
    assert [x][..0] == [] && [y][..0] == [];
    assert [x, y] == [x] + [y];
    TalliesConcat([x], [y]);
  }

  lemma StepCountsSuccess(d: Directory, pc: Pc, a: Answers)
    ensures Successes(LogicStep(d, pc, a).2) == Counted(LogicStep(d, pc, a).2)
  {
    var calls := LogicStep(d, pc, a).2;
    if |calls| > 0 {
      TallyTwo(calls[0], calls[|calls| - 1]);
      TallyTwo(calls[|calls| - 1], calls[0]);
      assert calls == if |calls| == 1 then [calls[0]] else [calls[0], calls[1]];
    }
  }

  /** In every run the logic thread counts a connection exactly as often as it answers a login with success. */
  lemma {:induction false} CountsExactlySuccesses(m: Machine, events: seq<Event>)
    requires Successes(m.calls) == Counted(m.calls)
    ensures Successes(Exec(m, events).calls) == Counted(Exec(m, events).calls)
    decreases |events|
  {
    if events != [] {
      if events[0].Logic? {
        StepCountsSuccess(m.dir, m.pc, events[0].answers);
        TalliesConcat(m.calls, LogicStep(m.dir, m.pc, events[0].answers).2);
      }
      CountsExactlySuccesses(Apply(m, events[0]), events[1..]);
    }
  }

  // ---- whose waiting entry a callback erases ----

  /** A close callback leaves every other session's waiting entry alone exactly when the entry under the uuid it was
      registered for, if there is one, is its own session's. */
  lemma CallbackErasesOwnIff(d: Directory, s: SessionId)
    requires s in d.sessions && d.sessions[s].handler.Some? && d.sessions[s].state == WritePump.LogoutPending
    ensures var u := d.sessions[s].handler.value;
            (forall v: Uuid :: v in d.waiting && d.waiting[v] != s ==> v in Fire(d, s).waiting)
            <==> (u in d.waiting ==> d.waiting[u] == s)
  {
    var u := d.sessions[s].handler.value;
    if u in d.waiting && d.waiting[u] != s {
      assert u !in Fire(d, s).waiting;
    }
  }
}
