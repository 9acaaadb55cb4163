/** UserManager, the login and logout handlers and the heartbeat sweep, statement by statement. */
module UserManager {
  import opened Wrappers
  import opened WritePump
  import opened UserDirectory
  import opened UserDirectorySafety

  ghost predicate AllLiveAlive(d: Directory) {
    forall u: Uuid :: u in d.live ==> d.live[u] in d.sessions && d.sessions[d.live[u]].state == Alive
  }

  // isSessionTimeout
  predicate TimedOut(e: Entry, now: int, timeout: nat) {
    now - e.lastBeat > timeout
  }

  function Expired(d: Directory, now: int, timeout: nat): set<Uuid> {
    set u | u in d.live && d.live[u] in d.sessions && TimedOut(d.sessions[d.live[u]], now, timeout)
  }

  predicate LiveAmong(d: Directory, s: SessionId, users: set<Uuid>)
    requires s in d.sessions
  {
    d.sessions[s].uuid in users && d.sessions[s].uuid in d.live && d.live[d.sessions[s].uuid] == s
  }

  /** The directory after the sessions live under `users` were moved out and marked for closing. */
  function Swept(d: Directory, users: set<Uuid>): Directory {
    Directory(map s | s in d.sessions ::
                if LiveAmong(d, s, users) then
                  d.sessions[s].(state := LogoutPending, handler := Some(d.sessions[s].uuid))
                else d.sessions[s],
              d.live - users,
              d.waiting + (map u | u in users && u in d.live :: d.live[u]))
  }

  lemma SweptNone(d: Directory)
    ensures Swept(d, {}) == d
  {
    var none: set<Uuid> := {};
    assert Swept(d, none).live == d.live;
    assert Swept(d, none).waiting == d.waiting;
    assert Swept(d, none).sessions == d.sessions;
  }

  lemma WaitingMore(d: Directory, users: set<Uuid>, u: Uuid)
    requires u in d.live && u !in users
    ensures Swept(d, users).waiting[u := d.live[u]] == Swept(d, users + {u}).waiting
  {
    var before, after := Swept(d, users).waiting[u := d.live[u]], Swept(d, users + {u}).waiting;
    assert before.Keys == after.Keys;
    assert forall v :: v in after ==> before[v] == after[v];
  }

  lemma MovedMore(d: Directory, users: set<Uuid>, u: Uuid)
    requires u in d.live && u !in users
    ensures var moved := Move(Swept(d, users), u);
            && moved.live == Swept(d, users + {u}).live && moved.waiting == Swept(d, users + {u}).waiting
            && moved.waiting[u] == d.live[u] && moved.sessions == Swept(d, users).sessions
  {
    var before, after := Swept(d, users), Swept(d, users + {u});
    assert before.live[u] == d.live[u];
    assert Move(before, u).live == after.live;
    WaitingMore(d, users, u);
  }

  // Moving one more user, then marking his session.
  lemma SweptMore(d: Directory, users: set<Uuid>, u: Uuid)
    requires Carries(d) && u in d.live && u !in users
    ensures Remove(Move(Swept(d, users), u), u) == Swept(d, users + {u})
  {
    MovedMore(d, users, u);
    MarkedMore(d, users, u);
    var moved := Move(Swept(d, users), u);
    assert Remove(moved, u) == Mark(moved, d.live[u], u);
    assert Mark(moved, d.live[u], u).sessions == Mark(Swept(d, users), d.live[u], u).sessions;
  }

  lemma MarkedMore(d: Directory, users: set<Uuid>, u: Uuid)
    requires Carries(d) && u in d.live && u !in users
    ensures Mark(Swept(d, users), d.live[u], u).sessions == Swept(d, users + {u}).sessions
  {
    var t := d.live[u];
    var before, after := Swept(d, users).sessions, Swept(d, users + {u}).sessions;
    assert t in d.sessions && d.sessions[t].uuid == u;
    forall s | s in d.sessions && s != t ensures before[s] == after[s] {
      assert LiveAmong(d, s, users + {u}) <==> LiveAmong(d, s, users);
    }
    assert LiveAmong(d, t, users + {u});
    assert before[t] == d.sessions[t];
  }

  lemma ElementsNext(s: seq<Uuid>, i: nat)
    requires i < |s|
    ensures Elements(s[..i + 1]) == Elements(s[..i]) + {s[i]}
  {
    assert s[..i + 1] == s[..i] + [s[i]];
  }

  lemma DistinctNext(s: seq<Uuid>, i: nat)
    requires Distinct(s) && i < |s|
    ensures s[i] !in Elements(s[..i])
  {
  }

  // The first loop of the sweep looked at one more client.
  lemma CollectNext(users: seq<Uuid>, clients: set<Uuid>, u: Uuid, expired: set<Uuid>)
    requires u in clients && Distinct(users) && Elements(users) == expired - clients
    ensures u in expired ==> Distinct(users + [u]) && Elements(users + [u]) == expired - (clients - {u})
    ensures u !in expired ==> Elements(users) == expired - (clients - {u})
  {
    assert u !in Elements(users);
    assert Elements(users + [u]) == Elements(users) + {u};
  }

  // Same sessions, with the same uuids and heartbeats.
  ghost predicate SameBeats(before: Directory, after: Directory) {
    && after.sessions.Keys == before.sessions.Keys && after.live == before.live
    && forall s: SessionId :: s in after.sessions ==>
         && after.sessions[s].uuid == before.sessions[s].uuid
         && after.sessions[s].lastBeat == before.sessions[s].lastBeat
  }

  lemma NotifyKeepsBeats(start: Directory, d: Directory, s: SessionId, idle: bool)
    requires SameBeats(start, d)
    ensures SameBeats(start, Notify(d, s, idle))
  {
  }

  /** What a sweep does for the users it finds expired, in that order: each is sent an offline message and his binding
      is removed. */
  function SweepCalls(d: Directory, users: seq<Uuid>): seq<Call> {
    if users == [] then []
    else
      var u := users[|users| - 1];
      SweepCalls(d, users[..|users| - 1]) + if u in d.live then [Offline(d.live[u]), Unbind(u, d.live[u])] else []
  }

  lemma SweepCallsNext(d: Directory, users: seq<Uuid>, u: Uuid)
    requires u in d.live
    ensures SweepCalls(d, users + [u]) == SweepCalls(d, users) + [Offline(d.live[u]), Unbind(u, d.live[u])]
  {
    assert (users + [u])[..|users|] == users;
  }

  /** After `before`, exactly two calls for each of the users, in their order: the offline message to his session and the
      removal of his binding. */
  ghost predicate AskedInOrder(before: seq<Call>, after: seq<Call>, users: seq<Uuid>, live: map<Uuid, SessionId>) {
    && before <= after && |after| == |before| + 2 * |users|
    && forall i: nat :: i < |users| ==>
         && users[i] in live
         && after[|before| + 2 * i] == Offline(live[users[i]])
         && after[|before| + 2 * i + 1] == Unbind(users[i], live[users[i]])
  }

  lemma {:induction false} SweepCallsAsk(before: seq<Call>, d: Directory, users: seq<Uuid>)
    requires forall u: Uuid :: u in users ==> u in d.live
    ensures AskedInOrder(before, before + SweepCalls(d, users), users, d.live)
  {
    if users != [] {
      var k := |users| - 1;
      var asked := before + SweepCalls(d, users[..k]);
      SweepCallsAsk(before, d, users[..k]);
      assert before + SweepCalls(d, users) == asked + [Offline(d.live[users[k]]), Unbind(users[k], d.live[users[k]])];
    }
  }

  lemma ExpiredMeans(d: Directory, now: int, timeout: nat)
    requires Carries(d)
    ensures forall u: Uuid :: u in Expired(d, now, timeout) <==> u in d.live && now - d.sessions[d.live[u]].lastBeat > timeout
  {
  }

  // The users written down, in whatever order, are the expired ones.
  lemma SameElements(users: seq<Uuid>, d: Directory, now: int, timeout: nat)
    requires Carries(d) && Elements(users) == Expired(d, now, timeout)
    ensures forall u: Uuid :: u in users <==> u in d.live && now - d.sessions[d.live[u]].lastBeat > timeout
  {
    ExpiredMeans(d, now, timeout);
    forall u: Uuid ensures u in users <==> u in Elements(users) { }
  }

  // The directory and the calls after the logic thread has run undisturbed from `pc`.
  function RunAlone(d: Directory, calls: seq<Call>, pc: UserDirectory.Pc, a: Answers): (Directory, seq<Call>) {
    (Alone(d, pc, a).0, calls + Alone(d, pc, a).1)
  }

  // The session is about to log out, with a callback that forgets the waiting entry of u.
  ghost predicate MarkedFor(d: Directory, s: SessionId, u: Uuid) {
    s in d.sessions && d.sessions[s].state == LogoutPending && d.sessions[s].handler == Some(u)
  }

  /** What a login comes to.  A session whose own uuid is live has that entry moved out.  A refused account check is
      answered.  Otherwise a previous session on this server is sent its message and moved out, the binding is written,
      left without a lock or refused by another server, and the login is answered with success and counted, or, without
      user data, answered with a failure and undone. */
  ghost predicate LoginResult(d: Directory, s: SessionId, u: Uuid, a: Answers, after: Directory, added: seq<Call>)
    requires Carries(d) && s in d.sessions
  {
    var v := d.sessions[s].uuid;
    if v in d.live then
      added == [Offline(s), Unbind(v, s)] && after.live == d.live - {v} && WaitsMarked(after, v, d.live[v])
    else if !a.accepted then
      added == [Failure(s)] && after == d
    else
      var settling := (if a.binding.Here? && u in d.live then [Offline(d.live[u])] else [])
                      + (if a.binding.NoLock? then [] else if a.binding == Elsewhere(false) then [Failure(s)]
                         else [Bind(u, s)]);
      if a.known then
        && added == settling + [Success(s), CountUp] && s in after.sessions && after.sessions[s].uuid == u
        && after.live == (if u in d.live && !a.binding.Here? then d.live else d.live[u := s])
        && (u in d.live && a.binding.Here? ==> Find(after.waiting, u) == Some(d.live[u]) && MarkedFor(after, d.live[u], u))
      else
        && added == settling + [Failure(s), Offline(s), Unbind(u, s)] && after.live == d.live - {u}
        && WaitsMarked(after, u, if u in d.live && !a.binding.Here? then d.live[u] else s)
  }

  lemma LoginResultHolds(d: Directory, s: SessionId, u: Uuid, a: Answers)
    requires Carries(d) && s in d.sessions
    ensures LoginResult(d, s, u, a, Alone(d, Guard(d, s, u), a).0, Alone(d, Guard(d, s, u), a).1)
  {
    if d.sessions[s].uuid in d.live {
      GuardKickOutcome(d, s, u, a);
    } else if !a.accepted {
      RefusedLogin(d, s, u, a);
    } else if a.known {
      LoginOutcome(d, s, u, a);
    } else {
      UnknownUserOutcome(d, s, u, a);
    }
  }

  class Server {
    var sessions: map<SessionId, Entry>
    var live: map<Uuid, SessionId>
    var waiting: map<Uuid, SessionId>
    var calls: seq<Call>              // messages sent, bindings and counter changed, in order

    ghost function View(): Directory
      reads this
    {
      Directory(sessions, live, waiting)
    }

    constructor ()
      ensures View() == START.dir && calls == []
    {
      sessions, live, waiting, calls := map[], map[], map[], [];
    }

    method Record(call: Call)
      modifies this`calls
      ensures calls == old(calls) + [call]
    {
      calls := calls + [call];
    }

    method GetSession(u: Uuid) returns (r: Option<SessionId>)
      ensures r == Find(live, u)
    {
      if u in live {
        return Some(live[u]);
      }
      r := None;
    }

    method MarkAsDeferredTerminated(s: SessionId, u: Uuid)
      modifies this`sessions
      ensures View() == Mark(old(View()), s, u)
      ensures s in old(sessions) ==> MarkedFor(View(), s, u)
      ensures sessions - {s} == old(sessions) - {s} && (s !in old(sessions) ==> sessions == old(sessions))
    {
      if s in sessions {
        sessions := sessions[s := sessions[s].(state := LogoutPending, handler := Some(u))];
      }
    }

    method RemoveUsrSession(u: Uuid) returns (found: bool)
      modifies this`sessions
      ensures found == (u in old(waiting)) && View() == Remove(old(View()), u)
      ensures found && waiting[u] in old(sessions) ==> MarkedFor(View(), waiting[u], u)
      ensures sessions == old(sessions) || (found && sessions - {waiting[u]} == old(sessions) - {waiting[u]})
    {
      if u !in waiting {
        return false;
      }
      MarkAsDeferredTerminated(waiting[u], u);
      found := true;
    }

    method RemoveUsrSessionOf(u: Uuid, id: SessionId) returns (found: bool)
      modifies this`sessions
      ensures found == (u in old(waiting) && old(waiting)[u] == id) && View() == RemoveIf(old(View()), u, id)
      ensures found && id in old(sessions) ==> MarkedFor(View(), id, u)
      ensures sessions == old(sessions) || (found && sessions - {id} == old(sessions) - {id})
    {
      if u !in waiting {
        return false;
      }
      if waiting[u] != id {
        return false;
      }
      MarkAsDeferredTerminated(id, u);
      found := true;
    }

    method CreateUserSession(u: Uuid, s: SessionId)
      modifies this`live
      ensures View() == Create(old(View()), u, s)
      ensures live == if u in old(live) then old(live) else old(live)[u := s]
    {
      if u !in live {
        live := live[u := s];
      }
    }

    method MoveUserToTerminationZone(u: Uuid) returns (found: bool)
      modifies this`live, this`waiting
      ensures found == (u in old(live)) && View() == Move(old(View()), u)
      ensures live == old(live) - {u} && waiting == if found then old(waiting)[u := old(live)[u]] else old(waiting)
    {
      if u !in live {
        return false;
      }
      waiting := waiting[u := live[u]];
      live := live - {u};
      found := true;
    }

    // The offline message makes an idle write pump notice that its session is to be closed.
    method SendOfflineMessage(s: SessionId, pumpIdle: bool)
      modifies this`sessions, this`waiting, this`calls
      ensures View() == Notify(old(View()), s, pumpIdle) && calls == old(calls) + [Offline(s)]
      ensures if pumpIdle && s in old(sessions) && old(sessions)[s].handler.Some?
                 && (old(sessions)[s].state == LogoutPending || old(sessions)[s].state == Kicked)
              then && s in sessions && sessions[s].state == Terminated && sessions[s].handler == None && sessions[s].closed
                   && sessions - {s} == old(sessions) - {s} && waiting == old(waiting) - {old(sessions)[s].handler.value}
              else sessions == old(sessions) && waiting == old(waiting)
    {
      Record(Offline(s));
      if pumpIdle && s in sessions && sessions[s].handler.Some? && sessions[s].state in {LogoutPending, Kicked} {
        waiting := waiting - {sessions[s].handler.value};
        sessions := sessions[s := sessions[s].(state := Terminated, handler := None, closed := true)];
      }
    }

    // kick_session
    method KickSession(s: SessionId, a: Answers)
      modifies this
      ensures (View(), calls) == RunAlone(old(View()), old(calls), KickMove(s), a)
      ensures s in old(sessions) ==>
                var u := old(sessions)[s].uuid;
                && calls == old(calls) + [Offline(s), Unbind(u, s)] && live == old(live) - {u}
                && (u in old(live) ==> Find(waiting, u) == Some(old(live)[u]))
                && (u in old(live) && old(live)[u] in old(sessions) ==> MarkedFor(View(), old(live)[u], u))
    {
      KickAlone(View(), s, a);
      NotifyKeeps(View(), s, a.idle);
      SendOfflineMessage(s, a.idle);
      var u := UuidOf(Directory(sessions, live, waiting), s);
      Record(Unbind(u, s));
      var _ := MoveUserToTerminationZone(u);
      var _ := RemoveUsrSession(u);
      assert old(calls) + [Offline(s)] + [Unbind(u, s)] == old(calls) + [Offline(s), Unbind(u, s)];
    }

    method CheckAndKickExistingSession(s: SessionId, u: Uuid, a: Answers) returns (kicked: bool)
      modifies this
      ensures kicked == Guard(old(View()), s, u).KickMove?
      ensures s in old(sessions) ==> (kicked <==> old(sessions)[s].uuid in old(live))
      ensures (View(), calls) == if kicked then RunAlone(old(View()), old(calls), KickMove(s), a)
                                 else (old(View()), old(calls))
    {
      var existing := GetSession(UuidOf(Directory(sessions, live, waiting), s));
      if existing.Some? {
        KickSession(s, a);
        return true;
      }
      kicked := false;
    }

    // updateRedisCache: a previous session on this server makes room, then the binding is written.
    method UpdateRedisCache(s: SessionId, u: Uuid, a: Answers)
      requires Carries(View())
      modifies this
      ensures (View(), calls) == (Settled(old(View()), s, u, a).0, old(calls) + Settled(old(View()), s, u, a).1)
      ensures calls == old(calls) + ((if a.binding.Here? && u in old(live) then [Offline(old(live)[u])] else [])
                                     + (if a.binding.NoLock? then [] else if a.binding == Elsewhere(false) then [Failure(s)]
                                        else [Bind(u, s)]))
      ensures if a.binding.Here? && u in old(live)
              then live == old(live) - {u} && WaitsMarked(View(), u, old(live)[u]) else View() == old(View())
    {
      ghost var before := View();
      SettledCalls(before, s, u, a);
      if u in live { EvictedWaits(before, u, a.idle); }
      var previous := GetSession(u);
      if a.binding.Here? && previous.Some? {
        var t := previous.value;
        NotifyKeeps(before, t, a.idle);
        SendOfflineMessage(t, a.idle);
        var name := UuidOf(Directory(sessions, live, waiting), t);
        assert name == u;
        var _ := MoveUserToTerminationZone(name);
        var _ := RemoveUsrSessionOf(name, t);
        Record(Bind(u, s));
        assert old(calls) + [Offline(t)] + [Bind(u, s)] == old(calls) + ([Offline(t)] + [Bind(u, s)]);
      } else {
        WriteBinding(s, u, a);
      }
    }

    method WriteBinding(s: SessionId, u: Uuid, a: Answers)
      modifies this`calls
      ensures calls == old(calls) + BindCalls(a.binding, u, s)
      ensures calls == old(calls) + if a.binding.NoLock? then []
                                    else if a.binding == Elsewhere(false) then [Failure(s)] else [Bind(u, s)]
    {
      match a.binding {
        case NoLock => assert calls + [] == calls;
        case Elsewhere(false) => Record(Failure(s));
        case _ => Record(Bind(u, s));
      }
    }

    // setUUID, createUserSession, the reply, and the kick when the user's data is missing
    method BindSession(s: SessionId, u: Uuid, a: Answers)
      modifies this
      ensures (View(), calls) == RunAlone(old(View()), old(calls), Cached(s, u), a)
    {
      ghost var before := View();
      ReachCreated(before, s, u, a);
      if s in sessions {
        sessions := sessions[s := sessions[s].(uuid := u)];
      }
      CreateUserSession(u, s);
      ghost var bound := View();
      assert bound == Bound(before, s, u);
      AloneCreated(bound, s, a);
      if !a.known {
        Record(Failure(s));
        KickSession(s, a);
        Regroup(old(calls), [Failure(s)], Alone(bound, KickMove(s), a).1);
        return;
      }
      Record(Success(s));
      Record(CountUp);
      assert old(calls) + [Success(s)] + [CountUp] == old(calls) + [Success(s), CountUp];
    }

    /** handlingLogin from the guard to the counter. */
    method HandlingLogin(s: SessionId, u: Uuid, a: Answers)
      requires Carries(View())
      modifies this
      ensures (View(), calls) == RunAlone(old(View()), old(calls), Guard(old(View()), s, u), a)
      ensures s in old(sessions) ==> LoginResult(old(View()), s, u, a, View(), calls[|old(calls)|..])
    {
      ghost var start := View();
      if s in sessions { LoginResultHolds(start, s, u, a); }
      assert (calls + Alone(start, Guard(start, s, u), a).1)[|calls|..] == Alone(start, Guard(start, s, u), a).1;
      var kicked := CheckAndKickExistingSession(s, u, a);
      if kicked {
        return;
      }
      if !a.accepted {
        RefusedLogin(start, s, u, a);
        Record(Failure(s));
        return;
      }
      ReachSettled(start, s, u, a);
      UpdateRedisCache(s, u, a);
      BindSession(s, u, a);
      Regroup(old(calls), Settled(start, s, u, a).1, Alone(Settled(start, s, u, a).0, Cached(s, u), a).1);
    }

    method HandlingLogout(s: SessionId, u: Uuid, a: Answers)
      modifies this
      ensures (View(), calls) == RunAlone(old(View()), old(calls), LogoutMove(s, u), a)
      ensures !a.accepted ==> View() == old(View()) && calls == old(calls) + [Failure(s)]
      ensures a.accepted ==>
                && calls == old(calls) + [Offline(s)] && live == old(live) - {u}
                && (u in old(live) ==> Find(waiting, u) == Some(old(live)[u]))
                && (u in old(live) && old(live)[u] == s && s in old(sessions) ==> MarkedFor(View(), s, u))
    {
      ghost var before := View();
      LogoutAlone(before, s, u, a);
      if !a.accepted {
        Record(Failure(s));
        return;
      }
      SendOfflineMessage(s, a.idle);
      var _ := MoveUserToTerminationZone(u);
      var _ := RemoveUsrSessionOf(u, s);
    }

    /** purgeRemoveConnection: the binding of the session is removed, whoever waits under its uuid is marked, and the
        counter goes down, whether the session was logged in or not. */
    method PurgeRemoveConnection(s: SessionId)
      modifies this
      ensures var u := UuidOf(old(View()), s);
              View() == Remove(old(View()), u) && calls == old(calls) + [Unbind(u, s), CountDown]
      ensures s in old(sessions) ==>
                var u := old(sessions)[s].uuid;
                && calls == old(calls) + [Unbind(u, s), CountDown] && live == old(live) && waiting == old(waiting)
                && (u in waiting && waiting[u] in old(sessions) ==> MarkedFor(View(), waiting[u], u))
    {
      var u := UuidOf(Directory(sessions, live, waiting), s);
      Record(Unbind(u, s));
      var _ := RemoveUsrSession(u);
      Record(CountDown);
      assert old(calls) + [Unbind(u, s)] + [CountDown] == old(calls) + [Unbind(u, s), CountDown];
    }

    // The first loop of the sweep: the expired users are asked to leave and written down.
    method CollectExpired(now: int, timeout: nat, idle: set<SessionId>) returns (users: seq<Uuid>)
      requires Carries(View())
      modifies this`sessions, this`waiting, this`calls
      ensures Carries(View()) && Distinct(users) && Elements(users) == Expired(old(View()), now, timeout)
      ensures forall u: Uuid :: u in users <==> u in old(live) && now - old(sessions)[old(live)[u]].lastBeat > timeout
      ensures calls == old(calls) + SweepCalls(old(View()), users)
      ensures AllLiveAlive(old(View())) ==> View() == old(View())
    {
      ghost var start := View();
      users := [];
      var clients := live.Keys;
      assert calls == old(calls) + SweepCalls(start, []);
      ExpiredMeans(start, now, timeout);
      while clients != {}
        invariant clients <= live.Keys && Distinct(users)
        invariant Elements(users) == Expired(start, now, timeout) - clients
        invariant SameBeats(start, View())
        invariant calls == old(calls) + SweepCalls(start, users)
        invariant AllLiveAlive(start) ==> View() == start
        decreases |clients|
      {
        var u :| u in clients;
        CollectNext(users, clients, u, Expired(start, now, timeout));
        clients := clients - {u};
        if TimedOut(sessions[live[u]], now, timeout) {
          AskToLeave(u, start, users, live[u] in idle);
          users := users + [u];
        }
      }
      SameElements(users, start, now, timeout);
    }

    // One expired user: the offline message, and the removal of his binding under the uuid his session carries.
    method AskToLeave(u: Uuid, ghost start: Directory, ghost users: seq<Uuid>, idle: bool)
      requires Carries(start) && SameBeats(start, View()) && u in live
      modifies this`sessions, this`waiting, this`calls
      ensures SameBeats(start, View()) && (AllLiveAlive(start) && old(View()) == start ==> View() == start)
      ensures forall before: seq<Call> :: old(calls) == before + SweepCalls(start, users)
                ==> calls == before + SweepCalls(start, users + [u])
    {
      var s := live[u];
      NotifyKeepsBeats(start, View(), s, idle);
      SendOfflineMessage(s, idle);
      Record(Unbind(sessions[s].uuid, s));
      SweepCallsNext(start, users, u);
      forall before: seq<Call> | old(calls) == before + SweepCalls(start, users)
        ensures calls == before + SweepCalls(start, users + [u])
      {
        assert before + SweepCalls(start, users) + [Offline(s)] + [Unbind(u, s)]
            == before + (SweepCalls(start, users) + [Offline(s), Unbind(u, s)]);
      }
    }

    // One user is moved to the waiting map and his session marked.
    method TerminateOne(u: Uuid, ghost start: Directory, ghost done: set<Uuid>)
      requires Carries(start) && u in start.live && u !in done && View() == Swept(start, done)
      modifies this`live, this`waiting, this`sessions
      ensures View() == Swept(start, done + {u})
    {
      SweptMore(start, done, u);
      var _ := MoveUserToTerminationZone(u);
      var _ := RemoveUsrSession(u);
    }

    // The second loop: they are moved to the waiting map and marked.
    method TerminateAll(users: seq<Uuid>)
      requires Carries(View()) && Distinct(users) && Elements(users) <= live.Keys
      modifies this`live, this`waiting, this`sessions
      ensures View() == Swept(old(View()), Elements(users))
    {
      ghost var start := View();
      SweptNone(start);
      assert Elements(users[..0]) == {};
      for i := 0 to |users|
        invariant View() == Swept(start, Elements(users[..i]))
      {
        assert users[i] in Elements(users);
        DistinctNext(users, i);
        ElementsNext(users, i);
        TerminateOne(users[i], start, Elements(users[..i]));
      }
      assert users[..|users|] == users;
    }

    /** The heartbeat sweep.  `idle` holds the sessions whose write pump is at rest; the answer lists the users found
        expired, in the order in which the sweep came upon them. */
    method HeartBeatEvent(now: int, timeout: nat, idle: set<SessionId>) returns (users: seq<Uuid>)
      requires Carries(View())
      modifies this
      ensures Distinct(users) && Elements(users) == Expired(old(View()), now, timeout)
      ensures forall u: Uuid :: u in users <==> u in old(live) && now - old(sessions)[old(live)[u]].lastBeat > timeout
      ensures forall u: Uuid :: u in live <==> u in old(live) && now - old(sessions)[old(live)[u]].lastBeat <= timeout
      ensures calls == old(calls) + SweepCalls(old(View()), users)
      ensures AskedInOrder(old(calls), calls, users, old(live))
      ensures live == old(live) - Elements(users)
      ensures AllLiveAlive(old(View())) ==> View() == Swept(old(View()), Elements(users))
    {
      ghost var start := View();
      users := CollectExpired(now, timeout, idle);
      TerminateAll(users);
      SweepCallsAsk(old(calls), start, users);
    }
  }

  lemma LogoutAlone(d: Directory, s: SessionId, u: Uuid, a: Answers)
    ensures Alone(d, LogoutMove(s, u), a)
            == if a.accepted then (RemoveIf(Move(Notify(d, s, a.idle), u), u, s), [Offline(s)]) else (d, [Failure(s)])
  {
    if a.accepted {
      var moved := Move(Notify(d, s, a.idle), u);
      AloneStep(d, LogoutMove(s, u), a, moved, LogoutRemove(s, u), [Offline(s)]);
      AloneStep(moved, LogoutRemove(s, u), a, RemoveIf(moved, u, s), Idle, []);
      assert [Offline(s)] + ([] + []) == [Offline(s)];
    } else {
      AloneStep(d, LogoutMove(s, u), a, d, Idle, [Failure(s)]);
      assert [Failure(s)] + [] == [Failure(s)];
    }
  }

  /** What a sweep leaves, when every live session was Alive: the live map is exactly the entries that had not
      timed out, and every expired session waits under its uuid, about to log out, with a callback registered. */
  lemma SweepOutcome(d: Directory, now: int, timeout: nat, u: Uuid)
    requires Carries(d)
    ensures var after := Swept(d, Expired(d, now, timeout));
            && (u in after.live <==> u in d.live && now - d.sessions[d.live[u]].lastBeat <= timeout)
            && (u in after.live ==> after.live[u] == d.live[u] && after.sessions[d.live[u]] == d.sessions[d.live[u]])
            && (u in d.live && u !in after.live
                ==> && u in after.waiting && after.waiting[u] == d.live[u]
                    && after.sessions[d.live[u]].state == LogoutPending
                    && after.sessions[d.live[u]].handler == Some(u))
            && (u !in d.live ==> Find(after.waiting, u) == Find(d.waiting, u))
  {
    var x := Expired(d, now, timeout);
    if u in d.live {
      assert LiveAmong(d, d.live[u], x) <==> u in x;
    }
  }

  /** A heartbeat at `beat` saves its session from a sweep at `now` exactly when no more than the timeout lies between
      the two: a session that has just beaten is never swept. */
  lemma BeatSparesIff(m: Machine, s: SessionId, beat: int, now: int, timeout: nat, u: Uuid)
    requires Carries(m.dir) && u in m.dir.live && m.dir.live[u] == s
    ensures var d := UserDirectory.Apply(m, Beat(s, beat)).dir;
            && Carries(d)
            && (u in Swept(d, Expired(d, now, timeout)).live <==> now - beat <= timeout)
            && (forall v: Uuid :: v in m.dir.live && v != u ==>
                  (v in Swept(d, Expired(d, now, timeout)).live <==> now - m.dir.sessions[m.dir.live[v]].lastBeat <= timeout))
  {
    var d := UserDirectory.Apply(m, Beat(s, beat)).dir;
    assert d.live == m.dir.live;
    ExpiredMeans(d, now, timeout);
  }
}
