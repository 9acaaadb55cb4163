/** Runs from an empty server that show what the double-login guard is for, and whose waiting entry a close callback
    can take away. */
module UserDirectoryFaults {
  import opened Wrappers
  import WritePump
  import opened UserDirectory
  import opened UserDirectorySafety

  // An accepted login of a known user who is bound nowhere, while every write pump is busy.
  const PLAIN := Answers(true, NotBound, false, true)

  const FOUR: seq<Event> := [Logic(PLAIN), Logic(PLAIN), Logic(PLAIN), Logic(PLAIN)]

  lemma FourSteps(m: Machine, s: SessionId, u: Uuid)
    requires m.pc == Checked(s, u) && s in m.dir.sessions
    ensures var n := Apply(Apply(Apply(Apply(m, Logic(PLAIN)), Logic(PLAIN)), Logic(PLAIN)), Logic(PLAIN));
            n.dir == Bound(m.dir, s, u) && n.pc == Idle
  {
    var m1 := Machine(m.dir, Cached(s, u), m.calls + [Bind(u, s)]);
    var m2 := Machine(SetUuid(m.dir, s, u), Named(s, u), m1.calls + []);
    var m3 := Machine(Bound(m.dir, s, u), Created(s), m2.calls + []);
    assert Apply(m, Logic(PLAIN)) == m1;
    assert Apply(m1, Logic(PLAIN)) == m2;
    assert Apply(m2, Logic(PLAIN)) == m3;
  }

  // ---- without the guard ----

  // The machine with the guard left out: every login goes on to the account check.
  function Unguarded(m: Machine, e: Event): Machine {
    if e.Login? && m.pc.Idle? && e.s in m.dir.sessions then m.(pc := Checked(e.s, e.u)) else Apply(m, e)
  }

  function ExecUnguarded(m: Machine, events: seq<Event>): Machine
    decreases |events|
  {
    if events == [] then m else ExecUnguarded(Unguarded(m, events[0]), events[1..])
  }

  lemma UnguardedLogin(m: Machine, s: SessionId, u: Uuid, rest: seq<Event>)
    requires m.pc.Idle? && s in m.dir.sessions
    ensures exists n: Machine :: n.dir == Bound(m.dir, s, u) && n.pc == Idle
              && ExecUnguarded(m, [Login(s, u)] + (FOUR + rest)) == ExecUnguarded(n, rest)
  {
    var c := m.(pc := Checked(s, u));
    var c1, c2 := Apply(c, Logic(PLAIN)), Apply(Apply(c, Logic(PLAIN)), Logic(PLAIN));
    var c3 := Apply(c2, Logic(PLAIN));
    var n := Apply(c3, Logic(PLAIN));
    FourSteps(c, s, u);
    UnguardedOne(m, Login(s, u), FOUR + rest);
    FourUnguarded(c, c1, c2, c3, n, rest);
  }

  lemma FourUnguarded(c: Machine, c1: Machine, c2: Machine, c3: Machine, n: Machine, rest: seq<Event>)
    requires Apply(c, Logic(PLAIN)) == c1 && Apply(c1, Logic(PLAIN)) == c2
    requires Apply(c2, Logic(PLAIN)) == c3 && Apply(c3, Logic(PLAIN)) == n
    ensures ExecUnguarded(c, FOUR + rest) == ExecUnguarded(n, rest)
  {
    var three := [Logic(PLAIN), Logic(PLAIN), Logic(PLAIN)];
    var two := [Logic(PLAIN), Logic(PLAIN)];
    UnguardedOne(c, Logic(PLAIN), three + rest);
    UnguardedOne(c1, Logic(PLAIN), two + rest);
    UnguardedOne(c2, Logic(PLAIN), [Logic(PLAIN)] + rest);
    UnguardedOne(c3, Logic(PLAIN), rest);
    assert FOUR + rest == [Logic(PLAIN)] + (three + rest);
    assert three + rest == [Logic(PLAIN)] + (two + rest);
    assert two + rest == [Logic(PLAIN)] + ([Logic(PLAIN)] + rest);
  }

  lemma UnguardedOne(m: Machine, e: Event, rest: seq<Event>)
    ensures ExecUnguarded(m, [e] + rest) == ExecUnguarded(Unguarded(m, e), rest)
  {
    assert ([e] + rest)[1..] == rest;
  }

  function TwoLogins(s: SessionId, u: Uuid, v: Uuid): seq<Event> {
    [Connect(s, 0)] + ([Login(s, u)] + (FOUR + ([Login(s, v)] + (FOUR + []))))
  }

  /** Without the guard, a session that connects and logs in twice is live under both uuids. */
  lemma WithoutGuardLiveTwice(s: SessionId, u: Uuid, v: Uuid)
    requires u != v
    ensures var d := ExecUnguarded(START, TwoLogins(s, u, v)).dir;
            && u in d.live && v in d.live && d.live[u] == s && d.live[v] == s && !Carries(d)
  {
    var connected := Apply(START, Connect(s, 0));
    var second := [Login(s, v)] + (FOUR + []);
    UnguardedOne(START, Connect(s, 0), [Login(s, u)] + (FOUR + second));
    UnguardedLogin(connected, s, u, second);
    var m: Machine :| m.dir == Bound(connected.dir, s, u) && m.pc == Idle
              && ExecUnguarded(connected, [Login(s, u)] + (FOUR + second)) == ExecUnguarded(m, second);
    UnguardedLogin(m, s, v, []);
    var n: Machine :| n.dir == Bound(m.dir, s, v) && n.pc == Idle
              && ExecUnguarded(m, second) == ExecUnguarded(n, []);
    assert n.dir.live[u] == s && n.dir.sessions[s].uuid == v;
  }

  // ---- a stale callback ----

  lemma ExecOne(m: Machine, e: Event, rest: seq<Event>)
    ensures Exec(m, [e] + rest) == Exec(Apply(m, e), rest)
  {
    assert ([e] + rest)[1..] == rest;
  }

  lemma GuardedLogin(m: Machine, s: SessionId, u: Uuid, rest: seq<Event>)
    requires m.pc.Idle? && s in m.dir.sessions && UuidOf(m.dir, s) !in m.dir.live
    ensures exists n: Machine :: n.dir == Bound(m.dir, s, u) && n.pc == Idle
              && Exec(m, [Login(s, u)] + (FOUR + rest)) == Exec(n, rest)
  {
    var c := m.(pc := Checked(s, u));
    var c1, c2 := Apply(c, Logic(PLAIN)), Apply(Apply(c, Logic(PLAIN)), Logic(PLAIN));
    var c3 := Apply(c2, Logic(PLAIN));
    var n := Apply(c3, Logic(PLAIN));
    FourSteps(c, s, u);
    ExecOne(m, Login(s, u), FOUR + rest);
    FourGuarded(c, c1, c2, c3, n, rest);
  }

  lemma FourGuarded(c: Machine, c1: Machine, c2: Machine, c3: Machine, n: Machine, rest: seq<Event>)
    requires Apply(c, Logic(PLAIN)) == c1 && Apply(c1, Logic(PLAIN)) == c2
    requires Apply(c2, Logic(PLAIN)) == c3 && Apply(c3, Logic(PLAIN)) == n
    ensures Exec(c, FOUR + rest) == Exec(n, rest)
  {
    var three := [Logic(PLAIN), Logic(PLAIN), Logic(PLAIN)];
    var two := [Logic(PLAIN), Logic(PLAIN)];
    ExecOne(c, Logic(PLAIN), three + rest);
    ExecOne(c1, Logic(PLAIN), two + rest);
    ExecOne(c2, Logic(PLAIN), [Logic(PLAIN)] + rest);
    ExecOne(c3, Logic(PLAIN), rest);
    assert FOUR + rest == [Logic(PLAIN)] + (three + rest);
    assert three + rest == [Logic(PLAIN)] + (two + rest);
    assert two + rest == [Logic(PLAIN)] + ([Logic(PLAIN)] + rest);
  }

  // Session 0 logs in and is swept; session 1 logs in under the same uuid and is swept in turn.
  function SweptTwice(u: Uuid, last: seq<Event>): seq<Event> {
    [Connect(0, 0)] + ([Connect(1, 0)] + ([Login(0, u)] + (FOUR + ([OtherMove(u)] + ([OtherRemove(u)]
    + ([Login(1, u)] + (FOUR + ([OtherMove(u)] + last))))))))
  }

  // Session 0 is about to be closed, session 1 waits under the uuid in its place.
  ghost predicate Replaced(m: Machine, u: Uuid) {
    && m.pc == Idle && u in m.dir.waiting && m.dir.waiting[u] == 1 && u !in m.dir.live
    && 0 in m.dir.sessions && m.dir.sessions[0].state == WritePump.LogoutPending && m.dir.sessions[0].handler == Some(u)
  }

  // After the first sweep.
  ghost predicate SweptOnce(m: Machine, u: Uuid) {
    && m.pc == Idle && m.dir.live == map[] && m.dir.waiting == map[u := 0]
    && 0 in m.dir.sessions && m.dir.sessions[0].state == WritePump.LogoutPending && m.dir.sessions[0].handler == Some(u)
    && 1 in m.dir.sessions && m.dir.sessions[1].uuid == ""
  }

  lemma FirstSweep(u: Uuid, rest: seq<Event>)
    ensures exists m: Machine :: SweptOnce(m, u)
              && Exec(START, [Connect(0, 0)] + ([Connect(1, 0)] + ([Login(0, u)] + (FOUR + ([OtherMove(u)]
                 + ([OtherRemove(u)] + rest)))))) == Exec(m, rest)
  {
    var tail := [OtherMove(u)] + ([OtherRemove(u)] + rest);
    var m1 := Apply(START, Connect(0, 0));
    var m2 := Apply(m1, Connect(1, 0));
    ExecOne(START, Connect(0, 0), [Connect(1, 0)] + ([Login(0, u)] + (FOUR + tail)));
    ExecOne(m1, Connect(1, 0), [Login(0, u)] + (FOUR + tail));
    GuardedLogin(m2, 0, u, tail);
    var n: Machine :| n.dir == Bound(m2.dir, 0, u) && n.pc == Idle
              && Exec(m2, [Login(0, u)] + (FOUR + tail)) == Exec(n, tail);
    ExecOne(n, OtherMove(u), [OtherRemove(u)] + rest);
    ExecOne(Apply(n, OtherMove(u)), OtherRemove(u), rest);
    var m := Apply(Apply(n, OtherMove(u)), OtherRemove(u));
    assert m.dir.live == map[] && m.dir.waiting == map[u := 0];
    assert SweptOnce(m, u);
  }

  lemma SecondSweep(m: Machine, u: Uuid, last: seq<Event>)
    requires SweptOnce(m, u)
    ensures exists n: Machine :: Replaced(n, u)
              && Exec(m, [Login(1, u)] + (FOUR + ([OtherMove(u)] + last))) == Exec(n, last)
  {
    GuardedLogin(m, 1, u, [OtherMove(u)] + last);
    var n: Machine :| n.dir == Bound(m.dir, 1, u) && n.pc == Idle
              && Exec(m, [Login(1, u)] + (FOUR + ([OtherMove(u)] + last))) == Exec(n, [OtherMove(u)] + last);
    ExecOne(n, OtherMove(u), last);
    assert Replaced(Apply(n, OtherMove(u)), u);
  }

  /** A run in which the callback registered for session 0 takes away the waiting entry of session 1, which has
      replaced it under the uuid: session 1 is then in neither map. */
  lemma StaleCallbackErasesNewEntry(u: Uuid)
    ensures var before := Exec(START, SweptTwice(u, [])).dir;
            var after := Exec(START, SweptTwice(u, [Callback(0)])).dir;
            && u in before.waiting && before.waiting[u] == 1
            && u !in after.waiting && u !in after.live
  {
    StaleRun(u, []);
    StaleRun(u, [Callback(0)]);
    var n: Machine :| Replaced(n, u) && Exec(START, SweptTwice(u, [Callback(0)])) == Exec(n, [Callback(0)]);
    assert [Callback(0)] + [] == [Callback(0)];
    ExecOne(n, Callback(0), []);
  }

  lemma StaleRun(u: Uuid, last: seq<Event>)
    ensures exists n: Machine :: Replaced(n, u) && Exec(START, SweptTwice(u, last)) == Exec(n, last)
  {
    var rest := [Login(1, u)] + (FOUR + ([OtherMove(u)] + last));
    FirstSweep(u, rest);
    var m: Machine :| SweptOnce(m, u) && Exec(START, SweptTwice(u, last)) == Exec(m, rest);
    SecondSweep(m, u, last);
  }
}
