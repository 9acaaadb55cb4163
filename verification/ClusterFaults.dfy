/** Runs that show what the premises of the binding and counter theorems are for: each premise is
    dropped in turn and the conclusion fails. */
module ClusterFaults {
  import opened Wrappers
  import opened Redis
  import opened Cluster
  import opened BindingSafety
  import opened CounterSafety
  import opened Solo

  predicate AllSucceed(events: seq<Event>) {
    forall e :: e in events && e.Step? ==> e.ok
  }

  lemma {:induction false} CommandsSucceed(id: ClientId, paces: seq<Pace>)
    requires forall p :: p in paces ==> p.ok
    ensures AllSucceed(Commands(id, paces))
  {
    if paces != [] {
      assert paces[0] in paces;
      forall p | p in paces[1..] ensures p.ok { assert p in paces; }
      CommandsSucceed(id, paces[1..]);
    }
  }

  // ---- the binding ----

  const HOMES: map<string, string> := map["a" := "A", "b" := "B"]

  const OLD_LOGIN: Job := Login("u", "A", "a")
  const NEW_LOGIN: Job := Login("u", "B", "b")
  const OLD_CLEANUP: Job := Cleanup("u", "a")

  // Session "a" of server "A" logs in as "u"; session "b" of server "B" has connected as well.
  function History(): seq<Event> {
    [Accept("a", "A"), Accept("b", "B"), Begin(2, OLD_LOGIN)] + Commands(2, [OK, OK] + FIVE)
  }

  const BOUND: Store := EMPTY_STORE.(servers := map["u" := "A"], sessions := map["u" := "a"])

  // After the history, with up to two more clients.
  function With(store: Store, others: map<ClientId, Client>): State {
    State(store, map[2 := Client(OLD_LOGIN, Finished, 10)] + others, HOMES, [])
  }

  lemma FirstLogin()
    ensures Alone(EMPTY_STORE, 2, Client(OLD_LOGIN, Acquiring, 0), [OK, OK] + FIVE)
            == (BOUND, Client(OLD_LOGIN, Finished, 10))
  {
    var leased := EMPTY_STORE.(locks := map["u" := Lease(2, 10)]);
    var c := Client(OLD_LOGIN, Acquiring, 0);
    assert ClientStep(Elapsed(EMPTY_STORE, 0), 2, c, true) == (leased, Client(OLD_LOGIN, ReadBinding, 10));
    AloneTwo(EMPTY_STORE, 2, c, OK, OK, leased, Client(OLD_LOGIN, ReadBinding, 10));
    LoginWrites(leased, 2, Client(OLD_LOGIN, DropServer, 10));
    AloneConcat(EMPTY_STORE, 2, c, [OK, OK], FIVE);
    assert leased.locks - {"u"} == map[];
  }

  lemma HistoryBinds()
    ensures Exec(INITIAL, History()) == With(BOUND, map[])
  {
    var s := INITIAL.(homes := HOMES);
    assert map["a" := "A"]["b" := "B"] == HOMES;
    ExecTwo(INITIAL, Accept("a", "A"), Accept("b", "B"), [Begin(2, OLD_LOGIN)] + Commands(2, [OK, OK] + FIVE));
    assert Apply(Apply(INITIAL, Accept("a", "A")), Accept("b", "B")) == s;
    assert History() == [Accept("a", "A"), Accept("b", "B")] + ([Begin(2, OLD_LOGIN)] + Commands(2, [OK, OK] + FIVE));
    var begun := s.(clients := map[2 := Client(OLD_LOGIN, Acquiring, 0)]);
    assert Apply(s, Begin(2, OLD_LOGIN)) == begun;
    ExecFirst(s, Begin(2, OLD_LOGIN), Commands(2, [OK, OK] + FIVE));
    FirstLogin();
    ExecCommands(begun, 2, [OK, OK] + FIVE);
  }

  lemma ExecFirst(s: State, e: Event, rest: seq<Event>)
    ensures Exec(s, [e] + rest) == Exec(Apply(s, e), rest)
  {
    assert ([e] + rest)[1..] == rest;
  }

  // One of the other clients works undisturbed.
  lemma OtherWorks(store: Store, others: map<ClientId, Client>, id: ClientId, paces: seq<Pace>, store': Store, c: Client)
    requires id in others && id != 2 && !others[id].job.Count?
    requires Alone(store, id, others[id], paces) == (store', c)
    ensures Exec(With(store, others), Commands(id, paces)) == With(store', others[id := c])
  {
    ExecCommands(With(store, others), id, paces);
    assert With(store, others).clients[id := c] == With(store', others[id := c]).clients;
  }

  lemma OtherBegins(store: Store, others: map<ClientId, Client>, id: ClientId, job: Job)
    requires id !in others && id != 2 && (job == NEW_LOGIN || job == OLD_CLEANUP)
    ensures Apply(With(store, others), Begin(id, job)) == With(store, others[id := Client(job, Acquiring, 0)])
  {
    assert With(store, others).clients[id := Client(job, Acquiring, 0)]
        == With(store, others[id := Client(job, Acquiring, 0)]).clients;
  }

  // The commands that lead up to the first write of a client that finds the old binding.
  const THREE: seq<Pace> := [OK, OK, OK]

  function Leased(s: Store, id: ClientId): Store {
    s.(locks := s.locks["u" := Lease(id, s.now + LEASE_MS)])
  }

  lemma LoginPrefix(s: Store, id: ClientId)
    requires !Locked(s, "u") && "u" in s.servers && s.servers["u"] == "A"
    ensures Alone(s, id, Client(NEW_LOGIN, Acquiring, 0), THREE)
            == (Leased(s, id), Client(NEW_LOGIN, DropServer, s.now + LEASE_MS))
  {
    var c := Client(NEW_LOGIN, Acquiring, 0);
    AloneThree(s, id, c, OK, OK, OK, Leased(s, id), Client(NEW_LOGIN, ReadBinding, s.now + LEASE_MS),
               Leased(s, id), Client(NEW_LOGIN, Kicking, s.now + LEASE_MS));
  }

  lemma CleanupPrefix(s: Store, id: ClientId)
    requires !Locked(s, "u") && "u" in s.servers && s.servers["u"] == "A"
    requires "u" in s.sessions && s.sessions["u"] == "a"
    ensures Alone(s, id, Client(OLD_CLEANUP, Acquiring, 0), THREE)
            == (Leased(s, id), Client(OLD_CLEANUP, EraseServer, s.now + LEASE_MS))
  {
    var c := Client(OLD_CLEANUP, Acquiring, 0);
    AloneThree(s, id, c, OK, OK, OK, Leased(s, id), Client(OLD_CLEANUP, ReadServer, s.now + LEASE_MS),
               Leased(s, id), Client(OLD_CLEANUP, ReadSession(true), s.now + LEASE_MS));
  }

  // A cleanup of "a" stalls before its deletions while "b" logs in, and goes on with `late` commands.
  function StalledCleanup(late: seq<Pace>): seq<Event> {
    History() + ([Begin(0, OLD_CLEANUP)] + (Commands(0, THREE) + ([Elapse(10), Begin(1, NEW_LOGIN)]
    + (Commands(1, THREE + FIVE) + Commands(0, late)))))
  }

  const STALLED: Client := Client(OLD_CLEANUP, EraseServer, 10)
  const RELOGGED: Store := EMPTY_STORE.(now := 10, servers := map["u" := "B"], sessions := map["u" := "b"])
  const BACK: Client := Client(NEW_LOGIN, Finished, 20)

  lemma ReLogin()
    ensures Alone(Elapsed(Leased(BOUND, 0), 10), 1, Client(NEW_LOGIN, Acquiring, 0), THREE + FIVE) == (RELOGGED, BACK)
  {
    var s := Elapsed(Leased(BOUND, 0), 10);
    LoginPrefix(s, 1);
    LoginWrites(Leased(s, 1), 1, Client(NEW_LOGIN, DropServer, 20));
    AloneConcat(s, 1, Client(NEW_LOGIN, Acquiring, 0), THREE, FIVE);
    assert map["u" := "A"]["u" := "B"] == map["u" := "B"] && map["u" := "a"]["u" := "b"] == map["u" := "b"];
    assert Leased(s, 1).locks - {"u"} == map[];
  }

  // A run up to s1, one event more, a further run up to s3.
  lemma Compose(s0: State, h: seq<Event>, s1: State, e: Event, s2: State, a: seq<Event>, s3: State, rest: seq<Event>)
    requires Exec(s0, h) == s1 && Apply(s1, e) == s2 && Exec(s2, a) == s3
    ensures Exec(s0, h + ([e] + (a + rest))) == Exec(s3, rest)
  {
    ExecConcat(s0, h, [e] + (a + rest));
    ExecFirst(s1, e, a + rest);
    ExecConcat(s2, a, rest);
  }

  lemma CleanupStalls()
    ensures Apply(With(BOUND, map[]), Begin(0, OLD_CLEANUP)) == With(BOUND, map[0 := Client(OLD_CLEANUP, Acquiring, 0)])
    ensures Exec(With(BOUND, map[0 := Client(OLD_CLEANUP, Acquiring, 0)]), Commands(0, THREE))
            == With(Leased(BOUND, 0), map[0 := STALLED])
  {
    var one := map[0 := Client(OLD_CLEANUP, Acquiring, 0)];
    OtherBegins(BOUND, map[], 0, OLD_CLEANUP);
    CleanupPrefix(BOUND, 0);
    OtherWorks(BOUND, one, 0, THREE, Leased(BOUND, 0), STALLED);
    assert one[0 := STALLED] == map[0 := STALLED];
  }

  // The new login is complete and the old cleanup still has its deletions to do.
  lemma ReachRelogged(late: seq<Pace>)
    ensures Exec(INITIAL, StalledCleanup(late))
            == Exec(With(RELOGGED, map[0 := STALLED, 1 := BACK]), Commands(0, late))
  {
    var tail := Commands(1, THREE + FIVE) + Commands(0, late);
    HistoryBinds();
    CleanupStalls();
    Compose(INITIAL, History(), With(BOUND, map[]), Begin(0, OLD_CLEANUP),
            With(BOUND, map[0 := Client(OLD_CLEANUP, Acquiring, 0)]), Commands(0, THREE),
            With(Leased(BOUND, 0), map[0 := STALLED]), [Elapse(10), Begin(1, NEW_LOGIN)] + tail);
    Stalls(tail);
    LogsInAgain(late);
  }

  lemma Stalls(tail: seq<Event>)
    ensures Exec(With(Leased(BOUND, 0), map[0 := STALLED]), [Elapse(10), Begin(1, NEW_LOGIN)] + tail)
            == Exec(With(Elapsed(Leased(BOUND, 0), 10), map[0 := STALLED, 1 := Client(NEW_LOGIN, Acquiring, 0)]), tail)
  {
    var s := With(Leased(BOUND, 0), map[0 := STALLED]);
    ExecTwo(s, Elapse(10), Begin(1, NEW_LOGIN), tail);
    OtherBegins(Elapsed(Leased(BOUND, 0), 10), map[0 := STALLED], 1, NEW_LOGIN);
    assert map[0 := STALLED][1 := Client(NEW_LOGIN, Acquiring, 0)]
        == map[0 := STALLED, 1 := Client(NEW_LOGIN, Acquiring, 0)];
  }

  lemma LogsInAgain(late: seq<Pace>)
    ensures Exec(With(Elapsed(Leased(BOUND, 0), 10), map[0 := STALLED, 1 := Client(NEW_LOGIN, Acquiring, 0)]),
                 Commands(1, THREE + FIVE) + Commands(0, late))
            == Exec(With(RELOGGED, map[0 := STALLED, 1 := BACK]), Commands(0, late))
  {
    var s := Elapsed(Leased(BOUND, 0), 10);
    var both := map[0 := STALLED, 1 := Client(NEW_LOGIN, Acquiring, 0)];
    ReLogin();
    OtherWorks(s, both, 1, THREE + FIVE, RELOGGED, BACK);
    assert both[1 := BACK] == map[0 := STALLED, 1 := BACK];
    ExecConcat(With(s, both), Commands(1, THREE + FIVE), Commands(0, late));
  }

  lemma StalledSucceeds(late: seq<Pace>)
    requires forall p :: p in late ==> p.ok
    ensures AllSucceed(StalledCleanup(late))
  {
    CommandsSucceed(2, [OK, OK] + FIVE);
    CommandsSucceed(0, THREE);
    CommandsSucceed(1, THREE + FIVE);
    CommandsSucceed(0, late);
  }

  lemma LateEffect()
    ensures Alone(RELOGGED, 0, STALLED, THREE) == (EMPTY_STORE.(now := 10), Client(OLD_CLEANUP, Finished, 10))
  {
    var s1 := RELOGGED.(servers := map[]);
    assert map["u" := "B"] - {"u"} == map[] && map["u" := "b"] - {"u"} == map[];
    AloneThree(RELOGGED, 0, STALLED, OK, OK, OK, s1, Client(OLD_CLEANUP, EraseSession, 10),
               EMPTY_STORE.(now := 10), Client(OLD_CLEANUP, Releasing, 10));
  }

  lemma LateDeletions()
    ensures Exec(With(RELOGGED, map[0 := STALLED, 1 := BACK]), Commands(0, THREE))
            == With(EMPTY_STORE.(now := 10), map[0 := Client(OLD_CLEANUP, Finished, 10), 1 := BACK])
  {
    LateEffect();
    var both := map[0 := STALLED, 1 := BACK];
    OtherWorks(RELOGGED, both, 0, THREE, EMPTY_STORE.(now := 10), Client(OLD_CLEANUP, Finished, 10));
    assert both[0 := Client(OLD_CLEANUP, Finished, 10)] == map[0 := Client(OLD_CLEANUP, Finished, 10), 1 := BACK];
  }

  /** When a cleanup outlives its lease it erases the binding of a newer login, although no command
      fails: the login of "b" completes and is then lost. */
  lemma LapsedCleanupErasesNewLogin()
    ensures AllSucceed(StalledCleanup(THREE))
    ensures Exec(INITIAL, StalledCleanup(THREE))
            == With(EMPTY_STORE.(now := 10), map[0 := Client(OLD_CLEANUP, Finished, 10), 1 := BACK])
  {
    ReachRelogged(THREE);
    StalledSucceeds(THREE);
    LateDeletions();
  }

  /** The same run one deletion in: the lock is free, no command has failed, and the two keys disagree. */
  lemma LapsedCleanupTearsBinding()
    ensures AllSucceed(StalledCleanup([OK]))
    ensures var s := Exec(INITIAL, StalledCleanup([OK])); !Locked(s.store, "u") && !Consistent(s, "u")
  {
    ReachRelogged([OK]);
    StalledSucceeds([OK]);
    var s1 := RELOGGED.(servers := map["u" := "B"] - {"u"});
    AloneOne(RELOGGED, 0, STALLED, OK);
    OtherWorks(RELOGGED, map[0 := STALLED, 1 := BACK], 0, [OK], s1, Client(OLD_CLEANUP, EraseSession, 10));
  }

  predicate BindingWrite(pc: Pc) {
    pc.WriteServer? || pc.DropSession? || pc.WriteSession? || pc.EraseServer? || pc.EraseSession?
  }

  function JobOf(at: Pc): Job {
    if at.EraseServer? || at.EraseSession? then OLD_CLEANUP else NEW_LOGIN
  }

  // The commands from the first write on: only the one at `at` fails.
  function Outcomes(at: Pc): seq<Pace>
    requires BindingWrite(at)
  {
    if at.EraseServer? then [FAIL, OK, OK]
    else if at.EraseSession? || at.WriteServer? then [OK, FAIL, OK]
    else if at.DropSession? then [OK, OK] + [FAIL, OK]
    else [OK, OK] + [OK, FAIL, OK]
  }

  function OneFault(at: Pc): seq<Event>
    requires BindingWrite(at)
  {
    History() + ([Begin(0, JobOf(at))] + Commands(0, THREE + Outcomes(at)))
  }

  // The lock is free and the two keys do not tell the same story.
  predicate Torn(s: Store) {
    && "u" !in s.locks
    && (("u" in s.servers) != ("u" in s.sessions) || (s.servers == map["u" := "B"] && s.sessions == map["u" := "a"]))
  }

  lemma TornCleanup(first: bool)
    ensures Torn(Alone(Leased(BOUND, 0), 0, STALLED, [Pace(0, first), Pace(0, !first), OK]).0)
  {
    var s := Leased(BOUND, 0);
    var s1 := if first then s.(servers := s.servers - {"u"}) else s;
    var s2 := if first then s1 else s1.(sessions := s.sessions - {"u"});
    AloneThree(s, 0, STALLED, Pace(0, first), Pace(0, !first), OK, s1, STALLED.(pc := EraseSession),
               s2, STALLED.(pc := Releasing));
  }

  lemma TornFirstWrite(c: Client)
    requires c == Client(NEW_LOGIN, DropServer, 10)
    ensures Torn(Alone(Leased(BOUND, 0), 0, c, [OK, FAIL, OK]).0)
  {
    var s := Leased(BOUND, 0);
    var s1 := s.(servers := s.servers - {"u"});
    AloneThree(s, 0, c, OK, FAIL, OK, s1, c.(pc := WriteServer), s1, c.(pc := Releasing));
  }

  // With the server key written, the session key is not dropped, or dropped and not written.
  lemma TornSession(c: Client, s: Store, drop: bool)
    requires c == Client(NEW_LOGIN, DropSession, 10) && s == Leased(BOUND, 0).(servers := map["u" := "B"])
    ensures Torn(Alone(s, 0, c, if drop then [OK, FAIL, OK] else [FAIL, OK]).0)
  {
    if drop {
      var s1 := s.(sessions := s.sessions - {"u"});
      AloneThree(s, 0, c, OK, FAIL, OK, s1, c.(pc := WriteSession), s1, c.(pc := Releasing));
    } else {
      AloneTwo(s, 0, c, FAIL, OK, s, c.(pc := Releasing));
    }
  }

  lemma TornLogin(c: Client, drop: bool)
    requires c == Client(NEW_LOGIN, DropServer, 10)
    ensures Torn(Alone(Leased(BOUND, 0), 0, c, [OK, OK] + if drop then [OK, FAIL, OK] else [FAIL, OK]).0)
  {
    var s := Leased(BOUND, 0);
    ServerWrites(s, 0, c);
    assert s.servers["u" := "B"] == map["u" := "B"];
    TornSession(c.(pc := DropSession), s.(servers := map["u" := "B"]), drop);
    AloneConcat(s, 0, c, [OK, OK], if drop then [OK, FAIL, OK] else [FAIL, OK]);
  }

  lemma TornKeys(c: Client, at: Pc)
    requires BindingWrite(at) && c == FirstWrite(JobOf(at))
    ensures Torn(Alone(Leased(BOUND, 0), 0, c, Outcomes(at)).0)
  {
    match at
    case EraseServer => TornCleanup(false);
    case EraseSession => TornCleanup(true);
    case WriteServer => TornFirstWrite(c);
    case DropSession => TornLogin(c, false);
    case WriteSession => TornLogin(c, true);
  }

  function FirstWrite(job: Job): Client {
    Client(job, if job.Cleanup? then EraseServer else DropServer, 10)
  }

  lemma ToFirstWrite(at: Pc)
    requires BindingWrite(at)
    ensures Alone(BOUND, 0, Client(JobOf(at), Acquiring, 0), THREE) == (Leased(BOUND, 0), FirstWrite(JobOf(at)))
  {
    if JobOf(at).Login? { LoginPrefix(BOUND, 0); } else { CleanupPrefix(BOUND, 0); }
  }

  lemma OneFaultTears(at: Pc)
    requires BindingWrite(at)
    ensures Torn(Alone(BOUND, 0, Client(JobOf(at), Acquiring, 0), THREE + Outcomes(at)).0)
  {
    ToFirstWrite(at);
    TornKeys(FirstWrite(JobOf(at)), at);
    AloneConcat(BOUND, 0, Client(JobOf(at), Acquiring, 0), THREE, Outcomes(at));
  }

  lemma TornMeansInconsistent(s: State)
    requires Torn(s.store) && s.homes == HOMES
    ensures !Locked(s.store, "u") && !Consistent(s, "u")
  {
  }

  /** Each single write failure, in an otherwise undisturbed run, leaves the lock free and the two keys
      in disagreement: none of the excluded failures could have been allowed. */
  lemma EveryTearingFaultTears(at: Pc)
    requires BindingWrite(at)
    ensures var s := Exec(INITIAL, OneFault(at)); !Locked(s.store, "u") && !Consistent(s, "u")
  {
    HistoryBinds();
    OneFaultTears(at);
    OneMoreClient(JobOf(at), THREE + Outcomes(at));
    TornMeansInconsistent(Exec(INITIAL, OneFault(at)));
  }

  lemma OneMoreClient(job: Job, paces: seq<Pace>)
    requires Exec(INITIAL, History()) == With(BOUND, map[]) && (job == NEW_LOGIN || job == OLD_CLEANUP)
    ensures var s := Exec(INITIAL, History() + ([Begin(0, job)] + Commands(0, paces)));
            s.store == Alone(BOUND, 0, Client(job, Acquiring, 0), paces).0 && s.homes == HOMES
  {
    var one := map[0 := Client(job, Acquiring, 0)];
    OtherBegins(BOUND, map[], 0, job);
    var (store, last) := Alone(BOUND, 0, one[0], paces);
    OtherWorks(BOUND, one, 0, paces, store, last);
    Compose(INITIAL, History(), With(BOUND, map[]), Begin(0, job), With(BOUND, one), Commands(0, paces),
            With(store, one[0 := last]), []);
    assert Commands(0, paces) + [] == Commands(0, paces);
  }

  // ---- the counters ----

  // One more section on server "A", as far as `paces` take it once it has the lock.
  function CountOnce(id: ClientId, op: CounterOp, paces: seq<Pace>): seq<Event> {
    [Begin(id, Count("A", op)), Step(id, true)] + Commands(id, paces)
  }

  function Held(s: Store, id: ClientId): Store {
    s.(locks := s.locks["A" := Lease(id, s.now + LEASE_MS)])
  }

  function InLock(s: Store, op: CounterOp): Client {
    Client(Count("A", op), FirstPc(Count("A", op)), s.now + LEASE_MS)
  }

  lemma CountBegins(s: State, id: ClientId, op: CounterOp)
    requires id !in s.clients && !Locked(s.store, "A")
    ensures Apply(Apply(s, Begin(id, Count("A", op))), Step(id, true))
            == s.(store := Held(s.store, id), clients := s.clients[id := InLock(s.store, op)],
                  grants := s.grants + [("A", op)])
  {
    var c := Client(Count("A", op), Acquiring, 0);
    var begun := s.(clients := s.clients[id := c]);
    assert Apply(s, Begin(id, Count("A", op))) == begun;
    assert ClientStep(s.store, id, c, true) == (Held(s.store, id), InLock(s.store, op));
    assert begun.clients[id := InLock(s.store, op)] == s.clients[id := InLock(s.store, op)];
  }

  lemma CountGoesOn(t: State, id: ClientId, paces: seq<Pace>, store: Store, c: Client)
    requires id in t.clients && !t.clients[id].pc.Acquiring? && Alone(t.store, id, t.clients[id], paces) == (store, c)
    ensures Exec(t, Commands(id, paces)) == t.(store := store, clients := t.clients[id := c])
  {
    ExecCommands(t, id, paces);
  }

  // What one section leaves, when its commands take the store to `store` and the client to `c`.
  lemma CountRuns(s: State, id: ClientId, op: CounterOp, paces: seq<Pace>, store: Store, c: Client, rest: seq<Event>)
    requires id !in s.clients && !Locked(s.store, "A")
    requires Alone(Held(s.store, id), id, InLock(s.store, op), paces) == (store, c)
    ensures Exec(s, CountOnce(id, op, paces) + rest)
            == Exec(s.(store := store, clients := s.clients[id := c], grants := s.grants + [("A", op)]), rest)
  {
    var inside := InLock(s.store, op);
    var t := s.(store := Held(s.store, id), clients := s.clients[id := inside], grants := s.grants + [("A", op)]);
    CountBegins(s, id, op);
    assert !inside.pc.Acquiring?;
    CountGoesOn(t, id, paces, store, c);
    assert t.clients[id := c] == s.clients[id := c];
    ExecTwo(s, Begin(id, Count("A", op)), Step(id, true), Commands(id, paces));
    ExecConcat(s, CountOnce(id, op, paces), rest);
  }

  function Counter(n: nat): Store {
    EMPTY_STORE.(counters := map["A" := n])
  }

  // An undisturbed increment of an absent counter.
  lemma FirstIncrease()
    ensures Alone(Held(EMPTY_STORE, 0), 0, InLock(EMPTY_STORE, Increase), [OK, OK, OK])
            == (Counter(1), Client(Count("A", Increase), Finished, 10))
  {
    var s, c := Held(EMPTY_STORE, 0), InLock(EMPTY_STORE, Increase);
    AloneThree(s, 0, c, OK, OK, OK, s, c.(pc := WriteCounter(1)),
               s.(counters := s.counters["A" := 1]), c.(pc := Releasing));
    assert s.locks - {"A"} == map[];
    assert s.counters["A" := 1] == map["A" := 1];
  }

  predicate CounterFault(pc: Pc) {
    pc.ReadCounter? || pc.WriteCounter? || pc.DropCounter?
  }

  // A run in which only the command at `at` fails.
  function OneCounterFault(at: Pc): seq<Event>
    requires CounterFault(at)
  {
    if at.WriteCounter? then CountOnce(0, Increase, [OK, FAIL, OK])
    else
      CountOnce(0, Increase, [OK, OK, OK])
      + if at.ReadCounter? then CountOnce(1, Increase, [FAIL, OK, OK]) else CountOnce(1, Remove, [FAIL, OK])
  }

  const AFTER_ONE: State :=
    State(Counter(1), map[0 := Client(Count("A", Increase), Finished, 10)], map[], [("A", Increase)])

  lemma AtomicOfTwo(first: CounterOp, second: CounterOp)
    ensures Atomic([("A", first)], "A") == After(first, None)
    ensures Atomic([("A", first), ("A", second)], "A") == After(second, After(first, None))
  {
    AtomicSnoc([], "A", first, "A");
    AtomicSnoc([("A", first)], "A", second, "A");
    assert [] + [("A", first)] == [("A", first)];
    assert [("A", first)] + [("A", second)] == [("A", first), ("A", second)];
  }

  lemma LostWrite()
    ensures var s := Exec(INITIAL, CountOnce(0, Increase, [OK, FAIL, OK]));
            !Locked(s.store, "A") && Stored(s.store, "A") == None && s.grants == [("A", Increase)]
  {
    var s, c := Held(EMPTY_STORE, 0), InLock(EMPTY_STORE, Increase);
    AloneThree(s, 0, c, OK, FAIL, OK, s, c.(pc := WriteCounter(1)), s, c.(pc := Releasing));
    CountRuns(INITIAL, 0, Increase, [OK, FAIL, OK], s.(locks := s.locks - {"A"}), c.(pc := Finished), []);
    assert CountOnce(0, Increase, [OK, FAIL, OK]) + [] == CountOnce(0, Increase, [OK, FAIL, OK]);
  }

  lemma SecondSection(op: CounterOp, paces: seq<Pace>, store: Store, c: Client)
    requires Alone(Held(Counter(1), 1), 1, InLock(Counter(1), op), paces) == (store, c)
    ensures var s := Exec(INITIAL, CountOnce(0, Increase, [OK, OK, OK]) + CountOnce(1, op, paces));
            s.store == store && s.grants == [("A", Increase), ("A", op)]
  {
    FirstIncrease();
    CountRuns(INITIAL, 0, Increase, [OK, OK, OK], Counter(1), Client(Count("A", Increase), Finished, 10),
              CountOnce(1, op, paces));
    CountRuns(AFTER_ONE, 1, op, paces, store, c, []);
    assert CountOnce(1, op, paces) + [] == CountOnce(1, op, paces);
    assert INITIAL.grants + [("A", Increase)] == AFTER_ONE.grants;
  }

  lemma LostRead()
    ensures var s := Exec(INITIAL, OneCounterFault(ReadCounter));
            !Locked(s.store, "A") && Stored(s.store, "A") == Some(1)
            && s.grants == [("A", Increase), ("A", Increase)]
  {
    var s, c := Held(Counter(1), 1), InLock(Counter(1), Increase);
    var s2 := s.(counters := s.counters["A" := 1]);
    AloneThree(s, 1, c, FAIL, OK, OK, s, c.(pc := WriteCounter(1)), s2, c.(pc := Releasing));
    SecondSection(Increase, [FAIL, OK, OK], s2.(locks := s.locks - {"A"}), c.(pc := Finished));
  }

  lemma LostDrop()
    ensures var s := Exec(INITIAL, OneCounterFault(DropCounter));
            !Locked(s.store, "A") && Stored(s.store, "A") == Some(1) && s.grants == [("A", Increase), ("A", Remove)]
  {
    var s, c := Held(Counter(1), 1), InLock(Counter(1), Remove);
    AloneTwo(s, 1, c, FAIL, OK, s, c.(pc := Releasing));
    SecondSection(Remove, [FAIL, OK], s.(locks := s.locks - {"A"}), c.(pc := Finished));
  }

  /** Each single failure of a counter command, the read included, leaves the lock free and a counter other than
      the atomic one: none of these failures could have been allowed either. */
  lemma EveryCounterFaultLoses(at: Pc)
    requires CounterFault(at)
    ensures var s := Exec(INITIAL, OneCounterFault(at));
            !Locked(s.store, "A") && Stored(s.store, "A") != Atomic(s.grants, "A")
  {
    match at
    case ReadCounter =>
      LostRead();
      AtomicOfTwo(Increase, Increase);
    case WriteCounter(_) =>
      LostWrite();
      AtomicOfTwo(Increase, Increase);
    case DropCounter =>
      LostDrop();
      AtomicOfTwo(Increase, Remove);
  }

  // Two logins count themselves on server "A"; the first stalls between its read and its write.
  function StalledIncrease(): seq<Event> {
    CountOnce(0, Increase, [OK]) + ([Elapse(10)] + (CountOnce(1, Increase, [OK, OK, OK]) + Commands(0, [OK, OK])))
  }

  const LATE: Client := Client(Count("A", Increase), WriteCounter(1), 10)
  const TWO_GRANTS: seq<(string, CounterOp)> := [("A", Increase), ("A", Increase)]

  lemma StallsBeforeWrite(rest: seq<Event>)
    ensures Exec(INITIAL, CountOnce(0, Increase, [OK]) + ([Elapse(10)] + rest))
            == Exec(State(Elapsed(Held(EMPTY_STORE, 0), 10), map[0 := LATE], map[], [("A", Increase)]), rest)
  {
    var s := State(Held(EMPTY_STORE, 0), map[0 := LATE], map[], [("A", Increase)]);
    AloneOne(Held(EMPTY_STORE, 0), 0, InLock(EMPTY_STORE, Increase), OK);
    CountRuns(INITIAL, 0, Increase, [OK], Held(EMPTY_STORE, 0), LATE, [Elapse(10)] + rest);
    assert INITIAL.grants + [("A", Increase)] == s.grants;
    ExecFirst(s, Elapse(10), rest);
  }

  // The second one reads 0 as well, writes 1 and is done.
  lemma OvertakesWrite(rest: seq<Event>)
    ensures var s := State(Elapsed(Held(EMPTY_STORE, 0), 10), map[0 := LATE], map[], [("A", Increase)]);
            Exec(s, CountOnce(1, Increase, [OK, OK, OK]) + rest)
            == Exec(State(Elapsed(Counter(1), 10), map[0 := LATE, 1 := Client(Count("A", Increase), Finished, 20)],
                          map[], TWO_GRANTS), rest)
  {
    var s := State(Elapsed(Held(EMPTY_STORE, 0), 10), map[0 := LATE], map[], [("A", Increase)]);
    var t, c := Held(s.store, 1), InLock(s.store, Increase);
    var t2 := t.(counters := t.counters["A" := 1]);
    AloneThree(t, 1, c, OK, OK, OK, t, c.(pc := WriteCounter(1)), t2, c.(pc := Releasing));
    assert t.locks - {"A"} == map[] && t.counters["A" := 1] == map["A" := 1];
    CountRuns(s, 1, Increase, [OK, OK, OK], Elapsed(Counter(1), 10), c.(pc := Finished), rest);
    assert map[0 := LATE][1 := c.(pc := Finished)] == map[0 := LATE, 1 := c.(pc := Finished)];
    assert [("A", Increase)] + [("A", Increase)] == TWO_GRANTS;
  }

  lemma LateWrite()
    ensures var s := State(Elapsed(Counter(1), 10),
                           map[0 := LATE, 1 := Client(Count("A", Increase), Finished, 20)], map[], TWO_GRANTS);
            var t := Exec(s, Commands(0, [OK, OK]));
            && t.store == Elapsed(Counter(1), 10) && t.grants == TWO_GRANTS
            && forall id :: id in t.clients ==> t.clients[id].pc.Finished?
  {
    var s := State(Elapsed(Counter(1), 10), map[0 := LATE, 1 := Client(Count("A", Increase), Finished, 20)],
                   map[], TWO_GRANTS);
    assert map["A" := 1]["A" := 1] == map["A" := 1];
    AloneTwo(s.store, 0, LATE, OK, OK, s.store, LATE.(pc := Releasing));
    ExecCommands(s, 0, [OK, OK]);
  }

  lemma StalledIncreaseSucceeds()
    ensures AllSucceed(StalledIncrease())
  {
    CommandsSucceed(0, [OK]);
    CommandsSucceed(1, [OK, OK, OK]);
    CommandsSucceed(0, [OK, OK]);
  }

  /** When an increment outlives its lease another one is lost, although no command fails: two logins were granted
      the lock, every section is over, and the counter is 1. */
  lemma LapsedIncreaseLosesUpdate()
    ensures AllSucceed(StalledIncrease())
    ensures var s := Exec(INITIAL, StalledIncrease());
            && !Locked(s.store, "A") && Stored(s.store, "A") == Some(1)
            && s.grants == TWO_GRANTS && Atomic(s.grants, "A") == Some(2)
            && forall id :: id in s.clients ==> s.clients[id].pc.Finished?
  {
    StalledIncreaseSucceeds();
    StallsBeforeWrite(CountOnce(1, Increase, [OK, OK, OK]) + Commands(0, [OK, OK]));
    OvertakesWrite(Commands(0, [OK, OK]));
    LateWrite();
    AtomicOfTwo(Increase, Increase);
  }
}
