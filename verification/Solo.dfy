/** One client working undisturbed: its commands in a row, each taking its time and succeeding or failing, and
    the writing half of a login as one effect. */
module Solo {
  import opened Wrappers
  import opened Redis
  import opened Cluster

  // The time that passes before a command takes effect, and whether it succeeds.
  datatype Pace = Pace(wait: nat, ok: bool)

  const OK: Pace := Pace(0, true)
  const FAIL: Pace := Pace(0, false)

  function Elapsed(s: Store, ms: nat): Store {
    s.(now := s.now + ms)
  }

  function Commands(id: ClientId, paces: seq<Pace>): seq<Event> {
    if paces == [] then [] else [Elapse(paces[0].wait), Step(id, paces[0].ok)] + Commands(id, paces[1..])
  }

  // The client's next |paces| commands.
  function Alone(s: Store, id: ClientId, c: Client, paces: seq<Pace>): (Store, Client)
    decreases |paces|
  {
    if paces == [] then (s, c)
    else
      var (s', c') := ClientStep(Elapsed(s, paces[0].wait), id, c, paces[0].ok);
      Alone(s', id, c', paces[1..])
  }

  lemma ExecTwo(s: State, e: Event, f: Event, rest: seq<Event>)
    ensures Exec(s, [e, f] + rest) == Exec(Apply(Apply(s, e), f), rest)
  {
    assert ([e, f] + rest)[1..] == [f] + rest;
    assert ([f] + rest)[1..] == rest;
  }

  lemma OneCommand(s: State, id: ClientId, p: Pace)
    requires id in s.clients
    ensures var (store, c) := ClientStep(Elapsed(s.store, p.wait), id, s.clients[id], p.ok);
            var t := Apply(Apply(s, Elapse(p.wait)), Step(id, p.ok));
            && t.store == store && t.clients == s.clients[id := c] && t.homes == s.homes
            && c.job == s.clients[id].job && (c.pc.Acquiring? ==> s.clients[id].pc.Acquiring?)
            && (!(s.clients[id].job.Count? && s.clients[id].pc.Acquiring?) ==> t.grants == s.grants)
  {
    var s1 := Apply(s, Elapse(p.wait));
    assert s1 == s.(store := Elapsed(s.store, p.wait));
    StepEffect(s1, id, p.ok);
    JobStays(s1.store, id, s.clients[id], p.ok);
  }

  lemma StepEffect(s: State, id: ClientId, ok: bool)
    requires id in s.clients
    ensures var (store, c) := ClientStep(s.store, id, s.clients[id], ok);
            var t := Apply(s, Step(id, ok));
            && t.store == store && t.clients == s.clients[id := c] && t.homes == s.homes
            && (!(s.clients[id].job.Count? && s.clients[id].pc.Acquiring?) ==> t.grants == s.grants)
  {
  }

  /** Working undisturbed is a run of the cluster. */
  lemma {:induction false} ExecCommands(s: State, id: ClientId, paces: seq<Pace>)
    requires id in s.clients
    ensures var (store, c) := Alone(s.store, id, s.clients[id], paces);
            var t := Exec(s, Commands(id, paces));
            && t.store == store && t.clients == s.clients[id := c] && t.homes == s.homes
            && (!(s.clients[id].job.Count? && s.clients[id].pc.Acquiring?) ==> t.grants == s.grants)
    decreases |paces|
  {
    if paces == [] {
      assert s.clients == s.clients[id := s.clients[id]];
    } else {
      var p := paces[0];
      var t := Apply(Apply(s, Elapse(p.wait)), Step(id, p.ok));
      ExecTwo(s, Elapse(p.wait), Step(id, p.ok), Commands(id, paces[1..]));
      OneCommand(s, id, p);
      ExecCommands(t, id, paces[1..]);
    }
  }

  lemma JobStays(s: Store, id: ClientId, c: Client, ok: bool)
    ensures var c' := ClientStep(s, id, c, ok).1;
            c'.job == c.job && (c'.pc.Acquiring? ==> c.pc.Acquiring?)
  {
  }

  lemma {:induction false} ExecConcat(s: State, a: seq<Event>, b: seq<Event>)
    ensures Exec(s, a + b) == Exec(Exec(s, a), b)
    decreases |a|
  {
    if a == [] {
      assert a + b == b;
    } else {
      assert (a + b)[1..] == a[1..] + b;
      ExecConcat(Apply(s, a[0]), a[1..], b);
    }
  }

  lemma {:induction false} AloneConcat(s: Store, id: ClientId, c: Client, a: seq<Pace>, b: seq<Pace>)
    ensures var (s', c') := Alone(s, id, c, a);
            Alone(s, id, c, a + b) == Alone(s', id, c', b)
    decreases |a|
  {
    if a == [] {
      assert a + b == b;
    } else {
      assert (a + b)[1..] == a[1..] + b;
      var (s', c') := ClientStep(Elapsed(s, a[0].wait), id, c, a[0].ok);
      AloneConcat(s', id, c', a[1..], b);
    }
  }

  lemma AloneOne(s: Store, id: ClientId, c: Client, p: Pace)
    ensures Alone(s, id, c, [p]) == ClientStep(Elapsed(s, p.wait), id, c, p.ok)
  {
    assert [p][1..] == [];
  }

  lemma AloneSnoc(s: Store, id: ClientId, c: Client, paces: seq<Pace>, p: Pace)
    ensures var (s', c') := Alone(s, id, c, paces);
            Alone(s, id, c, paces + [p]) == ClientStep(Elapsed(s', p.wait), id, c', p.ok)
  {
    AloneConcat(s, id, c, paces, [p]);
    var (s', c') := Alone(s, id, c, paces);
    AloneOne(s', id, c', p);
  }

  lemma AloneTwo(s: Store, id: ClientId, c: Client, p: Pace, q: Pace, s1: Store, c1: Client)
    requires ClientStep(Elapsed(s, p.wait), id, c, p.ok) == (s1, c1)
    ensures Alone(s, id, c, [p, q]) == ClientStep(Elapsed(s1, q.wait), id, c1, q.ok)
  {
    AloneOne(s, id, c, p);
    AloneSnoc(s, id, c, [p], q);
    assert [p] + [q] == [p, q];
  }

  lemma AloneThree(s: Store, id: ClientId, c: Client, p: Pace, q: Pace, r: Pace,
                   s1: Store, c1: Client, s2: Store, c2: Client)
    requires ClientStep(Elapsed(s, p.wait), id, c, p.ok) == (s1, c1)
    requires ClientStep(Elapsed(s1, q.wait), id, c1, q.ok) == (s2, c2)
    ensures Alone(s, id, c, [p, q, r]) == ClientStep(Elapsed(s2, r.wait), id, c2, r.ok)
  {
    AloneTwo(s, id, c, p, q, s1, c1);
    AloneSnoc(s, id, c, [p, q], r);
    assert [p, q] + [r] == [p, q, r];
  }

  const FIVE: seq<Pace> := [OK, OK, OK, OK, OK]

  // From the first deletion on, a login replaces whatever binding there is and lets go of the lock.
  lemma LoginWrites(s: Store, id: ClientId, c: Client)
    requires c.job.Login? && c.pc.DropServer? && Locked(s, c.job.uuid) && s.locks[c.job.uuid].holder == id
    ensures var Login(uuid, server, session) := c.job;
            Alone(s, id, c, FIVE) ==
            (s.(servers := s.servers[uuid := server], sessions := s.sessions[uuid := session],
                locks := s.locks - {uuid}),
             c.(pc := Finished))
  {
    ServerWrites(s, id, c);
    var t := s.(servers := s.servers[c.job.uuid := c.job.server]);
    SessionWrites(t, id, c.(pc := DropSession));
    AloneConcat(s, id, c, [OK, OK], [OK, OK, OK]);
    assert [OK, OK] + [OK, OK, OK] == FIVE;
  }

  lemma ServerWrites(s: Store, id: ClientId, c: Client)
    requires c.job.Login? && c.pc.DropServer?
    ensures Alone(s, id, c, [OK, OK]) == (s.(servers := s.servers[c.job.uuid := c.job.server]), c.(pc := DropSession))
  {
    var s1 := s.(servers := s.servers - {c.job.uuid});
    assert ClientStep(Elapsed(s, 0), id, c, true) == (s1, c.(pc := WriteServer));
    AloneTwo(s, id, c, OK, OK, s1, c.(pc := WriteServer));
    assert s1.servers[c.job.uuid := c.job.server] == s.servers[c.job.uuid := c.job.server];
  }

  lemma SessionWrites(s: Store, id: ClientId, c: Client)
    requires c.job.Login? && c.pc.DropSession? && Locked(s, c.job.uuid) && s.locks[c.job.uuid].holder == id
    ensures Alone(s, id, c, [OK, OK, OK]) ==
            (s.(sessions := s.sessions[c.job.uuid := c.job.session], locks := s.locks - {c.job.uuid}),
             c.(pc := Finished))
  {
    var s1 := s.(sessions := s.sessions - {c.job.uuid});
    var s2 := s.(sessions := s.sessions[c.job.uuid := c.job.session]);
    assert ClientStep(Elapsed(s, 0), id, c, true) == (s1, c.(pc := WriteSession));
    assert s1.sessions[c.job.uuid := c.job.session] == s2.sessions;
    assert ClientStep(Elapsed(s1, 0), id, c.(pc := WriteSession), true) == (s2, c.(pc := Releasing));
    AloneThree(s, id, c, OK, OK, OK, s1, c.(pc := WriteSession), s2, c.(pc := Releasing));
  }
}
