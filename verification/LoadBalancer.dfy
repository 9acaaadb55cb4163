/** Dispatching users to the least loaded chat server.

    The balance server reads the counters one after the other, and users who were dispatched earlier log
    in between two reads.  Dispatches are made one at a time. */
module LoadBalancer {
  import opened Wrappers

  // What the read of one server's counter gives: no lock, no counter, or the counter.
  datatype Reading = NoLock | NoCounter | Load(n: nat)

  const MAX_SIZE: nat := 0xFFFF_FFFF_FFFF_FFFF
  const MAX_INT: nat := 0x7FFF_FFFF

  // A counter std::stoi cannot hold makes it throw.
  predicate Overflows(r: Reading) {
    r.Load? && r.n > MAX_INT
  }

  predicate Usable(r: Reading) {
    !r.NoLock? && !Overflows(r)
  }

  function Connections(r: Reading): nat {
    if r.Load? then r.n else MAX_SIZE
  }

  predicate UsableUpTo(readings: seq<Reading>, k: nat) {
    forall i: nat :: i < k && i < |readings| ==> Usable(readings[i])
  }

  /** Server k has the least counter of all that were read, and strictly less than those before it; only if no server
      has a counter it is simply the first. */
  ghost predicate FirstLeast(readings: seq<Reading>, k: nat)
    requires k < |readings|
  {
    if readings[k].Load? then
      && (forall i: nat :: i < |readings| && readings[i].Load? ==> readings[k].n <= readings[i].n)
      && (forall i: nat :: i < k && readings[i].Load? ==> readings[k].n < readings[i].n)
    else k == 0 && forall i: nat :: i < |readings| ==> !readings[i].Load?
  }

  datatype Choice = Chosen(server: nat) | NoServer | Thrown

  class GrpcDataLayer {
    var servers: seq<string>          // m_chattingServerInstances in iteration order
    var connections: seq<nat>         // _connections of each of them

    ghost predicate Valid()
      reads this
    {
      |connections| == |servers|
    }

    constructor (servers: seq<string>)
      ensures Valid() && this.servers == servers
    {
      this.servers := servers;
      connections := seq(|servers|, _ => 0);
    }

    /** chattingInstanceLoadBalancer: the first of the least loaded servers, a server without a counter counting as
        full; nothing without servers or when a lock cannot be had, an exception when a counter is too large for
        an int, whichever comes first. */
    method LeastLoaded(readings: seq<Reading>) returns (choice: Choice)
      requires Valid() && |readings| == |servers|
      modifies this
      ensures Valid() && servers == old(servers)
      ensures choice.Chosen? <==>
                && |servers| > 0
                && forall i: nat :: i < |servers| ==> readings[i].NoCounter? || (readings[i].Load? && readings[i].n <= 0x7FFF_FFFF)
      ensures choice.Thrown? <==> exists i: nat :: i < |servers| && Overflows(readings[i]) && UsableUpTo(readings, i)
      ensures choice.Thrown? ==> exists i: nat :: i < |servers| && readings[i].Load? && readings[i].n > 0x7FFF_FFFF
      ensures choice.Chosen? ==>
                && choice.server < |servers| && FirstLeast(readings, choice.server)
                && (forall i: nat :: i < |servers| ==>
                      connections[i] == if readings[i].Load? then readings[i].n else 0xFFFF_FFFF_FFFF_FFFF)
      ensures forall i :: 0 <= i < |servers| ==>
                connections[i] == if UsableUpTo(readings, i + 1) then Connections(readings[i]) else old(connections[i])
    {
      if |servers| == 0 {
        return NoServer;
      }
      var least := 0;
      if readings[0].NoLock? {
        return NoServer;
      }
      if Overflows(readings[0]) {
        return Thrown;
      }
      connections := connections[0 := Connections(readings[0])];
      for i := 1 to |servers|
        invariant Valid() && servers == old(servers) && least < i && UsableUpTo(readings, i)
        invariant forall k :: 0 <= k < i ==> connections[k] == Connections(readings[k])
        invariant forall k :: i <= k < |servers| ==> connections[k] == old(connections[k])
        invariant forall k :: 0 <= k < i ==> connections[least] <= connections[k]
        invariant forall k :: 0 <= k < least ==> connections[least] < connections[k]
      {
        if readings[i].NoLock? {
          return NoServer;
        }
        if Overflows(readings[i]) {
          return Thrown;
        }
        connections := connections[i := Connections(readings[i])];
        if connections[i] < connections[least] {
          least := i;
        }
      }
      assert forall i: nat :: i < |servers| ==> Usable(readings[i]);
      choice := Chosen(least);
    }
  }

  // ---- dispatches, logins and scans over time ----

  /** `counts[i]` is server i's counter, `pending[i]` the users sent to it who have not logged in yet. */
  datatype Scan = NoScan | Scan(next: nat, least: nat, load: nat)
  datatype State = State(counts: seq<nat>, pending: seq<nat>, scan: Scan)

  datatype Event =
    | StartScan          // a user asks for a server; the first counter is read
    | ReadNext           // the scan reads the next counter
    | Dispatch           // the scan is complete, its user is sent to the server it found
    | GiveUpScan         // a lock cannot be had
    | LogIn(server: nat) // a user sent to `server` logs in there

  function Sum(s: seq<nat>): nat {
    if s == [] then 0 else s[0] + Sum(s[1..])
  }

  function Fresh(n: nat): State {
    State(seq(n, _ => 0), seq(n, _ => 0), NoScan)
  }

  // Users between asking for a server and having logged in.
  function Underway(s: State): nat {
    Sum(s.pending) + (if s.scan.Scan? then 1 else 0)
  }

  // An event that cannot happen leaves the state as it is; at most k users are under way at once.
  function Apply(s: State, e: Event, k: nat): State
    requires |s.pending| == |s.counts|
    ensures |Apply(s, e, k).pending| == |Apply(s, e, k).counts| == |s.counts|
  {
    match e
    case StartScan =>
      if s.scan.Scan? || |s.counts| == 0 || Sum(s.pending) >= k then s
      else s.(scan := Scan(1, 0, s.counts[0]))
    case ReadNext =>
      if s.scan.NoScan? || s.scan.next >= |s.counts| then s
      else
        var i := s.scan.next;
        s.(scan := if s.counts[i] < s.scan.load then Scan(i + 1, i, s.counts[i]) else s.scan.(next := i + 1))
    case Dispatch =>
      if s.scan.NoScan? || s.scan.next < |s.counts| || s.scan.least >= |s.counts| then s
      else s.(pending := s.pending[s.scan.least := s.pending[s.scan.least] + 1], scan := NoScan)
    case GiveUpScan => s.(scan := NoScan)
    case LogIn(i) =>
      if i >= |s.counts| || s.pending[i] == 0 then s
      else s.(counts := s.counts[i := s.counts[i] + 1], pending := s.pending[i := s.pending[i] - 1])
  }

  function Exec(s: State, events: seq<Event>, k: nat): (r: State)
    requires |s.pending| == |s.counts|
    ensures |r.pending| == |r.counts| == |s.counts|
    decreases |events|
  {
    if events == [] then s else Exec(Apply(s, events[0], k), events[1..], k)
  }

  // Whether the running scan has server i as its least so far, found at a load of at most x.
  function Aimed(s: State, i: nat, x: nat): nat {
    if s.scan.Scan? && s.scan.least == i && s.scan.load <= x then 1 else 0
  }

  ghost predicate AtMostEvery(x: nat, counts: seq<nat>) {
    forall i :: 0 <= i < |counts| ==> x <= counts[i]
  }

  ghost predicate Within(s: State, i: nat, j: nat, x: nat, k: nat) {
    i < |s.counts| == |s.pending| && j < |s.counts| && s.counts[j] <= x ==>
      s.counts[i] + s.pending[i] + Aimed(s, i, x) <= x + k
  }

  /** Seen from any load x, a server carries at most k users more than x once x is at least the least
      counter: what it has, what is on the way, and the scan if it found the server at a load of at most x. */
  ghost predicate Spread(s: State, k: nat) {
    && |s.pending| == |s.counts|
    && Underway(s) <= k
    && (s.scan.Scan? ==>
          && s.scan.least < s.scan.next <= |s.counts|
          && s.scan.load <= s.counts[s.scan.least]
          && AtMostEvery(s.scan.load, s.counts[..s.scan.next]))
    && (forall i, j, x :: Within(s, i, j, x, k))
  }

  lemma {:induction false} SumUpdate(s: seq<nat>, i: nat, v: nat)
    requires i < |s|
    ensures Sum(s[i := v]) == Sum(s) - s[i] + v && s[i] <= Sum(s)
  {
    if i > 0 {
      assert s[i := v][1..] == s[1..][i - 1 := v];
      SumUpdate(s[1..], i - 1, v);
    } else {
      assert s[i := v][1..] == s[1..];
    }
  }

  lemma SpreadStep(s: State, e: Event, k: nat)
    requires Spread(s, k)
    ensures Spread(Apply(s, e, k), k)
  {
    var s' := Apply(s, e, k);
    if s' != s {
      forall i | 0 <= i < |s.counts| ensures s.pending[i] <= Sum(s.pending) { SumUpdate(s.pending, i, 0); }
      forall i, j, x ensures Within(s', i, j, x, k) { WithinStep(s, e, k, i, j, x); }
      match e
      case StartScan =>
      case ReadNext =>
        assert s.counts[..s.scan.next + 1] == s.counts[..s.scan.next] + [s.counts[s.scan.next]];
      case Dispatch =>
        SumUpdate(s.pending, s.scan.least, s.pending[s.scan.least] + 1);
        assert s.counts[..s.scan.next] == s.counts;
      case GiveUpScan =>
      case LogIn(i) =>
        SumUpdate(s.pending, i, s.pending[i] - 1);
    }
  }

  lemma WithinStep(s: State, e: Event, k: nat, i: nat, j: nat, x: nat)
    requires Spread(s, k)
    ensures Within(Apply(s, e, k), i, j, x, k)
  {
    assert Within(s, i, j, x, k);
    if i < |s.counts| { SumUpdate(s.pending, i, 0); }
    if e.Dispatch? && s.scan.Scan? && s.scan.next == |s.counts| {
      // the scan's load is at most every counter, so its server was already accounted for
      assert s.counts[..s.scan.next] == s.counts;
    }
  }

  lemma {:induction false} ZeroSum(n: nat)
    ensures Sum(seq(n, _ => 0)) == 0
  {
    if n > 0 {
      assert seq(n, _ => 0)[1..] == seq(n - 1, _ => 0);
      ZeroSum(n - 1);
    }
  }

  lemma {:induction false} SpreadRun(s: State, events: seq<Event>, k: nat)
    requires Spread(s, k)
    ensures Spread(Exec(s, events, k), k) && |Exec(s, events, k).counts| == |s.counts|
    decreases |events|
  {
    if events != [] {
      SpreadStep(s, events[0], k);
      SpreadRun(Apply(s, events[0], k), events[1..], k);
    }
  }

  /** With n servers starting at zero, no logouts and never more than k users under way, no server ever
      carries more than k users above any other, logged in or on their way: logins between the reads of
      a scan do not hurt. */
  lemma LoadsStayWithinK(n: nat, events: seq<Event>, k: nat, i: nat, j: nat)
    requires i < n && j < n
    ensures var s := Exec(Fresh(n), events, k);
            && |s.counts| == |s.pending| == n
            && s.counts[i] + s.pending[i] <= s.counts[j] + k
  {
    ZeroSum(n);
    SpreadRun(Fresh(n), events, k);
    var s := Exec(Fresh(n), events, k);
    assert Within(s, i, j, s.counts[j], k);
  }

  // k users in a row are sent to the first server before any of them logs in; then all of them do.
  function Rush(n: nat, users: nat): seq<Event> {
    if users == 0 then [] else [StartScan] + seq(n, _ => ReadNext) + [Dispatch] + Rush(n, users - 1)
  }

  lemma {:induction false} ExecConcat(s: State, a: seq<Event>, b: seq<Event>, k: nat)
    requires |s.pending| == |s.counts|
    ensures Exec(s, a + b, k) == Exec(Exec(s, a, k), b, k)
    decreases |a|
  {
    if a == [] {
      assert a + b == b;
    } else {
      assert (a + b)[1..] == a[1..] + b;
      ExecConcat(Apply(s, a[0], k), a[1..], b, k);
    }
  }

  // n servers without logged-in users, d of them on their way to the first one.
  function Crowd(n: nat, d: nat): State
    requires n > 0
  {
    State(seq(n, _ => 0), seq(n, _ => 0)[0 := d], NoScan)
  }

  lemma {:induction false} ScanIdle(n: nat, d: nat, k: nat, next: nat, steps: nat)
    requires n > 0 && 1 <= next <= n
    ensures var from := Crowd(n, d).(scan := Scan(next, 0, 0));
            Exec(from, seq(steps, _ => ReadNext), k)
            == from.(scan := Scan(if next + steps <= n then next + steps else n, 0, 0))
    decreases steps
  {
    if steps > 0 {
      assert seq(steps, _ => ReadNext)[1..] == seq(steps - 1, _ => ReadNext);
      ScanIdle(n, d, k, if next < n then next + 1 else n, steps - 1);
    }
  }

  lemma OneRush(n: nat, d: nat, k: nat)
    requires n > 0 && d < k
    ensures Exec(Crowd(n, d), [StartScan] + seq(n, _ => ReadNext) + [Dispatch], k) == Crowd(n, d + 1)
  {
    var steps := seq(n, _ => ReadNext);
    ZeroSum(n);
    SumUpdate(seq(n, _ => 0), 0, d);
    var s1 := Crowd(n, d).(scan := Scan(1, 0, 0));
    assert Apply(Crowd(n, d), StartScan, k) == s1;
    assert Exec(s1, [], k) == s1;
    assert Exec(Crowd(n, d), [StartScan], k) == s1;
    ExecConcat(Crowd(n, d), [StartScan], steps, k);
    ScanIdle(n, d, k, 1, n);
    var s2 := Crowd(n, d).(scan := Scan(n, 0, 0));
    ExecConcat(Crowd(n, d), [StartScan] + steps, [Dispatch], k);
    assert Apply(s2, Dispatch, k) == Crowd(n, d + 1);
    assert Exec(Crowd(n, d + 1), [], k) == Crowd(n, d + 1);
    assert Exec(s2, [Dispatch], k) == Crowd(n, d + 1);
  }

  lemma {:induction false} RushRun(n: nat, d: nat, users: nat, k: nat)
    requires n > 0 && d + users <= k
    ensures Exec(Crowd(n, d), Rush(n, users), k) == Crowd(n, d + users)
    decreases users
  {
    if users > 0 {
      var first := [StartScan] + seq(n, _ => ReadNext) + [Dispatch];
      assert Rush(n, users) == first + Rush(n, users - 1);
      OneRush(n, d, k);
      ExecConcat(Crowd(n, d), first, Rush(n, users - 1), k);
      RushRun(n, d + 1, users - 1, k);
    }
  }

  lemma {:induction false} AllLogIn(n: nat, c: nat, d: nat, k: nat)
    requires n > 0
    ensures Exec(Crowd(n, d).(counts := seq(n, _ => 0)[0 := c]), seq(d, _ => LogIn(0)), k)
            == Crowd(n, 0).(counts := seq(n, _ => 0)[0 := c + d])
    decreases d
  {
    var s := Crowd(n, d).(counts := seq(n, _ => 0)[0 := c]);
    if d > 0 {
      assert seq(d, _ => LogIn(0))[1..] == seq(d - 1, _ => LogIn(0));
      assert Apply(s, LogIn(0), k) == Crowd(n, d - 1).(counts := seq(n, _ => 0)[0 := c + 1]);
      AllLogIn(n, c + 1, d - 1, k);
    }
  }

  lemma FreshIsCrowd(n: nat)
    requires n > 0
    ensures Fresh(n) == Crowd(n, 0) && Crowd(n, 0).counts == seq(n, _ => 0)[0 := 0]
  {
    assert seq(n, _ => 0)[0 := 0] == seq(n, _ => 0);
  }

  lemma RushThenLogIn(n: nat, k: nat)
    requires n > 0
    ensures Exec(Crowd(n, 0), Rush(n, k) + seq(k, _ => LogIn(0)), k)
            == Crowd(n, 0).(counts := seq(n, _ => 0)[0 := k])
  {
    FreshIsCrowd(n);
    ExecConcat(Crowd(n, 0), Rush(n, k), seq(k, _ => LogIn(0)), k);
    RushRun(n, 0, k, k);
    AllLogIn(n, 0, k, k);
    assert Crowd(n, k) == Crowd(n, k).(counts := seq(n, _ => 0)[0 := 0]);
  }

  /** The bound is exact: for any number of servers but one and any k, some run drives the first counter
      k above all others. */
  lemma SpreadOfKIsReached(n: nat, k: nat)
    requires n > 1
    ensures var s := Exec(Fresh(n), Rush(n, k) + seq(k, _ => LogIn(0)), k);
            |s.counts| == n && s.counts[0] == k && forall i :: 1 <= i < n ==> s.counts[i] == 0
  {
    FreshIsCrowd(n);
    RushThenLogIn(n, k);
  }
}
