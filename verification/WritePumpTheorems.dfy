/** The promises of the write pump, for every run. */
module WritePumpTheorems {
  import opened Wrappers
  import opened WritePump
  import opened WritePumpSafety

  lemma Reachable(events: seq<Event>)
    ensures Inv(Exec(INITIAL, events))
  {
    InvRun(INITIAL, events);
  }

  /** At most one async_write is outstanding, it sends the message in m_current_write_msg, and nothing
      overwrites that message while the write is under way. */
  lemma OneWriteAtATime(events: seq<Event>, e: Event)
    ensures var s := Exec(INITIAL, events);
            && |s.outstanding| <= 1
            && (s.outstanding != [] ==>
                  && s.core.writing
                  && s.core.current == Some(s.outstanding[0])
                  && Apply(s, e).core.current == s.core.current)
  {
    Reachable(events);
    var s := Exec(INITIAL, events);
    if s.outstanding != [] && e.Step? && e.thread in s.threads {
      assert !Owner(s, e.thread);
    }
  }

  /** Messages leave the queue in the order in which they were pushed; those on the wire stand at
      strictly increasing places of the push order, so none is repeated and none overtakes another. */
  lemma WireFollowsPushOrder(events: seq<Event>)
    ensures var s := Exec(INITIAL, events);
            && s.popped + s.core.queue == s.pushed
            && |s.places| == |s.wire|
            && (forall i :: 0 <= i < |s.wire| ==> s.places[i] < |s.pushed| && s.wire[i] == s.pushed[s.places[i]])
            && (forall i, j :: 0 <= i < j < |s.wire| ==> s.places[i] < s.places[j])
  {
    Reachable(events);
    var s := Exec(INITIAL, events);
    assert forall i :: 0 <= i < |s.popped| ==> s.popped[i] == s.pushed[i];
  }

  /** While the session is Alive, every popped message but the one in a thread's hand is on the wire:
      the wire is a prefix of the push order with nothing skipped. */
  lemma AliveWireIsPrefix(events: seq<Event>)
    requires Exec(INITIAL, events).core.state.Alive?
    ensures var s := Exec(INITIAL, events);
            s.wire <= s.popped && s.wire <= s.pushed && |s.popped| == |s.wire| + (if Holding(s) then 1 else 0)
  {
    Reachable(events);
    var s := Exec(INITIAL, events);
    assert forall i :: 0 <= i < |s.wire| ==> s.wire[i] == s.popped[i] == s.pushed[i];
  }

  /** Once the session has been told to terminate, the wire lags the pops by exactly the discarded
      messages; without a discarded message it is still a prefix. */
  lemma DroppedAccountsForGaps(events: seq<Event>)
    ensures var s := Exec(INITIAL, events);
            && |s.popped| == |s.wire| + s.drops + (if Holding(s) then 1 else 0)
            && (s.drops == 0 ==> s.wire <= s.pushed)
  {
    Reachable(events);
    var s := Exec(INITIAL, events);
    if s.drops == 0 {
      assert forall i :: 0 <= i < |s.wire| ==> s.wire[i] == s.popped[i] == s.pushed[i];
    }
  }

  /** A deferred close callback runs only in the thread that owns the write flag, with no write
      outstanding, and no registered callback runs twice. */
  lemma CloseNeverInterruptsWrite(events: seq<Event>, e: Event)
    ensures var s := Exec(INITIAL, events);
            var s' := Apply(s, e);
            && (s'.ran != s.ran ==>
                  && e.Step? && Owner(s, e.thread)
                  && s.core.writing && s.outstanding == [] && s'.outstanding == []
                  && !s.core.state.Alive?)
            && (forall i, j :: 0 <= i < j < |s.ran| ==> s.ran[i] != s.ran[j])
  {
    Reachable(events);
    var s := Exec(INITIAL, events);
    if e.Step? && e.thread in s.threads {
      assert ThreadOk(s, e.thread);
      CallbackMoves(s, e.thread);
      if s.threads[e.thread].RunHandler? { assert Owner(s, e.thread); }
    }
  }

  // ---- after a write error ----

  ghost predicate WriteFailed(s: State) {
    exists t :: t in s.threads && (s.threads[t].Purging? || s.threads[t].Retired?)
  }

  lemma FailedStep(s: State, e: Event)
    requires Token(s) && WriteFailed(s)
    ensures var s' := Apply(s, e);
            WriteFailed(s') && s'.wire == s.wire && s'.popped == s.popped && s'.ran == s.ran && s'.core.writing
  {
    var t :| t in s.threads && (s.threads[t].Purging? || s.threads[t].Retired?);
    assert Owner(s, t);
    var s' := Apply(s, e);
    if e.Step? && e.thread in s.threads {
      if e.thread != t { assert !Owner(s, e.thread); }
    }
    assert t in s'.threads && (s'.threads[t].Purging? || s'.threads[t].Retired?);
  }

  /** A failed write keeps the flag for ever: from then on the pump sends nothing, pops nothing and
      runs no close callback. */
  lemma {:induction false} FailedWriteSilencesSession(s: State, events: seq<Event>)
    requires Inv(s) && WriteFailed(s)
    ensures var s' := Exec(s, events);
            s'.wire == s.wire && s'.popped == s.popped && s'.ran == s.ran && WriteFailed(s')
    decreases |events|
  {
    if events != [] {
      FailedStep(s, events[0]);
      InvStep(s, events[0]);
      FailedWriteSilencesSession(Apply(s, events[0]), events[1..]);
    }
  }

  // ---- is the queue drained at rest? ----

  // A sender finds the flag up although its owner has already seen an empty queue.
  ghost predicate MissedWakeup(s: State, e: Event) {
    && e.Step? && e.thread in s.threads && s.threads[e.thread].Claim?
    && exists t :: t in s.threads && s.threads[t] == ResetFlag(true)
  }

  ghost predicate NoMissedWakeups(s: State, events: seq<Event>)
    decreases |events|
  {
    events != [] ==> !MissedWakeup(s, events[0]) && NoMissedWakeups(Apply(s, events[0]), events[1..])
  }

  ghost predicate AtRest(s: State) {
    s.outstanding == [] && forall t :: t in s.threads ==> s.threads[t].Done?
  }

  // Someone is still going to look at the queue.
  ghost predicate Attended(s: State) {
    || s.outstanding != []
    || exists t :: t in s.threads && (s.threads[t].Claim? || (Owning(s.threads[t]) && !s.threads[t].ResetFlag?))
  }

  ghost predicate Draining(s: State) {
    s.core.queue != [] && s.core.state.Alive? ==> Attended(s)
  }

  lemma DrainingStep(s: State, e: Event)
    requires Inv(s) && Draining(s) && !MissedWakeup(s, e)
    ensures Draining(Apply(s, e))
  {
    var s' := Apply(s, e);
    if e.Step? && e.thread in s.threads {
      DrainingThreadStep(s, e.thread);
    } else if s.outstanding != [] {
      if e.Complete? && e.thread !in s.threads && e.write < |s.outstanding| {
        assert Owning(s'.threads[e.thread]) && !s'.threads[e.thread].ResetFlag?;
      }
    } else {
      forall t | t in s.threads ensures t in s'.threads && s'.threads[t] == s.threads[t] { }
    }
  }

  // A thread that will not look at the queue again leaves the one that will in place.
  lemma OtherAttends(s: State, t: nat)
    requires t in s.threads && (s.threads[t].ResetFlag? || s.threads[t].MarkHandler? || s.threads[t].Done?)
    requires Attended(s)
    ensures Attended(Apply(s, Step(t)))
  {
    var s' := Apply(s, Step(t));
    if s.outstanding == [] {
      var u :| u in s.threads && (s.threads[u].Claim? || (Owning(s.threads[u]) && !s.threads[u].ResetFlag?));
      assert s'.threads[u] == s.threads[u];
    }
  }

  // A sender that finds the flag up can rely on its owner, unless the wake-up is missed.
  lemma OwnerAttends(s: State, t: nat)
    requires Inv(s) && t in s.threads && s.threads[t].Claim? && s.core.writing && s.core.state.Alive?
    requires !MissedWakeup(s, Step(t))
    ensures Attended(Apply(s, Step(t)))
  {
    var s' := Apply(s, Step(t));
    if s.outstanding == [] {
      var u :| Owner(s, u);
      assert s'.threads[u] == s.threads[u];
      assert !Closing(s.threads[u]);
    }
  }

  lemma DrainingThreadStep(s: State, t: nat)
    requires Inv(s) && Draining(s) && t in s.threads && !MissedWakeup(s, Step(t))
    ensures Draining(Apply(s, Step(t)))
  {
    var s' := Apply(s, Step(t));
    assert ThreadOk(s, t);
    var pc' := s'.threads[t];
    if s'.core.queue != [] && s'.core.state.Alive? && !pc'.Claim? && !(Owning(pc') && !pc'.ResetFlag?) {
      if s.threads[t].Claim? {
        OwnerAttends(s, t);
      } else if s.threads[t].ResetFlag? || s.threads[t].MarkHandler? || s.threads[t].Done? {
        OtherAttends(s, t);
      }
    }
  }

  lemma {:induction false} DrainingRun(s: State, events: seq<Event>)
    requires Inv(s) && Draining(s) && NoMissedWakeups(s, events)
    ensures Inv(Exec(s, events)) && Draining(Exec(s, events))
    decreases |events|
  {
    if events != [] {
      InvStep(s, events[0]);
      DrainingStep(s, events[0]);
      DrainingRun(Apply(s, events[0]), events[1..]);
    }
  }

  /** In a run without a missed wake-up, an Alive session at rest has sent everything ever pushed. */
  lemma DrainedAtRest(events: seq<Event>)
    requires NoMissedWakeups(INITIAL, events)
    requires var s := Exec(INITIAL, events); AtRest(s) && s.core.state.Alive?
    ensures var s := Exec(INITIAL, events); s.core.queue == [] && s.wire == s.pushed
  {
    DrainingRun(INITIAL, events);
    AliveWireIsPrefix(events);
    var s := Exec(INITIAL, events);
    assert !Attended(s);
    assert s.popped + s.core.queue == s.popped;
  }

  // Whether the queue was empty when the flag was last lowered, `last` being the answer so far.
  predicate SeenEmpty(s: State, e: Event, last: bool) {
    if e.Step? && e.thread in s.threads && s.threads[e.thread].ResetFlag? then s.core.queue == [] else last
  }

  predicate LastSeenEmpty(s: State, events: seq<Event>, last: bool)
    decreases |events|
  {
    if events == [] then last else LastSeenEmpty(Apply(s, events[0]), events[1..], SeenEmpty(s, events[0], last))
  }

  // With the flag down and no sender about to try it, the queue is as the last owner left it.
  ghost predicate LeftBehind(s: State, last: bool) {
    s.core.state.Alive? && !s.core.writing && (forall t :: t in s.threads ==> !s.threads[t].Claim?)
    ==> (s.core.queue == [] <==> last)
  }

  // A step that leaves the flag down and its thread past its try either lowered it or left the queue alone.
  lemma FlagDownAfter(c: Core, pc: Pc)
    ensures var (after, next, _) := LocalStep(c, pc);
            && (after.state.Alive? ==> c.state.Alive?)
            && (!after.writing && !next.Claim? ==>
                  if pc.ResetFlag? then after.queue == c.queue
                  else !c.writing && !pc.Claim? && (Owning(pc) || after.queue == c.queue))
  {
  }

  lemma LeftBehindStep(s: State, e: Event, last: bool)
    requires Token(s) && LeftBehind(s, last)
    ensures LeftBehind(Apply(s, e), SeenEmpty(s, e, last))
  {
    var s' := Apply(s, e);
    forall t | t in s.threads && !(e.Step? && e.thread == t) ensures t in s'.threads && s'.threads[t] == s.threads[t] { }
    if e.Step? && e.thread in s.threads && !s.threads[e.thread].MarkState? {
      FlagDownAfter(s.core, s.threads[e.thread]);
      assert Owning(s.threads[e.thread]) ==> Owner(s, e.thread);
      assert e.thread in s'.threads;
    }
  }

  lemma {:induction false} LeftBehindRun(s: State, events: seq<Event>, last: bool)
    requires Inv(s) && LeftBehind(s, last)
    ensures Inv(Exec(s, events)) && LeftBehind(Exec(s, events), LastSeenEmpty(s, events, last))
    decreases |events|
  {
    if events != [] {
      InvStep(s, events[0]);
      LeftBehindStep(s, events[0], last);
      LeftBehindRun(Apply(s, events[0]), events[1..], SeenEmpty(s, events[0], last));
    }
  }

  /** Exactly when: an Alive session at rest has sent everything ever pushed if and only if the queue was empty
      when the write flag was last lowered, that is, no push came between the last failed pop and the reset. */
  lemma DrainedAtRestIff(events: seq<Event>)
    requires var s := Exec(INITIAL, events); AtRest(s) && s.core.state.Alive?
    ensures var s := Exec(INITIAL, events); s.wire == s.pushed <==> LastSeenEmpty(INITIAL, events, true)
  {
    LeftBehindRun(INITIAL, events, true);
    AliveWireIsPrefix(events);
    var s := Exec(INITIAL, events);
    assert forall t :: !Owner(s, t);
    assert s.wire == s.popped;
    assert |s.pushed| == |s.popped| + |s.core.queue|;
    if s.core.queue == [] { assert s.popped + s.core.queue == s.popped; }
  }

  // Thread 0 sends `a`, its write completes, and the handler (thread 2) is about to lower the flag ...
  function SendOne(a: Message): seq<Event> {
    [Send(0, a), Step(0), Step(0), Step(0)] + [Step(0), Step(0), Complete(2, 0, true), Step(2)]
  }

  // ... when thread 1 pushes `b` and finds the flag still up.
  function PushLate(b: Message): seq<Event> {
    [Send(1, b), Step(1), Step(1), Step(2)]
  }

  lemma ExecFour(s: State, e: Event, f: Event, g: Event, h: Event, rest: seq<Event>)
    ensures Exec(s, [e, f, g, h] + rest) == Exec(Apply(Apply(Apply(Apply(s, e), f), g), h), rest)
  {
    ExecOne(s, e, [f, g, h] + rest);
    ExecOne(Apply(s, e), f, [g, h] + rest);
    ExecOne(Apply(Apply(s, e), f), g, [h] + rest);
    ExecOne(Apply(Apply(Apply(s, e), f), g), h, rest);
    assert [e] + ([f, g, h] + rest) == [e, f, g, h] + rest;
    assert [f] + ([g, h] + rest) == [f, g, h] + rest;
    assert [g] + ([h] + rest) == [g, h] + rest;
  }

  lemma ExecOne(s: State, e: Event, rest: seq<Event>)
    ensures Exec(s, [e] + rest) == Exec(Apply(s, e), rest)
  {
    assert ([e] + rest)[1..] == rest;
  }

  function Sent(a: Message, threads: map<nat, Pc>): State {
    State(Core(true, Alive, None, Some(a), []), threads, [], [a], [a], [a], [0], 0, 0, [])
  }

  lemma OneSent(a: Message, rest: seq<Event>)
    ensures Exec(INITIAL, SendOne(a) + rest) == Exec(Sent(a, map[0 := Done, 2 := ResetFlag(true)]), rest)
  {
    var back := [Step(0), Step(0), Complete(2, 0, true), Step(2)];
    assert SendOne(a) + rest == [Send(0, a), Step(0), Step(0), Step(0)] + (back + rest);
    ExecFour(INITIAL, Send(0, a), Step(0), Step(0), Step(0), back + rest);
    FirstHalf(a);
    ExecFour(InHandState(a), Step(0), Step(0), Complete(2, 0, true), Step(2), rest);
    SecondHalf(a);
  }

  function InHandState(a: Message): State {
    State(Core(true, Alive, None, Some(a), []), map[0 := LoadState], [], [a], [a], [], [], 0, 0, [])
  }

  lemma FirstHalf(a: Message)
    ensures Apply(Apply(Apply(Apply(INITIAL, Send(0, a)), Step(0)), Step(0)), Step(0)) == InHandState(a)
  {
    var s1 := INITIAL.(threads := map[0 := Push(a)]);
    var s2 := INITIAL.(core := FRESH.(queue := [a]), pushed := [a], threads := map[0 := Claim]);
    var s3 := s2.(core := s2.core.(writing := true), threads := map[0 := Pop]);
    assert Apply(INITIAL, Send(0, a)) == s1;
    assert Apply(s1, Step(0)) == s2;
    assert Apply(s2, Step(0)) == s3;
    assert Apply(s3, Step(0)) == InHandState(a);
  }

  lemma SecondHalf(a: Message)
    ensures Apply(Apply(Apply(Apply(InHandState(a), Step(0)), Step(0)), Complete(2, 0, true)), Step(2))
            == Sent(a, map[0 := Done, 2 := ResetFlag(true)])
  {
    var s1 := InHandState(a).(threads := map[0 := StartWrite]);
    var s2 := Sent(a, map[0 := Done]).(outstanding := [a]);
    var s3 := Sent(a, map[0 := Done, 2 := Pop]);
    assert Apply(InHandState(a), Step(0)) == s1;
    assert Apply(s1, Step(0)) == s2;
    assert Apply(s2, Complete(2, 0, true)) == s3;
    assert Apply(s3, Step(2)) == Sent(a, map[0 := Done, 2 := ResetFlag(true)]);
  }

  /** The wake-up can be missed: an Alive session at rest with a message left in its queue. */
  lemma MissedWakeupStrands(a: Message, b: Message)
    ensures var s := Exec(INITIAL, SendOne(a) + PushLate(b));
            AtRest(s) && s.core.state.Alive? && s.core.queue == [b] && s.wire == [a] && s.pushed == [a, b]
  {
    OneSent(a, PushLate(b));
    assert PushLate(b) == PushLate(b) + [];
    ExecFour(Sent(a, map[0 := Done, 2 := ResetFlag(true)]), Send(1, b), Step(1), Step(1), Step(2), []);
    LatePush(a, b);
  }

  lemma LatePush(a: Message, b: Message)
    ensures Apply(Apply(Apply(Apply(Sent(a, map[0 := Done, 2 := ResetFlag(true)]), Send(1, b)), Step(1)), Step(1)), Step(2))
            == Sent(a, map[0 := Done, 1 := Done, 2 := Done]).(core := Core(false, Alive, None, Some(a), [b]), pushed := [a, b])
  {
    var s0 := Sent(a, map[0 := Done, 2 := ResetFlag(true)]);
    var s1 := s0.(threads := map[0 := Done, 2 := ResetFlag(true), 1 := Push(b)]);
    var s2 := s0.(core := s0.core.(queue := [b]), pushed := [a, b], threads := map[0 := Done, 2 := ResetFlag(true), 1 := Claim]);
    var s3 := s2.(threads := map[0 := Done, 2 := ResetFlag(true), 1 := Done]);
    assert Apply(s0, Send(1, b)) == s1;
    assert Apply(s1, Step(1)) == s2;
    assert Apply(s2, Step(1)) == s3;
  }
}
