/** What the write pump keeps in every run, for any number of senders, completions and terminations. */
module WritePumpSafety {
  import opened Wrappers
  import opened WritePump

  predicate Owning(pc: Pc) {
    !(pc.Push? || pc.Claim? || pc.MarkState? || pc.MarkHandler? || pc.Done?)
  }

  ghost predicate Owner(s: State, t: nat) {
    t in s.threads && Owning(s.threads[t])
  }

  // The flag is a token: up exactly while one thread owns it or one write is outstanding, never two.
  ghost predicate Token(s: State) {
    && |s.outstanding| <= 1
    && (forall t, u :: Owner(s, t) && Owner(s, u) ==> t == u)
    && (forall t :: Owner(s, t) ==> s.outstanding == [])
    && (s.core.writing <==> s.outstanding != [] || exists t :: Owner(s, t))
  }

  // A popped message whose fate is still open.
  predicate InHand(pc: Pc) {
    pc.LoadState? || pc.StartWrite?
  }

  ghost predicate Holding(s: State) {
    exists t :: t in s.threads && InHand(s.threads[t])
  }

  predicate Closing(pc: Pc) {
    pc.TestHandler? || pc.StoreTerminated? || pc.RunHandler? || pc.ClearHandler? || pc == ResetFlag(false)
  }

  ghost predicate ThreadOk(s: State, t: nat)
    requires t in s.threads
  {
    match s.threads[t]
    case LoadState => s.popped != [] && s.core.current == Some(s.popped[|s.popped| - 1])
    case StartWrite => s.popped != [] && s.core.current == Some(s.popped[|s.popped| - 1])
    case StoreTerminated => s.core.handler.Some?
    case RunHandler => s.core.handler.Some?
    case MarkHandler(id) => id < s.registered && id !in s.ran && s.core.handler != Some(id)
    case _ => true
  }

  ghost predicate Buffers(s: State) {
    && s.popped + s.core.queue == s.pushed
    && (s.outstanding != [] ==> s.core.current == Some(s.outstanding[0]))
    && (forall t :: t in s.threads ==> ThreadOk(s, t))
  }

  // Each message on the wire has its place in the push order, in strictly increasing order.
  ghost predicate Placed(s: State) {
    && |s.places| == |s.wire|
    && (forall i :: 0 <= i < |s.places| ==> s.places[i] < |s.popped| && s.wire[i] == s.popped[s.places[i]])
    && (forall i, j :: 0 <= i < j < |s.places| ==> s.places[i] < s.places[j])
  }

  ghost predicate Fates(s: State) {
    && |s.wire| + s.drops + (if Holding(s) then 1 else 0) == |s.popped|
    && (Holding(s) && s.places != [] ==> s.places[|s.places| - 1] < |s.popped| - 1)
    && (s.drops == 0 ==> forall i :: 0 <= i < |s.places| ==> s.places[i] == i)
    && (s.core.state.Alive? ==> s.drops == 0 && forall t :: t in s.threads ==> !Closing(s.threads[t]))
  }

  ghost predicate Callbacks(s: State) {
    && (forall i, j :: 0 <= i < j < |s.ran| ==> s.ran[i] != s.ran[j])
    && (forall id :: id in s.ran ==> id < s.registered)
    && (s.core.handler.Some? ==> s.core.handler.value < s.registered)
    && (s.core.handler.Some? && s.core.handler.value in s.ran ==>
          exists t :: t in s.threads && s.threads[t].ClearHandler?)
    && (forall t, u :: t in s.threads && u in s.threads && t != u && s.threads[t].MarkHandler? ==>
          s.threads[t] != s.threads[u])
  }

  ghost predicate Inv(s: State) {
    Token(s) && Buffers(s) && Placed(s) && Fates(s) && Callbacks(s)
  }

  // What a step of thread t can do to the token: nothing, take it, give it back, or pass it to a write.
  lemma TokenMoves(s: State, t: nat)
    requires t in s.threads && ThreadOk(s, t)
    ensures var s' := Apply(s, Step(t));
            && t in s'.threads && s'.threads == s.threads[t := s'.threads[t]]
            && var before, after := Owning(s.threads[t]), Owning(s'.threads[t]);
            (|| (before == after && s'.core.writing == s.core.writing && s'.outstanding == s.outstanding)
             || (!before && after && !s.core.writing && s'.core.writing && s'.outstanding == s.outstanding)
             || (before && !after && !s'.core.writing && s'.outstanding == s.outstanding)
             || (before && !after && s'.core.writing == s.core.writing && |s'.outstanding| == |s.outstanding| + 1))
  {
  }

  lemma TokenStep(s: State, e: Event)
    requires Token(s) && Buffers(s)
    ensures Token(Apply(s, e))
  {
    var s' := Apply(s, e);
    if e.Step? && e.thread in s.threads {
      var t := e.thread;
      assert ThreadOk(s, t);
      TokenMoves(s, t);
      forall u | u != t ensures Owner(s', u) <==> Owner(s, u) { }
      if Owner(s, t) { assert s.outstanding == [] && s.core.writing; }
      if Owner(s', t) { assert s'.core.writing; }
    } else if e.Complete? && e.thread !in s.threads && e.write < |s.outstanding| {
      forall u | u != e.thread ensures Owner(s', u) <==> Owner(s, u) { }
      assert Owner(s', e.thread);
    } else {
      forall u ensures Owner(s', u) <==> Owner(s, u) { }
    }
  }

  // A message only moves from the end of the pushes to the queue, or from the queue to the pops.
  lemma QueueMoves(s: State, t: nat)
    requires t in s.threads && s.popped + s.core.queue == s.pushed
    ensures Apply(s, Step(t)).popped + Apply(s, Step(t)).core.queue == Apply(s, Step(t)).pushed
  {
    match s.threads[t]
    case Push(msg) => assert s.popped + (s.core.queue + [msg]) == s.pushed + [msg];
    case Pop =>
      if s.core.queue != [] {
        assert s.popped + s.core.queue == (s.popped + [s.core.queue[0]]) + s.core.queue[1..];
      }
    case _ =>
  }

  // The thread that moved: what it will rely on next.
  lemma MoverOk(s: State, t: nat)
    requires t in s.threads && ThreadOk(s, t) && (Owning(s.threads[t]) ==> s.outstanding == [])
    requires s.outstanding != [] ==> s.core.current == Some(s.outstanding[0])
    requires forall id :: id in s.ran ==> id < s.registered
    requires s.core.handler.Some? ==> s.core.handler.value < s.registered
    ensures var s' := Apply(s, Step(t));
            && ThreadOk(s', t)
            && (s'.outstanding != [] ==> s'.core.current == Some(s'.outstanding[0]))
  {
  }

  // Every other thread keeps what it relies on: only an owner disturbs an owner, and there is one.
  lemma OthersOk(s: State, t: nat, u: nat)
    requires t in s.threads && u in s.threads && t != u && ThreadOk(s, t) && ThreadOk(s, u)
    requires !(Owner(s, t) && Owner(s, u))
    requires s.threads[u].MarkHandler? ==> s.threads[t] != s.threads[u]
    ensures ThreadOk(Apply(s, Step(t)), u)
  {
  }

  lemma BuffersStep(s: State, e: Event)
    requires Inv(s)
    ensures Buffers(Apply(s, e))
  {
    var s' := Apply(s, e);
    if e.Step? && e.thread in s.threads {
      var t := e.thread;
      if Owning(s.threads[t]) { assert Owner(s, t); }
      MoverOk(s, t);
      QueueMoves(s, t);
      TokenMoves(s, t);
      forall u | u in s'.threads ensures ThreadOk(s', u) {
        if u != t {
          assert ThreadOk(s, u);
          OthersOk(s, t, u);
        }
      }
    } else {
      forall u | u in s'.threads ensures ThreadOk(s', u) {
        if u in s.threads { assert ThreadOk(s, u); }
      }
    }
  }

  // The steps of thread t that decide about messages, and all the others.
  lemma Deciding(s: State, t: nat)
    requires t in s.threads && ThreadOk(s, t)
    ensures var s' := Apply(s, Step(t));
            var before, after := InHand(s.threads[t]), InHand(s'.threads[t]);
            && (s'.core.state.Alive? ==> s.core.state.Alive?)
            && (|| (&& before == after && s'.popped == s.popped && s'.wire == s.wire && s'.places == s.places
                    && s'.drops == s.drops && (Closing(s'.threads[t]) ==> Closing(s.threads[t])))
                || (&& s.threads[t].Pop? && after && |s'.popped| == |s.popped| + 1 && s.popped == s'.popped[..|s.popped|]
                    && s'.wire == s.wire && s'.places == s.places && s'.drops == s.drops)
                || (&& before && !after && s'.popped == s.popped && s'.wire == s.wire && s'.places == s.places
                    && s'.drops == s.drops + 1 && !s.core.state.Alive? && !s'.core.state.Alive?)
                || (&& before && !after && s'.popped == s.popped && s'.wire == s.wire + [s.popped[|s.popped| - 1]]
                    && s'.places == s.places + [|s.popped| - 1] && s'.drops == s.drops && !Closing(s'.threads[t])))
  {
  }

  lemma PlacedKeeps(s: State, s': State)
    requires Placed(s) && s.popped <= s'.popped && s'.places == s.places && s'.wire == s.wire
    ensures Placed(s')
  {
  }

  lemma PlacedGrows(s: State, s': State)
    requires Placed(s) && s.popped != [] && s'.popped == s.popped
    requires s.places != [] ==> s.places[|s.places| - 1] < |s.popped| - 1
    requires s'.wire == s.wire + [s.popped[|s.popped| - 1]] && s'.places == s.places + [|s.popped| - 1]
    ensures Placed(s')
  {
  }

  lemma PlacedStep(s: State, t: nat)
    requires Inv(s) && t in s.threads
    ensures Placed(Apply(s, Step(t)))
  {
    var s' := Apply(s, Step(t));
    assert ThreadOk(s, t);
    Deciding(s, t);
    if s'.places == s.places {
      PlacedKeeps(s, s');
    } else {
      assert Holding(s);
      PlacedGrows(s, s');
    }
  }

  lemma FatesStep(s: State, t: nat)
    requires Token(s) && Buffers(s) && Placed(s) && Fates(s) && t in s.threads
    ensures Fates(Apply(s, Step(t)))
  {
    var s' := Apply(s, Step(t));
    assert ThreadOk(s, t);
    Deciding(s, t);
    HoldingAfter(s, t);
    assert forall i :: 0 <= i < |s.places| ==> s'.places[i] == s.places[i];
    TokenMoves(s, t);
    forall u | u in s'.threads && s'.core.state.Alive? ensures !Closing(s'.threads[u]) {
      if u != t { assert s'.threads[u] == s.threads[u]; }
    }
  }

  lemma OrderStep(s: State, e: Event)
    requires Inv(s)
    ensures Placed(Apply(s, e)) && Fates(Apply(s, e))
  {
    if e.Step? && e.thread in s.threads {
      PlacedStep(s, e.thread);
      FatesStep(s, e.thread);
    } else {
      QuietFates(s, e);
    }
  }

  // A call that begins and a write that ends leave every message where it is.
  lemma QuietFates(s: State, e: Event)
    requires Fates(s) && !(e.Step? && e.thread in s.threads)
    ensures Fates(Apply(s, e))
  {
    var s' := Apply(s, e);
    forall u | u in s.threads ensures u in s'.threads && s'.threads[u] == s.threads[u] { }
    forall u | u in s'.threads && (InHand(s'.threads[u]) || Closing(s'.threads[u])) ensures u in s.threads { }
    assert Holding(s') <==> Holding(s);
  }

  // Only the owner of the flag has a message in hand.
  lemma HoldingAfter(s: State, t: nat)
    requires Token(s) && t in s.threads && ThreadOk(s, t)
    ensures var s' := Apply(s, Step(t));
            && (InHand(s.threads[t]) || s.threads[t].Pop? ==> Holding(s) == InHand(s.threads[t]) && Holding(s') == InHand(s'.threads[t]))
            && (InHand(s.threads[t]) == InHand(s'.threads[t]) ==> Holding(s) == Holding(s'))
  {
    var s' := Apply(s, Step(t));
    TokenMoves(s, t);
    if Owning(s.threads[t]) {
      forall u | u in s.threads && u != t ensures !Owner(s, u) && !InHand(s.threads[u]) {
        assert Owner(s, t);
      }
    }
    forall u | u in s.threads && u != t ensures s'.threads[u] == s.threads[u] { }
    if InHand(s'.threads[t]) { assert Holding(s'); }
    if InHand(s.threads[t]) { assert Holding(s); }
    if u :| u in s.threads && u != t && InHand(s.threads[u]) { assert InHand(s'.threads[u]); }
  }

  // The steps of thread t that touch callbacks, and all the others.
  lemma CallbackMoves(s: State, t: nat)
    requires t in s.threads && ThreadOk(s, t)
    ensures var s' := Apply(s, Step(t));
            var pc, pc' := s.threads[t], s'.threads[t];
            && s'.threads == s.threads[t := pc']
            && (|| (&& s'.ran == s.ran && s'.registered == s.registered && s'.core.handler == s.core.handler
                    && !pc'.MarkHandler? && !pc.ClearHandler? && !pc'.ClearHandler?)
                || (&& pc.MarkState? && pc' == MarkHandler(s.registered) && s'.registered == s.registered + 1
                    && s'.ran == s.ran && s'.core.handler == s.core.handler)
                || (&& pc.MarkHandler? && s'.core.handler == Some(pc.id) && !pc'.MarkHandler? && !pc'.ClearHandler?
                    && s'.ran == s.ran && s'.registered == s.registered)
                || (&& pc.RunHandler? && pc'.ClearHandler? && s.core.handler.Some? && s'.core.handler == s.core.handler
                    && s'.ran == s.ran + [s.core.handler.value] && s'.registered == s.registered)
                || (&& pc.ClearHandler? && s'.core.handler == None && !pc'.MarkHandler?
                    && s'.ran == s.ran && s'.registered == s.registered))
  {
  }

  // A callback that has run is only still registered while its runner is about to clear it.
  lemma RunsOnce(s: State, t: nat)
    requires Token(s) && Callbacks(s) && t in s.threads && s.threads[t].RunHandler? && s.core.handler.Some?
    ensures s.core.handler.value !in s.ran && s.core.handler.value < s.registered
  {
    assert Owner(s, t);
    forall u | u in s.threads ensures !s.threads[u].ClearHandler? {
      assert Owner(s, u) ==> u == t;
    }
  }

  lemma CallbacksThreadStep(s: State, t: nat)
    requires Token(s) && Buffers(s) && Callbacks(s) && t in s.threads
    ensures Callbacks(Apply(s, Step(t)))
  {
    var s' := Apply(s, Step(t));
    assert ThreadOk(s, t);
    CallbackMoves(s, t);
    forall u | u in s.threads && s.threads[u].MarkHandler?
      ensures s.threads[u].id < s.registered && s.threads[u].id !in s.ran
    {
      assert ThreadOk(s, u);
    }
    if s.threads[t].RunHandler? {
      RunsOnce(s, t);
      assert s'.threads[t].ClearHandler?;
    } else if !s.threads[t].ClearHandler? && !s.threads[t].MarkHandler? {
      if u :| u in s.threads && s.threads[u].ClearHandler? { assert s'.threads[u].ClearHandler?; }
    }
  }

  lemma CallbacksStep(s: State, e: Event)
    requires Inv(s)
    ensures Callbacks(Apply(s, e))
  {
    if e.Step? && e.thread in s.threads {
      CallbacksThreadStep(s, e.thread);
    } else {
      var s' := Apply(s, e);
      if u :| u in s.threads && s.threads[u].ClearHandler? { assert s'.threads[u].ClearHandler?; }
    }
  }

  lemma InvStep(s: State, e: Event)
    requires Inv(s)
    ensures Inv(Apply(s, e))
  {
    TokenStep(s, e);
    BuffersStep(s, e);
    OrderStep(s, e);
    CallbacksStep(s, e);
  }

  lemma {:induction false} InvRun(s: State, events: seq<Event>)
    requires Inv(s)
    ensures Inv(Exec(s, events))
    decreases |events|
  {
    if events != [] {
      InvStep(s, events[0]);
      InvRun(Apply(s, events[0]), events[1..]);
    }
  }
}
