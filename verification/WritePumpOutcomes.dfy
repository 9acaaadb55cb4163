/** What each event of the write pump comes to when the thread it starts is left to run undisturbed, in the shared
    fields and in every history. */
module WritePumpOutcomes {
  import opened Wrappers
  import opened WritePump
  import opened SessionWriter
  import opened WritePumpTheorems

  // The same messages pushed, popped, sent and discarded, the same callbacks registered and run.
  ghost predicate SameHistories(before: State, after: State) {
    && after.pushed == before.pushed && after.popped == before.popped && after.wire == before.wire
    && after.outstanding == before.outstanding && after.drops == before.drops && after.ran == before.ran
    && after.registered == before.registered
  }

  /** The oldest queued message is taken by the owner of the flag.  With nothing queued the flag comes down.  While the
      session is Alive or already Terminated the message is written and the flag stays as it is.  Once it is
      terminating the message is discarded, a registered callback runs, is forgotten and leaves the session
      Terminated, and the flag comes down. */
  ghost predicate OldestTaken(before: State, after: State) {
    var c, d := before.core, after.core;
    if c.queue == [] then SameHistories(before, after) && d == c.(writing := false)
    else
      && after.popped == before.popped + [c.queue[0]] && d.queue == c.queue[1..] && d.current == Some(c.queue[0])
      && after.pushed == before.pushed && after.registered == before.registered
      && if c.state.LogoutPending? || c.state.Kicked? then
           && !d.writing && after.wire == before.wire && after.outstanding == before.outstanding
           && after.drops == before.drops + 1 && d.handler == None
           && d.state == (if c.handler.Some? then Terminated else c.state)
           && after.ran == before.ran + if c.handler.Some? then [c.handler.value] else []
         else
           && d.writing == c.writing && d.state == c.state && d.handler == c.handler
           && after.wire == before.wire + [c.queue[0]] && after.outstanding == before.outstanding + [c.queue[0]]
           && after.drops == before.drops && after.ran == before.ran
  }

  // What one, two and three effects add to the histories.
  lemma OneEffect(e: Effect)
    requires !e.Silent?
    ensures Pushes([e]) == PushOf(e) && Pops([e]) == PopOf(e) && Writes([e]) == WriteOf(e)
    ensures Runs([e]) == RunOf(e) && Drops([e]) == DropOf(e)
  {
    assert [e][1..] == [];
  }

  lemma TwoEffects(e: Effect, f: Effect)
    requires !e.Silent? && !f.Silent?
    ensures Pushes([e, f]) == PushOf(e) + PushOf(f) && Pops([e, f]) == PopOf(e) + PopOf(f)
    ensures Writes([e, f]) == WriteOf(e) + WriteOf(f) && Runs([e, f]) == RunOf(e) + RunOf(f)
    ensures Drops([e, f]) == DropOf(e) + DropOf(f)
  {
    OneEffect(f);
    ConsAdds(e, [f]);
    assert [e] + [f] == [e, f];
  }

  lemma ThreeEffects(e: Effect, f: Effect, g: Effect)
    requires !e.Silent? && !f.Silent? && !g.Silent?
    ensures Pushes([e, f, g]) == PushOf(e) + (PushOf(f) + PushOf(g)) && Pops([e, f, g]) == PopOf(e) + (PopOf(f) + PopOf(g))
    ensures Writes([e, f, g]) == WriteOf(e) + (WriteOf(f) + WriteOf(g)) && Runs([e, f, g]) == RunOf(e) + (RunOf(f) + RunOf(g))
    ensures Drops([e, f, g]) == DropOf(e) + DropOf(f) + DropOf(g)
  {
    TwoEffects(f, g);
    ConsAdds(e, [f, g]);
    assert [e] + [f, g] == [e, f, g];
  }

  // The effects of taking the oldest message, added up.
  lemma EffectsOfTaking(before: State, after: State, effects: seq<Effect>)
    requires Adds(before, after, effects) && TakesNext(before.core, after.core, effects)
    ensures OldestTaken(before, after)
  {
    if |effects| == 2 {
      TwoEffects(effects[0], effects[1]);
    } else if |effects| == 3 {
      ThreeEffects(effects[0], effects[1], effects[2]);
    }
  }

  lemma TakingRun(s: State, t: nat, n: nat)
    requires t in s.threads && s.threads[t].Pop? && n >= 8
    ensures var after := Exec(s, Steps(t, n));
            OldestTaken(s, after) && after.threads == s.threads[t := Done]
  {
    AloneEnds(s, t, n);
    AloneIsARun(s, t, n);
    PopAlone(s.core);
    EffectsOfTaking(s, Exec(s, Steps(t, n)), Alone(s.core, Pop).1);
  }

  function WithoutWrite(s: State, i: nat): State
    requires i < |s.outstanding|
  {
    s.(outstanding := s.outstanding[..i] + s.outstanding[i + 1..])
  }

  lemma FailingRun(s: State, t: nat, n: nat)
    requires t in s.threads && s.threads[t].Purging? && n >= 2
    ensures var after := Exec(s, Steps(t, n));
            SameHistories(s, after) && after.core == s.core && after.threads == s.threads[t := Retired]
  {
    AloneEnds(s, t, n);
    AloneIsARun(s, t, n);
    assert Alone(s.core, Retired) == (s.core, []);
    assert Alone(s.core, Purging) == (s.core, []);
  }

  /** An outstanding write completes and its handler runs to its end: after a success the oldest queued message is
      taken; after an error nothing changes but that the write is no longer outstanding, and the flag stays up. */
  lemma CompletionOutcome(s: State, t: nat, i: nat, ok: bool, n: nat)
    requires t !in s.threads && i < |s.outstanding| && n >= 8
    ensures var after := Exec(s, [Complete(t, i, ok)] + Steps(t, n));
            && after.threads == s.threads[t := if ok then Done else Retired]
            && if ok then OldestTaken(WithoutWrite(s, i), after)
               else SameHistories(WithoutWrite(s, i), after) && after.core == s.core
  {
    var started := WithoutWrite(s, i).(threads := s.threads[t := if ok then Pop else Purging]);
    ExecOne(s, Complete(t, i, ok), Steps(t, n));
    assert Apply(s, Complete(t, i, ok)) == started;
    if ok {
      TakingRun(started, t, n);
      assert started.threads[t := Done] == s.threads[t := Done];
    } else {
      FailingRun(started, t, n);
      assert started.threads[t := Retired] == s.threads[t := Retired];
    }
  }

  /** Some thread calls sendMessage and runs to its end: its message is queued, and that is all while the flag is up;
      with the flag down it is raised and the oldest queued message is taken. */
  lemma SendingOutcome(s: State, t: nat, msg: Message, n: nat)
    requires t !in s.threads && n >= 10
    ensures var pushed := s.(core := s.core.(queue := s.core.queue + [msg]), pushed := s.pushed + [msg]);
            var after := Exec(s, [Send(t, msg)] + Steps(t, n));
            && after.threads == s.threads[t := Done]
            && if s.core.writing then SameHistories(pushed, after) && after.core == pushed.core
               else OldestTaken(pushed.(core := pushed.core.(writing := true)), after)
  {
    var started := s.(threads := s.threads[t := Push(msg)]);
    ExecOne(s, Send(t, msg), Steps(t, n));
    var queued := s.(core := s.core.(queue := s.core.queue + [msg]), pushed := s.pushed + [msg],
                     threads := started.threads[t := Claim]);
    StepFirst(started, t, n);
    assert Apply(started, Step(t)) == queued;
    var claimed := queued.(core := queued.core.(writing := true),
                           threads := queued.threads[t := if s.core.writing then Done else Pop]);
    StepFirst(queued, t, n - 1);
    assert Apply(queued, Step(t)) == claimed;
    assert claimed.threads[t := Done] == s.threads[t := Done];
    if s.core.writing {
      AloneEnds(claimed, t, n - 2);
      AloneIsARun(claimed, t, n - 2);
      assert Alone(claimed.core, Done) == (claimed.core, []);
    } else {
      TakingRun(claimed, t, n - 2);
    }
  }

  lemma RegisteringRun(s: State, t: nat, n: nat)
    requires t in s.threads && s.threads[t].MarkHandler? && n >= 1
    ensures var after := Exec(s, Steps(t, n));
            && SameHistories(s, after) && after.core == s.core.(handler := Some(s.threads[t].id))
            && after.threads == s.threads[t := Done]
  {
    AloneEnds(s, t, n);
    AloneIsARun(s, t, n);
    var core := s.core.(handler := Some(s.threads[t].id));
    assert Alone(core, Done) == (core, []);
  }

  /** Some thread calls markAsDeferredTerminated and runs to its end: the session is LogoutPending, and the callback
      registered, replacing an older one, has a number no callback had before. */
  lemma DeferralOutcome(s: State, t: nat, n: nat)
    requires t !in s.threads && n >= 2
    ensures var after := Exec(s, [Defer(t)] + Steps(t, n));
            && after.core == s.core.(state := LogoutPending, handler := Some(s.registered))
            && SameHistories(s.(registered := s.registered + 1), after) && after.threads == s.threads[t := Done]
  {
    var marking := s.(threads := s.threads[t := MarkState]);
    ExecOne(s, Defer(t), Steps(t, n));
    MarkingRun(marking, t, n);
    assert marking.threads[t := Done] == s.threads[t := Done];
  }

  lemma MarkingRun(s: State, t: nat, n: nat)
    requires t in s.threads && s.threads[t].MarkState? && n >= 2
    ensures var after := Exec(s, Steps(t, n));
            && after.core == s.core.(state := LogoutPending, handler := Some(s.registered))
            && SameHistories(s.(registered := s.registered + 1), after) && after.threads == s.threads[t := Done]
  {
    var marked := s.(core := s.core.(state := LogoutPending), registered := s.registered + 1,
                     threads := s.threads[t := MarkHandler(s.registered)]);
    StepFirst(s, t, n);
    assert Apply(s, Step(t)) == marked;
    RegisteringRun(marked, t, n - 1);
    var after := Exec(marked, Steps(t, n - 1));
    assert Exec(s, Steps(t, n)) == after;
    assert after.core == s.core.(state := LogoutPending, handler := Some(s.registered));
    assert marked.threads[t := Done] == s.threads[t := Done];
  }
}
