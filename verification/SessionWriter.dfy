/** sendMessage, handle_write and the deferred termination of a session, statement by statement.  Each
    method is shown to be the corresponding thread of module WritePump running undisturbed. */
module SessionWriter {
  import opened Wrappers
  import opened WritePump

  // How many steps a thread still takes at most.
  function Rank(pc: Pc): nat {
    match pc
    case Push(_) => 10
    case Claim => 9
    case Pop => 8
    case LoadState => 7
    case TestHandler => 6
    case StoreTerminated => 5
    case RunHandler => 4
    case ClearHandler => 3
    case ResetFlag(_) => 2
    case StartWrite => 2
    case Purging => 2
    case MarkState => 2
    case MarkHandler(_) => 1
    case Retired => 0
    case Done => 0
  }

  // A thread running to its end with no other thread in between.
  function Alone(c: Core, pc: Pc): (Core, seq<Effect>)
    decreases Rank(pc)
  {
    if pc.Done? || pc.Retired? then (c, [])
    else
      var (c', pc', effect) := LocalStep(c, pc);
      var (last, effects) := Alone(c', pc');
      (last, if effect.Silent? then effects else [effect] + effects)
  }

  predicate Terminating(state: SessionState) {
    state.LogoutPending? || state.Kicked?
  }

  /** What the owner of the flag does with the oldest queued message: nothing queued, the flag comes down; while the
      session is Alive or already Terminated, the message goes to the socket and the flag stays up; once it is
      terminating, the message goes nowhere, a registered callback runs and is forgotten, and the flag comes down. */
  ghost predicate TakesNext(c: Core, last: Core, effects: seq<Effect>) {
    if c.queue == [] then last == c.(writing := false) && effects == []
    else
      var popped := c.(current := Some(c.queue[0]), queue := c.queue[1..]);
      if c.state.Alive? || c.state.Terminated? then
        last == popped && effects == [Popped(c.queue[0]), Wrote(c.queue[0])]
      else if c.handler.Some? then
        && last == popped.(state := Terminated, handler := None, writing := false)
        && effects == [Popped(c.queue[0]), Dropped, Ran(c.handler.value)]
      else last == popped.(writing := false) && effects == [Popped(c.queue[0]), Dropped]
  }

  class Session {
    var writeInProgress: bool
    var state: SessionState
    var finalSendCompleteHandler: Option<nat>
    var currentWriteMsg: Option<Message>
    var sentQueue: seq<Message>

    ghost function View(): Core
      reads this
    {
      Core(writeInProgress, state, finalSendCompleteHandler, currentWriteMsg, sentQueue)
    }

    constructor ()
      ensures View() == FRESH
    {
      writeInProgress, state, finalSendCompleteHandler, currentWriteMsg, sentQueue := false, Alive, None, None, [];
    }

    /** Whether the session is terminating; if so the registered callback, if any, runs and is forgotten. */
    method CheckDeferredTermination() returns (terminating: bool, ghost done: seq<Effect>)
      modifies this
      ensures terminating == Terminating(old(state))
      ensures !terminating ==> View() == old(View()) && done == []
      ensures terminating ==>
                if old(finalSendCompleteHandler).Some?
                then View() == old(View()).(state := Terminated, handler := None)
                     && done == [Dropped, Ran(old(finalSendCompleteHandler).value)]
                else View() == old(View()) && done == [Dropped]
    {
      if state.LogoutPending? || state.Kicked? {
        done := [Dropped];
        if finalSendCompleteHandler.Some? {
          state := Terminated;
          done := [Dropped, Ran(finalSendCompleteHandler.value)];
          finalSendCompleteHandler := None;
        }
        return true, done;
      }
      return false, [];
    }

    /** The part sendMessage and handle_write share, entered by the owner of the write flag: the flag
        comes out lowered unless a write has been started, and the write is of the oldest message. */
    method Drain() returns (ghost done: seq<Effect>)
      requires writeInProgress
      modifies this
      ensures (View(), done) == Alone(old(View()), Pop) && TakesNext(old(View()), View(), done)
    {
      ghost var c := View();
      PopAlone(c);
      if sentQueue != [] {
        currentWriteMsg := Some(sentQueue[0]);
        sentQueue := sentQueue[1..];
        ghost var popped := View();
        assert LocalStep(c, Pop) == (popped, LoadState, Popped(c.queue[0]));
        var terminating;
        terminating, done := CheckDeferredTermination();
        if terminating {
          writeInProgress := false;
          DropAlone(popped);
        } else {
          WriteAlone(popped);
          done := [Wrote(currentWriteMsg.value)];
        }
        done := [Popped(c.queue[0])] + done;
      } else {
        writeInProgress := false;
        done := [];
        assert Alone(View(), Done) == (View(), []);
      }
    }

    method SendMessage(msg: Message) returns (ghost done: seq<Effect>)
      modifies this
      ensures (View(), done) == Alone(old(View()), Push(msg))
    {
      SendAlone(View(), msg);
      sentQueue := sentQueue + [msg];
      done := [];
      if !writeInProgress {
        writeInProgress := true;
        done := Drain();
      }
      done := [Pushed(msg)] + done;
    }

    // The completion of a write; after an error the flag stays up and the connection is purged.
    method HandleWrite(ok: bool) returns (ghost done: seq<Effect>)
      requires writeInProgress
      modifies this
      ensures (View(), done) == Alone(old(View()), if ok then Pop else Purging)
      ensures !ok ==> View() == old(View()) && done == []
      ensures ok ==> TakesNext(old(View()), View(), done)
    {
      if !ok {
        return [];
      }
      done := Drain();
    }

    method MarkAsDeferredTerminated(id: nat)
      modifies this
      ensures (View(), []) == Alone(old(View()).(state := LogoutPending), MarkHandler(id))
      ensures View() == old(View()).(state := LogoutPending, handler := Some(id))
    {
      state := LogoutPending;
      finalSendCompleteHandler := Some(id);
    }
  }

  lemma SendAlone(c: Core, msg: Message)
    ensures var pushed := c.(queue := c.queue + [msg]);
            var (last, effects) := Alone(pushed.(writing := true), Pop);
            Alone(c, Push(msg)) == (if c.writing then (pushed, [Pushed(msg)]) else (last, [Pushed(msg)] + effects))
  {
    var pushed := c.(queue := c.queue + [msg]);
    assert Alone(pushed, Done) == (pushed, []);
    assert [Pushed(msg)] + [] == [Pushed(msg)];
    assert LocalStep(c, Push(msg)) == (pushed, Claim, Pushed(msg));
  }

  // The callback runs, is forgotten, and the flag is given back.
  lemma RunAndClear(c: Core)
    requires c.handler.Some?
    ensures Alone(c, RunHandler) == (c.(handler := None, writing := false), [Ran(c.handler.value)])
  {
    var e := c.(handler := None);
    var last := e.(writing := false);
    assert Alone(last, Done) == (last, []);
    assert Alone(e, ResetFlag(false)) == (last, []);
    assert Alone(c, ClearHandler) == (last, []);
    assert [Ran(c.handler.value)] + [] == [Ran(c.handler.value)];
  }

  lemma DropAlone(c: Core)
    requires Terminating(c.state)
    ensures Alone(c, LoadState) ==
            (if c.handler.Some? then (c.(state := Terminated, handler := None, writing := false), [Dropped, Ran(c.handler.value)])
             else (c.(writing := false), [Dropped]))
  {
    if c.handler.Some? {
      RunAndClear(c.(state := Terminated));
      var last := Alone(c.(state := Terminated), RunHandler);
      assert Alone(c, StoreTerminated) == last;
      assert Alone(c, TestHandler) == last;
      assert [Dropped] + [Ran(c.handler.value)] == [Dropped, Ran(c.handler.value)];
    } else {
      var last := c.(writing := false);
      assert Alone(last, Done) == (last, []);
      assert Alone(c, ResetFlag(false)) == (last, []);
      assert Alone(c, TestHandler) == (last, []);
      assert [Dropped] + [] == [Dropped];
    }
  }

  lemma WriteAlone(c: Core)
    requires !Terminating(c.state) && c.current.Some?
    ensures Alone(c, LoadState) == (c, [Wrote(c.current.value)])
  {
    assert Alone(c, Done) == (c, []);
    assert [Wrote(c.current.value)] + [] == [Wrote(c.current.value)];
    assert Alone(c, StartWrite) == (c, [Wrote(c.current.value)]);
  }

  lemma PopAlone(c: Core)
    ensures TakesNext(c, Alone(c, Pop).0, Alone(c, Pop).1)
  {
    if c.queue == [] {
      assert Alone(c.(writing := false), Done) == (c.(writing := false), []);
      assert Alone(c, ResetFlag(true)) == (c.(writing := false), []);
    } else {
      var popped := c.(current := Some(c.queue[0]), queue := c.queue[1..]);
      assert LocalStep(c, Pop) == (popped, LoadState, Popped(c.queue[0]));
      if Terminating(c.state) { DropAlone(popped); } else { WriteAlone(popped); }
    }
  }

  /** What a call of sendMessage comes to: behind a write in progress it only queues; otherwise the oldest
      message leaves the queue, to the socket while the session lives, and to nowhere, with the close
      callback run instead, once it is terminating. */
  lemma SendOutcome(c: Core, msg: Message)
    ensures var (last, effects) := Alone(c, Push(msg));
            var queue := c.queue + [msg];
            if c.writing then last == c.(queue := queue) && effects == [Pushed(msg)]
            else if !Terminating(c.state) then
              && last == c.(writing := true, current := Some(queue[0]), queue := queue[1..])
              && effects == [Pushed(msg), Popped(queue[0]), Wrote(queue[0])]
            else
              && last.queue == queue[1..] && !last.writing
              && last.state == (if c.handler.Some? then Terminated else c.state) && last.handler == None
              && effects == [Pushed(msg), Popped(queue[0]), Dropped] + (if c.handler.Some? then [Ran(c.handler.value)] else [])
  {
    SendAlone(c, msg);
    if !c.writing {
      var queue := c.queue + [msg];
      var popped := c.(writing := true, current := Some(queue[0]), queue := queue[1..]);
      assert LocalStep(c.(writing := true, queue := queue), Pop) == (popped, LoadState, Popped(queue[0]));
      if Terminating(c.state) { DropAlone(popped); } else { WriteAlone(popped); }
    }
  }

  // Where a thread left to itself ends.
  function Last(pc: Pc): Pc {
    if pc.Purging? || pc.Retired? then Retired else Done
  }

  function Steps(t: nat, n: nat): seq<Event> {
    if n == 0 then [] else [Step(t)] + Steps(t, n - 1)
  }

  lemma StepFirst(s: State, t: nat, n: nat)
    requires n > 0
    ensures Exec(s, Steps(t, n)) == Exec(Apply(s, Step(t)), Steps(t, n - 1))
  {
    assert Steps(t, n)[1..] == Steps(t, n - 1);
  }

  // What one effect adds to the histories of the system: a push, a pop, a write, a callback, a discarded message.
  function PushOf(e: Effect): seq<Message> { if e.Pushed? then [e.msg] else [] }
  function PopOf(e: Effect): seq<Message> { if e.Popped? then [e.msg] else [] }
  function WriteOf(e: Effect): seq<Message> { if e.Wrote? then [e.msg] else [] }
  function RunOf(e: Effect): seq<nat> { if e.Ran? then [e.id] else [] }
  function DropOf(e: Effect): nat { if e.Dropped? then 1 else 0 }

  function Pushes(effects: seq<Effect>): seq<Message> {
    if effects == [] then [] else PushOf(effects[0]) + Pushes(effects[1..])
  }

  function Pops(effects: seq<Effect>): seq<Message> {
    if effects == [] then [] else PopOf(effects[0]) + Pops(effects[1..])
  }

  function Writes(effects: seq<Effect>): seq<Message> {
    if effects == [] then [] else WriteOf(effects[0]) + Writes(effects[1..])
  }

  function Runs(effects: seq<Effect>): seq<nat> {
    if effects == [] then [] else RunOf(effects[0]) + Runs(effects[1..])
  }

  function Drops(effects: seq<Effect>): nat {
    if effects == [] then 0 else DropOf(effects[0]) + Drops(effects[1..])
  }

  ghost predicate Adds(before: State, after: State, effects: seq<Effect>) {
    && after.pushed == before.pushed + Pushes(effects) && after.popped == before.popped + Pops(effects)
    && after.wire == before.wire + Writes(effects) && after.outstanding == before.outstanding + Writes(effects)
    && after.ran == before.ran + Runs(effects) && after.drops == before.drops + Drops(effects)
    && after.registered == before.registered
  }

  ghost predicate AddsOne(before: State, after: State, e: Effect) {
    && after.pushed == before.pushed + PushOf(e) && after.popped == before.popped + PopOf(e)
    && after.wire == before.wire + WriteOf(e) && after.outstanding == before.outstanding + WriteOf(e)
    && after.ran == before.ran + RunOf(e) && after.drops == before.drops + DropOf(e)
    && after.registered == before.registered
  }

  lemma OneAdds(s: State, t: nat)
    requires t in s.threads && !s.threads[t].MarkState?
    ensures var (core, pc, effect) := LocalStep(s.core, s.threads[t]);
            var s' := Apply(s, Step(t));
            s'.core == core && s'.threads == s.threads[t := pc] && AddsOne(s, s', effect)
  {
  }

  // Silent effects are left out of the list.
  function Cons(e: Effect, effects: seq<Effect>): seq<Effect> {
    if e.Silent? then effects else [e] + effects
  }

  lemma ConsAdds(e: Effect, effects: seq<Effect>)
    ensures Pushes(Cons(e, effects)) == PushOf(e) + Pushes(effects)
    ensures Pops(Cons(e, effects)) == PopOf(e) + Pops(effects)
    ensures Writes(Cons(e, effects)) == WriteOf(e) + Writes(effects)
    ensures Runs(Cons(e, effects)) == RunOf(e) + Runs(effects)
    ensures Drops(Cons(e, effects)) == DropOf(e) + Drops(effects)
  {
    if !e.Silent? {
      assert ([e] + effects)[1..] == effects;
    }
  }

  lemma AddsMore(s: State, s1: State, s2: State, e: Effect, effects: seq<Effect>)
    requires AddsOne(s, s1, e) && Adds(s1, s2, effects)
    ensures Adds(s, s2, Cons(e, effects))
  {
    ConsAdds(e, effects);
    Regroup(s.pushed, PushOf(e), Pushes(effects));
    Regroup(s.popped, PopOf(e), Pops(effects));
    Regroup(s.wire, WriteOf(e), Writes(effects));
    Regroup(s.outstanding, WriteOf(e), Writes(effects));
    Regroup(s.ran, RunOf(e), Runs(effects));
  }

  /** Running undisturbed is a special run of the whole system: the methods above do what any interleaving that
      happens not to interfere does, to the shared fields and to the histories of pushes, pops, writes, discarded
      messages and callbacks. */
  lemma {:induction false} AloneIsARun(s: State, t: nat, n: nat)
    requires t in s.threads && !s.threads[t].MarkState? && n >= Rank(s.threads[t])
    ensures var (core, effects) := Alone(s.core, s.threads[t]);
            Exec(s, Steps(t, n)).core == core && Adds(s, Exec(s, Steps(t, n)), effects)
    decreases n
  {
    if n > 0 {
      var s' := Apply(s, Step(t));
      var (core, pc, effect) := LocalStep(s.core, s.threads[t]);
      StepFirst(s, t, n);
      OneAdds(s, t);
      StepLowersRank(s.core, s.threads[t]);
      AloneIsARun(s', t, n - 1);
      AddsMore(s, s', Exec(s', Steps(t, n - 1)), effect, Alone(core, pc).1);
    }
  }

  // Its thread is over, and no other has moved.
  lemma {:induction false} AloneEnds(s: State, t: nat, n: nat)
    requires t in s.threads && !s.threads[t].MarkState? && n >= Rank(s.threads[t])
    ensures Exec(s, Steps(t, n)).threads == s.threads[t := Last(s.threads[t])]
    decreases n
  {
    if n == 0 {
      assert s.threads[t := Last(s.threads[t])] == s.threads;
    } else {
      var pc := LocalStep(s.core, s.threads[t]).1;
      StepFirst(s, t, n);
      OneAdds(s, t);
      StepLowersRank(s.core, s.threads[t]);
      AloneEnds(Apply(s, Step(t)), t, n - 1);
      assert s.threads[t := pc][t := Last(pc)] == s.threads[t := Last(pc)];
    }
  }

  lemma StepLowersRank(c: Core, pc: Pc)
    requires !pc.MarkState?
    ensures var (c', pc', effect) := LocalStep(c, pc);
            && !pc'.MarkState? && Last(pc') == Last(pc) && (Rank(pc') < Rank(pc) || Rank(pc) == 0)
            && (pc.Done? || pc.Retired? ==> c' == c && pc' == pc && effect.Silent?)
  {
  }
}
