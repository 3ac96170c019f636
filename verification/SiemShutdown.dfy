/** How the actor ends: once the channel is closed it can always be brought to return. */
module SiemShutdown {
  import opened Basics
  import opened SiemBatching
  import opened SiemRuns
  import opened SiemRefinement

  /** On an empty channel nothing is received while it is open. Once it is closed, what is
      buffered becomes the last batch, whose write the actor then awaits; with nothing buffered
      it returns at once. */
  lemma LoopEnds(s: System)
    requires Stored(s) && s.mode.Looping? && s.channel == []
    ensures var t := Step(s, Receive);
            if s.open then t == s
            else
              && t.actor.buffer == [] && |t.writers| == |t.actor.batches| && t.channel == []
              && t.actor.batches == s.actor.batches + (if s.actor.buffer == [] then [] else [s.actor.buffer])
              && t.mode == if s.actor.buffer == [] then Returned(None) else Awaiting(|t.actor.batches| - 1)
  {
    hide Sum;
    assert s.actor.batches + [] == s.actor.batches;
  }

  /** The actor returns from its last write exactly when that is finished. */
  lemma ReturnsIff(s: System)
    requires s.mode.Awaiting? && s.mode.writer < |s.writers|
    ensures Step(s, Return).mode == if s.writers[s.mode.writer].Finished? then Returned(Some(s.mode.writer)) else s.mode
  {
  }

  lemma {:induction false} RunConcat(s: System, a: seq<Action>, b: seq<Action>)
    ensures Run(s, a + b) == Run(Run(s, a), b)
    decreases a
  {
    hide Step;
    if a == [] {
      assert a + b == b;
    } else {
      RunConcat(Step(s, a[0]), a[1..], b);
      assert (a + b)[1..] == a[1..] + b;
    }
  }

  lemma RunNext(s: System, a: Action, rest: seq<Action>)
    ensures Run(s, [a] + rest) == Run(Step(s, a), rest)
  {
    assert ([a] + rest)[1..] == rest;
  }

  lemma RunNone(s: System)
    ensures Run(s, []) == s
  {
  }

  /** Everything in a closed channel can be received. */
  lemma {:induction false} Drains(s: System) returns (actions: seq<Action>)
    requires Stored(s) && s.mode.Looping? && !s.open
    ensures var t := Run(s, actions);
            Stored(t) && t.mode.Looping? && !t.open && t.channel == [] && t.sent == s.sent
    decreases |s.channel|
  {
    hide Run, Stored;
    actions := [];
    if s.channel == [] {
      RunNone(s);
    } else {
      StepStored(s, Receive);
      var t := Step(s, Receive);
      assert t.mode.Looping? && !t.open && t.channel == s.channel[1..] && t.sent == s.sent;
      var rest := Drains(t);
      RunNext(s, Receive, rest);
      actions := [Receive] + rest;
    }
  }

  /** A writer whose calls all succeed finishes. */
  lemma {:induction false} Works(s: System, i: nat) returns (actions: seq<Action>)
    requires Stored(s) && i < |s.writers|
    ensures var t := Run(s, actions);
            Stored(t) && t.mode == s.mode && t.actor == s.actor && t.sent == s.sent && t.channel == s.channel
            && i < |t.writers| && t.writers[i].Finished?
    decreases Left(s.actor.batches[i], s.writers[i])
  {
    hide Run, Stored, Sum, Added;
    actions := [];
    if s.writers[i].Finished? {
      RunNone(s);
    } else {
      StoredWriters(s, i);
      StepStored(s, Work(i, Good));
      var t := Step(s, Work(i, Good));
      StoredWriters(t, i);
      var rest := Works(t, i);
      RunNext(s, Work(i, Good), rest);
      actions := [Work(i, Good)] + rest;
    }
  }

  lemma StoredWriters(s: System, i: nat)
    requires Stored(s) && i < |s.writers|
    ensures |s.writers| == |s.actor.batches| && WriterOk(s.actor.batches[i], s.writers[i])
  {
  }

  /** From a state in which it awaits its last write, the actor can return. */
  lemma AwaitingReturns(s: System) returns (actions: seq<Action>)
    requires Stored(s) && Awaited(s) && s.mode.Awaiting?
    ensures Run(s, actions).mode.Returned?
  {
    hide Run, Stored;
    var work := Works(s, s.mode.writer);
    var t := Run(s, work);
    RunConcat(s, work, [Return]);
    RunNext(t, Return, []);
    assert [Return] + [] == [Return];
    RunNone(Step(t, Return));
    ReturnsIff(t);
    actions := work + [Return];
  }

  /** From a closed channel the loop can be left. */
  lemma LoopingLeaves(s: System) returns (actions: seq<Action>)
    requires Stored(s) && s.mode.Looping? && !s.open
    ensures var t := Run(s, actions); Stored(t) && Awaited(t) && !t.mode.Looping?
  {
    hide Run, Stored;
    var drain := Drains(s);
    var t := Run(s, drain);
    LoopEnds(t);
    StepStored(t, Receive);
    RunNext(t, Receive, []);
    assert [Receive] + [] == [Receive];
    RunNone(Step(t, Receive));
    RunConcat(s, drain, [Receive]);
    actions := drain + [Receive];
  }

  lemma ClosedReturns(s: System) returns (actions: seq<Action>)
    requires Stored(s) && Awaited(s) && !s.open
    ensures Run(s, actions).mode.Returned?
  {
    hide Run, Stored, Awaited;
    if s.mode.Returned? {
      RunNone(s);
      actions := [];
    } else if s.mode.Awaiting? {
      actions := AwaitingReturns(s);
    } else {
      var leave := LoopingLeaves(s);
      actions := leave;
      if Run(s, leave).mode.Awaiting? {
        var rest := AwaitingReturns(Run(s, leave));
        RunConcat(s, leave, rest);
        actions := leave + rest;
      }
    }
  }

  /** In every run, once the channel is closed, some continuation brings the actor to return. */
  lemma CanReturn(config: Config, now: nat, actions: seq<Action>)
    requires !Run(Start(config, now), actions).open
    ensures exists more :: Run(Run(Start(config, now), actions), more).mode.Returned?
  {
    StartOk(config, now);
    RunStored(Start(config, now), actions);
    RunAwaited(Start(config, now), actions);
    hide Run, Stored, Awaited;
    var more := ClosedReturns(Run(Start(config, now), actions));
  }
}
