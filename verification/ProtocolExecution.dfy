/** Results and the execution of commands: what a caller may conclude from the answer it gets. */
module ProtocolExecution {
  import opened Base
  import opened CommandQueue
  import opened Interpreter
  import opened Protocol
  import opened ProtocolInvariant
  import opened ProtocolSteps
  import opened ProtocolFrames
  import opened ProtocolRuns
  import opened ProtocolTheorems

  /** The step ends the command with this id: its handler returns, or the close handler replies. */
  predicate Finishes(s: State, step: Step, id: nat) {
    || (step.LoopFinish? && s.loop.InHandler? && s.loop.cmd.req.id == id)
    || (step.LoopCloseReply? && s.loop.CloseReply? && s.loop.cmd.req.id == id)
  }

  ghost predicate FinishedBy(r: Run, n: nat, id: nat)
    requires n <= |r.steps| && |r.states| == |r.steps| + 1
  {
    exists l :: 0 <= l < n && Finishes(r.states[l], r.steps[l], id)
  }

  /** The event loop holds a command whose handler has returned. */
  predicate HandlerDone(l: LoopPc) {
    l.Publish? || l.SetExit? || l.SetClosed? || l.PublishFailed?
  }

  // ----- one step -----

  predicate Publishes(step: Step) {
    step.LoopPublish? || step.LoopPublishFailed? || step.LoopDrainPush? || step.LoopCloseReply?
  }

  lemma {:induction false} LoopHolds(env: Env, s: State, step: Step)
    requires Enabled(env, s, step) && IsLoop(step) && !Publishes(step)
    ensures Apply(env, s, step).pushes == s.pushes && Processed(Apply(env, s, step)) == Processed(s)
  {
    hide Apply, Enabled;
    LoopOnly(env, s, step);
    LoopEdges(env, s, step);
  }

  /** The loop publishes one command at a time, and only after running it or after a failure. */
  lemma {:induction false} LoopPublishes(env: Env, s: State, step: Step)
    requires LoopParts(env, s) && Enabled(env, s, step) && Publishes(step)
    ensures Apply(env, s, step).pushes == s.pushes && Processed(Apply(env, s, step)) == Processed(s) + 1
    ensures 0 <= Processed(s) < |s.pushes|
    ensures var d := Processed(s);
      || (HandlerDone(s.loop) && s.loop.cmd.req.id == s.pushes[d].id)
      || After(env, s.pushes[..d]) == Failed
      || Finishes(s, step, s.pushes[d].id)
  {
    hide Apply, Enabled, After, Expected, ClosureInv, CtxInv;
    LoopOnly(env, s, step);
    LoopEdges(env, s, step);
  }

  lemma {:induction false} LoopRuns(env: Env, s: State, step: Step)
    requires Enabled(env, s, step) && IsLoop(step) && HandlerDone(Apply(env, s, step).loop)
    ensures var id := Apply(env, s, step).loop.cmd.req.id;
      (HandlerDone(s.loop) && s.loop.cmd.req.id == id) || Finishes(s, step, id)
  {
    hide Apply, Enabled;
    LoopEdges(env, s, step);
  }

  lemma {:induction false} CallerKeeps(env: Env, s: State, step: Step)
    requires Enabled(env, s, step) && !IsLoop(step)
    ensures var s' := Apply(env, s, step);
      s.pushes <= s'.pushes && Processed(s') == Processed(s) && (HandlerDone(s'.loop) ==> s'.loop == s.loop)
  {
    hide Apply, Enabled;
    if IsProducer(step) {
      ProducerOnly(env, s, step);
    } else {
      CollectorOnly(env, s, step);
    }
  }

  /** A command that ends has a result other than UNFINISHED coming. */
  lemma {:induction false} FinishMeansResult(env: Env, s: State, step: Step, id: nat)
    requires LoopParts(env, s) && Enabled(env, s, step) && Finishes(s, step, id)
    ensures var d := Processed(s);
      && 0 <= d < |s.pushes| && s.pushes[d].id == id
      && Expected(env, s.pushes, d).Some? && Expected(env, s.pushes, d).value.status != CmdUnfinished
  {
    hide RunBody, ClosureInv, CtxInv;
    var d := Processed(s);
    assert s.pushes[..d + 1][..d] == s.pushes[..d];
    if step.LoopFinish? {
      RunBodyFacts(env, s.executed, s.loop.cmd.req);
    }
  }

  // ----- runs -----

  /** Every published command was run, or comes after a failure. */
  ghost predicate PublishedWereRun(env: Env, r: Run, n: nat)
    requires n <= |r.steps| && |r.states| == |r.steps| + 1
  {
    var s := r.states[n];
    && (forall k :: 0 <= k < |s.pushes| && k < Processed(s) ==>
          FinishedBy(r, n, s.pushes[k].id) || After(env, s.pushes[..k]) == Failed)
    && (HandlerDone(s.loop) ==> FinishedBy(r, n, s.loop.cmd.req.id))
  }

  lemma {:induction false} FinishedStays(r: Run, n: nat, id: nat)
    requires n < |r.steps| && |r.states| == |r.steps| + 1
    ensures FinishedBy(r, n, id) || Finishes(r.states[n], r.steps[n], id) ==> FinishedBy(r, n + 1, id)
  {
    hide Finishes;
  }

  lemma {:induction false} CallerPublished(env: Env, r: Run, n: nat)
    requires IsRun(env, r) && n < |r.steps| && PublishedWereRun(env, r, n) && !IsLoop(r.steps[n])
    ensures PublishedWereRun(env, r, n + 1)
  {
    hide Apply, Enabled, FinishedBy, After, Processed;
    var s, s' := r.states[n], r.states[n + 1];
    assert IsStep(env, s, r.steps[n], s');
    CallerKeeps(env, s, r.steps[n]);
    forall k | 0 <= k < |s'.pushes| && k < Processed(s')
      ensures FinishedBy(r, n + 1, s'.pushes[k].id) || After(env, s'.pushes[..k]) == Failed
    {
      PublishedAreOld(s, k);
      assert s'.pushes[..k] == s.pushes[..k];
      FinishedStays(r, n, s.pushes[k].id);
    }
    if HandlerDone(s'.loop) {
      FinishedStays(r, n, s.loop.cmd.req.id);
    }
  }

  lemma {:induction false} PublishedAreOld(s: State, k: int)
    requires k < Processed(s)
    ensures k < |s.pushes|
  {
  }

  lemma {:induction false} LoopPublished(env: Env, r: Run, n: nat)
    requires IsRun(env, r) && n < |r.steps| && PublishedWereRun(env, r, n) && IsLoop(r.steps[n])
    requires LoopParts(env, r.states[n])
    ensures PublishedWereRun(env, r, n + 1)
  {
    hide Apply, Enabled, FinishedBy, After, Processed, LoopParts;
    var s, s' := r.states[n], r.states[n + 1];
    assert IsStep(env, s, r.steps[n], s');
    if Publishes(r.steps[n]) {
      LoopPublishes(env, s, r.steps[n]);
    } else {
      LoopHolds(env, s, r.steps[n]);
    }
    forall k | 0 <= k < |s'.pushes| && k < Processed(s')
      ensures FinishedBy(r, n + 1, s'.pushes[k].id) || After(env, s'.pushes[..k]) == Failed
    {
      FinishedStays(r, n, s.pushes[k].id);
    }
    if HandlerDone(s'.loop) {
      LoopRuns(env, s, r.steps[n]);
      FinishedStays(r, n, s'.loop.cmd.req.id);
    }
  }

  lemma {:induction false} RunPublished(env: Env, r: Run, n: nat)
    requires Bounded(env, r) && n <= |r.steps|
    ensures PublishedWereRun(env, r, n)
    decreases n
  {
    hide Inv, Apply, Enabled, PublishedWereRun, LoopParts;
    if n == 0 {
      InitPublished(env, r);
    } else {
      RunPublished(env, r, n - 1);
      RunInv(env, r, n - 1);
      if !IsLoop(r.steps[n - 1]) {
        CallerPublished(env, r, n - 1);
      } else {
        InvLoopParts(env, r.states[n - 1]);
        LoopPublished(env, r, n - 1);
      }
    }
  }

  lemma {:induction false} InitPublished(env: Env, r: Run)
    requires IsRun(env, r)
    ensures PublishedWereRun(env, r, 0)
  {
  }

  /** The index and the result of an answered id in the push order. */
  lemma {:induction false} AnsweredIndex(env: Env, s: State, step: Step, id: nat) returns (k: nat)
    requires Inv(env, s) && Enabled(env, s, step) && FinalFor(s, step, id)
    ensures k < |s.pushes| && k < Processed(s) && s.pushes[k].id == id
    ensures Expected(env, s.pushes, k) == Some(Observe(s, step).seen.outcome)
  {
    hide LoopParts, SyncRun, Expected;
    assert step.PeekErase? || step.WaitFind?;
    WaiterLocal(s, step.t);
    k := s.pos[id];
    SyncRunAt(env, s.pushes, k);
  }

  /** No step of the run ends a command that gets UNFINISHED. */
  lemma {:induction false} UnfinishedNeverRan(env: Env, r: Run, k: nat, l: nat)
    requires Bounded(env, r) && l < |r.steps| && k < |Last(r).pushes|
    requires Expected(env, Last(r).pushes, k) == Some(UNFINISHED)
    ensures !Finishes(r.states[l], r.steps[l], Last(r).pushes[k].id)
  {
    hide Inv, Apply, Enabled, Finishes, Expected, LoopParts, Processed, SyncRun;
    var id := Last(r).pushes[k].id;
    if Finishes(r.states[l], r.steps[l], id) {
      RunInv(env, r, l);
      InvLoopParts(env, r.states[l]);
      assert IsStep(env, r.states[l], r.steps[l], r.states[l + 1]);
      FinishMeansResult(env, r.states[l], r.steps[l], id);
      RunGrows(env, r, l, |r.states| - 1);
      RunInv(env, r, |r.states| - 1);
      var d := Processed(r.states[l]);
      PushedOnce(env, Last(r), k);
      assert Last(r).pushes[d].id == id;
      SyncRunPrefix(env, r.states[l].pushes, Last(r).pushes, d);
      SyncRunAt(env, r.states[l].pushes, d);
      SyncRunAt(env, Last(r).pushes, d);
      assert false;
    }
  }

  /**
   * What an answer says about execution. A caller that gets a result other than UNFINISHED gets it
   * after the command was run to its end (copying out included); a caller that gets UNFINISHED knows
   * that the command was not run and never will be.
   */
  lemma {:induction false} AnswerAfterExecution(env: Env, r: Run, i: nat, id: nat)
    requires Bounded(env, r) && i < |r.steps| && FinalFor(r.states[i], r.steps[i], id)
    ensures Observe(r.states[i], r.steps[i]).seen.outcome.status != CmdUnfinished ==> FinishedBy(r, i, id)
    ensures Observe(r.states[i], r.steps[i]).seen.outcome == UNFINISHED <==> !FinishedBy(r, |r.steps|, id)
  {
    hide Inv, Apply, Enabled, Finishes, Expected, Processed, SyncRun, FinalFor, Observe, After;
    var s := r.states[i];
    assert IsStep(env, s, r.steps[i], r.states[i + 1]);
    RunInv(env, r, i);
    RunPublished(env, r, i);
    RunGrows(env, r, i, |r.states| - 1);
    var k := AnsweredIndex(env, s, r.steps[i], id);
    if After(env, s.pushes[..k]) == Failed {
      UnfinishedAfterFailure(env, s.pushes, k);
      SyncRunPrefix(env, s.pushes, Last(r).pushes, k);
      SyncRunAt(env, s.pushes, k);
      SyncRunAt(env, Last(r).pushes, k);
      forall l | 0 <= l < |r.steps| ensures !Finishes(r.states[l], r.steps[l], id) {
        UnfinishedNeverRan(env, r, k, l);
      }
    } else {
      AnsweredRan(env, r, i, k, id);
    }
  }

  /** A command that ended is answered with something other than UNFINISHED. */
  lemma {:induction false} AnsweredRan(env: Env, r: Run, i: nat, k: nat, id: nat)
    requires Bounded(env, r) && i < |r.steps| && k < |r.states[i].pushes| && r.states[i].pushes[k].id == id
    requires FinishedBy(r, i, id)
    ensures Expected(env, r.states[i].pushes, k) != Some(UNFINISHED)
  {
    hide Inv, Apply, Enabled, Finishes, Expected, Processed, SyncRun;
    RunGrows(env, r, i, |r.states| - 1);
    if Expected(env, r.states[i].pushes, k) == Some(UNFINISHED) {
      SyncRunPrefix(env, r.states[i].pushes, Last(r).pushes, k);
      SyncRunAt(env, r.states[i].pushes, k);
      SyncRunAt(env, Last(r).pushes, k);
      var l :| 0 <= l < i && Finishes(r.states[l], r.steps[l], id);
      UnfinishedNeverRan(env, r, k, l);
      assert false;
    }
  }
}
