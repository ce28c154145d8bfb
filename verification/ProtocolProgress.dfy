/** Progress: which accepted requests can still be completed, and which waits can still return. */
module ProtocolProgress {
  import opened CommandQueue
  import opened VeHandler
  import opened Interpreter
  import opened Protocol
  import opened ProtocolInvariant
  import opened ProtocolSteps
  import opened ProtocolFrames
  import opened ProtocolRuns
  import opened ProtocolTheorems
  import opened ProtocolExecution
  import opened ProtocolShutdown

  // ----- the next step of the event loop -----

  /** The VE thread of a new context raises its first block request. */
  const FIRST_BLOCK: seq<VeEvent> := [Raised(Exs(0, true, false, false, false, false), Syscall(Sysve, VEO_BLOCK))]

  lemma {:induction false} FirstBlockBlocks()
    ensures StartUp(StRunning, FIRST_BLOCK).Returned? && StartUp(StRunning, FIRST_BLOCK).status == HsBlockRequested
    ensures StartUp(StRunning, FIRST_BLOCK).m.state == StBlocked
  {
  }

  /** How far the event loop is from publishing its next command. */
  function Phase(l: LoopPc): nat {
    match l
    case Starting => 9
    case PopAsleep | Guard => 8
    case Popping | Drain => 7
    case Execute(_) => 6
    case InHandler(_) => 5
    case SetExit(_) => 4
    case SetClosed(_) => 3
    case Publish(_) | PublishFailed(_) | DrainHave(_) | CloseReply(_) => 2
    case Dead | Dropped | Done | Gone => 0
  }

  /** The step brings the loop nearer to publishing request `k`. */
  ghost predicate Nearer(s: State, s': State, k: nat) {
    || k < Processed(s')
    || (!Ended(s'.loop) && Processed(s') == Processed(s) + 1)
    || (!Ended(s'.loop) && Processed(s') == Processed(s) && Phase(s'.loop) < Phase(s.loop))
  }

  /** Request `k` is not published yet and the loop has not ended, but the interpreter gives it a result. */
  ghost predicate Awaited(env: Env, s: State, k: nat) {
    && Inv(env, s) && !Ended(s.loop) && Processed(s) <= k < |s.pushes|
    && SyncRun(env, s.pushes)[k].Some?
  }

  lemma {:induction false} StartStep(env: Env, s: State)
    requires Inv(env, s) && s.loop.Starting?
    ensures Enabled(env, s, LoopStart(FIRST_BLOCK)) && Apply(env, s, LoopStart(FIRST_BLOCK)).loop.Guard?
  {
    hide IdInv, ThreadInv, QueueInv, LoopInv, ClosureInv, ResultInv, StartUp;
    FirstBlockBlocks();
  }

  lemma {:induction false} GuardStep(env: Env, s: State)
    requires Inv(env, s) && s.loop.Guard?
    ensures Enabled(env, s, LoopGuard) && Apply(env, s, LoopGuard).loop.Popping?
  {
    hide IdInv, ThreadInv, QueueInv, LoopInv, ClosureInv, ResultInv;
  }

  lemma {:induction false} HandlerReturns(env: Env, s: State, k: nat)
    requires Awaited(env, s, k) && s.loop.InHandler?
    ensures Enabled(env, s, LoopFinish)
  {
    hide IdInv, ThreadInv, CtxInv, ClosureInv, ResultInv, RunBody, SyncRun, After;
    ComesBack(env, s.pushes, Processed(s), k);
  }

  lemma {:induction false} CloseIsLast(env: Env, s: State, k: nat)
    requires Awaited(env, s, k) && s.loop.CloseReply?
    ensures Processed(s) == k
  {
    hide IdInv, ThreadInv, CtxInv, ClosureInv, ResultInv, RunBody, SyncRun, After;
    ComesBack(env, s.pushes, Processed(s), k);
  }

  /** Which step the loop takes next. */
  function NextStep(l: LoopPc): Step {
    match l
    case Starting => LoopStart(FIRST_BLOCK)
    case Guard => LoopGuard
    case Popping => LoopPop
    case PopAsleep => LoopSpuriousWake
    case Execute(_) => LoopExecute
    case InHandler(_) => LoopFinish
    case Publish(_) => LoopPublish
    case SetExit(_) => LoopSetExit
    case SetClosed(_) => LoopSetClosed
    case PublishFailed(_) => LoopPublishFailed
    case Drain => LoopDrainPop
    case DrainHave(_) => LoopDrainPush
    case _ => LoopCloseReply
  }

  lemma {:induction false} NextEnabled(env: Env, s: State, k: nat)
    requires Awaited(env, s, k)
    ensures IsLoop(NextStep(s.loop)) && Enabled(env, s, NextStep(s.loop)) && !s.loop.Dropped?
  {
    hide Apply, IdInv, ThreadInv, QueueInv, CtxInv, ClosureInv, ResultInv, SyncRun, After, RunBody, StartUp;
    match s.loop {
      case Starting => StartStep(env, s);
      case InHandler(_) => HandlerReturns(env, s, k);
      case _ =>
    }
  }

  lemma {:induction false} PublishingNearer(env: Env, s: State, k: nat)
    requires Awaited(env, s, k) && Publishes(NextStep(s.loop)) && Enabled(env, s, NextStep(s.loop))
    ensures Nearer(s, Apply(env, s, NextStep(s.loop)), k)
  {
    hide Apply, Enabled, Inv, LoopParts, SyncRun, Processed;
    InvLoopParts(env, s);
    LoopPublishes(env, s, NextStep(s.loop));
    LoopEdges(env, s, NextStep(s.loop));
    if s.loop.CloseReply? {
      CloseIsLast(env, s, k);
    }
  }

  lemma {:induction false} MovingNearer(env: Env, s: State, k: nat)
    requires Awaited(env, s, k) && !Publishes(NextStep(s.loop)) && Enabled(env, s, NextStep(s.loop))
    requires IsLoop(NextStep(s.loop)) && !s.loop.Dropped?
    ensures Nearer(s, Apply(env, s, NextStep(s.loop)), k)
  {
    hide Apply, Enabled, Inv, SyncRun;
    LoopHolds(env, s, NextStep(s.loop));
    LoopEdges(env, s, NextStep(s.loop));
    if s.loop.Starting? {
      StartStep(env, s);
    } else if s.loop.Guard? {
      GuardStep(env, s);
    }
  }

  /** A run in which the event loop goes on alone until it has published request `k`. */
  lemma {:induction false} Advance(env: Env, r: Run, k: nat) returns (r': Run)
    requires Bounded(env, r) && (k < Processed(Last(r)) || Awaited(env, Last(r), k))
    ensures Bounded(env, r') && Continues(r', r) && k < Processed(Last(r')) && OnlyLoops(Last(r), Last(r'))
    decreases if k < Processed(Last(r)) then 0 else k + 1 - Processed(Last(r)), Phase(Last(r).loop)
  {
    hide Apply, Enabled, Inv, SyncRun, Processed, Phase, StartUp;
    if k < Processed(Last(r)) {
      return r;
    }
    var s, step := Last(r), NextStep(Last(r).loop);
    NextEnabled(env, s, k);
    var r1 := Extend(env, r, step);
    LoopOnly(env, s, step);
    RunInv(env, r1, |r1.states| - 1);
    if Publishes(step) {
      PublishingNearer(env, s, k);
    } else {
      MovingNearer(env, s, k);
    }
    r' := Advance(env, r1, k);
    OnlyLoopsTrans(s, Last(r1), Last(r'));
  }

  lemma {:induction false} OnlyLoopsTrans(a: State, b: State, c: State)
    requires OnlyLoops(a, b) && OnlyLoops(b, c)
    ensures OnlyLoops(a, c)
  {
  }

  // ----- which requests can be completed -----

  /** Request `k` of the push order has been published, or the loop can still come to it. */
  ghost predicate Possible(env: Env, s: State, k: nat)
    requires k < |s.pushes|
  {
    k < Processed(s) || (!Ended(s.loop) && SyncRun(env, s.pushes)[k].Some?)
  }

  lemma {:induction false} PublishedHasResult(env: Env, s: State, k: nat)
    requires Inv(env, s) && k < |s.pushes| && k < Processed(s)
    ensures SyncRun(env, s.pushes)[k].Some?
  {
    hide ThreadInv, LoopParts, SyncRun;
    var id := s.pushes[k].id;
    if HasId(s.completion, id) {
      var i :| 0 <= i < |s.completion| && s.completion[i].req.id == id;
    }
  }

  lemma {:induction false} PublishedWasPossible(env: Env, r: Run, i: nat, j: nat, k: nat)
    requires Bounded(env, r) && i <= j < |r.states| && k < |r.states[i].pushes| && k < Processed(r.states[j])
    ensures Possible(env, r.states[i], k)
  {
    hide Apply, Enabled, Inv, SyncRun, Processed;
    if Ended(r.states[i].loop) {
      EndedRun(env, r, i, j);
    } else {
      RunInv(env, r, j);
      RunGrows(env, r, i, j);
      PublishedHasResult(env, r.states[j], k);
      SyncRunPrefix(env, r.states[i].pushes, r.states[j].pushes, k);
    }
  }

  /**
   * Progress, exactly. An accepted request can still be completed if and only if it has been already,
   * or the event loop has not ended and the synchronous interpreter comes to it: no earlier request
   * is a close request or never comes back.
   */
  lemma {:induction false} CompletableIff(env: Env, r: Run, k: nat)
    requires Bounded(env, r) && k < |PushOrder(r, |r.steps|)|
    ensures Last(r).pushes == PushOrder(r, |r.steps|)
    ensures (exists r' :: Bounded(env, r') && Continues(r', r) && k < Processed(Last(r'))) <==>
      Possible(env, Last(r), k)
  {
    hide Apply, Enabled, Inv, SyncRun, Processed, PushOrder;
    PushOrderIs(env, r, |r.steps|);
    if Possible(env, Last(r), k) {
      RunInv(env, r, |r.states| - 1);
      var r' := Advance(env, r, k);
    }
    forall r' | Bounded(env, r') && Continues(r', r) && k < Processed(Last(r')) ensures Possible(env, Last(r), k) {
      assert r'.states[|r.states| - 1] == Last(r);
      PublishedWasPossible(env, r', |r.states| - 1, |r'.states| - 1, k);
    }
  }

  // ----- which waits can return -----

  /** The step with which the wait of thread `t` for `id` finds its completion. */
  predicate Returns(s: State, step: Step, t: nat, id: nat) {
    && step == WaitFind(t) && t < |s.threads| && s.threads[t].Waiting? && s.threads[t].id == id
    && HasId(s.completion, id)
  }

  /** In some continuation the wait of thread `t` for `id` returns. */
  ghost predicate CanReturn(env: Env, r: Run, t: nat, id: nat) {
    exists r', i: nat :: ReturnsIn(env, r, r', i, t, id)
  }

  ghost predicate ReturnsIn(env: Env, r: Run, r': Run, i: nat, t: nat, id: nat) {
    && Bounded(env, r') && Continues(r', r) && |r.steps| <= i < |r'.steps|
    && Returns(r'.states[i], r'.steps[i], t, id)
  }

  /** Nobody has been given the result of `id`, and no peek holds it. */
  ghost predicate Uncollected(env: Env, r: Run, id: nat)
    requires IsRun(env, r)
  {
    !Happened(Deliver, r, |r.steps|, id) && !TakenIs(Last(r), id)
  }

  lemma {:induction false} TakenByLoop(env: Env, s: State, step: Step, id: nat)
    requires Enabled(env, s, step) && IsLoop(step) && TakenIs(s, id)
    ensures TakenIs(Apply(env, s, step), id)
  {
    hide Apply, Enabled;
    LoopOnly(env, s, step);
  }

  lemma {:induction false} TakenByProducer(env: Env, s: State, step: Step, id: nat)
    requires Enabled(env, s, step) && IsProducer(step) && TakenIs(s, id)
    ensures TakenIs(Apply(env, s, step), id)
  {
    hide Apply, Enabled;
    ProducerOnly(env, s, step);
  }

  lemma {:induction false} TakenByCollector(env: Env, s: State, step: Step, id: nat)
    requires ThreadInv(s) && Enabled(env, s, step) && IsCollector(step) && TakenIs(s, id)
    ensures TakenIs(Apply(env, s, step), id) || id in Apply(env, s, step).delivered
  {
    hide ThreadInv, FirstIndex, Without, HasId;
    WaiterLocal(s, step.t);
  }

  /** What a peek has taken stays with it until it is handed out. */
  lemma {:induction false} TakenStays(env: Env, r: Run, i: nat, j: nat, id: nat)
    requires Bounded(env, r) && i <= j < |r.states| && TakenIs(r.states[i], id)
    ensures TakenIs(r.states[j], id) || id in r.states[j].delivered
    decreases j
  {
    hide Apply, Enabled, IdInv, ThreadInv, LoopParts, ResultInv, TakenIs;
    if i < j {
      TakenStays(env, r, i, j - 1, id);
      var s, step := r.states[j - 1], r.steps[j - 1];
      assert IsStep(env, s, step, r.states[j - 1 + 1]);
      RunGrows(env, r, j - 1, j);
      if TakenIs(s, id) {
        RunInv(env, r, j - 1);
        if IsLoop(step) {
          TakenByLoop(env, s, step, id);
        } else if IsProducer(step) {
          TakenByProducer(env, s, step, id);
        } else {
          TakenByCollector(env, s, step, id);
        }
      }
    }
  }

  lemma {:induction false} CompletionIsPublished(env: Env, s: State, k: nat)
    requires Inv(env, s) && k < |s.pushes| && HasId(s.completion, s.pushes[k].id)
    ensures k < Processed(s) && s.pushes[k].id !in s.delivered && !TakenIs(s, s.pushes[k].id)
  {
    hide ThreadInv, LoopParts, SyncRun;
  }

  /** A wait that returns was for a request that could be completed and that nobody else had collected. */
  lemma {:induction false} ReturnNeeds(env: Env, r: Run, i: nat, j: nat, k: nat)
    requires Bounded(env, r) && i <= j < |r.states| && k < |r.states[i].pushes|
    requires HasId(r.states[j].completion, r.states[i].pushes[k].id)
    ensures Possible(env, r.states[i], k)
    ensures r.states[i].pushes[k].id !in r.states[i].delivered && !TakenIs(r.states[i], r.states[i].pushes[k].id)
  {
    hide Apply, Enabled, Inv, SyncRun, Processed, HasId, TakenIs;
    var id := r.states[i].pushes[k].id;
    RunInv(env, r, j);
    RunGrows(env, r, i, j);
    CompletionIsPublished(env, r.states[j], k);
    PublishedWasPossible(env, r, i, j, k);
    if TakenIs(r.states[i], id) {
      TakenStays(env, r, i, j, id);
    }
  }

  lemma {:induction false} PublishedIsThere(env: Env, s: State, t: nat, k: nat)
    requires Inv(env, s) && t < |s.threads| && InWait(s.threads[t])
    requires k < |s.pushes| && k < Processed(s) && s.threads[t].id == s.pushes[k].id
    requires s.pushes[k].id !in s.delivered && !TakenIs(s, s.pushes[k].id)
    ensures Enabled(env, s, WaitFind(t)) && Returns(s, WaitFind(t), t, s.pushes[k].id)
  {
    hide IdInv, LoopParts, SyncRun;
    WaiterLocal(s, t);
  }

  lemma {:induction false} LoopLeavesCollectors(s: State, s': State, t: nat, id: nat)
    requires OnlyLoops(s, s') && t < |s.threads| && InWait(s.threads[t])
    ensures |s'.threads| == |s.threads| && SameWait(s.threads[t], s'.threads[t])
    ensures s'.delivered == s.delivered && s'.pushes == s.pushes
    ensures TakenIs(s', id) <==> TakenIs(s, id)
  {
  }

  lemma {:induction false} WaitKeepsFetches(env: Env, s: State, t: nat)
    requires Enabled(env, s, WaitFind(t))
    ensures Apply(env, s, WaitFind(t)).fetches == s.fetches
  {
    hide Apply, Enabled;
    CollectorOnly(env, s, WaitFind(t));
  }

  /** The loop goes on until the request is published, then the waiting thread takes the result. */
  lemma {:induction false} ReturnPossible(env: Env, r: Run, t: nat, k: nat)
    requires Bounded(env, r) && t < |Last(r).threads| && InWait(Last(r).threads[t])
    requires k < |Last(r).pushes| && Last(r).threads[t].id == Last(r).pushes[k].id && Possible(env, Last(r), k)
    requires Last(r).pushes[k].id !in Last(r).delivered && !TakenIs(Last(r), Last(r).pushes[k].id)
    ensures CanReturn(env, r, t, Last(r).pushes[k].id)
  {
    hide Apply, Enabled, Inv, SyncRun, Processed, TakenIs, Returns, OnlyLoops;
    var id := Last(r).pushes[k].id;
    RunInv(env, r, |r.states| - 1);
    var r1 := Advance(env, r, k);
    LoopLeavesCollectors(Last(r), Last(r1), t, id);
    RunInv(env, r1, |r1.states| - 1);
    PublishedIsThere(env, Last(r1), t, k);
    var r2 := Extend(env, r1, WaitFind(t));
    WaitKeepsFetches(env, Last(r1), t);
    assert ReturnsIn(env, r, r2, |r1.steps|, t, id);
  }

  /**
   * When a wait can return. A thread in callWaitResult or close() waiting for an accepted request can
   * still return if and only if the request can still be completed (see `CompletableIff`) and nobody
   * else has been given its result or is about to be.
   */
  lemma {:induction false} WaitCanReturnIff(env: Env, r: Run, t: nat, k: nat)
    requires Bounded(env, r) && t < |Last(r).threads| && InWait(Last(r).threads[t])
    requires k < |PushOrder(r, |r.steps|)| && PushOrder(r, |r.steps|)[k].id == Last(r).threads[t].id
    ensures Last(r).pushes == PushOrder(r, |r.steps|)
    ensures CanReturn(env, r, t, Last(r).threads[t].id) <==>
      Possible(env, Last(r), k) && Uncollected(env, r, Last(r).threads[t].id)
  {
    hide Apply, Enabled, Inv, Possible, PushOrder, Happened, TakenIs;
    var id, n := Last(r).threads[t].id, |r.steps|;
    PushOrderIs(env, r, n);
    RecordedExactly(env, r, n, Deliver, id);
    if Possible(env, Last(r), k) && Uncollected(env, r, id) {
      ReturnPossible(env, r, t, k);
    }
    if CanReturn(env, r, t, id) {
      var r', i: nat :| ReturnsIn(env, r, r', i, t, id);
      assert r'.states[n] == Last(r);
      ReturnNeeds(env, r', n, i, k);
    }
  }

  /**
   * For callWaitResult on a request that is not a close request nobody else can interfere: the wait
   * can return if and only if the request can be completed.
   */
  lemma {:induction false} ResultCanReturnIff(env: Env, r: Run, t: nat, k: nat)
    requires Bounded(env, r) && t < |Last(r).threads| && Claims(Last(r).threads[t])
    requires k < |PushOrder(r, |r.steps|)| && PushOrder(r, |r.steps|)[k].id == Last(r).threads[t].id
    requires !PushOrder(r, |r.steps|)[k].body.CloseContext?
    ensures Last(r).pushes == PushOrder(r, |r.steps|)
    ensures CanReturn(env, r, t, Last(r).threads[t].id) <==> Possible(env, Last(r), k)
  {
    hide Apply, Enabled, Inv, Possible, PushOrder, Happened, TakenIs, CanReturn;
    PushOrderIs(env, r, |r.steps|);
    WaitCanReturnIff(env, r, t, k);
    RunInv(env, r, |r.states| - 1);
    PushedBody(env, Last(r), k);
    WaiterKeepsCompletion(env, r, |r.states| - 1, t);
  }

  lemma {:induction false} PushedBody(env: Env, s: State, k: nat)
    requires Inv(env, s) && k < |s.pushes|
    ensures s.pushes[k].id != INVALID_ID && (IsClose(s, s.pushes[k].id) <==> s.pushes[k].body.CloseContext?)
  {
    hide ThreadInv, LoopParts, ResultInv;
  }

  lemma {:induction false} CloserPushed(env: Env, s: State, t: nat)
    requires Inv(env, s) && t < |s.threads| && Closes(s.threads[t])
    ensures var id := s.threads[t].id;
      id == INVALID_ID || (id in s.pos && s.pos[id] < |s.pushes| && s.pushes[s.pos[id]] == Request(id, CloseContext))
  {
    hide LoopParts, ResultInv;
    WaiterLocal(s, t);
  }

  /**
   * When close() can return, exactly: its request is among the accepted ones, can still be completed,
   * and nobody has collected or is collecting its result. A refused close is never among the accepted
   * ones; an accepted one can be left behind by the drain, be behind another close request or a call
   * that never comes back, or lose its result to a peek or wait on its id.
   */
  lemma {:induction false} CloseCanReturnIff(env: Env, r: Run, t: nat)
    requires Bounded(env, r) && t < |Last(r).threads| && Closes(Last(r).threads[t])
    ensures Last(r).pushes == PushOrder(r, |r.steps|)
    ensures var id, order := Last(r).threads[t].id, PushOrder(r, |r.steps|);
      CanReturn(env, r, t, id) <==>
      exists k: nat :: (k < |order| && order[k] == Request(id, CloseContext) && Possible(env, Last(r), k)
                        && Uncollected(env, r, id))
  {
    hide Apply, Enabled, Inv, Possible, PushOrder, Uncollected, CanReturn;
    var s, id := Last(r), Last(r).threads[t].id;
    PushOrderIs(env, r, |r.steps|);
    RunInv(env, r, |r.states| - 1);
    CloserPushed(env, s, t);
    if id == INVALID_ID {
      InvalidCannotReturn(env, r, t);
      forall k: nat | k < |s.pushes| ensures s.pushes[k].id != id {
        PushedBody(env, s, k);
      }
    } else {
      var k := s.pos[id];
      WaitCanReturnIff(env, r, t, k);
      PushedOnce(env, s, k);
    }
  }

  lemma {:induction false} InvalidCannotReturn(env: Env, r: Run, t: nat)
    requires Bounded(env, r)
    ensures !CanReturn(env, r, t, INVALID_ID)
  {
    hide Apply, Enabled, Inv;
    forall r', i: nat | ReturnsIn(env, r, r', i, t, INVALID_ID) ensures false {
      RunInv(env, r', i);
      InvalidNeverCompleted(env, r'.states[i]);
    }
  }

  /** Nobody ever returns from a wait for a request that is in the queue when the loop has ended. */
  lemma {:induction false} LeftBehindCannotReturn(env: Env, r: Run, t: nat, id: nat)
    requires Bounded(env, r) && Ended(Last(r).loop) && HasId(Last(r).request, id)
    ensures !CanReturn(env, r, t, id)
  {
    hide Apply, Enabled, HasId, Happened;
    forall r', i: nat | ReturnsIn(env, r, r', i, t, id) ensures false {
      assert r'.states[|r.states| - 1] == Last(r);
      LeftBehindNeverCompletes(env, r', |r.states| - 1, i, id);
    }
  }
}
