/** How a context ends: the drain after a failure, refused pushes and the close request. */
module ProtocolShutdown {
  import opened Base
  import opened CommandQueue
  import opened VeHandler
  import opened Interpreter
  import opened Protocol
  import opened ProtocolInvariant
  import opened ProtocolSteps
  import opened ProtocolFrames
  import opened ProtocolRuns
  import opened ProtocolTheorems

  /** Caller threads do not move the event loop, except that a push wakes it, nor the queue status. */
  lemma {:induction false} CallerFrame(env: Env, s: State, step: Step)
    requires Enabled(env, s, step) && !IsLoop(step)
    ensures var s' := Apply(env, s, step);
      && s'.qstatus == s.qstatus && s'.closure == s.closure && s.request <= s'.request
      && (s.loop.PopAsleep? || s'.loop == s.loop) && Processed(s') == Processed(s)
  {
    hide Apply, Enabled;
    if IsProducer(step) {
      ProducerOnly(env, s, step);
    } else {
      CollectorOnly(env, s, step);
    }
  }

  // ----- the closure record -----

  lemma {:induction false} ClosureStays(env: Env, s: State, step: Step)
    requires LoopParts(env, s) && Enabled(env, s, step) && s.closure.Some?
    ensures Apply(env, s, step).closure == s.closure
  {
    hide Apply, Enabled, QueueInv, LoopInv;
    if IsLoop(step) {
      LoopEdges(env, s, step);
    } else {
      CallerFrame(env, s, step);
    }
  }

  /** The record made when CLOSED is stored is the one every later state has. */
  lemma {:induction false} ClosureMeaning(env: Env, r: Run, i: nat, j: nat)
    requires Bounded(env, r) && i < j < |r.states| && r.steps[i].LoopSetClosed?
    ensures r.states[j].closure == Some(Closure(PassedIds(r.states[i]), |r.states[i].pushes|))
    decreases j
  {
    hide Inv, LoopParts, PassedIds;
    assert IsStep(env, r.states[i], r.steps[i], r.states[i + 1]);
    if i + 1 < j {
      hide Apply, Enabled;
      ClosureMeaning(env, r, i, j - 1);
      RunInv(env, r, j - 1);
      assert IsStep(env, r.states[j - 1], r.steps[j - 1], r.states[j - 1 + 1]);
      InvLoopParts(env, r.states[j - 1]);
      ClosureStays(env, r.states[j - 1], r.steps[j - 1]);
    }
  }

  // ----- after the failure branch -----

  /**
   * After the failure branch is through, a command still in the request queue was pushed by a
   * producer that had read READY before CLOSED was stored.
   */
  lemma {:induction false} StrandedWereInFlight(env: Env, r: Run, i: nat, j: nat)
    requires Bounded(env, r) && i < j < |r.states| && r.steps[i].LoopSetClosed? && r.states[j].loop.Done?
    ensures forall k :: 0 <= k < |r.states[j].request| ==> r.states[j].request[k].req.id in PassedIds(r.states[i])
  {
    hide Apply, Enabled, IdInv, ThreadInv, ResultInv, LoopInv, CtxInv, PassedIds;
    ClosureMeaning(env, r, i, j);
    RunInv(env, r, j);
  }

  lemma {:induction false} EmptyIfNone(q: seq<Command>, ids: set<nat>)
    requires forall k :: 0 <= k < |q| ==> q[k].req.id in ids
    ensures ids == {} ==> q == []
  {
    if q != [] {
      assert q[0].req.id in ids;
    }
  }

  /** A run in which no other step comes between a producer's status check and its push. */
  ghost predicate CheckAndPushAtomic(r: Run) {
    forall i: nat, t: nat :: i < |r.steps| && i < |r.states| && t < |r.states[i].threads| ==>
      (r.states[i].threads[t].Passed? ==> r.steps[i] == Push(t))
  }

  /**
   * If checking and pushing were one step, shutdown would lose nothing: the request queue ends
   * empty and every accepted request is completed or delivered.
   */
  lemma {:induction false} AtomicDrainLosesNothing(env: Env, r: Run, i: nat, j: nat)
    requires Bounded(env, r) && CheckAndPushAtomic(r)
    requires i < j < |r.states| && r.steps[i].LoopSetClosed? && r.states[j].loop.Done?
    ensures r.states[j].request == []
    ensures forall k :: 0 <= k < |PushOrder(r, j)| ==>
      var id := PushOrder(r, j)[k].id;
      Happened(Deliver, r, j, id) || HasId(r.states[j].completion, id) || TakenIs(r.states[j], id)
  {
    hide Apply, Enabled, Inv, HasId, PushOrder, Happened;
    var s, before, closing := r.states[j], r.states[i], r.steps[i];
    StrandedWereInFlight(env, r, i, j);
    EmptyIfNone(s.request, PassedIds(before));
    assert forall t: nat :: t < |before.threads| ==> (before.threads[t].Passed? ==> closing == Push(t));
    assert PassedIds(before) == {};
    RunInv(env, r, j);
    PushOrderIs(env, r, j);
    forall k | 0 <= k < |PushOrder(r, j)|
      ensures var id := PushOrder(r, j)[k].id;
        Happened(Deliver, r, j, id) || HasId(s.completion, id) || TakenIs(s, id)
    {
      RecordedExactly(env, r, j, Deliver, s.pushes[k].id);
      EmptyMeansPublished(env, s, k);
    }
  }

  lemma {:induction false} EmptyMeansPublished(env: Env, s: State, k: nat)
    requires Inv(env, s) && s.loop.Done? && s.request == [] && k < |s.pushes|
    ensures s.pushes[k].id in s.delivered || HasId(s.completion, s.pushes[k].id) || TakenIs(s, s.pushes[k].id)
  {
    hide IdInv, ThreadInv, LoopInv, CtxInv, ClosureInv, HasId;
  }

  // ----- after the event loop has ended -----

  /** The event loop has ended: by a failure, by a close request, or before it began. */
  predicate Ended(l: LoopPc) {
    l.Done? || l.Gone? || l.Dead?
  }

  lemma {:induction false} EndedStays(env: Env, s: State, step: Step)
    requires Ended(s.loop) && Enabled(env, s, step)
    ensures var s' := Apply(env, s, step); s'.loop == s.loop && s.request <= s'.request && Processed(s') == Processed(s)
  {
    hide Apply, Processed;
    assert !IsLoop(step);
    CallerFrame(env, s, step);
  }

  lemma {:induction false} EndedStatus(env: Env, s: State)
    requires Inv(env, s) && Ended(s.loop)
    ensures s.ctx == StExit && (s.qstatus == QueueClosed <==> s.loop.Done?)
  {
    hide IdInv, ThreadInv, ResultInv, QueueInv, LoopInv, ClosureInv;
  }

  lemma {:induction false} EndedRun(env: Env, r: Run, i: nat, j: nat)
    requires IsRun(env, r) && i <= j < |r.states| && Ended(r.states[i].loop)
    ensures r.states[j].loop == r.states[i].loop && r.states[i].request <= r.states[j].request
    ensures Processed(r.states[j]) == Processed(r.states[i])
    decreases j
  {
    hide Apply, Enabled, Processed;
    if i < j {
      EndedRun(env, r, i, j - 1);
      assert IsStep(env, r.states[j - 1], r.steps[j - 1], r.states[j - 1 + 1]);
      EndedStays(env, r.states[j - 1], r.steps[j - 1]);
    }
  }

  /**
   * After the end. Once the event loop has ended (state `i`) it stays where it is, the queue status
   * stays CLOSED after a failure and READY otherwise, nothing leaves the request queue, and the
   * accepted requests in it are exactly those beyond the ones published by then, whenever they were
   * or will be pushed.
   */
  lemma {:induction false} AfterTheEnd(env: Env, r: Run, i: nat, j: nat)
    requires Bounded(env, r) && i <= j < |r.states| && Ended(r.states[i].loop)
    ensures r.states[j].loop == r.states[i].loop && r.states[j].ctx == StExit
    ensures r.states[j].qstatus == QueueClosed <==> r.states[i].loop.Done?
    ensures r.states[i].request <= r.states[j].request
    ensures forall k :: 0 <= k < |PushOrder(r, j)| ==>
      (HasId(r.states[j].request, PushOrder(r, j)[k].id) <==> k >= |PushOrder(r, i)| - |r.states[i].request|)
  {
    hide Apply, Enabled, Inv, IdInv, QueueInv, HasId, PushOrder;
    EndedRun(env, r, i, j);
    RunInv(env, r, j);
    EndedStatus(env, r.states[j]);
    PushOrderIs(env, r, i);
    PushOrderIs(env, r, j);
    var s := r.states[j];
    forall k | 0 <= k < |s.pushes| ensures HasId(s.request, s.pushes[k].id) <==> k >= |s.pushes| - |s.request| {
      QueueIsTail(env, s, k);
    }
  }

  lemma {:induction false} QueueIsTail(env: Env, s: State, k: nat)
    requires Inv(env, s) && k < |s.pushes|
    ensures HasId(s.request, s.pushes[k].id) <==> k >= |s.pushes| - |s.request|
  {
    hide ThreadInv, ResultInv, LoopInv, CtxInv, ClosureInv, HasId;
    InRequest(s, s.pushes[k].id);
  }

  lemma {:induction false} QueuedNotDelivered(env: Env, s: State, id: nat)
    requires Inv(env, s) && HasId(s.request, id)
    ensures id !in s.delivered && !HasId(s.completion, id)
  {
    hide ThreadInv, LoopInv, CtxInv, ClosureInv, SyncRun;
    InRequest(s, id);
  }

  /**
   * A request left in the queue when the event loop has ended is lost: it stays in the queue, never
   * completes, and no peek, wait or close ever gets a result for it.
   */
  lemma {:induction false} LeftBehindNeverCompletes(env: Env, r: Run, i: nat, j: nat, id: nat)
    requires Bounded(env, r) && i <= j < |r.states| && Ended(r.states[i].loop) && HasId(r.states[i].request, id)
    ensures HasId(r.states[j].request, id) && !HasId(r.states[j].completion, id) && !Happened(Deliver, r, j, id)
  {
    hide Apply, Enabled, Inv, Happened, FirstIndex, Processed;
    EndedRun(env, r, i, j);
    RunInv(env, r, j);
    var k :| 0 <= k < |r.states[i].request| && r.states[i].request[k].req.id == id;
    assert r.states[j].request[k].req.id == id;
    QueuedNotDelivered(env, r.states[j], id);
    RecordedExactly(env, r, j, Deliver, id);
  }

  // ----- what the drain leaves behind -----

  ghost function PassedThreads(s: State): set<nat> {
    set t | 0 <= t < |s.threads| && s.threads[t].Passed?
  }

  ghost function QueuedIds(q: seq<Command>): set<nat> {
    set k | 0 <= k < |q| :: q[k].req.id
  }

  lemma {:induction false} QueuedIdsAppend(q: seq<Command>, c: Command)
    ensures QueuedIds(q + [c]) == QueuedIds(q) + {c.req.id}
  {
    var p := q + [c];
    assert p[|q|] == c;
    forall k | 0 <= k < |q| ensures q[k].req.id in QueuedIds(p) {
      assert p[k] == q[k];
    }
  }

  /** A push moves the producer's id to the queue. */
  lemma {:induction false} PushLeftover(env: Env, s: State, t: nat)
    requires Enabled(env, s, Push(t))
    ensures var s' := Apply(env, s, Push(t));
      QueuedIds(s'.request) + PassedIds(s') == QueuedIds(s.request) + PassedIds(s)
  {
    hide Apply, Enabled, QueuedIds;
    var s' := Apply(env, s, Push(t));
    ProducerOnly(env, s, Push(t));
    QueuedIdsAppend(s.request, Command(s.threads[t].req, None));
    assert forall u :: 0 <= u < |s.threads| && u != t ==> s'.threads[u] == s.threads[u];
    assert s.threads[t].Passed? && !s'.threads[t].Passed?;
    assert PassedIds(s) == PassedIds(s') + {s.threads[t].req.id};
  }

  lemma {:induction false} SamePassed(s: State, s': State, t: nat)
    requires t < |s.threads| == |s'.threads| && s'.threads == s.threads[t := s'.threads[t]]
    requires !s.threads[t].Passed? && !s'.threads[t].Passed?
    ensures PassedIds(s') == PassedIds(s) && PassedThreads(s') == PassedThreads(s)
  {
    assert forall u :: 0 <= u < |s.threads| && u != t ==> s'.threads[u] == s.threads[u];
  }

  /** While the queue is closed no other caller step changes the queue or who is past the check. */
  lemma {:induction false} ClosedCallerFrame(env: Env, s: State, step: Step)
    requires Enabled(env, s, step) && !IsLoop(step) && !step.Push? && s.qstatus == QueueClosed
    ensures var s' := Apply(env, s, step);
      s'.request == s.request && PassedIds(s') == PassedIds(s) && PassedThreads(s') == PassedThreads(s)
  {
    hide Apply, PassedIds, PassedThreads;
    if IsProducer(step) {
      ProducerOnly(env, s, step);
    } else {
      CollectorOnly(env, s, step);
    }
    SamePassed(s, Apply(env, s, step), step.t);
  }

  lemma {:induction false} DoneLeftover(env: Env, s: State, step: Step)
    requires Enabled(env, s, step) && s.loop.Done? && s.qstatus == QueueClosed
    ensures var s' := Apply(env, s, step);
      QueuedIds(s'.request) + PassedIds(s') == QueuedIds(s.request) + PassedIds(s)
  {
    hide Apply, QueuedIds, PassedIds, PassedThreads;
    assert !IsLoop(step);
    if step.Push? {
      PushLeftover(env, s, step.t);
    } else {
      ClosedCallerFrame(env, s, step);
    }
  }

  lemma {:induction false} DoneLeftoverRun(env: Env, r: Run, i: nat, j: nat)
    requires Bounded(env, r) && i <= j < |r.states| && r.states[i].loop.Done?
    ensures QueuedIds(r.states[j].request) + PassedIds(r.states[j]) ==
      QueuedIds(r.states[i].request) + PassedIds(r.states[i])
    decreases j
  {
    hide Apply, Enabled, Inv, QueuedIds, PassedIds, Processed;
    if i < j {
      DoneLeftoverRun(env, r, i, j - 1);
      EndedRun(env, r, i, j - 1);
      RunInv(env, r, j - 1);
      EndedStatus(env, r.states[j - 1]);
      assert IsStep(env, r.states[j - 1], r.steps[j - 1], r.states[j - 1 + 1]);
      DoneLeftover(env, r.states[j - 1], r.steps[j - 1]);
    }
  }

  lemma {:induction false} EmptyDrainPop(env: Env, s: State)
    requires Enabled(env, s, LoopDrainPop) && s.request == []
    ensures var s' := Apply(env, s, LoopDrainPop);
      s'.loop.Done? && PassedIds(s') == PassedIds(s) && QueuedIds(s'.request) == {}
  {
  }

  lemma {:induction false} PassedNotQueued(env: Env, s: State)
    requires Inv(env, s)
    ensures QueuedIds(s.request) !! PassedIds(s)
  {
    hide LoopInv, CtxInv, ClosureInv, ResultInv, IdInv;
    forall t | 0 <= t < |s.threads| && s.threads[t].Passed? ensures s.threads[t].req.id !in QueuedIds(s.request) {
      WaiterLocal(s, t);
      NotQueued(s, s.threads[t].req.id);
    }
  }

  lemma {:induction false} NotQueued(s: State, id: nat)
    requires IdInv(s) && QueueInv(s) && id !in s.pos
    ensures id !in QueuedIds(s.request)
  {
    InRequest(s, id);
  }

  /**
   * What is lost, exactly: let step `i` be the pop with which the drain finds the queue empty. From
   * then on every producer that was past the status check at that moment is either still there or
   * has its request in the queue, and nothing else is in the queue.
   */
  lemma {:induction false} StrandedExactly(env: Env, r: Run, i: nat, j: nat)
    requires Bounded(env, r) && i < j < |r.states| && r.steps[i].LoopDrainPop? && r.states[i].request == []
    ensures QueuedIds(r.states[j].request) + PassedIds(r.states[j]) == PassedIds(r.states[i])
    ensures QueuedIds(r.states[j].request) !! PassedIds(r.states[j])
  {
    hide Apply, Enabled, Inv, QueuedIds, PassedIds;
    assert IsStep(env, r.states[i], r.steps[i], r.states[i + 1]);
    EmptyDrainPop(env, r.states[i]);
    DoneLeftoverRun(env, r, i + 1, j);
    RunInv(env, r, j);
    PassedNotQueued(env, r.states[j]);
  }

  lemma {:induction false} PassedCanPush(env: Env, r: Run) returns (r': Run)
    requires Bounded(env, r) && PassedIds(Last(r)) != {}
    ensures Bounded(env, r') && Continues(r', r) && Last(r').request != []
  {
    hide Apply;
    var id :| id in PassedIds(Last(r));
    var t :| 0 <= t < |Last(r).threads| && Last(r).threads[t].Passed? && Last(r).threads[t].req.id == id;
    r' := Extend(env, r, Push(t));
    PushFills(env, Last(r), t);
  }

  lemma {:induction false} PushFills(env: Env, s: State, t: nat)
    requires Enabled(env, s, Push(t))
    ensures Apply(env, s, Push(t)).request != [] && Apply(env, s, Push(t)).fetches == s.fetches
  {
  }

  /**
   * The drain loses nothing in any continuation if and only if no producer is between its status
   * check and its push when the drain finds the queue empty.
   */
  lemma {:induction false} NothingStrandedIff(env: Env, r: Run)
    requires Bounded(env, r) && r.steps != []
    requires r.steps[|r.steps| - 1].LoopDrainPop? && r.states[|r.steps| - 1].request == []
    ensures (forall r' :: Bounded(env, r') && Continues(r', r) ==> Last(r').request == []) <==>
      PassedIds(r.states[|r.steps| - 1]) == {}
  {
    hide Apply, Enabled, QueuedIds, PassedIds;
    var i := |r.steps| - 1;
    assert IsStep(env, r.states[i], r.steps[i], r.states[i + 1]);
    EmptyDrainPop(env, r.states[i]);
    if PassedIds(r.states[i]) == {} {
      forall r' | Bounded(env, r') && Continues(r', r) ensures Last(r').request == [] {
        assert r'.states[i] == r.states[i] && r'.steps[i] == r.steps[i];
        StrandedExactly(env, r', i, |r'.states| - 1);
        NoneQueued(Last(r').request);
      }
    } else {
      var r' := PassedCanPush(env, r);
    }
  }

  lemma {:induction false} NoneQueued(q: seq<Command>)
    ensures QueuedIds(q) == {} ==> q == []
  {
    if q != [] {
      assert q[0].req.id in QueuedIds(q);
    }
  }

  // ----- termination of the drain -----

  /** Commands in the queue plus producers past the check: what the drain may still have to pop. */
  ghost function DrainMeasure(s: State): nat {
    |s.request| + |PassedThreads(s)|
  }

  lemma {:induction false} LoopDrainMeasure(env: Env, s: State, step: Step)
    requires Enabled(env, s, step) && IsLoop(step)
    ensures DrainMeasure(Apply(env, s, step)) ==
      DrainMeasure(s) - if (step.LoopPop? || step.LoopDrainPop?) && s.request != [] then 1 else 0
  {
    hide Apply, Enabled;
    var s' := Apply(env, s, step);
    LoopOnly(env, s, step);
    LoopEdges(env, s, step);
    assert PassedThreads(s') == PassedThreads(s);
  }

  /** A push moves one unit from the producers to the queue. */
  lemma {:induction false} PushDrainMeasure(env: Env, s: State, t: nat)
    requires Enabled(env, s, Push(t))
    ensures DrainMeasure(Apply(env, s, Push(t))) == DrainMeasure(s)
  {
    hide Apply, Enabled;
    var s' := Apply(env, s, Push(t));
    ProducerOnly(env, s, Push(t));
    assert PassedThreads(s') == PassedThreads(s) - {t};
    assert t in PassedThreads(s);
  }

  /** Where the drain stands: how many steps of the event loop are left when no work is added. */
  function DrainPhase(l: LoopPc): nat {
    match l
    case PublishFailed(_) | DrainHave(_) => 2
    case Drain => 1
    case _ => 0
  }

  predicate Draining(l: LoopPc) {
    l.PublishFailed? || l.Drain? || l.DrainHave? || l.Done?
  }

  /** While the queue is closed no step adds work for the drain, and each pop of the drain removes one unit. */
  lemma {:induction false} DrainStep(env: Env, s: State, step: Step)
    requires Enabled(env, s, step) && s.qstatus == QueueClosed && Draining(s.loop)
    ensures DrainMeasure(Apply(env, s, step)) ==
      DrainMeasure(s) - if step.LoopDrainPop? && s.request != [] then 1 else 0
  {
    hide Apply, PassedThreads, PassedIds;
    if IsLoop(step) {
      LoopDrainMeasure(env, s, step);
    } else if step.Push? {
      PushDrainMeasure(env, s, step.t);
    } else {
      ClosedCallerFrame(env, s, step);
    }
  }

  lemma {:induction false} DrainPhaseStep(env: Env, s: State, step: Step)
    requires Enabled(env, s, step) && Draining(s.loop) && IsLoop(step)
    ensures Draining(Apply(env, s, step).loop)
    ensures step.LoopDrainPop? ==>
      s.loop.Drain? && if s.request == [] then Apply(env, s, step).loop.Done? else Apply(env, s, step).loop.DrainHave?
    ensures !step.LoopDrainPop? ==> (s.loop.PublishFailed? || s.loop.DrainHave?) && Apply(env, s, step).loop.Drain?
  {
    hide Apply, Enabled;
    LoopEdges(env, s, step);
  }

  /** How many of the steps from `i` up to `j` are pops of the drain. */
  function DrainPops(r: Run, i: nat, j: nat): nat
    requires i <= j <= |r.steps|
  {
    if i == j then 0 else DrainPops(r, i, j - 1) + if r.steps[j - 1].LoopDrainPop? then 1 else 0
  }

  /** How many of the steps from `i` up to `j` are the event loop's. */
  function LoopSteps(r: Run, i: nat, j: nat): nat
    requires i <= j <= |r.steps|
  {
    if i == j then 0 else LoopSteps(r, i, j - 1) + if IsLoop(r.steps[j - 1]) then 1 else 0
  }

  lemma {:induction false} SetClosedStep(env: Env, s: State)
    requires Enabled(env, s, LoopSetClosed)
    ensures var s' := Apply(env, s, LoopSetClosed); s'.loop.PublishFailed? && DrainMeasure(s') == DrainMeasure(s)
  {
    hide PassedIds;
    assert PassedThreads(Apply(env, s, LoopSetClosed)) == PassedThreads(s);
  }

  lemma {:induction false} DrainingClosed(env: Env, s: State)
    requires Inv(env, s) && Draining(s.loop)
    ensures s.qstatus == QueueClosed
  {
    hide IdInv, ThreadInv, ResultInv, QueueInv, LoopInv, ClosureInv;
  }

  lemma {:induction false} DrainPopsExactly(env: Env, r: Run, i: nat, j: nat)
    requires Bounded(env, r) && i < j < |r.states| && r.steps[i].LoopSetClosed?
    ensures Draining(r.states[j].loop)
    ensures DrainPops(r, i + 1, j) + DrainMeasure(r.states[j]) ==
      DrainMeasure(r.states[i]) + if r.states[j].loop.Done? then 1 else 0
    ensures LoopSteps(r, i + 1, j) + 2 * DrainMeasure(r.states[j]) + DrainPhase(r.states[j].loop) ==
      2 * DrainMeasure(r.states[i]) + 2
    decreases j
  {
    hide Apply, Enabled, Inv, DrainMeasure, Processed;
    if i + 1 == j {
      assert IsStep(env, r.states[i], r.steps[i], r.states[i + 1]);
      SetClosedStep(env, r.states[i]);
    } else {
      DrainPopsExactly(env, r, i, j - 1);
      var s, step := r.states[j - 1], r.steps[j - 1];
      assert IsStep(env, s, step, r.states[j - 1 + 1]);
      RunInv(env, r, j - 1);
      DrainingClosed(env, s);
      DrainStep(env, s, step);
      if IsLoop(step) {
        DrainPhaseStep(env, s, step);
      } else {
        CallerFrame(env, s, step);
      }
    }
  }

  /**
   * The drain terminates, whatever the callers do meanwhile. After CLOSED is stored the event loop
   * pops at most once more than there are queued commands and producers past the check, its
   * steps are limited accordingly, and until it has ended one of its steps is enabled.
   */
  lemma {:induction false} DrainTerminates(env: Env, r: Run, i: nat, j: nat)
    requires Bounded(env, r) && i < j < |r.states| && r.steps[i].LoopSetClosed?
    ensures DrainPops(r, i + 1, j) + DrainMeasure(r.states[j]) ==
      DrainMeasure(r.states[i]) + if r.states[j].loop.Done? then 1 else 0
    ensures LoopSteps(r, i + 1, j) + 2 * DrainMeasure(r.states[j]) + DrainPhase(r.states[j].loop) ==
      2 * DrainMeasure(r.states[i]) + 2
    ensures DrainPops(r, i + 1, j) <= DrainMeasure(r.states[i]) + 1
    ensures LoopSteps(r, i + 1, j) <= 2 * DrainMeasure(r.states[i]) + 2
    ensures Draining(r.states[j].loop)
    ensures !r.states[j].loop.Done? ==> exists step :: IsLoop(step) && Enabled(env, r.states[j], step)
  {
    hide Apply, Enabled, Inv, DrainMeasure, DrainPops, LoopSteps;
    DrainPopsExactly(env, r, i, j);
    DrainGoesOn(env, r.states[j]);
  }

  lemma {:induction false} DrainGoesOn(env: Env, s: State)
    requires Draining(s.loop)
    ensures !s.loop.Done? ==> exists step :: IsLoop(step) && Enabled(env, s, step)
  {
    if s.loop.PublishFailed? {
      assert Enabled(env, s, LoopPublishFailed);
    } else if s.loop.Drain? {
      assert Enabled(env, s, LoopDrainPop);
    } else if s.loop.DrainHave? {
      assert Enabled(env, s, LoopDrainPush);
    }
  }

  // ----- refused pushes -----

  /** The queue is closed exactly when an earlier step stored CLOSED. */
  lemma {:induction false} ClosedExactly(env: Env, r: Run, n: nat)
    requires IsRun(env, r) && n < |r.states|
    ensures r.states[n].qstatus == QueueClosed <==> exists i :: 0 <= i < n && r.steps[i].LoopSetClosed?
    decreases n
  {
    hide Apply, Enabled;
    if n > 0 {
      ClosedExactly(env, r, n - 1);
      assert IsStep(env, r.states[n - 1], r.steps[n - 1], r.states[n - 1 + 1]);
      if !IsLoop(r.steps[n - 1]) {
        CallerFrame(env, r.states[n - 1], r.steps[n - 1]);
      } else {
        LoopEdges(env, r.states[n - 1], r.steps[n - 1]);
      }
    }
  }

  lemma {:induction false} CheckStep(env: Env, s: State, t: nat)
    requires Inv(env, s) && Enabled(env, s, CheckQueue(t))
    ensures var id, s' := s.threads[t].req.id, Apply(env, s, CheckQueue(t));
      (id in s'.refused <==> s.qstatus == QueueClosed) && (s'.threads[t].Passed? <==> s.qstatus != QueueClosed)
  {
    hide IdInv, LoopParts, ResultInv;
    WaiterLocal(s, t);
  }

  lemma {:induction false} RefusedNotPushed(env: Env, s: State, id: nat)
    requires Inv(env, s) && id in s.refused
    ensures id in s.issued && id !in s.delivered && !HasId(s.completion, id)
    ensures forall k :: 0 <= k < |s.pushes| ==> s.pushes[k].id != id
  {
    hide ThreadInv, LoopParts, SyncRun;
  }

  /**
   * A push is refused if and only if CLOSED was stored before its status check; otherwise the
   * producer goes on to push.
   */
  lemma {:induction false} RefusedExactly(env: Env, r: Run, j: nat, t: nat)
    requires Bounded(env, r) && j < |r.steps| && r.steps[j] == CheckQueue(t)
    ensures t < |r.states[j].threads| && r.states[j].threads[t].Registered? && t < |r.states[j + 1].threads|
    ensures Happened(Refuse, r, j + 1, r.states[j].threads[t].req.id) <==>
      exists i :: 0 <= i < j && r.steps[i].LoopSetClosed?
    ensures r.states[j + 1].threads[t].Passed? <==> !exists i :: 0 <= i < j && r.steps[i].LoopSetClosed?
  {
    hide Apply, Inv, Happened;
    var s := r.states[j];
    assert IsStep(env, s, r.steps[j], r.states[j + 1]);
    RunInv(env, r, j);
    CheckStep(env, s, t);
    ClosedExactly(env, r, j);
    RecordedExactly(env, r, j + 1, Refuse, s.threads[t].req.id);
    RunGrows(env, r, j, j + 1);
  }

  /**
   * A request whose push was refused is never pushed and never completes. callVHAsync still returns
   * its id: no peek on it ever gives a final answer and no wait on it ever returns.
   */
  lemma {:induction false} RefusedNeverCompletes(env: Env, r: Run, i: nat, j: nat, id: nat)
    requires Bounded(env, r) && i <= j < |r.states| && Happened(Refuse, r, i, id)
    ensures Happened(Issue, r, j, id) && !Happened(Deliver, r, j, id) && !HasId(r.states[j].completion, id)
    ensures forall k :: 0 <= k < |PushOrder(r, j)| ==> PushOrder(r, j)[k].id != id
  {
    hide Apply, Enabled, Inv, Happened, PushOrder;
    RecordedExactly(env, r, i, Refuse, id);
    RunGrows(env, r, i, j);
    RunInv(env, r, j);
    RefusedNotPushed(env, r.states[j], id);
    RecordedExactly(env, r, j, Issue, id);
    RecordedExactly(env, r, j, Deliver, id);
    PushOrderIs(env, r, j);
  }

  // ----- close -----

  /** The thread is in close() after a refused push, waiting for the invalid id. */
  predicate ClosesInvalid(pc: Pc) {
    Closes(pc) && pc.id == INVALID_ID
  }

  lemma {:induction false} InvalidNeverCompleted(env: Env, s: State)
    requires Inv(env, s)
    ensures !HasId(s.completion, INVALID_ID)
  {
    hide ThreadInv, LoopParts, SyncRun;
  }

  /** A thread waiting for the invalid id waits for ever. */
  lemma {:induction false} InvalidWaitHangs(env: Env, r: Run, i: nat, j: nat, t: nat)
    requires Bounded(env, r) && i <= j < |r.states| && t < |r.states[i].threads|
    requires ClosesInvalid(r.states[i].threads[t])
    ensures t < |r.states[j].threads| && ClosesInvalid(r.states[j].threads[t])
    decreases j
  {
    hide Apply, Enabled, Inv, HasId;
    if i < j {
      InvalidWaitHangs(env, r, i, j - 1, t);
      RunInv(env, r, j - 1);
      assert IsStep(env, r.states[j - 1], r.steps[j - 1], r.states[j - 1 + 1]);
      InvalidNeverCompleted(env, r.states[j - 1]);
      WaitStays(env, r.states[j - 1], r.steps[j - 1], t);
    }
  }

  lemma {:induction false} RefusedCloseStep(env: Env, s: State, t: nat)
    requires Enabled(env, s, CheckQueue(t)) && s.threads[t].req.body.CloseContext? && s.qstatus == QueueClosed
    ensures t < |Apply(env, s, CheckQueue(t)).threads| && ClosesInvalid(Apply(env, s, CheckQueue(t)).threads[t])
  {
  }

  /**
   * A refused close() never returns: when the status check of a close request comes after CLOSED was
   * stored, the thread waits for the invalid id in every later state.
   */
  lemma {:induction false} RefusedCloseHangs(env: Env, r: Run, l: nat, i: nat, j: nat, t: nat)
    requires Bounded(env, r) && l < i < j < |r.states| && r.steps[l].LoopSetClosed? && r.steps[i] == CheckQueue(t)
    requires t < |r.states[i].threads| && r.states[i].threads[t].Registered?
    requires r.states[i].threads[t].req.body.CloseContext?
    ensures t < |r.states[j].threads| && ClosesInvalid(r.states[j].threads[t])
  {
    hide Apply, Enabled, Inv, ClosesInvalid;
    assert IsStep(env, r.states[i], r.steps[i], r.states[i + 1]);
    ClosedExactly(env, r, i);
    RefusedCloseStep(env, r.states[i], t);
    InvalidWaitHangs(env, r, i + 1, j, t);
  }

  lemma {:induction false} CloseRetvalZero(env: Env, p: seq<Request>, k: nat)
    requires k < |p| && p[k].body.CloseContext? && SyncRun(env, p)[k].Some?
    ensures SyncRun(env, p)[k].value.retval == 0
  {
    hide RunBody;
    SyncRunAt(env, p, k);
  }

  lemma {:induction false} CloseFinds(env: Env, s: State, t: nat)
    requires Inv(env, s) && t < |s.threads| && Closes(s.threads[t]) && HasId(s.completion, s.threads[t].id)
    ensures var id := s.threads[t].id;
      && id in s.pos && s.pos[id] < |s.pushes| && s.pushes[s.pos[id]] == Request(id, CloseContext) && id !in s.refused
      && ResultOf(s.completion[FirstIndex(s.completion, id)]).retval == 0
  {
    hide LoopParts, SyncRun;
    WaiterLocal(s, t);
    CloseRetvalZero(env, s.pushes, s.pos[s.threads[t].id]);
  }

  /** A close() that returns was accepted, not refused, and what it finds has return value zero. */
  lemma {:induction false} AcceptedCloseReturnsZero(env: Env, r: Run, i: nat, id: nat)
    requires Bounded(env, r) && i < |r.steps| && CloseCollects(r.states[i], r.steps[i], id)
    ensures exists k :: 0 <= k < |PushOrder(r, i)| && PushOrder(r, i)[k] == Request(id, CloseContext)
    ensures !Happened(Refuse, r, i, id)
    ensures ResultOf(r.states[i].completion[FirstIndex(r.states[i].completion, id)]).retval == 0
  {
    hide Apply, Enabled, Inv, Happened, PushOrder;
    RunInv(env, r, i);
    CloseFinds(env, r.states[i], r.steps[i].t);
    PushOrderIs(env, r, i);
    RecordedExactly(env, r, i, Refuse, id);
  }

  // ----- after EXIT -----

  /** The event loop has stored EXIT. */
  predicate ExitPhase(l: LoopPc) {
    || l.Dead? || l.SetClosed? || l.PublishFailed? || l.Drain? || l.DrainHave? || l.Done?
    || l.CloseReply? || l.Gone?
  }

  lemma {:induction false} ExitPhaseAwake(l: LoopPc)
    requires ExitPhase(l)
    ensures !l.PopAsleep?
  {
  }

  /** The threads inside a request function that has seen a state other than EXIT. */
  ghost function Producers(s: State): set<nat> {
    set t | 0 <= t < |s.threads| && Producing(s.threads[t])
  }

  lemma {:induction false} LoopExitStep(env: Env, s: State, step: Step)
    requires Enabled(env, s, step) && IsLoop(step) && ExitPhase(s.loop)
    ensures ExitPhase(Apply(env, s, step).loop) && Producers(Apply(env, s, step)) == Producers(s)
  {
    hide Apply, Enabled;
    LoopOnly(env, s, step);
    LoopEdges(env, s, step);
  }

  lemma {:induction false} CallerExitStep(env: Env, s: State, step: Step)
    requires Enabled(env, s, step) && !IsLoop(step) && s.ctx == StExit
    ensures Producers(Apply(env, s, step)) <= Producers(s)
  {
    hide Apply, Enabled;
    var s', u := Apply(env, s, step), step.t;
    if IsProducer(step) {
      ProducerOnly(env, s, step);
    } else {
      CollectorOnly(env, s, step);
    }
    assert forall t :: 0 <= t < |s.threads| && t != u ==> s'.threads[t] == s.threads[t];
  }

  lemma {:induction false} ExitPhaseCtx(env: Env, s: State)
    requires Inv(env, s) && ExitPhase(s.loop)
    ensures s.ctx == StExit
  {
    hide IdInv, ThreadInv, ResultInv, QueueInv, LoopInv, ClosureInv;
  }

  /**
   * EXIT is final: the context stays in EXIT, and no thread enters a request function past its first
   * test any more, so the producers can only become fewer.
   */
  lemma {:induction false} ExitIsFinal(env: Env, r: Run, i: nat, j: nat)
    requires Bounded(env, r) && i <= j < |r.states| && ExitPhase(r.states[i].loop)
    ensures r.states[j].ctx == StExit && ExitPhase(r.states[j].loop)
    ensures Producers(r.states[j]) <= Producers(r.states[i])
    decreases j
  {
    hide Apply, Enabled, Inv, ExitPhase, Producers;
    if i < j {
      ExitIsFinal(env, r, i, j - 1);
      var s, step := r.states[j - 1], r.steps[j - 1];
      assert IsStep(env, s, step, r.states[j - 1 + 1]);
      if !IsLoop(step) {
        ExitPhaseAwake(s.loop);
        CallerFrame(env, s, step);
        CallerExitStep(env, s, step);
      } else {
        LoopExitStep(env, s, step);
      }
    }
    RunInv(env, r, j);
    ExitPhaseCtx(env, r.states[j]);
  }
}
