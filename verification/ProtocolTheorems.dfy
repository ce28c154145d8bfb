/**
 * What holds over every run of the protocol, for any number of caller threads, any interleaving and
 * any behaviour of the VE side, as long as the 64-bit sequence number has not wrapped.
 */
module ProtocolTheorems {
  import opened Base
  import opened CommandQueue
  import opened VeHandler
  import opened Interpreter
  import opened Protocol
  import opened ProtocolInvariant
  import opened ProtocolSteps
  import opened ProtocolFrames
  import opened ProtocolRuns

  // ----- what callers see -----

  /** A final answer carries the interpreter's result and is recorded as delivered and claimed. */
  lemma {:induction false} FinalAnswer(env: Env, s: State, step: Step)
    requires Inv(env, s) && Enabled(env, s, step) && Observe(s, step).Observed? && Observe(s, step).seen.SawFinal?
    ensures var id := Observe(s, step).id;
      && id in s.pos && s.pos[id] < |s.pushes| && s.pushes[s.pos[id]].id == id
      && Some(Observe(s, step).seen.outcome) == SyncRun(env, s.pushes)[s.pos[id]]
      && id !in s.delivered
      && id in Apply(env, s, step).delivered && id in Apply(env, s, step).claimed
  {
    hide LoopParts, SyncRun;
    assert step.PeekErase? || step.WaitFind?;
    WaiterLocal(s, step.t);
  }

  /**
   * Sequential refinement. Whatever the interleaving, a result handed to a caller for an id is the
   * result the synchronous interpreter computes for the one accepted request with that id, when it
   * runs all accepted requests in push order.
   */
  lemma {:induction false} SequentialRefinement(env: Env, r: Run, i: nat)
    requires Bounded(env, r) && i < |r.steps|
    requires Observe(r.states[i], r.steps[i]).Observed? && Observe(r.states[i], r.steps[i]).seen.SawFinal?
    ensures var seen := Observe(r.states[i], r.steps[i]);
      var order := PushOrder(r, |r.steps|);
      exists k :: 0 <= k < |order| && order[k].id == seen.id && SyncRun(env, order)[k] == Some(seen.seen.outcome) &&
        forall j :: 0 <= j < |order| && order[j].id == seen.id ==> j == k
  {
    hide Apply, Enabled, Inv, SyncRun, Observe, PushOrder;
    var s, last := r.states[i], Last(r);
    assert IsStep(env, r.states[i], r.steps[i], r.states[i + 1]);
    RunInv(env, r, i);
    FinalAnswer(env, s, r.steps[i]);
    RunGrows(env, r, i, |r.states| - 1);
    PushOrderIs(env, r, |r.steps|);
    RunInv(env, r, |r.states| - 1);
    var k := s.pos[Observe(s, r.steps[i]).id];
    SyncRunPrefix(env, s.pushes, last.pushes, k);
    PushedOnce(env, last, k);
  }

  lemma {:induction false} SyncRunPrefix(env: Env, p: seq<Request>, q: seq<Request>, k: nat)
    requires p <= q && k < |p|
    ensures SyncRun(env, q)[k] == SyncRun(env, p)[k]
  {
    SyncRunAt(env, p, k);
    SyncRunAt(env, q, k);
    assert q[..k + 1] == p[..k + 1];
  }

  lemma {:induction false} PushedOnce(env: Env, s: State, k: nat)
    requires Inv(env, s) && k < |s.pushes|
    ensures forall j :: 0 <= j < |s.pushes| && s.pushes[j].id == s.pushes[k].id ==> j == k
  {
    hide ThreadInv, LoopParts, ResultInv;
  }

  /**
   * A peek or wait answers ERROR if and only if no earlier step of the run issued the id, or an
   * earlier wait for it passed its test or an earlier peek returned its result.
   */
  lemma {:induction false} ErrorExactly(env: Env, r: Run, i: nat, t: nat, id: nat)
    requires Bounded(env, r) && i < |r.steps|
    requires r.steps[i] == Peek(t, id) || r.steps[i] == Wait(t, id)
    ensures Observe(r.states[i], r.steps[i]) == Observed(id, SawError) <==>
      !Happened(Issue, r, i, id) || Happened(Claim, r, i, id)
  {
    hide Apply, Enabled, ThreadInv, LoopParts, ResultInv, Happened;
    RunInv(env, r, i);
    RecordedExactly(env, r, i, Issue, id);
    RecordedExactly(env, r, i, Claim, id);
  }

  /** An answer and what the state says about the id: pending ids are issued and unclaimed. */
  lemma {:induction false} AnswerMeaning(env: Env, s: State, step: Step)
    requires Inv(env, s) && Enabled(env, s, step) && Observe(s, step).Observed?
    ensures var o := Observe(s, step);
      match o.seen
      case SawError => o.id !in s.issued || o.id in s.claimed
      case SawPending => o.id in s.issued && o.id !in s.claimed
      case SawFinal(_) => o.id in s.issued && o.id !in s.delivered
  {
    hide LoopParts, SyncRun;
    if !(step.Peek? || step.Wait?) {
      WaiterLocal(s, step.t);
    }
  }

  /**
   * Exactly-once collection. Take two answers about one id, the second later in the run. After a
   * final answer there is only ERROR. After an ERROR about an id that some step had issued there is
   * never PENDING again. A PENDING is preceded only by PENDING, or by ERROR from before the issue.
   */
  lemma {:induction false} ExactlyOnce(env: Env, r: Run, i: nat, j: nat)
    requires Bounded(env, r) && i < j < |r.steps|
    requires Observe(r.states[i], r.steps[i]).Observed? && Observe(r.states[j], r.steps[j]).Observed?
    requires Observe(r.states[i], r.steps[i]).id == Observe(r.states[j], r.steps[j]).id
    ensures var first, second := Observe(r.states[i], r.steps[i]), Observe(r.states[j], r.steps[j]);
      && (first.seen.SawFinal? ==> second.seen.SawError?)
      && (first.seen.SawError? && Happened(Issue, r, i, first.id) ==> !second.seen.SawPending?)
      && (second.seen.SawPending? ==> first.seen.SawPending? || !Happened(Issue, r, i, first.id))
  {
    hide Apply, Enabled, Inv, Observe, Happened;
    RecordedExactly(env, r, i, Issue, Observe(r.states[i], r.steps[i]).id);
    assert IsStep(env, r.states[i], r.steps[i], r.states[i + 1]);
    assert IsStep(env, r.states[j], r.steps[j], r.states[j + 1]);
    RunInv(env, r, i);
    RunInv(env, r, j);
    AnswerMeaning(env, r.states[i], r.steps[i]);
    AnswerMeaning(env, r.states[j], r.steps[j]);
    RunGrows(env, r, i, j);
    RunGrows(env, r, i + 1, j);
    if Observe(r.states[i], r.steps[i]).seen.SawFinal? {
      FinalAnswer(env, r.states[i], r.steps[i]);
    }
  }

  // ----- waiters -----

  /**
   * A thread that passed the rem_reqid check of callWaitResult for an id that is not a close
   * request: its result has not been given away, and once the request is processed the result is in
   * the completion queue and the thread is awake.
   */
  lemma {:induction false} WaiterKeepsCompletion(env: Env, r: Run, i: nat, t: nat)
    requires Bounded(env, r) && i < |r.states| && t < |r.states[i].threads|
    requires Claims(r.states[i].threads[t]) && !IsClose(r.states[i], r.states[i].threads[t].id)
    ensures var s, id := r.states[i], r.states[i].threads[t].id;
      && !Happened(Deliver, r, i, id) && !TakenIs(s, id)
      && forall k :: 0 <= k < |PushOrder(r, i)| && k < Processed(s) && PushOrder(r, i)[k].id == id ==>
           HasId(s.completion, id) && s.threads[t].Waiting?
  {
    hide Apply, Enabled, LoopParts, Happened, PushOrder;
    RunInv(env, r, i);
    var s := r.states[i];
    RecordedExactly(env, r, i, Deliver, s.threads[t].id);
    PushOrderIs(env, r, i);
    WaiterLocal(s, t);
    if Taken(s).Some? {
      WaiterLocal(s, s.mtx.value);
    }
  }

  lemma {:induction false} PairLocal(s: State, t: nat, u: nat)
    requires IdInv(s) && ThreadInv(s) && t < |s.threads| && u < |s.threads|
    ensures PcOk(s, t, s.threads[t]) && PcOk(s, u, s.threads[u]) && s.rem !! s.claimed && INVALID_ID !in s.claimed
    ensures t != u && Claims(s.threads[t]) && Claims(s.threads[u]) ==> s.threads[t].id != s.threads[u].id
  {
    if t != u {
      assert Compatible(s.threads[if t < u then t else u], s.threads[if t < u then u else t]);
    }
  }

  /** No step of another caller takes that result or moves the waiter. */
  lemma {:induction false} CallersLeaveIt(env: Env, s: State, t: nat, step: Step)
    requires Inv(env, s) && Enabled(env, s, step) && t < |s.threads| && !IsLoop(step) && step != WaitFind(t)
    requires Claims(s.threads[t]) && !IsClose(s, s.threads[t].id) && HasId(s.completion, s.threads[t].id)
    ensures HasId(Apply(env, s, step).completion, s.threads[t].id)
    ensures t < |Apply(env, s, step).threads| && Apply(env, s, step).threads[t] == s.threads[t]
  {
    hide Apply, Inv, HasId;
    OthersKeepCompletion(env, s, t, step);
    if IsProducer(step) {
      ProducerOnly(env, s, step);
    } else {
      CollectorOnly(env, s, step);
    }
  }

  lemma {:induction false} SearchKeepsOther(env: Env, s: State, t: nat, step: Step)
    requires Enabled(env, s, step) && (step.PeekFind? || step.WaitFind?) && t < |s.threads| && InWait(s.threads[t])
    requires s.threads[step.t].id != s.threads[t].id && HasId(s.completion, s.threads[t].id)
    ensures HasId(Apply(env, s, step).completion, s.threads[t].id)
  {
    hide HasId, FirstIndex, Without;
    KeepOther(s.completion, s.threads[step.t].id, s.threads[t].id);
  }

  lemma {:induction false} OthersKeepCompletion(env: Env, s: State, t: nat, step: Step)
    requires Inv(env, s) && Enabled(env, s, step) && t < |s.threads| && !IsLoop(step) && step != WaitFind(t)
    requires Claims(s.threads[t]) && !IsClose(s, s.threads[t].id) && HasId(s.completion, s.threads[t].id)
    ensures HasId(Apply(env, s, step).completion, s.threads[t].id) && step.t != t
  {
    hide Apply, IdInv, ThreadInv, LoopParts, ResultInv, HasId;
    PairLocal(s, t, step.t);
    if IsProducer(step) {
      ProducerOnly(env, s, step);
    } else if step.PeekFind? || step.WaitFind? {
      SearchKeepsOther(env, s, t, step);
    } else {
      ClaimFrame(env, s, step);
    }
  }

  lemma {:induction false} LoopLeavesIt(env: Env, s: State, t: nat, step: Step)
    requires Enabled(env, s, step) && t < |s.threads| && IsLoop(step)
    requires s.threads[t].Waiting? && HasId(s.completion, s.threads[t].id)
    ensures HasId(Apply(env, s, step).completion, s.threads[t].id)
    ensures t < |Apply(env, s, step).threads| && Apply(env, s, step).threads[t] == s.threads[t]
  {
    hide RunBody;
    match step {
      case LoopPublish => AppendElements(s.completion, s.loop.cmd);
      case LoopPublishFailed => AppendElements(s.completion, s.loop.cmd);
      case LoopDrainPush => AppendElements(s.completion, Finish(s.loop.cmd, UNFINISHED));
      case LoopCloseReply => AppendElements(s.completion, Finish(s.loop.cmd, Outcome(0, CmdOk)));
      case _ =>
    }
  }

  /**
   * From the moment the result of a waiter's request is published until the waiter itself takes it,
   * no step of anybody else removes it, and the waiter stays awake.
   */
  lemma {:induction false} NobodyElseTakes(env: Env, r: Run, i: nat, t: nat)
    requires Bounded(env, r) && i < |r.steps| && t < |r.states[i].threads| && r.steps[i] != WaitFind(t)
    requires Claims(r.states[i].threads[t]) && !IsClose(r.states[i], r.states[i].threads[t].id)
    requires HasId(r.states[i].completion, r.states[i].threads[t].id)
    ensures HasId(r.states[i + 1].completion, r.states[i].threads[t].id)
    ensures t < |r.states[i + 1].threads| && r.states[i + 1].threads[t] == r.states[i].threads[t]
    ensures r.states[i].threads[t].Waiting?
  {
    hide Apply, Enabled, HasId, IdInv, LoopParts, ResultInv;
    var s := r.states[i];
    RunInv(env, r, i);
    assert IsStep(env, s, r.steps[i], r.states[i + 1]);
    WaiterLocal(s, t);
    if !IsLoop(r.steps[i]) {
      CallersLeaveIt(env, s, t, r.steps[i]);
    } else {
      LoopLeavesIt(env, s, t, r.steps[i]);
    }
  }

  lemma {:induction false} KeepOther(q: seq<Command>, taken: nat, id: nat)
    requires HasId(q, id) && taken != id
    ensures FirstIndex(q, taken) < |q| ==> HasId(Without(q, FirstIndex(q, taken)), id)
  {
    if FirstIndex(q, taken) < |q| {
      WithoutElements(q, FirstIndex(q, taken));
    }
  }

  /** No lost wakeup: nobody sleeps for something that is there. */
  lemma {:induction false} NoLostWakeup(env: Env, r: Run, i: nat)
    requires Bounded(env, r) && i < |r.states|
    ensures forall t :: 0 <= t < |r.states[i].threads| && r.states[i].threads[t].Asleep? ==>
      !HasId(r.states[i].completion, r.states[i].threads[t].id)
    ensures r.states[i].loop.PopAsleep? ==> r.states[i].request == []
  {
    hide Apply, Enabled, IdInv, ResultInv, LoopInv, CtxInv, ClosureInv;
    RunInv(env, r, i);
  }

  // ----- conservation -----

  function CountId(q: seq<Command>, id: nat): nat {
    if q == [] then 0 else (if q[0].req.id == id then 1 else 0) + CountId(q[1..], id)
  }

  lemma {:induction false} CountDistinct(q: seq<Command>, id: nat)
    requires DistinctIds(q)
    ensures CountId(q, id) == if HasId(q, id) then 1 else 0
  {
    if q != [] {
      CountDistinct(q[1..], id);
      if HasId(q[1..], id) {
        var j :| 0 <= j < |q[1..]| && q[1..][j].req.id == id;
        assert q[j + 1].req.id == id;
      }
      assert forall j :: 1 <= j < |q| ==> q[j] == q[1..][j - 1];
    }
  }

  /** In how many places of the state a command with this id is. */
  function Places(s: State, id: nat): nat {
    CountId(s.request, id)
    + (if Held(s.loop).Some? && Held(s.loop).value.req.id == id then 1 else 0)
    + CountId(s.completion, id)
    + (if Taken(s).Some? && Taken(s).value.req.id == id then 1 else 0)
  }

  /**
   * Conservation. At every point of a run a pushed command is in exactly one place (request queue,
   * event loop, completion queue or a peeking thread) or its result was given out exactly once;
   * nothing else is anywhere or was ever given out; every completion has its result set.
   */
  lemma {:induction false} Conservation(env: Env, r: Run, i: nat, id: nat)
    requires Bounded(env, r) && i < |r.states|
    ensures Places(r.states[i], id) + Deliveries(r, i, id) ==
      if exists k :: 0 <= k < |PushOrder(r, i)| && PushOrder(r, i)[k].id == id then 1 else 0
    ensures forall j :: 0 <= j < |r.states[i].completion| ==> r.states[i].completion[j].result.Some?
  {
    hide Apply, Enabled, Inv, Places, Happened, PushOrder;
    RunInv(env, r, i);
    PlacesExactly(env, r.states[i], id);
    DeliveredOnce(env, r, i, id);
    RecordedExactly(env, r, i, Deliver, id);
    PushOrderIs(env, r, i);
  }

  lemma {:induction false} PlacesExactly(env: Env, s: State, id: nat)
    requires Inv(env, s)
    ensures Places(s, id) + (if id in s.delivered then 1 else 0) ==
      if exists k :: 0 <= k < |s.pushes| && s.pushes[k].id == id then 1 else 0
    ensures forall j :: 0 <= j < |s.completion| ==> s.completion[j].result.Some?
  {
    hide ThreadInv, LoopInv, CtxInv, ClosureInv, SyncRun, CountId;
    assert QueueInv(s);
    RequestDistinct(s);
    CountDistinct(s.request, id);
    CountDistinct(s.completion, id);
    InRequest(s, id);
    if id in s.pos {
      assert s.pushes[s.pos[id]].id == id;
    }
  }

  lemma {:induction false} RequestDistinct(s: State)
    requires IdInv(s) && QueueInv(s)
    ensures DistinctIds(s.request)
  {
    var base := |s.pushes| - |s.request|;
    forall i, j | 0 <= i < j < |s.request| ensures s.request[i].req.id != s.request[j].req.id {
      assert s.pos[s.pushes[base + i].id] == base + i && s.pos[s.pushes[base + j].id] == base + j;
    }
  }

  /** An id is in the request queue exactly when its place in the push order is in the tail. */
  lemma {:induction false} InRequest(s: State, id: nat)
    requires IdInv(s) && QueueInv(s)
    ensures HasId(s.request, id) <==> id in s.pos && s.pos[id] >= |s.pushes| - |s.request|
  {
    var base := |s.pushes| - |s.request|;
    if HasId(s.request, id) {
      var i :| 0 <= i < |s.request| && s.request[i].req.id == id;
      assert s.pos[s.pushes[base + i].id] == base + i;
    }
    if id in s.pos && s.pos[id] >= base {
      assert s.request[s.pos[id] - base].req.id == id;
    }
  }

  // ----- the event loop's guard -----

  /**
   * The event loop never leaves through its guard: it ends only through the failure branch (queue
   * closed), the close handler or before the loop proper, and always with the context in EXIT.
   */
  lemma {:induction false} GuardNeverDrops(env: Env, r: Run, i: nat)
    requires Bounded(env, r) && i < |r.states|
    ensures !r.states[i].loop.Dropped?
    ensures r.states[i].loop.Guard? ==> r.states[i].ctx == StBlocked
    ensures r.states[i].loop.Done? || r.states[i].loop.Gone? || r.states[i].loop.Dead? ==> r.states[i].ctx == StExit
    ensures r.states[i].loop.Done? ==> r.states[i].qstatus == QueueClosed
  {
    hide Apply, Enabled, IdInv, ThreadInv, ResultInv, LoopInv, QueueInv, ClosureInv;
    RunInv(env, r, i);
  }

  // ----- request ids -----

  /** Every id entering rem_reqid is new and valid. */
  lemma {:induction false} RegisteredIdIsNew(env: Env, s: State, t: nat)
    requires Inv(env, s) && Enabled(env, s, Register(t))
    ensures s.threads[t].req.id !in s.issued && s.threads[t].req.id != INVALID_ID
    ensures s.threads[t].req.id in Apply(env, s, Register(t)).issued
  {
    hide IdInv, LoopParts, ResultInv;
    WaiterLocal(s, t);
  }

  /** Request ids: over a bounded run, from any number of threads, no id is issued twice. */
  lemma {:induction false} IdsDistinct(env: Env, r: Run, i: nat, j: nat)
    requires Bounded(env, r) && i < j < |r.steps| && r.steps[i].Register? && r.steps[j].Register?
    ensures r.steps[i].t < |r.states[i].threads| && r.states[i].threads[r.steps[i].t].Numbered?
    ensures r.steps[j].t < |r.states[j].threads| && r.states[j].threads[r.steps[j].t].Numbered?
    ensures r.states[i].threads[r.steps[i].t].req.id != r.states[j].threads[r.steps[j].t].req.id
    ensures r.states[i].threads[r.steps[i].t].req.id != INVALID_ID
  {
    hide Apply, Inv;
    assert IsStep(env, r.states[i], r.steps[i], r.states[i + 1]);
    assert IsStep(env, r.states[j], r.steps[j], r.states[j + 1]);
    RunInv(env, r, i);
    RunInv(env, r, j);
    RegisteredIdIsNew(env, r.states[i], r.steps[i].t);
    RegisteredIdIsNew(env, r.states[j], r.steps[j].t);
    RunGrows(env, r, i + 1, j);
  }
}
