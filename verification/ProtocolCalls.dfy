/**
 * Every call gets its answer: what becomes, over the rest of a run, of a request function, a wait or a
 * peek that has begun, and what the answers say about the outside world.
 */
module ProtocolCalls {
  import opened Base
  import opened CommandQueue
  import opened VeHandler
  import opened Interpreter
  import opened Protocol
  import opened ProtocolInvariant
  import opened ProtocolSteps
  import opened ProtocolFrames
  import opened ProtocolRuns
  import opened ProtocolTheorems
  import opened ProtocolExecution
  import opened ProtocolShutdown
  import opened ProtocolProgress
  import opened ProtocolClosers

  // ----- waits -----

  /** Thread `t` is in the wait for `id`, asleep or awake. */
  predicate WaitsFor(s: State, t: nat, id: nat, closing: bool) {
    t < |s.threads| && InWait(s.threads[t]) && s.threads[t].id == id && s.threads[t].closing == closing
  }

  /** Step `l` ends the wait of thread `t` for `id`: it finds the completion. */
  ghost predicate EndsWait(r: Run, l: nat, t: nat, id: nat, closing: bool)
    requires |r.states| == |r.steps| + 1
  {
    l < |r.steps| && WaitsFor(r.states[l], t, id, closing) && Returns(r.states[l], r.steps[l], t, id)
  }

  /** From a state in which a thread waits, it waits in every later state until its wait has ended. */
  lemma {:induction false} WaitPersists(env: Env, r: Run, i: nat, j: nat, t: nat, id: nat, closing: bool)
    requires IsRun(env, r) && i <= j < |r.states| && WaitsFor(r.states[i], t, id, closing)
    ensures WaitsFor(r.states[j], t, id, closing) || exists l: nat :: i <= l < j && EndsWait(r, l, t, id, closing)
    decreases j
  {
    hide Apply, HasId;
    if i < j {
      WaitPersists(env, r, i, j - 1, t, id, closing);
      if WaitsFor(r.states[j - 1], t, id, closing) {
        assert IsStep(env, r.states[j - 1], r.steps[j - 1], r.states[j - 1 + 1]);
        if Returns(r.states[j - 1], r.steps[j - 1], t, id) {
          assert EndsWait(r, j - 1, t, id, closing);
        } else {
          WaitStays(env, r.states[j - 1], r.steps[j - 1], t);
        }
      }
    }
  }

  lemma {:induction false} WaitBegins(env: Env, s: State, t: nat, id: nat)
    requires Enabled(env, s, Wait(t, id)) && Observe(s, Wait(t, id)).Nothing?
    ensures WaitsFor(Apply(env, s, Wait(t, id)), t, id, false)
  {
  }

  lemma {:induction false} EndIsFinal(s: State, step: Step, t: nat, id: nat)
    requires Returns(s, step, t, id) && WaitsFor(s, t, id, false)
    ensures step == WaitFind(t) && FinalFor(s, step, id)
  {
    hide HasId;
  }

  /**
   * callWaitResult gets its answer. A wait that is not answered ERROR is in the wait in every later
   * state, until a step of its own thread answers it with the final result of the id.
   */
  lemma {:induction false} WaitAnswered(env: Env, r: Run, i: nat, j: nat, t: nat, id: nat)
    requires IsRun(env, r) && i < j < |r.states| && r.steps[i] == Wait(t, id)
    requires Observe(r.states[i], r.steps[i]) != Observed(id, SawError)
    ensures WaitsFor(r.states[j], t, id, false) ||
      exists l :: i < l < j && r.steps[l] == WaitFind(t) && FinalFor(r.states[l], r.steps[l], id)
  {
    hide Apply, Enabled, HasId;
    assert IsStep(env, r.states[i], r.steps[i], r.states[i + 1]);
    WaitBegins(env, r.states[i], t, id);
    WaitPersists(env, r, i + 1, j, t, id, false);
    if l: nat :| i < l < j && EndsWait(r, l, t, id, false) {
      EndIsFinal(r.states[l], r.steps[l], t, id);
    }
  }

  lemma {:induction false} CloseBegins(env: Env, s: State, t: nat)
    requires Enabled(env, s, Push(t)) && s.threads[t].req.body.CloseContext?
    ensures WaitsFor(Apply(env, s, Push(t)), t, s.threads[t].req.id, true)
  {
    hide Apply;
    ProducerOnly(env, s, Push(t));
  }

  /** close() after its push waits for its own id until it collects the completion of its request. */
  lemma {:induction false} CloseAnswered(env: Env, r: Run, i: nat, j: nat, t: nat, id: nat)
    requires IsRun(env, r) && i < j < |r.states| && r.steps[i] == Push(t)
    requires t < |r.states[i].threads| && r.states[i].threads[t] == Passed(Request(id, CloseContext))
    ensures WaitsFor(r.states[j], t, id, true) ||
      exists l :: i < l < j && r.steps[l] == WaitFind(t) && CloseCollects(r.states[l], r.steps[l], id)
  {
    hide Apply, Enabled, HasId;
    assert IsStep(env, r.states[i], r.steps[i], r.states[i + 1]);
    CloseBegins(env, r.states[i], t);
    WaitPersists(env, r, i + 1, j, t, id, true);
    if l: nat :| i < l < j && EndsWait(r, l, t, id, true) {
      assert CloseCollects(r.states[l], r.steps[l], id);
    }
  }

  // ----- peeks -----

  /** Thread `t` is inside callPeekResult for `id`. */
  predicate PeeksFor(s: State, t: nat, id: nat) {
    t < |s.threads| && InPeek(s.threads[t]) && PeekId(s.threads[t]) == id
  }

  /** Step `l` of thread `t` answers its peek for `id` with PENDING or with the final result. */
  ghost predicate AnswersPeek(r: Run, l: nat, t: nat, id: nat)
    requires |r.states| == |r.steps| + 1
  {
    && l < |r.steps| && (r.steps[l] == PeekFind(t) || r.steps[l] == PeekErase(t))
    && Observe(r.states[l], r.steps[l]).Observed? && Observe(r.states[l], r.steps[l]).id == id
    && !Observe(r.states[l], r.steps[l]).seen.SawError?
  }

  lemma {:induction false} PeekBegins(env: Env, s: State, t: nat, id: nat)
    requires Enabled(env, s, Peek(t, id)) && Observe(s, Peek(t, id)).Nothing?
    ensures t < |Apply(env, s, Peek(t, id)).threads| && Apply(env, s, Peek(t, id)).threads[t] == PeekHeld(id)
    ensures Apply(env, s, Peek(t, id)).completion == s.completion
  {
  }

  lemma {:induction false} PeekOwnStep(env: Env, s: State, step: Step, t: nat, id: nat)
    requires Enabled(env, s, step) && !IsLoop(step) && step.t == t && PeeksFor(s, t, id)
    ensures step == if s.threads[t].PeekHeld? then PeekFind(t) else PeekErase(t)
    ensures Observe(s, step).Nothing? ==>
      PeeksFor(Apply(env, s, step), t, id) && s.threads[t].PeekHeld? && Apply(env, s, step).threads[t].PeekTaken?
    ensures Observe(s, step).Observed? ==> Observe(s, step).id == id && !Observe(s, step).seen.SawError?
    ensures Observe(s, step).Observed? ==>
      (Observe(s, step).seen.SawPending? <==> s.threads[t].PeekHeld? && !HasId(s.completion, id))
  {
    hide HasId, Without;
    assert step.PeekFind? || step.PeekErase?;
  }

  lemma {:induction false} PeekOthers(env: Env, s: State, step: Step, t: nat)
    requires Enabled(env, s, step) && t < |s.threads| && InPeek(s.threads[t]) && (IsLoop(step) || step.t != t)
    ensures t < |Apply(env, s, step).threads| && Apply(env, s, step).threads[t] == s.threads[t]
  {
    hide Apply, Enabled;
    if IsLoop(step) {
      LoopOnly(env, s, step);
    } else if IsProducer(step) {
      ProducerOnly(env, s, step);
    } else {
      CollectorOnly(env, s, step);
    }
  }

  /**
   * callPeekResult gets its answer. A peek that is not answered ERROR is inside callPeekResult in every
   * later state, until a step of its own thread answers it with PENDING or the final result of the id.
   */
  lemma {:induction false} PeekAnswered(env: Env, r: Run, i: nat, j: nat, t: nat, id: nat)
    requires IsRun(env, r) && i < j < |r.states| && r.steps[i] == Peek(t, id)
    requires Observe(r.states[i], r.steps[i]) != Observed(id, SawError)
    ensures PeeksFor(r.states[j], t, id) || exists l: nat :: i < l < j && AnswersPeek(r, l, t, id)
    decreases j
  {
    hide Apply, Enabled, Observe, PeeksFor;
    var s, step := r.states[j - 1], r.steps[j - 1];
    assert IsStep(env, s, step, r.states[j - 1 + 1]);
    if i + 1 == j {
      PeekStarts(env, s, t, id);
    } else {
      PeekAnswered(env, r, i, j - 1, t, id);
      if PeeksFor(s, t, id) {
        PeekStep(env, s, step, t, id);
        assert Observe(s, step).Observed? && !IsLoop(step) && step.t == t ==> AnswersPeek(r, j - 1, t, id);
      }
    }
  }

  lemma {:induction false} PeekStarts(env: Env, s: State, t: nat, id: nat)
    requires Enabled(env, s, Peek(t, id)) && Observe(s, Peek(t, id)) != Observed(id, SawError)
    ensures PeeksFor(Apply(env, s, Peek(t, id)), t, id)
  {
    hide Apply, Enabled;
    PeekBegins(env, s, t, id);
  }

  lemma {:induction false} PeekStep(env: Env, s: State, step: Step, t: nat, id: nat)
    requires Enabled(env, s, step) && PeeksFor(s, t, id)
    ensures PeeksFor(Apply(env, s, step), t, id) || (!IsLoop(step) && step.t == t && Observe(s, step).Observed?)
    ensures !IsLoop(step) && step.t == t ==> step == PeekFind(t) || step == PeekErase(t)
    ensures !IsLoop(step) && step.t == t && Observe(s, step).Observed? ==>
      Observe(s, step).id == id && !Observe(s, step).seen.SawError?
  {
    hide Apply, Enabled, Observe;
    if !IsLoop(step) && step.t == t {
      PeekOwnStep(env, s, step, t, id);
    } else {
      PeekOthers(env, s, step, t);
    }
  }

  /** An answer ends the call: its thread is idle again, and a peek has released the mutex. */
  lemma {:induction false} AnswerReturns(env: Env, s: State, step: Step)
    requires Enabled(env, s, step) && Observe(s, step).Observed?
    ensures !IsLoop(step) && step.t < |Apply(env, s, step).threads| && Apply(env, s, step).threads[step.t].Idle?
    ensures step.PeekFind? || step.PeekErase? ==> Apply(env, s, step).mtx.None?
    ensures Observe(s, step).seen.SawError? ==> Apply(env, s, step) == s
  {
    hide Without;
  }

  // ----- when a peek is answered PENDING -----

  /** A peek that has passed the rem_reqid test is answered PENDING if and only if there is no completion. */
  lemma {:induction false} PendingExactly(env: Env, r: Run, i: nat, t: nat)
    requires IsRun(env, r) && i < |r.steps| && r.steps[i] == PeekFind(t)
    ensures t < |r.states[i].threads| && r.states[i].threads[t].PeekHeld?
    ensures var s, id := r.states[i], r.states[i].threads[t].id;
      Observe(s, r.steps[i]) == Observed(id, SawPending) <==> !HasId(s.completion, id)
  {
    hide Apply, HasId;
    assert IsStep(env, r.states[i], r.steps[i], r.states[i + 1]);
  }

  /** Thread `t` holds the mutex in callPeekResult for `id`, whose completion is there. */
  ghost predicate WillFind(s: State, t: nat, id: nat) {
    t < |s.threads| && s.threads[t] == PeekHeld(id) && HasId(s.completion, id)
  }

  lemma {:induction false} TakerOfOther(env: Env, s: State, step: Step, id: nat)
    requires Enabled(env, s, step) && (step.PeekFind? || step.WaitFind?)
    requires s.threads[step.t].id != id && HasId(s.completion, id)
    ensures HasId(Apply(env, s, step).completion, id)
  {
    hide HasId, FirstIndex, Without;
    KeepOther(s.completion, s.threads[step.t].id, id);
  }

  lemma {:induction false} LoopKeepsCompletion(env: Env, s: State, step: Step, id: nat)
    requires Enabled(env, s, step) && IsLoop(step) && HasId(s.completion, id)
    ensures HasId(Apply(env, s, step).completion, id)
  {
    hide RunBody, StartUp, PassedIds;
    match step {
      case LoopPublish => AppendElements(s.completion, s.loop.cmd);
      case LoopPublishFailed => AppendElements(s.completion, s.loop.cmd);
      case LoopDrainPush => AppendElements(s.completion, Finish(s.loop.cmd, UNFINISHED));
      case LoopCloseReply => AppendElements(s.completion, Finish(s.loop.cmd, Outcome(0, CmdOk)));
      case _ =>
    }
  }

  lemma {:induction false} RemValid(s: State)
    requires IdInv(s)
    ensures INVALID_ID !in s.rem
  {
  }

  /** For other ids than those of close requests nobody takes the completion while the peek holds the mutex. */
  lemma {:induction false} PeekKeepsCompletion(env: Env, s: State, step: Step, t: nat, id: nat)
    requires Inv(env, s) && Enabled(env, s, step) && WillFind(s, t, id) && !IsClose(s, id)
    requires IsLoop(step) || step.t != t
    ensures WillFind(Apply(env, s, step), t, id)
  {
    hide Apply, HasId, IdInv, ThreadInv, LoopParts, ResultInv;
    PeekOthers(env, s, step, t);
    if IsLoop(step) {
      LoopKeepsCompletion(env, s, step, id);
    } else {
      PairLocal(s, t, step.t);
      RemValid(s);
      if IsProducer(step) {
        ProducerOnly(env, s, step);
      } else if step.PeekFind? || step.WaitFind? {
        TakerOfOther(env, s, step, id);
      } else {
        ClaimFrame(env, s, step);
      }
    }
  }

  /** The peek will find the completion, has taken it, or the id has been claimed. */
  ghost predicate Secured(s: State, t: nat, id: nat) {
    WillFind(s, t, id) || (PeeksFor(s, t, id) && s.threads[t].PeekTaken?) || id in s.claimed
  }

  lemma {:induction false} SecuredOwnStep(env: Env, s: State, step: Step, t: nat, id: nat)
    requires Enabled(env, s, step) && !IsLoop(step) && step.t == t && PeeksFor(s, t, id)
    requires WillFind(s, t, id) || s.threads[t].PeekTaken?
    ensures Secured(Apply(env, s, step), t, id)
  {
    hide HasId, Without;
    assert step.PeekFind? || step.PeekErase?;
  }

  lemma {:induction false} SecuredStep(env: Env, s: State, step: Step, t: nat, id: nat)
    requires Inv(env, s) && Enabled(env, s, step) && Secured(s, t, id) && !IsClose(s, id)
    ensures Secured(Apply(env, s, step), t, id)
  {
    hide Apply, Enabled, Inv, HasId, IsClose;
    StepGrows(env, s, step);
    if id !in s.claimed {
      if !IsLoop(step) && step.t == t {
        SecuredOwnStep(env, s, step, t, id);
      } else if WillFind(s, t, id) {
        PeekKeepsCompletion(env, s, step, t, id);
      } else {
        PeekOthers(env, s, step, t);
      }
    }
  }

  lemma {:induction false} NotCloseStays(env: Env, r: Run, i: nat, j: nat, id: nat)
    requires Bounded(env, r) && i <= j < |r.states| && id in r.states[i].issued && !IsClose(r.states[i], id)
    ensures id in r.states[j].issued && !IsClose(r.states[j], id)
    decreases j
  {
    hide Apply, Enabled, IdInv, ThreadInv, LoopParts, ResultInv;
    if i < j {
      NotCloseStays(env, r, i, j - 1, id);
      RunInv(env, r, j - 1);
      assert IsStep(env, r.states[j - 1], r.steps[j - 1], r.states[j - 1 + 1]);
      IssuedStays(env, r.states[j - 1], r.steps[j - 1], id);
    }
  }

  lemma {:induction false} SecuredRun(env: Env, r: Run, i: nat, j: nat, t: nat, id: nat)
    requires Bounded(env, r) && i <= j < |r.states| && Secured(r.states[i], t, id)
    requires id in r.states[i].issued && !IsClose(r.states[i], id)
    ensures Secured(r.states[j], t, id)
    decreases j
  {
    hide Apply, Enabled, Inv, Secured, IsClose;
    if i < j {
      SecuredRun(env, r, i, j - 1, t, id);
      RunInv(env, r, j - 1);
      NotCloseStays(env, r, i, j - 1, id);
      assert IsStep(env, r.states[j - 1], r.steps[j - 1], r.states[j - 1 + 1]);
      SecuredStep(env, r.states[j - 1], r.steps[j - 1], t, id);
    }
  }

  /** Some continuation of `r` answers a peek of thread `t` for `id` with PENDING. */
  ghost predicate CanPend(env: Env, r: Run, t: nat, id: nat) {
    exists r', i: nat :: PendsIn(env, r, r', i, t, id)
  }

  ghost predicate PendsIn(env: Env, r: Run, r': Run, i: nat, t: nat, id: nat) {
    && Bounded(env, r') && Continues(r', r) && |r.steps| <= i < |r'.steps| && r'.steps[i] == PeekFind(t)
    && Observe(r'.states[i], r'.steps[i]) == Observed(id, SawPending)
  }

  lemma {:induction false} SecuredNotPending(env: Env, s: State, t: nat, id: nat)
    requires Inv(env, s) && Enabled(env, s, PeekFind(t)) && Secured(s, t, id)
    ensures Observe(s, PeekFind(t)) != Observed(id, SawPending)
  {
    hide Apply, Enabled, Inv, HasId;
    if Observe(s, PeekFind(t)) == Observed(id, SawPending) {
      AnswerMeaning(env, s, PeekFind(t));
    }
  }

  lemma {:induction false} CloserMakesPending(env: Env, r: Run, t: nat, id: nat)
    requires Bounded(env, r) && WillFind(Last(r), t, id) && IsClose(Last(r), id)
    ensures CanPend(env, r, t, id)
  {
    hide Apply, Inv, HasId, ClosersWait, IsClose;
    RunInv(env, r, |r.states| - 1);
    RunClosers(env, r, |r.states| - 1);
    var u := CloserCanTake(env, Last(r), id);
    var r1 := Extend(env, r, WaitFind(u));
    WaitKeepsFetches(env, Last(r), u);
    PeekOthers(env, Last(r), WaitFind(u), t);
    var i := |r1.steps|;
    var r2 := Extend(env, r1, PeekFind(t));
    CollectorOnly(env, Last(r1), PeekFind(t));
    assert r2.states[i] == Last(r1) && r2.steps[i] == PeekFind(t);
    assert PendsIn(env, r, r2, i, t, id);
  }

  /**
   * A peek that has passed its test while the completion is already there is answered with the final
   * result, except for close requests: some continuation answers PENDING if and only if the id is
   * that of a close request, whose closing thread can take the completion in between.
   */
  lemma {:induction false} PeekPendsIff(env: Env, r: Run, t: nat, id: nat)
    requires Bounded(env, r) && WillFind(Last(r), t, id)
    ensures CanPend(env, r, t, id) <==> Request(id, CloseContext) in PushOrder(r, |r.steps|)
  {
    hide Apply, Enabled, Inv, HasId, PushOrder, IsClose, Secured, WillFind, CanPend, Observe;
    var n := |r.steps|;
    RunInv(env, r, n);
    PushOrderIs(env, r, n);
    FoundIsIssued(env, Last(r), t, id);
    if IsClose(Last(r), id) {
      CloserMakesPending(env, r, t, id);
    } else {
      CannotPend(env, r, t, id);
    }
  }

  lemma {:induction false} FoundIsIssued(env: Env, s: State, t: nat, id: nat)
    requires Inv(env, s) && WillFind(s, t, id)
    ensures id in s.issued && Secured(s, t, id) && (IsClose(s, id) <==> Request(id, CloseContext) in s.pushes)
  {
    hide Inv, HasId, IsClose;
    CloseInOrder(env, s, id);
    CompletedIsIssued(env, s, id);
  }

  lemma {:induction false} CompletedIsIssued(env: Env, s: State, id: nat)
    requires Inv(env, s) && HasId(s.completion, id)
    ensures id in s.issued
  {
    hide HasId, ThreadInv, LoopParts, ResultInv;
    CompletedIsPushed(env, s, id);
  }

  lemma {:induction false} CannotPend(env: Env, r: Run, t: nat, id: nat)
    requires Bounded(env, r) && Secured(Last(r), t, id) && id in Last(r).issued && !IsClose(Last(r), id)
    ensures !CanPend(env, r, t, id)
  {
    hide Apply, Enabled, Inv, Secured, IsClose, Observe;
    forall r', i: nat | PendsIn(env, r, r', i, t, id) ensures false {
      assert r'.states[|r.steps|] == Last(r);
      RunInv(env, r', i);
      SecuredRun(env, r', |r.steps|, i, t, id);
      assert IsStep(env, r'.states[i], r'.steps[i], r'.states[i + 1]);
      SecuredNotPending(env, r'.states[i], t, id);
    }
  }

  lemma {:induction false} PeekWillFind(env: Env, s: State, t: nat, id: nat)
    requires Enabled(env, s, Peek(t, id)) && Observe(s, Peek(t, id)) != Observed(id, SawError)
    requires HasId(s.completion, id)
    ensures WillFind(Apply(env, s, Peek(t, id)), t, id)
  {
    hide Apply, Enabled, HasId;
    PeekBegins(env, s, t, id);
  }

  /**
   * In terms of the call: when a peek is not answered ERROR, the completion is there and the id is not
   * that of a close request, the peek is answered with the final result.
   */
  lemma {:induction false} PeekFinalIfThere(env: Env, r: Run, i: nat, l: nat, t: nat, id: nat)
    requires Bounded(env, r) && i < l < |r.steps| && r.steps[i] == Peek(t, id)
    requires Observe(r.states[i], r.steps[i]) != Observed(id, SawError) && HasId(r.states[i].completion, id)
    requires Request(id, CloseContext) !in PushOrder(r, i) && AnswersPeek(r, l, t, id)
    ensures FinalFor(r.states[l], r.steps[l], id)
  {
    hide Apply, Enabled, Inv, HasId, PushOrder, IsClose, Observe, Secured, WillFind;
    assert IsStep(env, r.states[i], r.steps[i], r.states[i + 1]);
    RunInv(env, r, i);
    PushOrderIs(env, r, i);
    CloseInOrder(env, r.states[i], id);
    CompletedIsIssued(env, r.states[i], id);
    NotCloseStays(env, r, i, i + 1, id);
    PeekWillFind(env, r.states[i], t, id);
    assert Secured(r.states[i + 1], t, id) by { SecuredIfFound(r.states[i + 1], t, id); }
    SecuredRun(env, r, i + 1, l, t, id);
    assert IsStep(env, r.states[l], r.steps[l], r.states[l + 1]);
    RunInv(env, r, l);
    if r.steps[l] == PeekFind(t) {
      SecuredNotPending(env, r.states[l], t, id);
    } else {
      EraseIsFinal(r.states[l], t);
    }
  }

  lemma {:induction false} SecuredIfFound(s: State, t: nat, id: nat)
    requires WillFind(s, t, id)
    ensures Secured(s, t, id)
  {
  }

  lemma {:induction false} EraseIsFinal(s: State, t: nat)
    ensures Observe(s, PeekErase(t)).Observed? ==> Observe(s, PeekErase(t)).seen.SawFinal?
  {
  }

  // ----- request functions -----

  /** Thread `t` is inside a request function for a command with this body, before the end of its push. */
  predicate Prepares(s: State, t: nat, body: Body) {
    t < |s.threads| && Producing(s.threads[t]) &&
    (if s.threads[t].Checked? then s.threads[t].body else s.threads[t].req.body) == body
  }

  /** The step pushes the command of thread `t`, or finds the queue closed and refuses it. */
  predicate EndsRequest(s: State, step: Step, t: nat, body: Body) {
    && (step == Push(t) || step == CheckQueue(t)) && t < |s.threads|
    && (if step == Push(t) then s.threads[t].Passed? else s.threads[t].Registered? && s.qstatus == QueueClosed)
    && s.threads[t].req.body == body
  }

  lemma {:induction false} BeginStep(env: Env, s: State, t: nat, body: Body)
    requires Enabled(env, s, Begin(t, body))
    ensures s.ctx == StExit ==> Apply(env, s, Begin(t, body)) == s
    ensures s.ctx != StExit ==> Prepares(Apply(env, s, Begin(t, body)), t, body)
  {
  }

  lemma {:induction false} PrepareOwnStep(env: Env, s: State, step: Step, t: nat, body: Body)
    requires Enabled(env, s, step) && !IsLoop(step) && step.t == t && Prepares(s, t, body)
    ensures Prepares(Apply(env, s, step), t, body) || EndsRequest(s, step, t, body)
  {
    assert step.Fetch? || step.Register? || step.CheckQueue? || step.Push?;
  }

  lemma {:induction false} PrepareOthers(env: Env, s: State, step: Step, t: nat)
    requires Enabled(env, s, step) && t < |s.threads| && Producing(s.threads[t]) && (IsLoop(step) || step.t != t)
    ensures t < |Apply(env, s, step).threads| && Apply(env, s, step).threads[t] == s.threads[t]
  {
    hide Apply, Enabled;
    if IsLoop(step) {
      LoopOnly(env, s, step);
    } else if IsProducer(step) {
      ProducerOnly(env, s, step);
    } else {
      CollectorOnly(env, s, step);
    }
  }

  /**
   * A request function goes through. Begun in any state but EXIT it stays on its way, with its command,
   * until a step of its own thread pushes that command or the push is refused; begun in EXIT it
   * changes nothing.
   */
  lemma {:induction false} RequestGoesThrough(env: Env, r: Run, i: nat, j: nat, t: nat, body: Body)
    requires IsRun(env, r) && i < j < |r.states| && r.steps[i] == Begin(t, body)
    ensures r.states[i].ctx == StExit ==> r.states[i + 1] == r.states[i]
    ensures r.states[i].ctx != StExit ==>
      Prepares(r.states[j], t, body) || exists l :: i < l < j && EndsRequest(r.states[l], r.steps[l], t, body)
    decreases j
  {
    hide Apply, Enabled, Prepares, EndsRequest;
    assert IsStep(env, r.states[i], r.steps[i], r.states[i + 1]);
    BeginStep(env, r.states[i], t, body);
    if i + 1 < j {
      RequestGoesThrough(env, r, i, j - 1, t, body);
      var s, step := r.states[j - 1], r.steps[j - 1];
      assert IsStep(env, s, step, r.states[j - 1 + 1]);
      if Prepares(s, t, body) {
        PrepareStep(env, s, step, t, body);
        assert EndsRequest(s, step, t, body) ==> EndsRequest(r.states[j - 1], r.steps[j - 1], t, body);
      }
    }
  }

  lemma {:induction false} PrepareStep(env: Env, s: State, step: Step, t: nat, body: Body)
    requires Enabled(env, s, step) && Prepares(s, t, body)
    ensures Prepares(Apply(env, s, step), t, body) || EndsRequest(s, step, t, body)
  {
    hide Apply, Enabled;
    if !IsLoop(step) && step.t == t {
      PrepareOwnStep(env, s, step, t, body);
    } else {
      PrepareOthers(env, s, step, t);
    }
  }

  /**
   * Where a thread is when its request function has pushed or been refused: back at its caller, except
   * that close() goes on to wait, for the id it pushed or for the invalid id.
   */
  lemma {:induction false} RequestReturns(env: Env, s: State, step: Step, t: nat, body: Body)
    requires Enabled(env, s, step) && EndsRequest(s, step, t, body)
    ensures t < |s.threads| == |Apply(env, s, step).threads| && !s.threads[t].Checked?
    ensures Apply(env, s, step).threads[t] ==
      if !body.CloseContext? then Idle
      else Waiting(if step == Push(t) then s.threads[t].req.id else 0xFFFF_FFFF_FFFF_FFFF, true)
  {
  }

  /** close() returns to its caller when it has collected its completion. */
  lemma {:induction false} CloseReturns(env: Env, s: State, step: Step, id: nat)
    requires Enabled(env, s, step) && CloseCollects(s, step, id)
    ensures step.t < |Apply(env, s, step).threads| && Apply(env, s, step).threads[step.t].Idle?
  {
    hide Without;
  }

  // ----- what an answer says about the outside world -----

  /**
   * Every final answer but UNFINISHED is what the outside world answered to the one accepted request
   * with that id, after all accepted requests before it in push order: the value and the status of a
   * VE call, of a transfer, of a VH call.
   */
  lemma {:induction false} AnswerConveys(env: Env, r: Run, i: nat, id: nat) returns (k: nat)
    requires Bounded(env, r) && i < |r.steps| && FinalFor(r.states[i], r.steps[i], id)
    ensures var order := PushOrder(r, |r.steps|);
      && k < |order| && order[k].id == id
      && (Observe(r.states[i], r.steps[i]).seen.outcome.status != CmdUnfinished ==>
            Conveys(env(order[..k + 1]), order[k].body, Observe(r.states[i], r.steps[i]).seen.outcome))
  {
    hide Apply, Enabled, Inv, SyncRun, Observe, PushOrder, Conveys;
    var order := PushOrder(r, |r.steps|);
    SequentialRefinement(env, r, i);
    k :| 0 <= k < |order| && order[k].id == id
      && SyncRun(env, order)[k] == Some(Observe(r.states[i], r.steps[i]).seen.outcome);
    if Observe(r.states[i], r.steps[i]).seen.outcome.status != CmdUnfinished {
      ResultConveys(env, order, k);
    }
  }

  // ----- the start -----

  /**
   * The start, exactly: the event loop is entered, with the context in BLOCKED, if and only if the
   * first decisive event of the starting VE thread is a clean block request; otherwise the pseudo
   * thread ends with the context in EXIT.
   */
  lemma {:induction false} StartExactly(env: Env, r: Run, i: nat, events: seq<VeEvent>)
    requires Bounded(env, r) && i < |r.steps| && r.steps[i] == LoopStart(events)
    ensures var f := FirstDecisive(events);
      && f < |events| && events[f].Raised?
      && (if ErrorRaised(events[f].exs) then r.states[i + 1].loop.Dead? && r.states[i + 1].ctx == StExit
          else r.states[i + 1].loop.Guard? && r.states[i + 1].ctx == StBlocked)
  {
    hide Apply, Inv;
    assert IsStep(env, r.states[i], r.steps[i], r.states[i + 1]);
    RunInv(env, r, i);
    StartsRunning(env, r.states[i]);
    StartOutcome(env, r.states[i], events);
  }

  lemma {:induction false} StartsRunning(env: Env, s: State)
    requires Inv(env, s)
    ensures s.loop.Starting? ==> s.ctx == StRunning
  {
    hide IdInv, ThreadInv, QueueInv, LoopInv, ClosureInv, ResultInv;
  }

  lemma {:induction false} StartOutcome(env: Env, s: State, events: seq<VeEvent>)
    requires Enabled(env, s, LoopStart(events)) && s.ctx == StRunning
    ensures var f, s' := FirstDecisive(events), Apply(env, s, LoopStart(events));
      && f < |events| && events[f].Raised?
      && (if ErrorRaised(events[f].exs) then s'.loop.Dead? && s'.ctx == StExit
          else s'.loop.Guard? && s'.ctx == StBlocked)
  {
    hide HandlerLoop, FirstDecisive;
    var m := Machine(StRunning, [], []);
    DefaultLoopExact(m, 0, events);
    HandlerStatusTrace(DefaultFilter, m, 0, events);
  }
}
