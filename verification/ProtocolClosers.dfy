/**
 * Close requests and waiters on their ids: close() waits for its id without taking it out of
 * rem_reqid, so another caller can claim the id as well. Here is exactly when a waiter is safe.
 */
module ProtocolClosers {
  import opened CommandQueue
  import opened Interpreter
  import opened Protocol
  import opened ProtocolInvariant
  import opened ProtocolSteps
  import opened ProtocolFrames
  import opened ProtocolRuns
  import opened ProtocolTheorems
  import opened ProtocolExecution
  import opened ProtocolProgress

  // ----- every close request has its closing thread -----

  /** Some thread is in close() and waits for `id`. */
  ghost predicate CloserWaits(s: State, id: nat) {
    exists u :: 0 <= u < |s.threads| && Closes(s.threads[u]) && s.threads[u].id == id
  }

  /** As long as nobody was given the result of an accepted close request, its close() waits for it. */
  ghost predicate ClosersWait(s: State) {
    forall x :: x in s.pos && IsClose(s, x) && x !in s.delivered ==> CloserWaits(s, x)
  }

  lemma {:induction false} IssuedStays(env: Env, s: State, step: Step, x: nat)
    requires ThreadInv(s) && Enabled(env, s, step) && x in s.issued
    ensures x in Apply(env, s, step).issued && Apply(env, s, step).issued[x] == s.issued[x]
  {
    hide ThreadInv, Apply;
    if step.Register? {
      FreshRegister(s, step.t);
      RegisterIssues(env, s, step.t);
    } else if IsProducer(step) {
      ProducerOnly(env, s, step);
    } else if IsCollector(step) {
      CollectorOnly(env, s, step);
    } else {
      LoopOnly(env, s, step);
    }
  }

  lemma {:induction false} RegisterIssues(env: Env, s: State, t: nat)
    requires Enabled(env, s, Register(t))
    ensures Apply(env, s, Register(t)).issued == s.issued[s.threads[t].req.id := s.threads[t].req.body]
  {
  }

  /** A step that is not the push of `x` leaves it as pushed or not pushed as it was. */
  lemma {:induction false} OnlyPushAdds(env: Env, s: State, step: Step, x: nat)
    requires Enabled(env, s, step) && x in Apply(env, s, step).pos && x !in s.pos
    ensures step.Push? && s.threads[step.t].req.id == x
  {
    hide Apply;
    if IsProducer(step) {
      ProducerOnly(env, s, step);
    } else if IsCollector(step) {
      CollectorOnly(env, s, step);
    } else {
      LoopOnly(env, s, step);
    }
  }

  lemma {:induction false} PushedCloseWaits(env: Env, s: State, t: nat)
    requires ThreadInv(s) && Enabled(env, s, Push(t)) && IsClose(Apply(env, s, Push(t)), s.threads[t].req.id)
    ensures CloserWaits(Apply(env, s, Push(t)), s.threads[t].req.id)
  {
    hide Apply, ThreadInv;
    WaiterLocal(s, t);
    ProducerOnly(env, s, Push(t));
    assert Closes(Apply(env, s, Push(t)).threads[t]);
  }

  lemma {:induction false} CloserStays(env: Env, s: State, step: Step, x: nat)
    requires Enabled(env, s, step) && CloserWaits(s, x) && x !in Apply(env, s, step).delivered
    ensures CloserWaits(Apply(env, s, step), x)
  {
    hide Apply, HasId;
    var u :| 0 <= u < |s.threads| && Closes(s.threads[u]) && s.threads[u].id == x;
    StepRecords(env, s, step, Deliver, x);
    WaitStays(env, s, step, u);
    assert Closes(Apply(env, s, step).threads[u]);
  }

  lemma {:induction false} ClosersStep(env: Env, s: State, step: Step)
    requires IdInv(s) && ThreadInv(s) && Enabled(env, s, step) && ClosersWait(s)
    ensures ClosersWait(Apply(env, s, step))
  {
    hide Apply, Enabled, CloserWaits, ThreadInv;
    var s' := Apply(env, s, step);
    StepGrows(env, s, step);
    forall x | x in s'.pos && IsClose(s', x) && x !in s'.delivered ensures CloserWaits(s', x) {
      if x in s.pos {
        IssuedStays(env, s, step, x);
        CloserStays(env, s, step, x);
      } else {
        OnlyPushAdds(env, s, step, x);
        PushedCloseWaits(env, s, step.t);
      }
    }
  }

  lemma {:induction false} RunClosers(env: Env, r: Run, n: nat)
    requires Bounded(env, r) && n < |r.states|
    ensures ClosersWait(r.states[n])
    decreases n
  {
    hide Apply, Enabled, IdInv, ThreadInv, LoopParts, ResultInv, CloserWaits;
    if n > 0 {
      RunClosers(env, r, n - 1);
      RunInv(env, r, n - 1);
      assert IsStep(env, r.states[n - 1], r.steps[n - 1], r.states[n - 1 + 1]);
      ClosersStep(env, r.states[n - 1], r.steps[n - 1]);
    }
  }

  // ----- when a waiter is safe -----

  lemma {:induction false} CompletedIsPushed(env: Env, s: State, id: nat)
    requires Inv(env, s) && HasId(s.completion, id)
    ensures id in s.pos && id !in s.delivered && DistinctIds(s.completion)
    ensures s.pos[id] < |s.pushes| && s.pos[id] < Processed(s) && s.pushes[s.pos[id]] == Request(id, s.issued[id])
    ensures forall k :: 0 <= k < |s.pushes| && s.pushes[k].id == id ==> k == s.pos[id]
  {
    hide ThreadInv, LoopParts, SyncRun;
  }

  lemma {:induction false} FindRemoves(env: Env, s: State, u: nat)
    requires Enabled(env, s, WaitFind(u)) && HasId(s.completion, s.threads[u].id) && DistinctIds(s.completion)
    ensures !HasId(Apply(env, s, WaitFind(u)).completion, s.threads[u].id)
  {
    hide HasId, Without, DistinctIds;
    WithoutElements(s.completion, FirstIndex(s.completion, s.threads[u].id));
  }

  /** As soon as the reply to a close request is there, the closing thread can take it. */
  lemma {:induction false} CloserCanTake(env: Env, s: State, id: nat) returns (u: nat)
    requires Inv(env, s) && ClosersWait(s) && IsClose(s, id) && HasId(s.completion, id)
    ensures Enabled(env, s, WaitFind(u)) && s.threads[u] == Waiting(id, true)
    ensures !HasId(Apply(env, s, WaitFind(u)).completion, id)
  {
    hide Apply, HasId, IdInv, ThreadInv, LoopParts, ResultInv;
    CompletedIsPushed(env, s, id);
    u :| 0 <= u < |s.threads| && Closes(s.threads[u]) && s.threads[u].id == id;
    WaiterLocal(s, u);
    FindRemoves(env, s, u);
  }

  lemma {:induction false} OthersLeaveIt(env: Env, s: State, t: nat, step: Step)
    requires Inv(env, s) && Enabled(env, s, step) && t < |s.threads| && step != WaitFind(t)
    requires Claims(s.threads[t]) && !IsClose(s, s.threads[t].id) && HasId(s.completion, s.threads[t].id)
    ensures HasId(Apply(env, s, step).completion, s.threads[t].id)
  {
    hide Apply, Enabled, HasId, IdInv, LoopParts, ResultInv;
    WaiterLocal(s, t);
    if IsLoop(step) {
      LoopLeavesIt(env, s, t, step);
    } else {
      CallersLeaveIt(env, s, t, step);
    }
  }

  lemma {:induction false} CloseInOrder(env: Env, s: State, id: nat)
    requires Inv(env, s) && HasId(s.completion, id)
    ensures IsClose(s, id) <==> Request(id, CloseContext) in s.pushes
  {
    hide HasId, ThreadInv, LoopParts, ResultInv;
    CompletedIsPushed(env, s, id);
    if Request(id, CloseContext) in s.pushes {
      var k :| 0 <= k < |s.pushes| && s.pushes[k] == Request(id, CloseContext);
    }
  }

  /**
   * Safe from others, exactly. Take a thread past the check of callWaitResult whose result is in the
   * completion queue. No step of anybody else removes the result if and only if the id is not that
   * of a close request.
   */
  lemma {:induction false} NobodyElseTakesIff(env: Env, r: Run, i: nat, t: nat)
    requires Bounded(env, r) && i < |r.states| && t < |r.states[i].threads| && Claims(r.states[i].threads[t])
    requires HasId(r.states[i].completion, r.states[i].threads[t].id)
    ensures var s, id := r.states[i], r.states[i].threads[t].id;
      (forall step :: step != WaitFind(t) && Enabled(env, s, step) ==> HasId(Apply(env, s, step).completion, id))
      <==> Request(id, CloseContext) !in PushOrder(r, i)
  {
    hide Apply, Enabled, Inv, HasId, PushOrder, ClosersWait;
    var s, id := r.states[i], r.states[i].threads[t].id;
    RunInv(env, r, i);
    RunClosers(env, r, i);
    PushOrderIs(env, r, i);
    CloseInOrder(env, s, id);
    if IsClose(s, id) {
      var u := CloserCanTake(env, s, id);
      assert WaitFind(u) != WaitFind(t);
    } else {
      forall step | step != WaitFind(t) && Enabled(env, s, step) ensures HasId(Apply(env, s, step).completion, id) {
        OthersLeaveIt(env, s, t, step);
      }
    }
  }

  // ----- the same over whole continuations -----

  lemma {:induction false} ProcessedStep(env: Env, s: State, step: Step)
    requires Inv(env, s) && Enabled(env, s, step)
    ensures Processed(s) <= Processed(Apply(env, s, step))
  {
    hide Apply, Enabled, Inv, LoopParts, Processed;
    if !IsLoop(step) {
      CallerKeeps(env, s, step);
    } else if Publishes(step) {
      InvLoopParts(env, s);
      LoopPublishes(env, s, step);
    } else {
      LoopHolds(env, s, step);
    }
  }

  lemma {:induction false} ProcessedGrows(env: Env, r: Run, i: nat, j: nat)
    requires Bounded(env, r) && i <= j < |r.states|
    ensures Processed(r.states[i]) <= Processed(r.states[j])
    decreases j
  {
    hide Apply, Enabled, Inv, Processed;
    if i < j {
      ProcessedGrows(env, r, i, j - 1);
      RunInv(env, r, j - 1);
      assert IsStep(env, r.states[j - 1], r.steps[j - 1], r.states[j - 1 + 1]);
      ProcessedStep(env, r.states[j - 1], r.steps[j - 1]);
    }
  }

  /** `r'` continues `r`, and at its end thread `t` is still in the wait it is in at the end of `r`. */
  ghost predicate StillWaits(env: Env, r': Run, r: Run, t: nat)
    requires IsRun(env, r) && t < |Last(r).threads|
  {
    Bounded(env, r') && Continues(r', r) && t < |Last(r').threads| && SameWait(Last(r).threads[t], Last(r').threads[t])
  }

  lemma {:induction false} SafeWaiterKeeps(env: Env, r: Run, r': Run, t: nat)
    requires Bounded(env, r) && t < |Last(r).threads| && Claims(Last(r).threads[t]) && StillWaits(env, r', r, t)
    requires HasId(Last(r).completion, Last(r).threads[t].id) && !IsClose(Last(r), Last(r).threads[t].id)
    ensures HasId(Last(r').completion, Last(r).threads[t].id)
  {
    hide Apply, Enabled, Inv, HasId, Processed, PushOrder, Happened, TakenIs;
    var i, j, id := |r.states| - 1, |r'.states| - 1, Last(r).threads[t].id;
    assert r'.states[i] == Last(r);
    RunInv(env, r', i);
    RunInv(env, r', j);
    CompletedIsPushed(env, Last(r), id);
    RunGrows(env, r', i, j);
    ProcessedGrows(env, r', i, j);
    var k := Last(r).pos[id];
    PushedBody(env, Last(r), k);
    PushedBody(env, Last(r'), k);
    PushOrderIs(env, r', j);
    WaiterKeepsCompletion(env, r', j, t);
  }

  lemma {:induction false} UnsafeWaiterLoses(env: Env, r: Run, t: nat) returns (r': Run)
    requires Bounded(env, r) && t < |Last(r).threads| && Claims(Last(r).threads[t])
    requires HasId(Last(r).completion, Last(r).threads[t].id) && IsClose(Last(r), Last(r).threads[t].id)
    ensures StillWaits(env, r', r, t) && !HasId(Last(r').completion, Last(r).threads[t].id)
  {
    hide Apply, Enabled, Inv, HasId, ClosersWait;
    RunInv(env, r, |r.states| - 1);
    RunClosers(env, r, |r.states| - 1);
    var u := CloserCanTake(env, Last(r), Last(r).threads[t].id);
    r' := Extend(env, r, WaitFind(u));
    WaitKeepsFetches(env, Last(r), u);
    WaitStays(env, Last(r), WaitFind(u), t);
  }

  /**
   * The waiter's guarantee, exactly. Once the result of a thread past the check of callWaitResult is
   * in the completion queue, it stays there in every continuation until the thread itself takes it,
   * if and only if the id is not that of a close request.
   */
  lemma {:induction false} WaiterKeepsIff(env: Env, r: Run, t: nat)
    requires Bounded(env, r) && t < |Last(r).threads| && Claims(Last(r).threads[t])
    requires HasId(Last(r).completion, Last(r).threads[t].id)
    ensures var id := Last(r).threads[t].id;
      (forall r' :: StillWaits(env, r', r, t) ==> HasId(Last(r').completion, id))
      <==> Request(id, CloseContext) !in PushOrder(r, |r.steps|)
  {
    hide Apply, Enabled, Inv, HasId, PushOrder;
    var id := Last(r).threads[t].id;
    RunInv(env, r, |r.states| - 1);
    PushOrderIs(env, r, |r.steps|);
    CloseInOrder(env, Last(r), id);
    if IsClose(Last(r), id) {
      var r' := UnsafeWaiterLoses(env, r, t);
    } else {
      forall r' | StillWaits(env, r', r, t) ensures HasId(Last(r').completion, id) {
        SafeWaiterKeeps(env, r, r', t);
      }
    }
  }
}
