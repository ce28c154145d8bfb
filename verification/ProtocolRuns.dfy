/**
 * Runs of the protocol: the invariant in every state, what callers see, and the history variables
 * read as events of the run.
 */
module ProtocolRuns {
  import opened Base
  import opened CommandQueue
  import opened Interpreter
  import opened Protocol
  import opened ProtocolInvariant
  import opened ProtocolSteps
  import opened ProtocolInductive
  import opened ProtocolFrames

  /** A run in which seq_no was incremented at most 2^64 times. */
  ghost predicate Bounded(env: Env, r: Run) {
    IsRun(env, r) && Last(r).fetches <= TWO64
  }

  // ----- what only grows -----

  /** Threads are neither created nor destroyed, and these history variables only grow. */
  ghost predicate Grows(s: State, s': State) {
    && s.fetches <= s'.fetches
    && |s.threads| == |s'.threads|
    && s.issued.Keys <= s'.issued.Keys
    && s.claimed <= s'.claimed
    && s.refused <= s'.refused
    && s.pushes <= s'.pushes
    && s.delivered.Keys <= s'.delivered.Keys
  }

  lemma {:induction false} StepGrows(env: Env, s: State, step: Step)
    requires Enabled(env, s, step)
    ensures Grows(s, Apply(env, s, step))
    ensures Apply(env, s, step).pushes == s.pushes + if step.Push? then [s.threads[step.t].req] else []
  {
    hide Apply;
    if IsProducer(step) {
      ProducerOnly(env, s, step);
    } else if IsCollector(step) {
      CollectorOnly(env, s, step);
    } else {
      LoopOnly(env, s, step);
    }
  }

  lemma {:induction false} RunGrows(env: Env, r: Run, i: nat, j: nat)
    requires IsRun(env, r) && i <= j < |r.states|
    ensures Grows(r.states[i], r.states[j])
    decreases j - i
  {
    hide Apply, Enabled;
    if i < j {
      RunGrows(env, r, i, j - 1);
      assert IsStep(env, r.states[j - 1], r.steps[j - 1], r.states[j - 1 + 1]);
      StepGrows(env, r.states[j - 1], r.steps[j - 1]);
    }
  }

  /** The invariant holds in every state of every bounded run. */
  lemma {:induction false} RunInv(env: Env, r: Run, i: nat)
    requires Bounded(env, r) && i < |r.states|
    ensures Inv(env, r.states[i])
    decreases i
  {
    hide Apply, Enabled, Inv;
    if i == 0 {
      InitInv(env, r.threads);
    } else {
      RunInv(env, r, i - 1);
      assert IsStep(env, r.states[i - 1], r.steps[i - 1], r.states[i - 1 + 1]);
      RunGrows(env, r, i, |r.states| - 1);
      StepInv(env, r.states[i - 1], r.steps[i - 1]);
    }
  }

  /** `r'` is a continuation of `r`. */
  ghost predicate Continues(r': Run, r: Run) {
    r'.threads == r.threads && r.states <= r'.states && r.steps <= r'.steps
  }

  /** A run made one step longer. */
  lemma {:induction false} Extend(env: Env, r: Run, step: Step) returns (r': Run)
    requires IsRun(env, r) && Enabled(env, Last(r), step)
    ensures IsRun(env, r') && Last(r') == Apply(env, Last(r), step)
    ensures r'.threads == r.threads && r'.steps == r.steps + [step]
    ensures r'.states == r.states + [Apply(env, Last(r), step)] && Continues(r', r)
  {
    hide Apply, Enabled;
    r' := Run(r.threads, r.states + [Apply(env, Last(r), step)], r.steps + [step]);
    forall i | 0 <= i < |r'.steps| ensures IsStep(env, r'.states[i], r'.steps[i], r'.states[i + 1]) {
      if i < |r.steps| {
        assert IsStep(env, r.states[i], r.steps[i], r.states[i + 1]);
      }
    }
  }

  // ----- what callers see -----

  /** One answer of callPeekResult or callWaitResult. */
  datatype Seen = SawError | SawPending | SawFinal(outcome: Outcome)

  datatype Observation = Nothing | Observed(id: nat, seen: Seen)

  /** The answer a step returns to its caller, if it returns one. */
  function Observe(s: State, step: Step): Observation {
    match step
    case Peek(t, id) => if id in s.rem then Nothing else Observed(id, SawError)
    case Wait(t, id) => if id in s.rem then Nothing else Observed(id, SawError)
    case PeekFind(t) =>
      if t < |s.threads| && s.threads[t].PeekHeld? && !HasId(s.completion, s.threads[t].id)
      then Observed(s.threads[t].id, SawPending) else Nothing
    case PeekErase(t) =>
      if t < |s.threads| && s.threads[t].PeekTaken?
      then Observed(s.threads[t].cmd.req.id, SawFinal(ResultOf(s.threads[t].cmd))) else Nothing
    case WaitFind(t) =>
      if t < |s.threads| && s.threads[t].Waiting? && !s.threads[t].closing && HasId(s.completion, s.threads[t].id)
      then Observed(s.threads[t].id, SawFinal(ResultOf(s.completion[FirstIndex(s.completion, s.threads[t].id)])))
      else Nothing
    case _ => Nothing
  }

  /** The requests pushed by the first `n` steps, in push order. */
  function PushOrder(r: Run, n: nat): seq<Request>
    requires n <= |r.steps| && |r.states| == |r.steps| + 1
  {
    if n == 0 then []
    else
      PushOrder(r, n - 1) +
      (match r.steps[n - 1]
       case Push(t) =>
         if t < |r.states[n - 1].threads| && r.states[n - 1].threads[t].Passed?
         then [r.states[n - 1].threads[t].req] else []
       case _ => [])
  }

  lemma {:induction false} PushOrderIs(env: Env, r: Run, n: nat)
    requires IsRun(env, r) && n <= |r.steps|
    ensures r.states[n].pushes == PushOrder(r, n)
    decreases n
  {
    hide Apply;
    if n > 0 {
      PushOrderIs(env, r, n - 1);
      assert IsStep(env, r.states[n - 1], r.steps[n - 1], r.states[n - 1 + 1]);
      StepGrows(env, r.states[n - 1], r.steps[n - 1]);
    }
  }

  // ----- what the steps of a run did -----

  /** What a step can do to a request id, as a caller sees it. */
  datatype Deed =
    | Issue                                // issueRequestID inserts the id
    | Claim                                // callWaitResult passes its test, or callPeekResult returns the result
    | Refuse                               // pushRequest finds the queue closed
    | Deliver                              // callWaitResult, callPeekResult or close gets the result

  /** The step answers a caller with the result of `id`. */
  predicate FinalFor(s: State, step: Step, id: nat) {
    Observe(s, step).Observed? && Observe(s, step).id == id && Observe(s, step).seen.SawFinal?
  }

  /** The step is the one in which the wait of close() finds `id`. */
  predicate CloseCollects(s: State, step: Step, id: nat) {
    && step.WaitFind? && step.t < |s.threads| && s.threads[step.t] == Waiting(id, true)
    && HasId(s.completion, id)
  }

  predicate Does(deed: Deed, s: State, step: Step, id: nat) {
    match deed
    case Issue =>
      step.Register? && step.t < |s.threads| && s.threads[step.t].Numbered? && s.threads[step.t].req.id == id
    case Claim =>
      (step.Wait? && step.id == id && Observe(s, step).Nothing?) || (step.PeekErase? && FinalFor(s, step, id))
    case Refuse =>
      && step.CheckQueue? && step.t < |s.threads| && s.threads[step.t].Registered?
      && s.threads[step.t].req.id == id && s.qstatus == QueueClosed
    case Deliver => FinalFor(s, step, id) || CloseCollects(s, step, id)
  }

  /** One of the first `n` steps did it. */
  ghost predicate Happened(deed: Deed, r: Run, n: nat, id: nat)
    requires n <= |r.steps| && |r.states| == |r.steps| + 1
  {
    exists i :: 0 <= i < n && Does(deed, r.states[i], r.steps[i], id)
  }

  /** The history variable that records it. */
  predicate Recorded(deed: Deed, s: State, id: nat) {
    match deed
    case Issue => id in s.issued
    case Claim => id in s.claimed
    case Refuse => id in s.refused
    case Deliver => id in s.delivered
  }

  lemma {:induction false} LoopRecords(env: Env, s: State, step: Step, deed: Deed, id: nat)
    requires Enabled(env, s, step) && IsLoop(step)
    ensures Recorded(deed, Apply(env, s, step), id) <==> Recorded(deed, s, id) || Does(deed, s, step, id)
  {
    hide Apply, Enabled, HasId;
    LoopOnly(env, s, step);
  }

  lemma {:induction false} IssueRecords(env: Env, s: State, step: Step, deed: Deed, id: nat)
    requires Enabled(env, s, step) && (step.Begin? || step.Fetch? || step.Register?)
    ensures Recorded(deed, Apply(env, s, step), id) <==> Recorded(deed, s, id) || Does(deed, s, step, id)
  {
    hide HasId;
  }

  lemma {:induction false} PushRecords(env: Env, s: State, step: Step, deed: Deed, id: nat)
    requires Enabled(env, s, step) && (step.CheckQueue? || step.Push?)
    ensures Recorded(deed, Apply(env, s, step), id) <==> Recorded(deed, s, id) || Does(deed, s, step, id)
  {
    hide HasId;
  }

  lemma {:induction false} PeekRecords(env: Env, s: State, step: Step, deed: Deed, id: nat)
    requires Enabled(env, s, step) && (step.Peek? || step.PeekFind? || step.PeekErase?)
    ensures Recorded(deed, Apply(env, s, step), id) <==> Recorded(deed, s, id) || Does(deed, s, step, id)
  {
    hide HasId, FirstIndex, Without;
  }

  lemma {:induction false} WaitRecords(env: Env, s: State, step: Step, deed: Deed, id: nat)
    requires Enabled(env, s, step) && (step.Wait? || step.WaitFind? || step.SpuriousWake?)
    ensures Recorded(deed, Apply(env, s, step), id) <==> Recorded(deed, s, id) || Does(deed, s, step, id)
  {
    hide HasId, Without;
  }

  lemma {:induction false} StepRecords(env: Env, s: State, step: Step, deed: Deed, id: nat)
    requires Enabled(env, s, step)
    ensures Recorded(deed, Apply(env, s, step), id) <==> Recorded(deed, s, id) || Does(deed, s, step, id)
  {
    hide Apply, Recorded, Does, Enabled;
    if step.CheckQueue? || step.Push? {
      PushRecords(env, s, step, deed, id);
    } else if IsProducer(step) {
      IssueRecords(env, s, step, deed, id);
    } else if step.Peek? || step.PeekFind? || step.PeekErase? {
      PeekRecords(env, s, step, deed, id);
    } else if IsCollector(step) {
      WaitRecords(env, s, step, deed, id);
    } else {
      LoopRecords(env, s, step, deed, id);
    }
  }

  /** The history variables are the history: an id is recorded exactly when an earlier step did the deed. */
  lemma {:induction false} RecordedExactly(env: Env, r: Run, n: nat, deed: Deed, id: nat)
    requires IsRun(env, r) && n <= |r.steps|
    ensures Recorded(deed, r.states[n], id) <==> Happened(deed, r, n, id)
    decreases n
  {
    hide Apply, Enabled, Does;
    if n > 0 {
      RecordedExactly(env, r, n - 1, deed, id);
      assert IsStep(env, r.states[n - 1], r.steps[n - 1], r.states[n - 1 + 1]);
      StepRecords(env, r.states[n - 1], r.steps[n - 1], deed, id);
    }
  }

  /** How many of the first `n` steps gave somebody the result of `id`. */
  function Deliveries(r: Run, n: nat, id: nat): nat
    requires n <= |r.steps| && |r.states| == |r.steps| + 1
  {
    if n == 0 then 0
    else Deliveries(r, n - 1, id) + if Does(Deliver, r.states[n - 1], r.steps[n - 1], id) then 1 else 0
  }

  lemma {:induction false} DeliverFresh(env: Env, s: State, step: Step, id: nat)
    requires Inv(env, s) && Enabled(env, s, step) && Does(Deliver, s, step, id)
    ensures id !in s.delivered
  {
    hide Apply, IdInv, LoopParts, SyncRun, Without;
    assert step.PeekErase? || step.WaitFind?;
    WaiterLocal(s, step.t);
  }

  /** No result is given out twice. */
  lemma {:induction false} DeliveredOnce(env: Env, r: Run, n: nat, id: nat)
    requires Bounded(env, r) && n <= |r.steps|
    ensures Deliveries(r, n, id) == if Happened(Deliver, r, n, id) then 1 else 0
    decreases n
  {
    hide Apply, Enabled, Inv, Does;
    if n > 0 {
      DeliveredOnce(env, r, n - 1, id);
      if Does(Deliver, r.states[n - 1], r.steps[n - 1], id) {
        assert IsStep(env, r.states[n - 1], r.steps[n - 1], r.states[n - 1 + 1]);
        RunInv(env, r, n - 1);
        DeliverFresh(env, r.states[n - 1], r.steps[n - 1], id);
        RecordedExactly(env, r, n - 1, Deliver, id);
      }
    }
  }
}
