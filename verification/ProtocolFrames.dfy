/** What the steps of each kind of thread leave alone. */
module ProtocolFrames {
  import opened Base
  import opened CommandQueue
  import opened VeHandler
  import opened Interpreter
  import opened Protocol

  /** The thread is inside a request function, past the first test and before its push. */
  predicate Producing(pc: Pc) {
    pc.Checked? || pc.Numbered? || pc.Registered? || pc.Passed?
  }

  /** The thread is in `completion.wait`. */
  predicate InWait(pc: Pc) {
    pc.Waiting? || pc.Asleep?
  }

  // ----- collectors -----

  /** What a collector's step may change: its own program counter, the completions and who has them. */
  ghost predicate OnlyCollects(s: State, s': State, t: nat) {
    && s' == s.(threads := s'.threads, completion := s'.completion, rem := s'.rem, mtx := s'.mtx,
                claimed := s'.claimed, delivered := s'.delivered)
    && t < |s.threads| == |s'.threads| && s'.threads == s.threads[t := s'.threads[t]]
    && !Producing(s.threads[t]) && !Producing(s'.threads[t])
    && s.claimed <= s'.claimed && s.delivered.Keys <= s'.delivered.Keys
  }

  lemma {:induction false} PeekFindOnly(s: State, t: nat)
    requires t < |s.threads| && s.threads[t].PeekHeld?
    ensures OnlyCollects(s, DoPeekFind(s, t), t)
  {
    hide FirstIndex, Without, HasId;
  }

  lemma {:induction false} WaitFindOnly(s: State, t: nat)
    requires t < |s.threads| && s.threads[t].Waiting?
    ensures OnlyCollects(s, DoWaitFind(s, t), t)
  {
    hide FirstIndex, Without, HasId;
  }

  lemma {:induction false} ClaimOnly(s: State, t: nat, id: nat)
    requires t < |s.threads|
    ensures s.threads[t].Idle? ==> OnlyCollects(s, DoPeek(s, t, id), t) && OnlyCollects(s, DoWait(s, t, id), t)
    ensures s.threads[t].PeekTaken? ==> OnlyCollects(s, DoPeekErase(s, t), t)
    ensures s.threads[t].Asleep? ==> OnlyCollects(s, DoSpuriousWake(s, t), t)
  {
  }

  lemma {:induction false} SearchFrame(env: Env, s: State, step: Step)
    requires Enabled(env, s, step) && (step.PeekFind? || step.WaitFind?)
    ensures OnlyCollects(s, Apply(env, s, step), step.t)
  {
    hide DoPeekFind, DoWaitFind, OnlyCollects;
    if step.PeekFind? {
      PeekFindOnly(s, step.t);
    } else {
      WaitFindOnly(s, step.t);
    }
  }

  lemma {:induction false} ClaimFrame(env: Env, s: State, step: Step)
    requires Enabled(env, s, step) && (step.Peek? || step.PeekErase? || step.Wait? || step.SpuriousWake?)
    ensures OnlyCollects(s, Apply(env, s, step), step.t)
    ensures Apply(env, s, step).completion == s.completion
  {
    hide OnlyCollects;
    ClaimOnly(s, step.t, match step case Peek(_, id) => id case Wait(_, id) => id case _ => 0);
  }

  lemma {:induction false} CollectorOnly(env: Env, s: State, step: Step)
    requires Enabled(env, s, step) && IsCollector(step)
    ensures OnlyCollects(s, Apply(env, s, step), step.t)
  {
    hide Apply, Enabled, OnlyCollects;
    if step.PeekFind? || step.WaitFind? {
      SearchFrame(env, s, step);
    } else {
      ClaimFrame(env, s, step);
    }
  }

  // ----- producers -----

  /** What a producer's step may change: its own program counter, the ids and the request queue. */
  ghost predicate OnlyProduces(s: State, s': State, t: nat) {
    && s' == s.(threads := s'.threads, fetches := s'.fetches, rem := s'.rem, issued := s'.issued, refused := s'.refused,
                request := s'.request, pushes := s'.pushes, pos := s'.pos, loop := s'.loop)
    && t < |s.threads| == |s'.threads| && s'.threads == s.threads[t := s'.threads[t]]
    && s.fetches <= s'.fetches && s.issued.Keys <= s'.issued.Keys && s.refused <= s'.refused
    && (s.threads[t].Idle? || Producing(s.threads[t]))
    && (Producing(s'.threads[t]) ==> Producing(s.threads[t]) || s.ctx != StExit)
    && (s'.threads[t].Passed? ==> s.qstatus == QueueReady)
  }

  ghost predicate SameQueue(s: State, s': State) {
    s'.request == s.request && s'.pushes == s.pushes && s'.pos == s.pos && s'.loop == s.loop
  }

  ghost predicate AppendsRequest(s: State, s': State, t: nat)
    requires t < |s.threads| == |s'.threads|
  {
    && s.threads[t].Passed? && s'.request == s.request + [Command(s.threads[t].req, None)]
    && s'.pushes == s.pushes + [s.threads[t].req] && s'.pos == s.pos[s.threads[t].req.id := |s.pushes|]
    && s'.loop == (if s.loop.PopAsleep? then Popping else s.loop)
    && s'.threads[t] == if s.threads[t].req.body.CloseContext? then Waiting(s.threads[t].req.id, true) else Idle
  }

  lemma {:induction false} IssueFrame(env: Env, s: State, step: Step)
    requires Enabled(env, s, step) && (step.Begin? || step.Fetch? || step.Register?)
    ensures OnlyProduces(s, Apply(env, s, step), step.t) && SameQueue(s, Apply(env, s, step))
    ensures !step.Register? ==> Apply(env, s, step).issued == s.issued
  {
  }

  lemma {:induction false} PushFrame(env: Env, s: State, step: Step)
    requires Enabled(env, s, step) && (step.CheckQueue? || step.Push?)
    ensures OnlyProduces(s, Apply(env, s, step), step.t) && Apply(env, s, step).issued == s.issued
    ensures if step.Push? then AppendsRequest(s, Apply(env, s, step), step.t) else SameQueue(s, Apply(env, s, step))
  {
  }

  lemma {:induction false} ProducerOnly(env: Env, s: State, step: Step)
    requires Enabled(env, s, step) && IsProducer(step)
    ensures OnlyProduces(s, Apply(env, s, step), step.t)
    ensures !step.Register? ==> Apply(env, s, step).issued == s.issued
    ensures if step.Push? then AppendsRequest(s, Apply(env, s, step), step.t) else SameQueue(s, Apply(env, s, step))
  {
    hide Apply, Enabled, OnlyProduces, AppendsRequest, SameQueue;
    if step.CheckQueue? || step.Push? {
      PushFrame(env, s, step);
    } else {
      IssueFrame(env, s, step);
    }
  }

  // ----- the event loop -----

  /** What a step of the event loop may change; callers only wake up. */
  ghost predicate OnlyLoops(s: State, s': State) {
    && s' == s.(ctx := s'.ctx, qstatus := s'.qstatus, request := s'.request, completion := s'.completion,
                loop := s'.loop, threads := s'.threads, executed := s'.executed, closure := s'.closure)
    && |s'.threads| == |s.threads|
    && forall t :: 0 <= t < |s.threads| ==> s'.threads[t] == s.threads[t] || s'.threads[t] == Wake(s.threads[t])
  }

  /** The steps up to the end of a command's handler. */
  predicate IsEarly(step: Step) {
    || step.LoopStart? || step.LoopGuard? || step.LoopPop? || step.LoopSpuriousWake?
    || step.LoopExecute? || step.LoopFinish?
  }

  lemma {:induction false} HandlerOnly(env: Env, s: State, step: Step)
    requires Enabled(env, s, step) && (step.LoopExecute? || step.LoopFinish?)
    ensures OnlyLoops(s, Apply(env, s, step))
  {
    hide RunBody, Wake;
  }

  lemma {:induction false} WaitingOnly(env: Env, s: State, step: Step)
    requires Enabled(env, s, step) && IsEarly(step) && !step.LoopExecute? && !step.LoopFinish?
    ensures OnlyLoops(s, Apply(env, s, step))
  {
    hide StartUp, Wake;
  }

  lemma {:induction false} LateOnly(env: Env, s: State, step: Step)
    requires Enabled(env, s, step) && IsLoop(step) && !IsEarly(step)
    ensures OnlyLoops(s, Apply(env, s, step))
  {
    hide PassedIds, Wake;
  }

  lemma {:induction false} LoopOnly(env: Env, s: State, step: Step)
    requires Enabled(env, s, step) && IsLoop(step)
    ensures OnlyLoops(s, Apply(env, s, step))
  {
    hide Apply, Enabled, OnlyLoops;
    if step.LoopExecute? || step.LoopFinish? {
      HandlerOnly(env, s, step);
    } else if IsEarly(step) {
      WaitingOnly(env, s, step);
    } else {
      LateOnly(env, s, step);
    }
  }

  /** The control flow of the event loop, and its effect on the request queue. */
  ghost predicate LoopEdge(s: State, step: Step, s': State) {
    && s'.qstatus == (if step.LoopSetClosed? then QueueClosed else s.qstatus)
    && (!step.LoopSetClosed? ==> s'.closure == s.closure)
    && (!step.LoopPop? && !step.LoopDrainPop? ==> s'.request == s.request)
    && match step
       case LoopStart(_) => s.loop.Starting? && (s'.loop.Guard? || s'.loop.Dead?)
       case LoopGuard => s.loop.Guard? && (s'.loop.Popping? || s'.loop.Dropped?)
       case LoopPop => s.loop.Popping? && Takes(s, s', if s.request == [] then PopAsleep else Execute(s.request[0]))
       case LoopSpuriousWake => s.loop.PopAsleep? && s'.loop.Popping?
       case LoopExecute => s.loop.Execute? && (s'.loop == InHandler(s.loop.cmd) || s'.loop == CloseReply(s.loop.cmd))
       case LoopFinish =>
         s.loop.InHandler? && (s'.loop.Publish? || s'.loop.SetExit?) && s'.loop.cmd.req == s.loop.cmd.req
       case LoopPublish => s.loop.Publish? && s'.loop.Guard?
       case LoopSetExit => s.loop.SetExit? && s'.loop == SetClosed(s.loop.cmd)
       case LoopSetClosed => s.loop.SetClosed? && s'.loop == PublishFailed(s.loop.cmd)
       case LoopPublishFailed => s.loop.PublishFailed? && s'.loop.Drain?
       case LoopDrainPop => s.loop.Drain? && Takes(s, s', if s.request == [] then Done else DrainHave(s.request[0]))
       case LoopDrainPush => s.loop.DrainHave? && s'.loop.Drain?
       case LoopCloseReply => s.loop.CloseReply? && s'.loop.Gone?
       case _ => false
  }

  ghost predicate Takes(s: State, s': State, next: LoopPc) {
    s'.loop == next && s'.request == if s.request == [] then [] else s.request[1..]
  }

  lemma {:induction false} WaitingEdges(env: Env, s: State, step: Step)
    requires Enabled(env, s, step) && (step.LoopStart? || step.LoopGuard? || step.LoopPop? || step.LoopSpuriousWake?)
    ensures LoopEdge(s, step, Apply(env, s, step))
  {
    hide StartUp;
  }

  lemma {:induction false} HandlerEdges(env: Env, s: State, step: Step)
    requires Enabled(env, s, step) && (step.LoopExecute? || step.LoopFinish?)
    ensures LoopEdge(s, step, Apply(env, s, step))
  {
    hide RunBody;
  }

  lemma {:induction false} LateEdges(env: Env, s: State, step: Step)
    requires Enabled(env, s, step) && IsLoop(step) && !IsEarly(step)
    ensures LoopEdge(s, step, Apply(env, s, step))
  {
    hide PassedIds;
  }

  lemma {:induction false} LoopEdges(env: Env, s: State, step: Step)
    requires Enabled(env, s, step) && IsLoop(step)
    ensures LoopEdge(s, step, Apply(env, s, step))
  {
    hide Apply, Enabled, LoopEdge;
    if step.LoopExecute? || step.LoopFinish? {
      HandlerEdges(env, s, step);
    } else if IsEarly(step) {
      WaitingEdges(env, s, step);
    } else {
      LateEdges(env, s, step);
    }
  }

  // ----- a waiting thread -----

  /** The thread is still in the same wait, asleep or awake. */
  predicate SameWait(pc: Pc, pc': Pc) {
    InWait(pc) && InWait(pc') && pc'.id == pc.id && pc'.closing == pc.closing
  }

  lemma {:induction false} WaiterOwnStep(env: Env, s: State, step: Step)
    requires Enabled(env, s, step) && !IsLoop(step) && InWait(s.threads[step.t])
    requires step.WaitFind? ==> !HasId(s.completion, s.threads[step.t].id)
    ensures step.t < |Apply(env, s, step).threads| && SameWait(s.threads[step.t], Apply(env, s, step).threads[step.t])
  {
    hide HasId, Without;
    assert step.WaitFind? || step.SpuriousWake?;
  }

  /** A wait ends only when the waiting thread finds its completion. */
  lemma {:induction false} WaitStays(env: Env, s: State, step: Step, t: nat)
    requires Enabled(env, s, step) && t < |s.threads| && InWait(s.threads[t])
    requires step == WaitFind(t) ==> !HasId(s.completion, s.threads[t].id)
    ensures t < |Apply(env, s, step).threads| && SameWait(s.threads[t], Apply(env, s, step).threads[t])
  {
    hide Apply, HasId;
    if IsLoop(step) {
      LoopOnly(env, s, step);
    } else if step.t == t {
      WaiterOwnStep(env, s, step);
    } else if IsProducer(step) {
      ProducerOnly(env, s, step);
    } else {
      CollectorOnly(env, s, step);
    }
  }
}
