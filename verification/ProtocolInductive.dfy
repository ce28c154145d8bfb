/** The invariant is inductive: it holds initially and every step of every run keeps it. */
module ProtocolInductive {
  import opened Base
  import opened CommandQueue
  import opened VeHandler
  import opened Interpreter
  import opened Protocol
  import opened ProtocolInvariant
  import opened ProtocolSteps

  lemma {:induction false} InitInv(env: Env, n: nat)
    ensures Inv(env, Init(n))
  {
  }

  /** A caller's step that touches neither the queues nor the results. */
  lemma {:induction false} QuietCaller(env: Env, s: State, s': State)
    requires Inv(env, s) && IdInv(s') && ThreadInv(s') && Taken(s') == Taken(s)
    requires s' == s.(fetches := s'.fetches, rem := s'.rem, mtx := s'.mtx, threads := s'.threads,
                      issued := s'.issued, claimed := s'.claimed, refused := s'.refused)
    requires s.claimed <= s'.claimed
    requires forall x :: x in s.issued ==> x in s'.issued && s'.issued[x] == s.issued[x]
    ensures Inv(env, s')
  {
    hide IdInv, ThreadInv, LoopParts, ResultInv, SyncRun;
    LoopFrame(env, s, s');
    ResultFrame(SyncRun(env, s.pushes), s, s');
  }

  /** A step of the event loop that publishes nothing and does not close the queue. */
  lemma {:induction false} QuietLoop(env: Env, s: State, s': State)
    requires Inv(env, s) && LoopParts(env, s') && Processed(s') == Processed(s)
    requires s' == s.(ctx := s'.ctx, request := s'.request, loop := s'.loop, executed := s'.executed)
    ensures Inv(env, s')
  {
    hide IdInv, ThreadInv, LoopParts, ResultInv, SyncRun, Processed;
    IdFrame(s, s');
    ThreadFrame(s, s');
    ResultFrame(SyncRun(env, s.pushes), s, s');
  }

  lemma {:induction false} BeginInv(env: Env, s: State, t: nat, body: Body)
    requires Inv(env, s) && Enabled(env, s, Begin(t, body))
    ensures Inv(env, Apply(env, s, Begin(t, body)))
  {
    hide IdInv, ThreadInv, LoopParts, ResultInv, SyncRun, HasId;
    var s' := DoBegin(s, t, body);
    IdFrame(s, s');
    BeginThread(s, t, body);
    TakenFrame(s, s', t, s'.threads[t]);
    QuietCaller(env, s, s');
  }

  lemma {:induction false} FetchInv(env: Env, s: State, t: nat)
    requires Inv(env, s) && Enabled(env, s, Fetch(t))
    requires s.fetches < TWO64
    ensures Inv(env, Apply(env, s, Fetch(t)))
  {
    hide IdInv, ThreadInv, LoopParts, ResultInv, SyncRun, HasId;
    var s' := DoFetch(s, t);
    FetchIds(s, t);
    FetchThreads(s, t);
    TakenFrame(s, s', t, s'.threads[t]);
    QuietCaller(env, s, s');
  }

  lemma {:induction false} RegisterInv(env: Env, s: State, t: nat)
    requires Inv(env, s) && Enabled(env, s, Register(t))
    ensures Inv(env, Apply(env, s, Register(t)))
  {
    hide IdInv, ThreadInv, LoopParts, ResultInv, SyncRun, HasId;
    var s' := DoRegister(s, t);
    RegisterIds(s, t);
    RegisterThreads(s, t);
    TakenFrame(s, s', t, s'.threads[t]);
    FreshRegister(s, t);
    QuietCaller(env, s, s');
  }

  lemma {:induction false} CheckQueueInv(env: Env, s: State, t: nat)
    requires Inv(env, s) && Enabled(env, s, CheckQueue(t))
    ensures Inv(env, Apply(env, s, CheckQueue(t)))
  {
    hide IdInv, ThreadInv, LoopParts, ResultInv, SyncRun, HasId;
    var s' := DoCheckQueue(s, t);
    CheckQueueIds(s, t);
    ReadyMeansOpen(env, s);
    CheckQueueThreads(s, t);
    TakenFrame(s, s', t, s'.threads[t]);
    QuietCaller(env, s, s');
  }

  lemma {:induction false} PushInv(env: Env, s: State, t: nat)
    requires Inv(env, s) && Enabled(env, s, Push(t))
    ensures Inv(env, Apply(env, s, Push(t)))
  {
    hide IdInv, ThreadInv, LoopParts, ResultInv, SyncRun, Expected, LastOutcome, RunBody, HasId;
    var s' := DoPush(s, t);
    PushIds(s, t);
    PushThreads(s, t);
    PushParts(env, s, t);
    TakenFrame(s, s', t, s'.threads[t]);
    FreshPush(s, t);
    SyncRunAppend(env, s.pushes, s.threads[t].req);
    PushResults(SyncRun(env, s.pushes), LastOutcome(env, s'.pushes), env, s, t);
  }

  lemma {:induction false} PeekInv(env: Env, s: State, t: nat, id: nat)
    requires Inv(env, s) && Enabled(env, s, Peek(t, id))
    ensures Inv(env, Apply(env, s, Peek(t, id)))
  {
    hide IdInv, ThreadInv, LoopParts, ResultInv, SyncRun, HasId;
    var s' := DoPeek(s, t, id);
    IdFrame(s, s');
    PeekThreads(s, t, id);
    QuietCaller(env, s, s');
  }

  lemma {:induction false} PeekFindInv(env: Env, s: State, t: nat)
    requires Inv(env, s) && Enabled(env, s, PeekFind(t))
    ensures Inv(env, Apply(env, s, PeekFind(t)))
  {
    hide IdInv, ThreadInv, LoopParts, ResultInv, SyncRun, Expected, LastOutcome, RunBody, HasId;
    var s' := DoPeekFind(s, t);
    IdFrame(s, s');
    PeekFindThreads(s, t);
    LoopFrame(env, s, s');
    PeekHoldsMutex(s, t);
    PeekFindResults(SyncRun(env, s.pushes), s, t);
  }

  lemma {:induction false} PeekEraseInv(env: Env, s: State, t: nat)
    requires Inv(env, s) && Enabled(env, s, PeekErase(t))
    ensures Inv(env, Apply(env, s, PeekErase(t)))
  {
    hide IdInv, ThreadInv, LoopParts, ResultInv, SyncRun, Expected, LastOutcome, RunBody, HasId;
    var s' := DoPeekErase(s, t);
    PeekEraseThreads(s, t);
    LoopFrame(env, s, s');
    PeekHoldsMutex(s, t);
    RemIsIssued(s);
    PeekEraseResults(SyncRun(env, s.pushes), s, t);
  }

  lemma {:induction false} WaitInv(env: Env, s: State, t: nat, id: nat)
    requires Inv(env, s) && Enabled(env, s, Wait(t, id))
    ensures Inv(env, Apply(env, s, Wait(t, id)))
  {
    hide IdInv, ThreadInv, LoopParts, ResultInv, SyncRun, HasId;
    var s' := DoWait(s, t, id);
    WaitThreads(SyncRun(env, s.pushes), s, t, id);
    TakenFrame(s, s', t, s'.threads[t]);
    QuietCaller(env, s, s');
  }

  lemma {:induction false} WaitFindInv(env: Env, s: State, t: nat)
    requires Inv(env, s) && Enabled(env, s, WaitFind(t))
    ensures Inv(env, Apply(env, s, WaitFind(t)))
  {
    hide IdInv, ThreadInv, LoopParts, ResultInv, SyncRun, Expected, LastOutcome, RunBody, HasId;
    var s' := DoWaitFind(s, t);
    IdFrame(s, s');
    WaitFindThreads(s, t);
    LoopFrame(env, s, s');
    TakenFrame(s, s', t, s'.threads[t]);
    RemIsIssued(s);
    WaiterLocal(s, t);
    CompletionIssued(SyncRun(env, s.pushes), s);
    WaitFindResults(SyncRun(env, s.pushes), s, t);
  }

  lemma {:induction false} SpuriousWakeInv(env: Env, s: State, t: nat)
    requires Inv(env, s) && Enabled(env, s, SpuriousWake(t))
    ensures Inv(env, Apply(env, s, SpuriousWake(t)))
  {
    hide IdInv, ThreadInv, LoopParts, ResultInv, SyncRun, HasId;
    var s' := DoSpuriousWake(s, t);
    IdFrame(s, s');
    SpuriousWakeThreads(s, t);
    TakenFrame(s, s', t, s'.threads[t]);
    QuietCaller(env, s, s');
  }

  lemma {:induction false} LoopStartInv(env: Env, s: State, events: seq<VeEvent>)
    requires Inv(env, s) && Enabled(env, s, LoopStart(events))
    ensures Inv(env, Apply(env, s, LoopStart(events)))
  {
    hide Inv, LoopParts, StartUp;
    InvLoopParts(env, s);
    LoopStartParts(env, s, events);
    QuietLoop(env, s, DoLoopStart(s, events));
  }

  lemma {:induction false} LoopGuardInv(env: Env, s: State)
    requires Inv(env, s) && Enabled(env, s, LoopGuard)
    ensures Inv(env, Apply(env, s, LoopGuard))
  {
    hide Inv, LoopParts;
    InvLoopParts(env, s);
    LoopGuardParts(env, s);
    QuietLoop(env, s, DoLoopGuard(s));
  }

  lemma {:induction false} LoopPopInv(env: Env, s: State)
    requires Inv(env, s) && Enabled(env, s, LoopPop)
    ensures Inv(env, Apply(env, s, LoopPop))
  {
    hide Inv, LoopParts;
    InvLoopParts(env, s);
    LoopPopParts(env, s);
    QuietLoop(env, s, DoLoopPop(s));
  }

  lemma {:induction false} LoopSpuriousWakeInv(env: Env, s: State)
    requires Inv(env, s) && Enabled(env, s, LoopSpuriousWake)
    ensures Inv(env, Apply(env, s, LoopSpuriousWake))
  {
    hide Inv, LoopParts;
    InvLoopParts(env, s);
    LoopWakeParts(env, s);
    QuietLoop(env, s, s.(loop := Popping));
  }

  lemma {:induction false} LoopExecuteInv(env: Env, s: State)
    requires Inv(env, s) && Enabled(env, s, LoopExecute)
    ensures Inv(env, Apply(env, s, LoopExecute))
  {
    hide Inv, LoopParts;
    InvLoopParts(env, s);
    LoopExecuteParts(env, s);
    QuietLoop(env, s, DoLoopExecute(s));
  }

  lemma {:induction false} LoopFinishInv(env: Env, s: State)
    requires Inv(env, s) && Enabled(env, s, LoopFinish)
    ensures Inv(env, Apply(env, s, LoopFinish))
  {
    hide Inv, LoopParts, RunBody;
    InvLoopParts(env, s);
    LoopFinishParts(env, s);
    QuietLoop(env, s, DoLoopFinish(env, s));
  }

  lemma {:induction false} LoopSetExitInv(env: Env, s: State)
    requires Inv(env, s) && Enabled(env, s, LoopSetExit)
    ensures Inv(env, Apply(env, s, LoopSetExit))
  {
    hide Inv, LoopParts;
    InvLoopParts(env, s);
    LoopSetExitParts(env, s);
    QuietLoop(env, s, DoLoopSetExit(s));
  }

  lemma {:induction false} LoopDrainPopInv(env: Env, s: State)
    requires Inv(env, s) && Enabled(env, s, LoopDrainPop)
    ensures Inv(env, Apply(env, s, LoopDrainPop))
  {
    hide Inv, LoopParts;
    InvLoopParts(env, s);
    LoopDrainPopParts(env, s);
    QuietLoop(env, s, DoLoopDrainPop(s));
  }

  lemma {:induction false} LoopSetClosedInv(env: Env, s: State)
    requires Inv(env, s) && Enabled(env, s, LoopSetClosed)
    ensures Inv(env, Apply(env, s, LoopSetClosed))
  {
    hide IdInv, ThreadInv, LoopParts, ResultInv, SyncRun, Expected, LastOutcome, RunBody, HasId;
    var s' := DoLoopSetClosed(s);
    IdFrame(s, s');
    LoopSetClosedThreads(s);
    LoopSetClosedParts(env, s);
    ResultFrame(SyncRun(env, s.pushes), s, s');
  }

  lemma {:induction false} LoopPublishInv(env: Env, s: State)
    requires Inv(env, s) && Enabled(env, s, LoopPublish)
    ensures Inv(env, Apply(env, s, LoopPublish))
  {
    hide IdInv, ThreadInv, LoopParts, ResultInv, SyncRun, Expected, LastOutcome, RunBody, HasId;
    var s' := DoLoopPublish(s);
    IdFrame(s, s');
    LoopPublishParts(env, s);
    HeldIndex(env, s);
    PublishAll(env, s, s.loop.cmd, Guard);
  }

  lemma {:induction false} LoopPublishFailedInv(env: Env, s: State)
    requires Inv(env, s) && Enabled(env, s, LoopPublishFailed)
    ensures Inv(env, Apply(env, s, LoopPublishFailed))
  {
    hide IdInv, ThreadInv, LoopParts, ResultInv, SyncRun, Expected, LastOutcome, RunBody, HasId;
    var s' := DoLoopPublishFailed(s);
    IdFrame(s, s');
    LoopPublishFailedParts(env, s);
    HeldIndex(env, s);
    PublishAll(env, s, s.loop.cmd, Drain);
  }

  lemma {:induction false} LoopDrainPushInv(env: Env, s: State)
    requires Inv(env, s) && Enabled(env, s, LoopDrainPush)
    ensures Inv(env, Apply(env, s, LoopDrainPush))
  {
    hide IdInv, ThreadInv, LoopParts, ResultInv, SyncRun, Expected, LastOutcome, RunBody, HasId;
    var s' := DoLoopDrainPush(s);
    IdFrame(s, s');
    LoopDrainPushParts(env, s);
    HeldIndex(env, s);
    PublishAll(env, s, Finish(s.loop.cmd, UNFINISHED), Drain);
  }

  lemma {:induction false} LoopCloseReplyInv(env: Env, s: State)
    requires Inv(env, s) && Enabled(env, s, LoopCloseReply)
    ensures Inv(env, Apply(env, s, LoopCloseReply))
  {
    hide IdInv, ThreadInv, LoopParts, ResultInv, SyncRun, Expected, LastOutcome, RunBody, HasId;
    var s' := DoLoopCloseReply(s);
    IdFrame(s, s');
    LoopCloseReplyParts(env, s);
    HeldIndex(env, s);
    PublishAll(env, s, Finish(s.loop.cmd, Outcome(0, CmdOk)), Gone);
  }

  /** One step, whichever it is; the id counter must not pass 2^64. */
  lemma {:induction false} StepInv(env: Env, s: State, step: Step)
    requires Inv(env, s) && Enabled(env, s, step) && Apply(env, s, step).fetches <= TWO64
    ensures Inv(env, Apply(env, s, step))
  {
    hide Inv, Enabled;
    match step {
      case Begin(t, body) => BeginInv(env, s, t, body);
      case Fetch(t) => FetchBound(env, s, t); FetchInv(env, s, t);
      case Register(t) => RegisterInv(env, s, t);
      case CheckQueue(t) => CheckQueueInv(env, s, t);
      case Push(t) => PushInv(env, s, t);
      case Peek(t, id) => PeekInv(env, s, t, id);
      case PeekFind(t) => PeekFindInv(env, s, t);
      case PeekErase(t) => PeekEraseInv(env, s, t);
      case Wait(t, id) => WaitInv(env, s, t, id);
      case WaitFind(t) => WaitFindInv(env, s, t);
      case SpuriousWake(t) => SpuriousWakeInv(env, s, t);
      case LoopStart(events) => LoopStartInv(env, s, events);
      case LoopGuard => LoopGuardInv(env, s);
      case LoopPop => LoopPopInv(env, s);
      case LoopSpuriousWake => LoopSpuriousWakeInv(env, s);
      case LoopExecute => LoopExecuteInv(env, s);
      case LoopFinish => LoopFinishInv(env, s);
      case LoopPublish => LoopPublishInv(env, s);
      case LoopSetExit => LoopSetExitInv(env, s);
      case LoopSetClosed => LoopSetClosedInv(env, s);
      case LoopPublishFailed => LoopPublishFailedInv(env, s);
      case LoopDrainPop => LoopDrainPopInv(env, s);
      case LoopDrainPush => LoopDrainPushInv(env, s);
      case LoopCloseReply => LoopCloseReplyInv(env, s);
    }
  }

  lemma {:induction false} FetchBound(env: Env, s: State, t: nat)
    requires Enabled(env, s, Fetch(t)) && Apply(env, s, Fetch(t)).fetches <= TWO64
    ensures s.fetches < TWO64
  {
  }
}
