/** Every step of the protocol keeps the invariant. */
module ProtocolSteps {
  import opened Base
  import opened CommandQueue
  import opened VeHandler
  import opened Interpreter
  import opened Protocol
  import opened ProtocolInvariant

  // ----- what a part of the invariant does not depend on -----

  lemma {:induction false} IdFrame(s: State, s': State)
    requires IdInv(s)
    requires s'.fetches == s.fetches && s'.rem == s.rem && s'.issued == s.issued && s'.claimed == s.claimed
    requires s'.refused == s.refused && s'.pos == s.pos && s'.pushes == s.pushes
    ensures IdInv(s')
  {
  }

  lemma {:induction false} ThreadFrame(s: State, s': State)
    requires ThreadInv(s) && s'.threads == s.threads
    requires s'.fetches == s.fetches && s'.rem == s.rem && s'.issued == s.issued && s'.claimed == s.claimed
    requires s'.refused == s.refused && s'.pos == s.pos && s'.delivered == s.delivered
    requires s'.completion == s.completion && s'.closure == s.closure && s'.mtx == s.mtx
    ensures ThreadInv(s')
  {
    forall t | 0 <= t < |s.threads| ensures PcOk(s', t, s.threads[t]) {
      assert PcOk(s, t, s.threads[t]);
    }
  }

  lemma {:induction false} ResultFrame(out: seq<Option<Outcome>>, s: State, s': State)
    requires ResultInv(out, s)
    requires Processed(s') == Processed(s) && Taken(s') == Taken(s) && s'.pushes == s.pushes
    requires s'.completion == s.completion && s'.delivered == s.delivered && s'.pos == s.pos
    requires s.claimed <= s'.claimed
    requires forall x :: x in s.issued ==> x in s'.issued && s'.issued[x] == s.issued[x]
    ensures ResultInv(out, s')
  {
  }

  lemma {:induction false} LoopFrame(env: Env, s: State, s': State)
    requires LoopParts(env, s)
    requires s'.pushes == s.pushes && s'.request == s.request && s'.loop == s.loop && s'.executed == s.executed
    requires s'.ctx == s.ctx && s'.qstatus == s.qstatus && s'.closure == s.closure
    ensures LoopParts(env, s')
  {
  }

  lemma {:induction false} TakenFrame(s: State, s': State, t: nat, pc: Pc)
    requires ThreadInv(s) && t < |s.threads| && !InPeek(s.threads[t])
    requires s'.threads == s.threads[t := pc] && s'.mtx == s.mtx
    ensures Taken(s') == Taken(s)
  {
  }

  /** Moving one thread: the others keep their local conditions, the moved one meets its new ones. */
  lemma {:induction false} MoveThread(s: State, s': State, t: nat, pc: Pc)
    requires ThreadInv(s) && t < |s.threads| && s'.threads == s.threads[t := pc]
    requires PcOk(s', t, pc)
    requires forall u :: 0 <= u < |s.threads| && u != t ==>
      PcOk(s', u, s.threads[u]) && Compatible(pc, s.threads[u])
    requires s'.mtx.Some? ==> s'.mtx.value < |s.threads| && InPeek(s'.threads[s'.mtx.value])
    ensures ThreadInv(s')
  {
  }

  /** The local condition of a thread survives new numbers, results given to others and taken completions. */
  lemma {:induction false} PcOkFrame(s: State, s': State, u: nat, pc: Pc)
    requires PcOk(s, u, pc) && s.fetches <= s'.fetches
    requires s'.issued == s.issued && s'.rem == s.rem && s'.claimed == s.claimed && s'.refused == s.refused
    requires s'.pos == s.pos && s'.closure == s.closure && (InPeek(pc) ==> s'.mtx == s.mtx)
    requires Claims(pc) && pc.id in s'.delivered ==> pc.id in s.delivered || IsClose(s, pc.id)
    requires pc.Asleep? && HasId(s'.completion, pc.id) ==> HasId(s.completion, pc.id)
    ensures PcOk(s', u, pc)
  {
    hide HasId;
  }

  // ----- single facts taken out of the invariant -----

  lemma {:induction false} InvLoopParts(env: Env, s: State)
    requires Inv(env, s)
    ensures LoopParts(env, s)
  {
    hide IdInv, ThreadInv, LoopParts, ResultInv;
  }

  lemma {:induction false} FreshRegister(s: State, t: nat)
    requires ThreadInv(s) && t < |s.threads| && s.threads[t].Numbered?
    ensures s.threads[t].req.id !in s.issued
  {
    assert PcOk(s, t, s.threads[t]);
  }

  lemma {:induction false} FreshPush(s: State, t: nat)
    requires ThreadInv(s) && t < |s.threads| && s.threads[t].Passed?
    ensures s.threads[t].req.id !in s.pos
  {
    assert PcOk(s, t, s.threads[t]);
  }

  lemma {:induction false} ReadyMeansOpen(env: Env, s: State)
    requires LoopParts(env, s)
    ensures s.qstatus == QueueReady <==> s.closure.None?
  {
  }

  lemma {:induction false} PeekHoldsMutex(s: State, t: nat)
    requires ThreadInv(s) && t < |s.threads| && InPeek(s.threads[t])
    ensures s.mtx == Some(t) && PcOk(s, t, s.threads[t])
  {
    assert PcOk(s, t, s.threads[t]);
  }

  lemma {:induction false} WaiterLocal(s: State, t: nat)
    requires ThreadInv(s) && t < |s.threads|
    ensures PcOk(s, t, s.threads[t])
  {
  }

  lemma {:induction false} RemIsIssued(s: State)
    requires IdInv(s)
    ensures s.rem <= s.issued.Keys && s.claimed <= s.issued.Keys
  {
  }

  lemma {:induction false} CompletionIssued(out: seq<Option<Outcome>>, s: State)
    requires IdInv(s) && ResultInv(out, s)
    ensures forall i :: 0 <= i < |s.completion| ==>
      s.completion[i].req.id in s.issued && s.completion[i].req.id != INVALID_ID
  {
  }

  lemma {:induction false} SyncRunAppend(env: Env, p: seq<Request>, r: Request)
    ensures SyncRun(env, p + [r]) == SyncRun(env, p) + [LastOutcome(env, p + [r])]
  {
    assert (p + [r])[..|p|] == p;
  }

  // ----- removing from and appending to a queue with distinct ids -----

  lemma {:induction false} WithoutElements(q: seq<Command>, i: nat)
    requires i < |q|
    ensures forall j :: 0 <= j < |Without(q, i)| ==> Without(q, i)[j] == q[if j < i then j else j + 1]
    ensures HasId(q, q[i].req.id) && forall y :: HasId(Without(q, i), y) ==> HasId(q, y)
    ensures forall y :: HasId(q, y) && y != q[i].req.id ==> HasId(Without(q, i), y)
    ensures DistinctIds(q) ==> DistinctIds(Without(q, i)) && !HasId(Without(q, i), q[i].req.id)
  {
    var r := Without(q, i);
    forall y | HasId(q, y) && y != q[i].req.id ensures HasId(r, y) {
      var j :| 0 <= j < |q| && q[j].req.id == y;
      assert r[if j < i then j else j - 1].req.id == y;
    }
  }

  lemma {:induction false} AppendElements(q: seq<Command>, c: Command)
    ensures forall y :: HasId(q + [c], y) <==> HasId(q, y) || y == c.req.id
  {
    assert (q + [c])[|q|] == c;
    forall y | HasId(q, y) ensures HasId(q + [c], y) {
      var j :| 0 <= j < |q| && q[j].req.id == y;
      assert (q + [c])[j].req.id == y;
    }
  }

  // ----- producers -----

  lemma {:induction false} BeginThread(s: State, t: nat, body: Body)
    requires ThreadInv(s) && t < |s.threads| && s.threads[t].Idle?
    ensures ThreadInv(DoBegin(s, t, body))
  {
  }

  lemma {:induction false} FetchIds(s: State, t: nat)
    requires IdInv(s) && t < |s.threads| && s.threads[t].Checked?
    requires s.fetches < TWO64
    ensures IdInv(DoFetch(s, t))
  {
  }

  /** No thread and no earlier request has the number that is fetched next. */
  lemma {:induction false} FetchThreads(s: State, t: nat)
    requires IdInv(s) && ThreadInv(s) && t < |s.threads| && s.threads[t].Checked?
    requires s.fetches < TWO64
    ensures ThreadInv(DoFetch(s, t))
  {
    hide HasId;
    assert s.fetches % TWO64 == s.fetches;
    var s' := DoFetch(s, t);
    forall u | 0 <= u < |s.threads| && u != t
      ensures PcOk(s', u, s.threads[u]) && Compatible(s'.threads[t], s.threads[u])
    {
      assert PcOk(s, u, s.threads[u]);
      PcOkFrame(s, s', u, s.threads[u]);
    }
    MoveThread(s, s', t, s'.threads[t]);
  }

  lemma {:induction false} RegisterIds(s: State, t: nat)
    requires IdInv(s) && ThreadInv(s) && t < |s.threads| && s.threads[t].Numbered?
    ensures IdInv(DoRegister(s, t))
  {
    assert PcOk(s, t, s.threads[t]);
  }

  lemma {:induction false} RegisterThreads(s: State, t: nat)
    requires IdInv(s) && ThreadInv(s) && t < |s.threads| && s.threads[t].Numbered? && s.mtx.None?
    ensures ThreadInv(DoRegister(s, t))
  {
    hide HasId;
  }

  lemma {:induction false} CheckQueueIds(s: State, t: nat)
    requires IdInv(s) && ThreadInv(s) && t < |s.threads| && s.threads[t].Registered?
    ensures IdInv(DoCheckQueue(s, t))
  {
    assert PcOk(s, t, s.threads[t]);
  }

  lemma {:induction false} CheckQueueThreads(s: State, t: nat)
    requires ThreadInv(s) && t < |s.threads| && s.threads[t].Registered?
    requires s.qstatus == QueueReady ==> s.closure.None?
    ensures ThreadInv(DoCheckQueue(s, t))
  {
    var s' := DoCheckQueue(s, t);
    assert PcOk(s, t, s.threads[t]);
    forall u | 0 <= u < |s.threads| && u != t
      ensures PcOk(s', u, s.threads[u]) && Compatible(s'.threads[t], s.threads[u])
    {
      assert PcOk(s, u, s.threads[u]);
      assert Compatible(s.threads[t], s.threads[u]) || Compatible(s.threads[u], s.threads[t]);
    }
    MoveThread(s, s', t, s'.threads[t]);
  }

  lemma {:induction false} PushIds(s: State, t: nat)
    requires IdInv(s) && ThreadInv(s) && t < |s.threads| && s.threads[t].Passed?
    ensures IdInv(DoPush(s, t))
  {
  }

  lemma {:induction false} PushThreads(s: State, t: nat)
    requires IdInv(s) && ThreadInv(s) && t < |s.threads| && s.threads[t].Passed?
    ensures ThreadInv(DoPush(s, t))
  {
  }

  lemma {:induction false} PushQueue(s: State, t: nat)
    requires QueueInv(s) && CtxInv(s) && ClosureInv(s)
    requires t < |s.threads| && s.threads[t].Passed? && PcOk(s, t, s.threads[t])
    ensures QueueInv(DoPush(s, t)) && CtxInv(DoPush(s, t)) && ClosureInv(DoPush(s, t))
  {
  }

  lemma {:induction false} PushLoop(env: Env, s: State, t: nat)
    requires QueueInv(s) && LoopInv(env, s) && t < |s.threads| && s.threads[t].Passed?
    ensures LoopInv(env, DoPush(s, t))
  {
    ExpectedStable(env, s.pushes, s.threads[t].req);
  }

  lemma {:induction false} PushParts(env: Env, s: State, t: nat)
    requires ThreadInv(s) && LoopParts(env, s) && t < |s.threads| && s.threads[t].Passed?
    ensures LoopParts(env, DoPush(s, t)) && Processed(DoPush(s, t)) == Processed(s)
  {
    WaiterLocal(s, t);
    PushQueue(s, t);
    PushLoop(env, s, t);
  }

  lemma {:induction false} PushResults(out: seq<Option<Outcome>>, o: Option<Outcome>, env: Env, s: State, t: nat)
    requires LoopParts(env, s) && ResultInv(out, s) && |out| == |s.pushes|
    requires t < |s.threads| && s.threads[t].Passed? && s.threads[t].req.id !in s.pos
    requires Taken(DoPush(s, t)) == Taken(s) && Processed(DoPush(s, t)) == Processed(s)
    ensures ResultInv(out + [o], DoPush(s, t))
  {
    hide LoopInv, CtxInv, ClosureInv;
  }

  // ----- collectors -----

  lemma {:induction false} PeekThreads(s: State, t: nat, id: nat)
    requires ThreadInv(s) && t < |s.threads| && s.threads[t].Idle? && s.mtx.None?
    ensures ThreadInv(DoPeek(s, t, id)) && Taken(DoPeek(s, t, id)) == Taken(s)
  {
  }

  lemma {:induction false} ShrinkCompletion(s: State, s': State, id: nat)
    requires s'.completion == s.completion ||
      (HasId(s.completion, id) && s'.completion == Without(s.completion, FirstIndex(s.completion, id)))
    ensures forall y :: HasId(s'.completion, y) ==> HasId(s.completion, y)
  {
    var i := FirstIndex(s.completion, id);
    if i < |s.completion| {
      WithoutElements(s.completion, i);
    }
  }

  lemma {:induction false} PeekFindThreads(s: State, t: nat)
    requires ThreadInv(s) && t < |s.threads| && s.threads[t].PeekHeld?
    ensures ThreadInv(DoPeekFind(s, t))
  {
    hide HasId, Without;
    var s' := DoPeekFind(s, t);
    ShrinkCompletion(s, s', s.threads[t].id);
    assert PcOk(s, t, s.threads[t]);
    forall u | 0 <= u < |s.threads| && u != t
      ensures PcOk(s', u, s.threads[u]) && Compatible(s'.threads[t], s.threads[u])
    {
      assert PcOk(s, u, s.threads[u]);
      PcOkFrame(s, s', u, s.threads[u]);
    }
    MoveThread(s, s', t, s'.threads[t]);
  }

  /** Taking one completion out of the queue leaves the others as they are. */
  lemma {:induction false} RemoveResult(out: seq<Option<Outcome>>, s: State, i: nat)
    requires ResultInv(out, s) && i < |s.completion|
    ensures var c, rest := s.completion[i], Without(s.completion, i);
      && DistinctIds(rest) && !HasId(rest, c.req.id) && HasId(s.completion, c.req.id)
      && (forall j :: 0 <= j < |rest| ==> Due(out, s, rest[j].req.id, rest[j].result) && rest[j].req.id !in s.delivered)
      && (forall y :: HasId(s.completion, y) ==> y == c.req.id || HasId(rest, y))
      && (forall y :: HasId(rest, y) ==> HasId(s.completion, y))
  {
    hide HasId, Due, Without, DistinctIds;
    WithoutElements(s.completion, i);
  }

  lemma {:induction false} PeekFindResults(out: seq<Option<Outcome>>, s: State, t: nat)
    requires ResultInv(out, s) && t < |s.threads| && s.threads[t].PeekHeld? && s.mtx == Some(t)
    ensures ResultInv(out, DoPeekFind(s, t))
  {
    hide DistinctIds, Without;
    var i := FirstIndex(s.completion, s.threads[t].id);
    if i < |s.completion| {
      RemoveResult(out, s, i);
    }
  }

  lemma {:induction false} PeekEraseThreads(s: State, t: nat)
    requires IdInv(s) && ThreadInv(s) && t < |s.threads| && s.threads[t].PeekTaken?
    ensures IdInv(DoPeekErase(s, t)) && ThreadInv(DoPeekErase(s, t))
  {
  }

  lemma {:induction false} PeekEraseResults(out: seq<Option<Outcome>>, s: State, t: nat)
    requires s.rem <= s.issued.Keys && ResultInv(out, s)
    requires t < |s.threads| && s.threads[t].PeekTaken? && PcOk(s, t, s.threads[t])
    ensures ResultInv(out, DoPeekErase(s, t))
  {
  }

  lemma {:induction false} WaitThreads(out: seq<Option<Outcome>>, s: State, t: nat, id: nat)
    requires IdInv(s) && ThreadInv(s) && ResultInv(out, s) && t < |s.threads| && s.threads[t].Idle? && s.mtx.None?
    ensures IdInv(DoWait(s, t, id)) && ThreadInv(DoWait(s, t, id))
  {
  }

  lemma {:induction false} WaitFindThreads(s: State, t: nat)
    requires IdInv(s) && ThreadInv(s) && t < |s.threads| && s.threads[t].Waiting?
    ensures ThreadInv(DoWaitFind(s, t))
  {
    hide HasId, Without;
    var s' := DoWaitFind(s, t);
    ShrinkCompletion(s, s', s.threads[t].id);
    assert PcOk(s, t, s.threads[t]);
    forall u | 0 <= u < |s.threads| && u != t
      ensures PcOk(s', u, s.threads[u]) && Compatible(s'.threads[t], s.threads[u])
    {
      assert PcOk(s, u, s.threads[u]);
      PcOkFrame(s, s', u, s.threads[u]);
      assert Compatible(s.threads[t], s.threads[u]) || Compatible(s.threads[u], s.threads[t]);
    }
    MoveThread(s, s', t, s'.threads[t]);
  }

  /** Handing out one completion. */
  lemma {:induction false} CollectResult(out: seq<Option<Outcome>>, s: State, s': State, i: nat)
    requires ResultInv(out, s) && i < |s.completion| && s'.completion == Without(s.completion, i)
    requires s'.delivered == s.delivered[s.completion[i].req.id := ResultOf(s.completion[i])]
    requires s'.pos == s.pos && s'.pushes == s.pushes && s'.issued == s.issued && s'.claimed == s.claimed
    requires Processed(s') == Processed(s) && Taken(s') == Taken(s)
    requires s.completion[i].req.id in s.claimed || IsClose(s, s.completion[i].req.id)
    ensures ResultInv(out, s')
  {
    hide DistinctIds, Without, Processed, Taken;
    RemoveResult(out, s, i);
  }

  lemma {:induction false} WaitFindResults(out: seq<Option<Outcome>>, s: State, t: nat)
    requires s.claimed <= s.issued.Keys && ResultInv(out, s) && t < |s.threads| && s.threads[t].Waiting?
    requires PcOk(s, t, s.threads[t]) && Taken(DoWaitFind(s, t)) == Taken(s)
    requires forall i :: 0 <= i < |s.completion| ==>
      s.completion[i].req.id in s.issued && s.completion[i].req.id != INVALID_ID
    ensures ResultInv(out, DoWaitFind(s, t))
  {
    hide HasId, ResultInv, Without, Taken;
    var s', i := DoWaitFind(s, t), FirstIndex(s.completion, s.threads[t].id);
    if i < |s.completion| {
      CollectResult(out, s, s', i);
    } else {
      ResultFrame(out, s, s');
    }
  }

  lemma {:induction false} SpuriousWakeThreads(s: State, t: nat)
    requires ThreadInv(s) && t < |s.threads| && s.threads[t].Asleep?
    ensures ThreadInv(DoSpuriousWake(s, t))
  {
  }

  // ----- the event loop -----

  /** The handler loop reports a block request only with the context in BLOCKED. */
  lemma {:induction false} LoopStartParts(env: Env, s: State, events: seq<VeEvent>)
    requires LoopParts(env, s) && s.loop.Starting? && StartUp(s.ctx, events).Returned?
    ensures LoopParts(env, DoLoopStart(s, events))
  {
    hide After, Expected, HandlerLoop;
    HandlerStatusTrace(DefaultFilter, Machine(s.ctx, [], []), 0, events);
  }

  lemma {:induction false} LoopGuardParts(env: Env, s: State)
    requires LoopParts(env, s) && s.loop.Guard?
    ensures LoopParts(env, DoLoopGuard(s))
  {
    hide After, Expected;
  }

  lemma {:induction false} LoopPopParts(env: Env, s: State)
    requires LoopParts(env, s) && s.loop.Popping?
    ensures LoopParts(env, DoLoopPop(s))
  {
    hide After, Expected;
  }

  lemma {:induction false} LoopWakeParts(env: Env, s: State)
    requires LoopParts(env, s) && s.loop.PopAsleep?
    ensures LoopParts(env, s.(loop := Popping))
  {
    hide After, Expected;
  }

  lemma {:induction false} LoopExecuteParts(env: Env, s: State)
    requires LoopParts(env, s) && s.loop.Execute?
    ensures LoopParts(env, DoLoopExecute(s))
  {
    hide After, Expected;
  }

  lemma {:induction false} LoopFinishParts(env: Env, s: State)
    requires LoopParts(env, s) && s.loop.InHandler? && RunBody(env, s.executed, s.loop.cmd.req).Some?
    ensures LoopParts(env, DoLoopFinish(env, s))
  {
    LoopFinishLoop(env, s);
    assert QueueInv(DoLoopFinish(env, s)) && ClosureInv(DoLoopFinish(env, s));
  }

  lemma {:induction false} LoopSetExitParts(env: Env, s: State)
    requires LoopParts(env, s) && s.loop.SetExit?
    ensures LoopParts(env, DoLoopSetExit(s))
  {
    hide After, Expected;
  }

  lemma {:induction false} LoopSetClosedParts(env: Env, s: State)
    requires LoopParts(env, s) && s.loop.SetClosed?
    ensures LoopParts(env, DoLoopSetClosed(s))
  {
  }

  lemma {:induction false} LoopSetClosedThreads(s: State)
    requires ThreadInv(s) && s.loop.SetClosed?
    ensures ThreadInv(DoLoopSetClosed(s))
  {
    forall t | 0 <= t < |s.threads| ensures PcOk(DoLoopSetClosed(s), t, s.threads[t]) {
      assert PcOk(s, t, s.threads[t]);
    }
  }

  lemma {:induction false} LoopDrainPopParts(env: Env, s: State)
    requires LoopParts(env, s) && s.loop.Drain?
    ensures LoopParts(env, DoLoopDrainPop(s))
  {
    hide After, Expected;
  }

  lemma {:induction false} LoopPublishParts(env: Env, s: State)
    requires LoopParts(env, s) && s.loop.Publish?
    ensures LoopParts(env, DoLoopPublish(s))
  {
  }

  lemma {:induction false} LoopPublishFailedParts(env: Env, s: State)
    requires LoopParts(env, s) && s.loop.PublishFailed?
    ensures LoopParts(env, DoLoopPublishFailed(s))
  {
  }

  lemma {:induction false} LoopDrainPushParts(env: Env, s: State)
    requires LoopParts(env, s) && s.loop.DrainHave?
    ensures Expected(env, s.pushes, Processed(s)) == Some(UNFINISHED)
    ensures LoopParts(env, DoLoopDrainPush(s))
  {
    var d := Processed(s);
    UnfinishedAfterFailure(env, s.pushes, d);
    AfterFailed(env, s.pushes, d, d + 1);
  }

  lemma {:induction false} LoopCloseReplyParts(env: Env, s: State)
    requires LoopParts(env, s) && s.loop.CloseReply?
    ensures Expected(env, s.pushes, Processed(s)) == Some(Outcome(0, CmdOk))
    ensures LoopParts(env, DoLoopCloseReply(s))
  {
    var d := Processed(s);
    assert s.pushes[..d + 1][..d] == s.pushes[..d];
  }

  lemma {:induction false} LoopFinishLoop(env: Env, s: State)
    requires QueueInv(s) && LoopInv(env, s) && CtxInv(s)
    requires s.loop.InHandler? && RunBody(env, s.executed, s.loop.cmd.req).Some?
    ensures LoopInv(env, DoLoopFinish(env, s)) && CtxInv(DoLoopFinish(env, s))
  {
    var d := Processed(s);
    RunBodyFacts(env, s.executed, s.loop.cmd.req);
    assert s.pushes[..d + 1][..d] == s.pushes[..d];
    assert s.pushes[..d + 1] == s.pushes[..d] + [s.pushes[d]];
  }

  lemma {:induction false} PublishThreads(s: State, c: Command)
    requires ThreadInv(s)
    ensures ThreadInv(PushCompletion(s, c))
  {
  }

  /** `pos` is the index of an id in the push order. */
  ghost predicate PosIsIndex(s: State) {
    && (forall x :: x in s.pos ==> s.pos[x] < |s.pushes| && s.pushes[s.pos[x]].id == x)
    && (forall k :: 0 <= k < |s.pushes| ==> s.pushes[k].id in s.pos && s.pos[s.pushes[k].id] == k)
  }

  lemma {:induction false} IdInvPos(s: State)
    requires IdInv(s)
    ensures PosIsIndex(s)
  {
  }

  /** The completion queue with the held command appended: every entry is due. */
  lemma {:induction false} PublishedAreDue(out: seq<Option<Outcome>>, s: State, s': State, c: Command)
    requires PosIsIndex(s) && QueueInv(s) && ResultInv(out, s) && |out| == |s.pushes|
    requires Held(s.loop).Some? && Processed(s') == Processed(s) + 1 && s'.pos == s.pos
    requires c.req == Held(s.loop).value.req && c.result.Some? && c.result == out[Processed(s)]
    ensures DistinctIds(s.completion + [c]) && c.req.id !in s.delivered
    ensures Due(out, s', c.req.id, c.result) && s.pushes[Processed(s)].id == c.req.id
    ensures forall x, o :: Due(out, s, x, o) ==> Due(out, s', x, o)
  {
    hide HasId;
  }

  /** Publishing the held command moves it from the loop to the completion queue. */
  lemma {:induction false} PublishResults(out: seq<Option<Outcome>>, s: State, c: Command, l: LoopPc)
    requires PosIsIndex(s) && QueueInv(s) && ResultInv(out, s) && |out| == |s.pushes|
    requires Held(s.loop).Some? && Held(l).None?
    requires c.req == Held(s.loop).value.req && c.result.Some? && c.result == out[Processed(s)]
    ensures ResultInv(out, PushCompletion(s, c).(loop := l))
  {
    hide HasId, PosIsIndex, QueueInv, Due, DistinctIds;
    var s' := PushCompletion(s, c).(loop := l);
    assert Processed(s') == Processed(s) + 1;
    AppendElements(s.completion, c);
    PublishedAreDue(out, s, s', c);
    PublishTaken(out, s, s', c);
  }

  lemma {:induction false} PublishTaken(out: seq<Option<Outcome>>, s: State, s': State, c: Command)
    requires PosIsIndex(s) && QueueInv(s) && ResultInv(out, s) && Held(s.loop).Some?
    requires c.req == Held(s.loop).value.req && s' == PushCompletion(s, c).(loop := s'.loop)
    ensures Taken(s') == Taken(s) && (Taken(s).Some? ==> Taken(s).value.req.id != c.req.id)
  {
    hide HasId, DistinctIds;
  }

  lemma {:induction false} PublishAll(env: Env, s: State, c: Command, l: LoopPc)
    requires Inv(env, s) && Held(s.loop).Some? && Held(l).None?
    requires Processed(s) < |s.pushes| && c.req == Held(s.loop).value.req
    requires Processed(s) >= 0 && c.result.Some? && c.result == Expected(env, s.pushes, Processed(s))
    ensures ThreadInv(PushCompletion(s, c).(loop := l))
    ensures ResultInv(SyncRun(env, s.pushes), PushCompletion(s, c).(loop := l))
  {
    hide IdInv, ThreadInv, LoopInv, CtxInv, ClosureInv, ResultInv, SyncRun, LastOutcome, HasId, PosIsIndex;
    var s1 := PushCompletion(s, c);
    PublishThreads(s, c);
    ThreadFrame(s1, s1.(loop := l));
    SyncRunAt(env, s.pushes, Processed(s));
    IdInvPos(s);
    PublishResults(SyncRun(env, s.pushes), s, c, l);
  }

  /** While the loop holds a command, its index in the push order is the number of processed ones. */
  lemma {:induction false} HeldIndex(env: Env, s: State)
    requires LoopParts(env, s) && Held(s.loop).Some?
    ensures 0 <= Processed(s) < |s.pushes|
    ensures s.loop.Publish? || s.loop.PublishFailed? ==>
      s.loop.cmd.result.Some? && s.loop.cmd.result == Expected(env, s.pushes, Processed(s))
  {
  }
}
