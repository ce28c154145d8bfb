/** Concrete runs showing that the weak spots of the protocol are real. */
module ProtocolWitness {
  import opened Base
  import opened CommandQueue
  import opened VeHandler
  import opened Interpreter
  import opened Protocol
  import opened ProtocolInvariant
  import opened ProtocolRuns
  import opened ProtocolShutdown
  import opened ProtocolProgress

  /** Every memory transfer fails. */
  function FailingEnv(): Env {
    h => Raw([], 0, -1)
  }

  /** A run in which the event loop has just been entered. */
  lemma {:induction false} Started(env: Env, threads: nat) returns (r: Run)
    ensures IsRun(env, r) && Last(r) == Init(threads).(loop := Guard, ctx := StBlocked)
  {
    hide StartUp;
    FirstBlockBlocks();
    r := Run(threads, [Init(threads)], []);
    r := Extend(env, r, LoopStart(FIRST_BLOCK));
  }

  const TRANSFER: Request := Request(0, MemTransfer(0))
  const VH_CALL: Request := Request(1, VhCall(0))

  /** Thread 0 has queued a transfer; thread 1 has an id for a request and has just read READY. */
  ghost predicate BothPastCheck(s: State, body: Body) {
    && s.threads == [Idle, Passed(Request(1, body))]
    && s.request == [Command(TRANSFER, None)] && s.pushes == [TRANSFER] && s.executed == []
    && s.loop == Guard && s.ctx == StBlocked && s.qstatus == QueueReady && s.fetches == 2
  }

  /** An idle thread can take a sequence number while the context is not in EXIT. */
  lemma {:induction false} GetNumber(env: Env, r0: Run, t: nat, body: Body) returns (r: Run)
    requires IsRun(env, r0) && t < |Last(r0).threads| && Last(r0).threads[t].Idle?
    requires Last(r0).ctx != StExit && Last(r0).fetches < INVALID_ID
    ensures IsRun(env, r) && r.threads == r0.threads
    ensures var s, id := Last(r0), Last(r0).fetches;
      Last(r) == s.(threads := s.threads[t := Numbered(Request(id, body))], fetches := id + 1)
  {
    r := Extend(env, r0, Begin(t, body));
    r := Extend(env, r, Fetch(t));
    assert Last(r).threads == Last(r0).threads[t := Numbered(Request(Last(r0).fetches, body))];
  }

  /** Then it registers it. */
  lemma {:induction false} GetId(env: Env, r0: Run, t: nat, body: Body) returns (r: Run)
    requires IsRun(env, r0) && t < |Last(r0).threads| && Last(r0).threads[t].Idle?
    requires Last(r0).ctx != StExit && Last(r0).mtx.None? && Last(r0).fetches < INVALID_ID
    ensures IsRun(env, r) && r.threads == r0.threads
    ensures var s, id := Last(r0), Last(r0).fetches;
      Last(r) == s.(threads := s.threads[t := Registered(Request(id, body))], fetches := id + 1,
                    rem := s.rem + {id}, issued := s.issued[id := body])
  {
    r := GetNumber(env, r0, t, body);
    r := Extend(env, r, Register(t));
    assert Last(r).threads == Last(r0).threads[t := Registered(Request(Last(r0).fetches, body))];
  }

  /** While the queue is open it also passes the status check. */
  lemma {:induction false} PassCheck(env: Env, r0: Run, t: nat, body: Body) returns (r: Run)
    requires IsRun(env, r0) && t < |Last(r0).threads| && Last(r0).threads[t].Idle?
    requires Last(r0).ctx != StExit && Last(r0).mtx.None? && Last(r0).fetches < INVALID_ID
    requires Last(r0).qstatus == QueueReady
    ensures IsRun(env, r) && r.threads == r0.threads
    ensures var s, id := Last(r0), Last(r0).fetches;
      Last(r) == s.(threads := s.threads[t := Passed(Request(id, body))], fetches := id + 1,
                    rem := s.rem + {id}, issued := s.issued[id := body])
  {
    r := GetId(env, r0, t, body);
    r := Extend(env, r, CheckQueue(t));
    assert Last(r).threads == Last(r0).threads[t := Passed(Request(Last(r0).fetches, body))];
  }

  /** A run in which thread 0 of two has pushed a request, and nothing else has happened. */
  lemma {:induction false} PushFirst(env: Env, body: Body) returns (r: Run)
    ensures IsRun(env, r)
    ensures var s, req := Last(r), Request(0, body);
      && s.threads == [if body.CloseContext? then Waiting(0, true) else Idle, Idle]
      && s.request == [Command(req, None)] && s.pushes == [req] && s.executed == [] && s.completion == []
      && s.loop == Guard && s.ctx == StBlocked && s.qstatus == QueueReady && s.mtx.None?
      && s.fetches == 1 && s.rem == {0} && 0 in s.issued && s.claimed == {}
  {
    r := Started(env, 2);
    r := PassCheck(env, r, 0, body);
    r := Extend(env, r, Push(0));
  }

  lemma {:induction false} ReachBothPastCheck(body: Body) returns (r: Run)
    ensures IsRun(FailingEnv(), r) && BothPastCheck(Last(r), body)
  {
    hide Apply, Enabled;
    r := PushFirst(FailingEnv(), MemTransfer(0));
    r := PassCheck(FailingEnv(), r, 1, body);
  }

  /** The event loop takes the only command of the queue. */
  lemma {:induction false} PopOne(env: Env, r0: Run, c: Command) returns (r: Run)
    requires IsRun(env, r0) && Last(r0).loop == Guard && Last(r0).ctx == StBlocked && Last(r0).request == [c]
    ensures IsRun(env, r) && Continues(r, r0) && Last(r) == Last(r0).(loop := Execute(c), request := [])
  {
    r := Extend(env, r0, LoopGuard);
    r := Extend(env, r, LoopPop);
  }

  /** It is a transfer or a VH call, and is started. */
  lemma {:induction false} TakeOne(env: Env, r0: Run, c: Command) returns (r: Run)
    requires IsRun(env, r0) && Last(r0).loop == Guard && Last(r0).ctx == StBlocked
    requires Last(r0).request == [c] && (c.req.body.MemTransfer? || c.req.body.VhCall?)
    ensures IsRun(env, r) && Continues(r, r0) && Last(r) == Last(r0).(loop := InHandler(c), request := [])
  {
    r := PopOne(env, r0, c);
    r := Extend(env, r, LoopExecute);
  }

  /** The event loop takes the transfer, which fails. */
  lemma {:induction false} FailTransfer(r0: Run) returns (r: Run)
    requires IsRun(FailingEnv(), r0) && Last(r0).loop == Guard && Last(r0).ctx == StBlocked
    requires Last(r0).request == [Command(TRANSFER, None)] && Last(r0).executed == []
    ensures IsRun(FailingEnv(), r) && Continues(r, r0) && Last(r).loop.SetExit?
    ensures Last(r) == Last(r0).(loop := Last(r).loop, request := [], executed := [TRANSFER])
  {
    r := TakeOne(FailingEnv(), r0, Command(TRANSFER, None));
    assert RunBody(FailingEnv(), [], TRANSFER) == Some(Ran(-1, Outcome(U64(-1), CmdError), StBlocked));
    r := Extend(FailingEnv(), r, LoopFinish);
  }

  /** Then it closes the queue; callers do not move. */
  lemma {:induction false} FailToClosed(r0: Run) returns (r: Run)
    requires IsRun(FailingEnv(), r0) && Last(r0).loop == Guard && Last(r0).ctx == StBlocked
    requires Last(r0).request == [Command(TRANSFER, None)] && Last(r0).executed == []
    ensures IsRun(FailingEnv(), r) && Continues(r, r0)
    ensures var s, s' := Last(r0), Last(r);
      && s'.threads == s.threads && s'.rem == s.rem && s'.mtx == s.mtx && s'.completion == s.completion
      && s'.fetches == s.fetches && s'.qstatus == QueueClosed && s'.request == [] && s'.loop.PublishFailed?
  {
    hide PassedIds, FailingEnv;
    r := FailTransfer(r0);
    r := Extend(FailingEnv(), r, LoopSetExit);
    r := Extend(FailingEnv(), r, LoopSetClosed);
  }

  /** The event loop has failed the transfer and finished the drain; thread 1 still has its push to do. */
  lemma {:induction false} FailAndDrain(r0: Run, body: Body) returns (r: Run)
    requires IsRun(FailingEnv(), r0) && BothPastCheck(Last(r0), body)
    ensures IsRun(FailingEnv(), r) && Last(r).fetches == 2
    ensures Last(r).loop == Done && Last(r).threads == [Idle, Passed(Request(1, body))] && Last(r).request == []
  {
    hide FailingEnv;
    r := FailToClosed(r0);
    r := Extend(FailingEnv(), r, LoopPublishFailed);
    r := Extend(FailingEnv(), r, LoopDrainPop);
  }

  lemma {:induction false} ReachStranded(body: Body) returns (r: Run)
    ensures Bounded(FailingEnv(), r) && Last(r).loop.Done? && Last(r).request == [Command(Request(1, body), None)]
    ensures Last(r).threads == [Idle, if body.CloseContext? then Waiting(1, true) else Idle]
  {
    hide FailingEnv;
    r := ReachBothPastCheck(body);
    r := FailAndDrain(r, body);
    r := Extend(FailingEnv(), r, Push(1));
  }

  /**
   * The window between the status check and the push is real: there is a run with two callers in
   * which a request is accepted, the event loop has ended, and the request is left in the queue.
   */
  lemma {:induction false} StrandedRequestExists()
    ensures exists r :: Bounded(FailingEnv(), r) && Last(r).loop.Done? && Last(r).request == [Command(VH_CALL, None)]
  {
    var r := ReachStranded(VhCall(0));
  }

  /** Thread `t` is in close(), its request was accepted, and it can never return. */
  ghost predicate AcceptedCloseHangs(env: Env, r: Run, t: nat)
    requires IsRun(env, r)
  {
    && t < |Last(r).threads| && Closes(Last(r).threads[t])
    && Request(Last(r).threads[t].id, CloseContext) in Last(r).pushes
    && !CanReturn(env, r, t, Last(r).threads[t].id)
  }

  /** A close request can be the one left behind: close() hangs although its push was accepted. */
  lemma {:induction false} StrandedCloseExists()
    ensures exists r :: Bounded(FailingEnv(), r) && AcceptedCloseHangs(FailingEnv(), r, 1)
  {
    hide FailingEnv, CanReturn, Apply, Enabled, Inv;
    var r := ReachStranded(CloseContext);
    assert Last(r).request[0].req.id == 1;
    LeftBehindCannotReturn(FailingEnv(), r, 1, 1);
    RunInv(FailingEnv(), r, |r.states| - 1);
    QueuedIsPushed(FailingEnv(), Last(r), 0);
    assert AcceptedCloseHangs(FailingEnv(), r, 1);
  }

  lemma {:induction false} QueuedIsPushed(env: Env, s: State, k: nat)
    requires Inv(env, s) && k < |s.request|
    ensures s.request[k].req in s.pushes
  {
    hide IdInv, ThreadInv, ResultInv, LoopInv, CtxInv, ClosureInv;
  }

  // ----- refused pushes -----

  /** Thread 1 has got an id, the queue has been closed, and its status check comes only now. */
  lemma {:induction false} ReachRefusal(body: Body) returns (r: Run)
    ensures IsRun(FailingEnv(), r) && Last(r).threads == [Idle, Registered(Request(1, body))] && Last(r).fetches == 2
    ensures Last(r).qstatus == QueueClosed && Last(r).mtx.None? && Last(r).rem == {0, 1} && Last(r).completion == []
  {
    hide Apply, Enabled, FailingEnv;
    r := PushFirst(FailingEnv(), MemTransfer(0));
    r := GetId(FailingEnv(), r, 1, body);
    r := FailToClosed(r);
  }

  /** Step `i` is the status check of a close request, and CLOSED was stored before. */
  ghost predicate RefusedCloseAt(r: Run, i: nat, t: nat) {
    && i < |r.steps| && i < |r.states| && r.steps[i] == CheckQueue(t) && t < |r.states[i].threads|
    && r.states[i].threads[t].Registered? && r.states[i].threads[t].req.body.CloseContext?
    && exists l :: 0 <= l < i && r.steps[l].LoopSetClosed?
  }

  /** The premise of `RefusedCloseHangs` is met: there is a run in which a close request is refused. */
  lemma {:induction false} RefusedCloseExists()
    ensures exists r, i: nat, t: nat :: Bounded(FailingEnv(), r) && RefusedCloseAt(r, i, t)
  {
    hide FailingEnv;
    var r := ReachRefusal(CloseContext);
    var i := |r.steps|;
    r := Extend(FailingEnv(), r, CheckQueue(1));
    ClosedExactly(FailingEnv(), r, i);
    assert Bounded(FailingEnv(), r) && RefusedCloseAt(r, i, 1);
  }

  /** The peek at step `i` answers PENDING for an id whose push was refused. */
  ghost predicate PendsAfterRefusal(r: Run, i: nat, id: nat)
    requires |r.states| == |r.steps| + 1
  {
    i < |r.steps| && Happened(Refuse, r, i, id) && Observe(r.states[i], r.steps[i]) == Observed(id, SawPending)
  }

  /**
   * The premise of `RefusedNeverCompletes` is met by a VH call: its caller was given the id, and a
   * peek on it answers PENDING as if the call were still to come.
   */
  lemma {:induction false} RefusedCallPends()
    ensures exists r, i: nat :: Bounded(FailingEnv(), r) && PendsAfterRefusal(r, i, 1)
  {
    var env := FailingEnv();
    var r := ReachRefusal(VhCall(0));
    r := Extend(env, r, CheckQueue(1));
    r := Extend(env, r, Peek(1, 1));
    var i, s := |r.steps|, Last(r);
    assert Observe(s, PeekFind(1)) == Observed(1, SawPending);
    r := Extend(env, r, PeekFind(1));
    assert r.states[i] == s && r.steps[i] == PeekFind(1);
    RecordedExactly(env, r, i, Refuse, 1);
    assert Bounded(env, r) && PendsAfterRefusal(r, i, 1);
  }

  // ----- ERROR before the final answer -----

  /** Thread 0 has claimed the result of its VH call; the event loop has not taken the call yet. */
  ghost predicate WaitsForCall(s: State) {
    && s.threads == [Waiting(0, false), Idle] && s.fetches == 1 && s.mtx.None? && 0 in s.issued && 0 !in s.rem
    && s.request == [Command(Request(0, VhCall(0)), None)] && s.executed == [] && s.completion == []
    && s.loop == Guard && s.ctx == StBlocked
  }

  lemma {:induction false} ReachWaitsForCall() returns (r: Run)
    ensures IsRun(FailingEnv(), r) && WaitsForCall(Last(r))
  {
    hide FailingEnv;
    r := PushFirst(FailingEnv(), VhCall(0));
    r := Extend(FailingEnv(), r, Wait(0, 0));
  }

  lemma {:induction false} PeekAnswersError(r0: Run) returns (r: Run)
    requires IsRun(FailingEnv(), r0) && WaitsForCall(Last(r0))
    ensures IsRun(FailingEnv(), r) && Continues(r, r0) && r.steps == r0.steps + [Peek(1, 0)] && Last(r) == Last(r0)
    ensures Observe(Last(r0), Peek(1, 0)) == Observed(0, SawError)
  {
    hide FailingEnv;
    r := Extend(FailingEnv(), r0, Peek(1, 0));
  }

  lemma {:induction false} CompleteCall(r0: Run) returns (r: Run)
    requires IsRun(FailingEnv(), r0) && WaitsForCall(Last(r0))
    ensures IsRun(FailingEnv(), r) && Continues(r, r0) && Last(r).fetches == 1
    ensures Observe(Last(r), WaitFind(0)) == Observed(0, SawFinal(Outcome(0, CmdOk)))
    ensures Enabled(FailingEnv(), Last(r), WaitFind(0))
  {
    var env, call := FailingEnv(), Request(0, VhCall(0));
    r := TakeOne(env, r0, Command(call, None));
    assert RunBody(env, [], call) == Some(Ran(0, Outcome(0, CmdOk), StBlocked));
    r := Extend(env, r, LoopFinish);
    r := Extend(env, r, LoopPublish);
    assert Last(r).completion[0] == Command(call, Some(Outcome(0, CmdOk)));
  }

  /** An issued id is answered with ERROR at step `i` and with its result at the later step `j`. */
  ghost predicate ErrorThenFinal(r: Run, i: nat, j: nat, id: nat)
    requires |r.states| == |r.steps| + 1
  {
    && i < j < |r.steps| && Happened(Issue, r, i, id)
    && Observe(r.states[i], r.steps[i]) == Observed(id, SawError) && FinalFor(r.states[j], r.steps[j], id)
  }

  /**
   * ERROR does not mean that the result is gone: a peek that comes after another thread's wait has
   * claimed the id answers ERROR, and the result is given out later.
   */
  lemma {:induction false} ErrorBeforeFinalExists()
    ensures exists r, i: nat, j: nat :: Bounded(FailingEnv(), r) && ErrorThenFinal(r, i, j, 0)
  {
    hide FailingEnv, Apply, Enabled, WaitsForCall, Observe;
    var env := FailingEnv();
    var r := ReachWaitsForCall();
    var i, s := |r.steps|, Last(r);
    IssuedHere(s);
    r := PeekAnswersError(r);
    r := CompleteCall(r);
    var j, s' := |r.steps|, Last(r);
    r := Extend(env, r, WaitFind(0));
    WaitKeepsFetches(env, s', 0);
    assert r.states[j] == s' && r.steps[j] == WaitFind(0);
    assert r.states[i] == s && r.steps[i] == Peek(1, 0);
    RecordedExactly(env, r, i, Issue, 0);
    assert Bounded(env, r) && ErrorThenFinal(r, i, j, 0);
  }

  lemma {:induction false} IssuedHere(s: State)
    requires WaitsForCall(s)
    ensures 0 in s.issued
  {
  }

  // ----- close and a waiter on its id -----

  const CLOSE: Command := Command(Request(0, CloseContext), None)

  /** Thread 0 is in close(); thread 1 waits for the same id, which close() never returned to anybody. */
  ghost predicate BothWaitForClose(s: State) {
    && s.fetches == 1 && s.claimed == {0}
    && |s.threads| == 2 && s.threads[0] == Waiting(0, true) && s.threads[1] == Waiting(0, false)
  }

  lemma {:induction false} WaitOnCloseId() returns (r: Run)
    ensures IsRun(FailingEnv(), r) && BothWaitForClose(Last(r)) && Last(r).completion == []
    ensures Last(r).loop == Guard && Last(r).ctx == StBlocked && Last(r).request == [CLOSE]
  {
    hide FailingEnv;
    r := PushFirst(FailingEnv(), CloseContext);
    r := Extend(FailingEnv(), r, Wait(1, 0));
  }

  lemma {:induction false} TakeClose(r0: Run) returns (r: Run)
    requires IsRun(FailingEnv(), r0) && BothWaitForClose(Last(r0)) && Last(r0).completion == []
    requires Last(r0).loop == Guard && Last(r0).ctx == StBlocked && Last(r0).request == [CLOSE]
    ensures IsRun(FailingEnv(), r) && BothWaitForClose(Last(r)) && Last(r).completion == []
    ensures Last(r).loop == CloseReply(CLOSE)
  {
    hide RunBody, FailingEnv;
    r := PopOne(FailingEnv(), r0, CLOSE);
    r := Extend(FailingEnv(), r, LoopExecute);
  }

  /** A thread still waits, past the check of callWaitResult, for a result that was given away. */
  ghost predicate LostItsResult(r: Run, t: nat)
    requires |r.states| == |r.steps| + 1
  {
    t < |Last(r).threads| && Claims(Last(r).threads[t]) && Happened(Deliver, r, |r.steps|, Last(r).threads[t].id)
  }

  /**
   * An example for the exception in `WaiterKeepsIff`: a caller that passed the check of
   * callWaitResult for the id of a close request loses the result to the closing thread.
   */
  lemma {:induction false} CloseCanTakeAWaitersResult()
    ensures exists r :: Bounded(FailingEnv(), r) && LostItsResult(r, 1)
  {
    hide FailingEnv;
    var r := WaitOnCloseId();
    r := TakeClose(r);
    r := Extend(FailingEnv(), r, LoopCloseReply);
    assert Last(r).completion[0].req.id == 0;
    r := Extend(FailingEnv(), r, WaitFind(0));
    RecordedExactly(FailingEnv(), r, |r.steps|, Deliver, 0);
    assert Bounded(FailingEnv(), r) && LostItsResult(r, 1);
  }
}
