/**
 * The request/completion protocol of a thread context as a step system. A step is one critical
 * section or one access to a shared variable; every caller thread and the event loop have a program
 * counter, and threads asleep on a condition variable are part of the state.
 */
module Protocol {
  import opened Base
  import opened CommandQueue
  import opened VeHandler
  import opened Interpreter

  /** The program counter of a caller thread. */
  datatype Pc =
    | Idle
    | Checked(body: Body)                  // saw state != EXIT, about to take a sequence number
    | Numbered(req: Request)               // has an id, about to insert it in rem_reqid
    | Registered(req: Request)             // id inserted, about to read the queue status
    | Passed(req: Request)                 // read READY, about to push
    | PeekHeld(id: nat)                    // callPeekResult, req_mtx held, id found in rem_reqid
    | PeekTaken(cmd: Command)              // callPeekResult, req_mtx held, completion taken
    | Waiting(id: nat, closing: bool)      // in completion.wait, about to look for id
    | Asleep(id: nat, closing: bool)       // in completion.wait, asleep on the condition variable

  /** The program counter of the event loop. */
  datatype LoopPc =
    | Starting                             // running to the first block request
    | Dead                                 // left startEventLoop before the event loop
    | Guard                                // about to test state == BLOCKED
    | Dropped                              // left the loop because the test failed
    | Popping                              // in request.pop, about to look at the queue
    | PopAsleep                            // in request.pop, asleep
    | Execute(cmd: Command)                // popped, about to run the command
    | InHandler(cmd: Command)              // the command is running
    | Publish(cmd: Command)                // return code 0, about to push the completion
    | SetExit(cmd: Command)                // return code non-zero, about to store EXIT
    | SetClosed(cmd: Command)              // about to store CLOSED
    | PublishFailed(cmd: Command)          // about to push the failed command
    | Drain                                // setCompletion, about to popNoWait
    | DrainHave(cmd: Command)              // setCompletion, about to push a drained command
    | Done                                 // left the loop through the failure branch
    | CloseReply(cmd: Command)             // close handler, EXIT stored, about to push the reply
    | Gone                                 // pthread_exit

  /** History: the ids past the status check, and the number of requests pushed, when CLOSED was stored. */
  datatype Closure = Closure(inFlight: set<nat>, pushed: nat)

  datatype State = State(
    ctx: ContextState,                     // ThreadContext::state
    fetches: nat,                          // how often seq_no was incremented
    rem: set<nat>,                         // rem_reqid
    mtx: Option<nat>,                      // the thread inside req_mtx between two steps
    qstatus: QueueStatus,                  // status of the request queue
    request: seq<Command>,
    completion: seq<Command>,
    loop: LoopPc,
    threads: seq<Pc>,
    executed: seq<Request>,                // what the VE process has run so far
    // history variables: written by steps, never read by them
    pushes: seq<Request>,                  // requests in push order
    pos: map<nat, nat>,                    // id -> index in pushes
    issued: map<nat, Body>,                // ids ever inserted in rem_reqid
    claimed: set<nat>,                     // ids ever erased from rem_reqid
    refused: set<nat>,                     // ids whose push was refused
    delivered: map<nat, Outcome>,          // results handed to a caller
    closure: Option<Closure>
  )

  function Init(threads: nat): State {
    State(StRunning, 0, {}, None, QueueReady, [], [], Starting, seq(threads, i => Idle), [],
          [], map[], map[], {}, {}, map[], None)
  }

  datatype Step =
    | Begin(t: nat, body: Body)
    | Fetch(t: nat)
    | Register(t: nat)
    | CheckQueue(t: nat)
    | Push(t: nat)
    | Peek(t: nat, id: nat)
    | PeekFind(t: nat)
    | PeekErase(t: nat)
    | Wait(t: nat, id: nat)
    | WaitFind(t: nat)
    | SpuriousWake(t: nat)
    | LoopStart(events: seq<VeEvent>)
    | LoopGuard
    | LoopPop
    | LoopSpuriousWake
    | LoopExecute
    | LoopFinish
    | LoopPublish
    | LoopSetExit
    | LoopSetClosed
    | LoopPublishFailed
    | LoopDrainPop
    | LoopDrainPush
    | LoopCloseReply

  function ThreadOf(step: Step): Option<nat> {
    match step
    case Begin(t, _) => Some(t)
    case Fetch(t) => Some(t)
    case Register(t) => Some(t)
    case CheckQueue(t) => Some(t)
    case Push(t) => Some(t)
    case Peek(t, _) => Some(t)
    case PeekFind(t) => Some(t)
    case PeekErase(t) => Some(t)
    case Wait(t, _) => Some(t)
    case WaitFind(t) => Some(t)
    case SpuriousWake(t) => Some(t)
    case _ => None
  }

  /** The steps of the request functions. */
  predicate IsProducer(step: Step) {
    step.Begin? || step.Fetch? || step.Register? || step.CheckQueue? || step.Push?
  }

  /** The steps of callPeekResult, callWaitResult and the wait of close. */
  predicate IsCollector(step: Step) {
    step.Peek? || step.PeekFind? || step.PeekErase? || step.Wait? || step.WaitFind? || step.SpuriousWake?
  }

  /** The steps of the event loop. */
  predicate IsLoop(step: Step) {
    !IsProducer(step) && !IsCollector(step)
  }

  /** The run to the first block request, on the exceptions the VE thread raises while starting. */
  function StartUp(ctx: ContextState, events: seq<VeEvent>): LoopResult {
    HandlerLoop(DefaultFilter, Machine(ctx, [], []), 0, events)
  }

  predicate Enabled(env: Env, s: State, step: Step) {
    && (ThreadOf(step).Some? ==> ThreadOf(step).value < |s.threads|)
    && match step
       case Begin(t, _) => s.threads[t].Idle?
       case Fetch(t) => s.threads[t].Checked?
       case Register(t) => s.threads[t].Numbered? && s.mtx.None?
       case CheckQueue(t) => s.threads[t].Registered?
       case Push(t) => s.threads[t].Passed?
       case Peek(t, _) => s.threads[t].Idle? && s.mtx.None?
       case PeekFind(t) => s.threads[t].PeekHeld?
       case PeekErase(t) => s.threads[t].PeekTaken?
       case Wait(t, _) => s.threads[t].Idle? && s.mtx.None?
       case WaitFind(t) => s.threads[t].Waiting?
       case SpuriousWake(t) => s.threads[t].Asleep?
       case LoopStart(events) => s.loop.Starting? && StartUp(s.ctx, events).Returned?
       case LoopGuard => s.loop.Guard?
       case LoopPop => s.loop.Popping?
       case LoopSpuriousWake => s.loop.PopAsleep?
       case LoopExecute => s.loop.Execute?
       case LoopFinish => s.loop.InHandler? && RunBody(env, s.executed, s.loop.cmd.req).Some?
       case LoopPublish => s.loop.Publish?
       case LoopSetExit => s.loop.SetExit?
       case LoopSetClosed => s.loop.SetClosed?
       case LoopPublishFailed => s.loop.PublishFailed?
       case LoopDrainPop => s.loop.Drain?
       case LoopDrainPush => s.loop.DrainHave?
       case LoopCloseReply => s.loop.CloseReply?
  }

  function Goto(s: State, t: nat, pc: Pc): State
    requires t < |s.threads|
  {
    s.(threads := s.threads[t := pc])
  }

  // ----- producers: callAsync, asyncReadMem, asyncWriteMem, callVHAsync, close -----

  /** The test of `state` at the head of every request function. */
  function DoBegin(s: State, t: nat, body: Body): State
    requires t < |s.threads|
  {
    if s.ctx == StExit then s else Goto(s, t, Checked(body))
  }

  /** One iteration of the loop in issueRequestID. */
  function DoFetch(s: State, t: nat): State
    requires t < |s.threads| && s.threads[t].Checked?
  {
    var id := s.fetches % TWO64;
    var s1 := s.(fetches := s.fetches + 1);
    if id == INVALID_ID then s1 else Goto(s1, t, Numbered(Request(id, s.threads[t].body)))
  }

  function DoRegister(s: State, t: nat): State
    requires t < |s.threads| && s.threads[t].Numbered?
  {
    var r := s.threads[t].req;
    Goto(s, t, Registered(r)).(rem := s.rem + {r.id}, issued := s.issued[r.id := r.body])
  }

  /** The status test of pushRequest. A refused close still waits, on the invalid id. */
  function DoCheckQueue(s: State, t: nat): State
    requires t < |s.threads| && s.threads[t].Registered?
  {
    var r := s.threads[t].req;
    if s.qstatus == QueueReady then Goto(s, t, Passed(r))
    else
      Goto(s, t, if r.body.CloseContext? then Waiting(INVALID_ID, true) else Idle).(refused := s.refused + {r.id})
  }

  /** The push of pushRequest; it wakes the event loop. */
  function DoPush(s: State, t: nat): State
    requires t < |s.threads| && s.threads[t].Passed?
  {
    var r := s.threads[t].req;
    Goto(s, t, if r.body.CloseContext? then Waiting(r.id, true) else Idle).(
      request := s.request + [Command(r, None)],
      loop := if s.loop.PopAsleep? then Popping else s.loop,
      pushes := s.pushes + [r],
      pos := s.pos[r.id := |s.pushes|])
  }

  // ----- collectors: callPeekResult, callWaitResult, and the wait of close -----

  /** A thread outside `rem_reqid` gets VEO_COMMAND_ERROR and stays idle. */
  function DoPeek(s: State, t: nat, id: nat): State
    requires t < |s.threads|
  {
    if id in s.rem then Goto(s, t, PeekHeld(id)).(mtx := Some(t)) else s
  }

  function DoPeekFind(s: State, t: nat): State
    requires t < |s.threads| && s.threads[t].PeekHeld?
  {
    var i := FirstIndex(s.completion, s.threads[t].id);
    if i < |s.completion| then
      Goto(s, t, PeekTaken(s.completion[i])).(completion := Without(s.completion, i))
    else
      Goto(s, t, Idle).(mtx := None)
  }

  /** What `getRetval`/`getStatus` read; a command without a result is unspecified in the source. */
  function ResultOf(c: Command): Outcome {
    match c.result
    case Some(o) => o
    case None => UNFINISHED
  }

  function DoPeekErase(s: State, t: nat): State
    requires t < |s.threads| && s.threads[t].PeekTaken?
  {
    var c := s.threads[t].cmd;
    Goto(s, t, Idle).(
      mtx := None,
      rem := s.rem - {c.req.id},
      claimed := s.claimed + {c.req.id},
      delivered := s.delivered[c.req.id := ResultOf(c)])
  }

  function DoWait(s: State, t: nat, id: nat): State
    requires t < |s.threads|
  {
    if id in s.rem then
      Goto(s, t, Waiting(id, false)).(rem := s.rem - {id}, claimed := s.claimed + {id})
    else s
  }

  function DoWaitFind(s: State, t: nat): State
    requires t < |s.threads| && s.threads[t].Waiting?
  {
    var pc := s.threads[t];
    var i := FirstIndex(s.completion, pc.id);
    if i < |s.completion| then
      Goto(s, t, Idle).(
        completion := Without(s.completion, i),
        delivered := s.delivered[pc.id := ResultOf(s.completion[i])])
    else
      Goto(s, t, Asleep(pc.id, pc.closing))
  }

  function DoSpuriousWake(s: State, t: nat): State
    requires t < |s.threads| && s.threads[t].Asleep?
  {
    Goto(s, t, Waiting(s.threads[t].id, s.threads[t].closing))
  }

  // ----- the event loop -----

  function Wake(pc: Pc): Pc {
    if pc.Asleep? then Waiting(pc.id, pc.closing) else pc
  }

  /** `completion.push`: appends and wakes every thread asleep in `wait`. */
  function PushCompletion(s: State, c: Command): State {
    s.(completion := s.completion + [c],
       threads := seq(|s.threads|, i requires 0 <= i < |s.threads| => Wake(s.threads[i])))
  }

  /** Any status but a block request ends the thread before the loop. */
  function DoLoopStart(s: State, events: seq<VeEvent>): State
    requires StartUp(s.ctx, events).Returned?
  {
    var r := StartUp(s.ctx, events);
    if r.status == HsBlockRequested then s.(loop := Guard, ctx := r.m.state) else s.(loop := Dead, ctx := StExit)
  }

  function DoLoopGuard(s: State): State {
    s.(loop := if s.ctx == StBlocked then Popping else Dropped)
  }

  function DoLoopPop(s: State): State {
    if s.request == [] then s.(loop := PopAsleep)
    else s.(loop := Execute(s.request[0]), request := s.request[1..])
  }

  /** A VE call unblocks the VE thread; the close handler stores EXIT; the others leave the state. */
  function DoLoopExecute(s: State): State
    requires s.loop.Execute?
  {
    match s.loop.cmd.req.body
    case VeCall(_) => s.(loop := InHandler(s.loop.cmd), ctx := StRunning)
    case CloseContext => s.(loop := CloseReply(s.loop.cmd), ctx := StExit)
    case _ => s.(loop := InHandler(s.loop.cmd))
  }

  function DoLoopFinish(env: Env, s: State): State
    requires s.loop.InHandler? && RunBody(env, s.executed, s.loop.cmd.req).Some?
  {
    var ran := RunBody(env, s.executed, s.loop.cmd.req).value;
    var c := Finish(s.loop.cmd, ran.outcome);
    s.(executed := s.executed + [c.req], ctx := ran.ctx, loop := if ran.rv == 0 then Publish(c) else SetExit(c))
  }

  function DoLoopPublish(s: State): State
    requires s.loop.Publish?
  {
    PushCompletion(s, s.loop.cmd).(loop := Guard)
  }

  function DoLoopSetExit(s: State): State
    requires s.loop.SetExit?
  {
    s.(ctx := StExit, loop := SetClosed(s.loop.cmd))
  }

  ghost function PassedIds(s: State): set<nat> {
    set t | 0 <= t < |s.threads| && s.threads[t].Passed? :: s.threads[t].req.id
  }

  ghost function DoLoopSetClosed(s: State): State
    requires s.loop.SetClosed?
  {
    s.(qstatus := QueueClosed, loop := PublishFailed(s.loop.cmd),
       closure := Some(Closure(PassedIds(s), |s.pushes|)))
  }

  function DoLoopPublishFailed(s: State): State
    requires s.loop.PublishFailed?
  {
    PushCompletion(s, s.loop.cmd).(loop := Drain)
  }

  function DoLoopDrainPop(s: State): State {
    if s.request == [] then s.(loop := Done)
    else s.(loop := DrainHave(s.request[0]), request := s.request[1..])
  }

  function DoLoopDrainPush(s: State): State
    requires s.loop.DrainHave?
  {
    PushCompletion(s, Finish(s.loop.cmd, UNFINISHED)).(loop := Drain)
  }

  /** The close handler pushes a fresh command with the same id and ends the thread. */
  function DoLoopCloseReply(s: State): State
    requires s.loop.CloseReply?
  {
    PushCompletion(s, Finish(s.loop.cmd, Outcome(0, CmdOk))).(loop := Gone)
  }

  ghost function Apply(env: Env, s: State, step: Step): State
    requires Enabled(env, s, step)
  {
    match step
    case Begin(t, body) => DoBegin(s, t, body)
    case Fetch(t) => DoFetch(s, t)
    case Register(t) => DoRegister(s, t)
    case CheckQueue(t) => DoCheckQueue(s, t)
    case Push(t) => DoPush(s, t)
    case Peek(t, id) => DoPeek(s, t, id)
    case PeekFind(t) => DoPeekFind(s, t)
    case PeekErase(t) => DoPeekErase(s, t)
    case Wait(t, id) => DoWait(s, t, id)
    case WaitFind(t) => DoWaitFind(s, t)
    case SpuriousWake(t) => DoSpuriousWake(s, t)
    case LoopStart(events) => DoLoopStart(s, events)
    case LoopGuard => DoLoopGuard(s)
    case LoopPop => DoLoopPop(s)
    case LoopSpuriousWake => s.(loop := Popping)
    case LoopExecute => DoLoopExecute(s)
    case LoopFinish => DoLoopFinish(env, s)
    case LoopPublish => DoLoopPublish(s)
    case LoopSetExit => DoLoopSetExit(s)
    case LoopSetClosed => DoLoopSetClosed(s)
    case LoopPublishFailed => DoLoopPublishFailed(s)
    case LoopDrainPop => DoLoopDrainPop(s)
    case LoopDrainPush => DoLoopDrainPush(s)
    case LoopCloseReply => DoLoopCloseReply(s)
  }

  /** A run: states joined by steps, from the initial state of some number of caller threads. */
  datatype Run = Run(threads: nat, states: seq<State>, steps: seq<Step>)

  ghost predicate IsRun(env: Env, r: Run) {
    && |r.states| == |r.steps| + 1
    && r.states[0] == Init(r.threads)
    && forall i :: 0 <= i < |r.steps| ==> IsStep(env, r.states[i], r.steps[i], r.states[i + 1])
  }

  ghost predicate IsStep(env: Env, s: State, step: Step, s': State) {
    Enabled(env, s, step) && s' == Apply(env, s, step)
  }

  /** The last state of a run. */
  function Last(r: Run): State
    requires r.states != []
  {
    r.states[|r.states| - 1]
  }
}
