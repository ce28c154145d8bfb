/** The inductive invariant of the protocol, in the parts the proofs follow. */
module ProtocolInvariant {
  import opened Base
  import opened CommandQueue
  import opened VeHandler
  import opened Interpreter
  import opened Protocol

  // ----- ids -----

  /** Ids are fresh, the push order is a bijection with the pushed ids, rem_reqid is issued minus claimed. */
  ghost predicate IdInv(s: State) {
    && s.fetches <= TWO64
    && (forall x :: x in s.issued ==> x < s.fetches && x != INVALID_ID)
    && s.rem == s.issued.Keys - s.claimed
    && s.claimed <= s.issued.Keys
    && s.refused <= s.issued.Keys
    && (forall x :: x in s.pos ==>
          && x in s.issued && x !in s.refused
          && s.pos[x] < |s.pushes| && s.pushes[s.pos[x]] == Request(x, s.issued[x]))
    && (forall k :: 0 <= k < |s.pushes| ==> s.pushes[k].id in s.pos && s.pos[s.pushes[k].id] == k)
  }

  // ----- caller threads -----

  predicate OwnsId(pc: Pc) {
    pc.Numbered? || pc.Registered? || pc.Passed?
  }

  /** The thread is in callWaitResult, past the rem_reqid check. */
  predicate Claims(pc: Pc) {
    (pc.Waiting? || pc.Asleep?) && !pc.closing
  }

  predicate Closes(pc: Pc) {
    (pc.Waiting? || pc.Asleep?) && pc.closing
  }

  predicate InPeek(pc: Pc) {
    pc.PeekHeld? || pc.PeekTaken?
  }

  function PeekId(pc: Pc): nat
    requires InPeek(pc)
  {
    if pc.PeekHeld? then pc.id else pc.cmd.req.id
  }

  /** The id belongs to a close request. */
  predicate IsClose(s: State, id: nat) {
    id in s.issued && s.issued[id].CloseContext?
  }

  ghost predicate PcOk(s: State, t: nat, pc: Pc) {
    && (pc.Numbered? ==> pc.req.id < s.fetches && pc.req.id != INVALID_ID && pc.req.id !in s.issued)
    && (pc.Registered? || pc.Passed? ==>
          && pc.req.id in s.issued && s.issued[pc.req.id] == pc.req.body
          && pc.req.id !in s.pos && pc.req.id !in s.refused)
    && (pc.Passed? && s.closure.Some? ==> pc.req.id in s.closure.value.inFlight)
    && (InPeek(pc) ==> s.mtx == Some(t) && PeekId(pc) in s.rem)
    && (Claims(pc) ==> pc.id in s.claimed && (pc.id in s.delivered ==> IsClose(s, pc.id)))
    && (Closes(pc) ==> pc.id == INVALID_ID || (pc.id in s.pos && IsClose(s, pc.id)))
    && (pc.Asleep? ==> !HasId(s.completion, pc.id))
  }

  predicate Compatible(p: Pc, q: Pc) {
    && (OwnsId(p) && OwnsId(q) ==> p.req.id != q.req.id)
    && (Claims(p) && Claims(q) ==> p.id != q.id)
  }

  ghost predicate ThreadInv(s: State) {
    && (forall t :: 0 <= t < |s.threads| ==> PcOk(s, t, s.threads[t]))
    && (forall t, u :: 0 <= t < u < |s.threads| ==> Compatible(s.threads[t], s.threads[u]))
    && (s.mtx.Some? ==> s.mtx.value < |s.threads| && InPeek(s.threads[s.mtx.value]))
  }

  // ----- the event loop -----

  /** The command the event loop has taken from the request queue and not yet published. */
  function Held(l: LoopPc): Option<Command> {
    match l
    case Execute(c) => Some(c)
    case InHandler(c) => Some(c)
    case Publish(c) => Some(c)
    case SetExit(c) => Some(c)
    case SetClosed(c) => Some(c)
    case PublishFailed(c) => Some(c)
    case DrainHave(c) => Some(c)
    case CloseReply(c) => Some(c)
    case _ => None
  }

  /** How many pushed requests have been published as completions. */
  function Processed(s: State): int {
    |s.pushes| - |s.request| - if Held(s.loop).Some? then 1 else 0
  }

  /** The request queue is the unprocessed tail of the push order, and the held command precedes it. */
  ghost predicate QueueInv(s: State) {
    var d := Processed(s);
    && 0 <= d <= |s.pushes| - |s.request|
    && (forall i :: 0 <= i < |s.request| ==> s.request[i] == Command(s.pushes[|s.pushes| - |s.request| + i], None))
    && (Held(s.loop).Some? ==> Held(s.loop).value.req == s.pushes[d])
    && (s.loop.PopAsleep? ==> s.request == [])
  }

  /** Where the event loop stands in the synchronous interpreter's run of the same requests. */
  ghost predicate LoopInv(env: Env, s: State) {
    var d := Processed(s);
    && 0 <= d <= |s.pushes|
    && (Held(s.loop).Some? ==> d < |s.pushes|)
    && match s.loop
       case Dropped => false
       case Dead | Gone => true
       case Starting | Guard | Popping | PopAsleep | Execute(_) =>
         After(env, s.pushes[..d]) == Live && s.executed == s.pushes[..d]
       case InHandler(c) =>
         After(env, s.pushes[..d]) == Live && s.executed == s.pushes[..d] && !c.req.body.CloseContext?
       case Publish(c) =>
         After(env, s.pushes[..d + 1]) == Live && s.executed == s.pushes[..d + 1] &&
         c.result.Some? && c.result == Expected(env, s.pushes, d)
       case SetExit(_) | SetClosed(_) | PublishFailed(_) =>
         After(env, s.pushes[..d + 1]) == Failed &&
         s.loop.cmd.result.Some? && s.loop.cmd.result == Expected(env, s.pushes, d)
       case Drain | DrainHave(_) | Done =>
         After(env, s.pushes[..d]) == Failed
       case CloseReply(c) =>
         After(env, s.pushes[..d]) == Live && c.req.body.CloseContext?
  }

  /** The context state and the queue status at every point of the event loop. */
  ghost predicate CtxInv(s: State) {
    match s.loop
    case Dropped => false
    case Starting => s.ctx == StRunning && s.qstatus == QueueReady
    case Guard | Popping | PopAsleep | Execute(_) | Publish(_) =>
      s.ctx == StBlocked && s.qstatus == QueueReady
    case InHandler(c) => s.ctx == (if c.req.body.VeCall? then StRunning else StBlocked) && s.qstatus == QueueReady
    case SetExit(_) => s.qstatus == QueueReady
    case SetClosed(_) | Dead | CloseReply(_) | Gone => s.ctx == StExit && s.qstatus == QueueReady
    case PublishFailed(_) | Drain | DrainHave(_) | Done => s.ctx == StExit && s.qstatus == QueueClosed
  }

  /** Pushes after CLOSED was stored come from producers that had read READY before. */
  ghost predicate ClosureInv(s: State) {
    && (s.qstatus == QueueClosed <==> s.closure.Some?)
    && (s.closure.Some? ==>
          && s.closure.value.pushed <= |s.pushes|
          && (forall k :: s.closure.value.pushed <= k < |s.pushes| ==> s.pushes[k].id in s.closure.value.inFlight)
          && (s.loop.Done? ==> s.closure.value.pushed <= Processed(s)))
  }

  // ----- results -----

  /**
   * A published result: the id was pushed, has been processed, and the result is the one in `out`,
   * the results of the synchronous interpreter.
   */
  predicate Due(out: seq<Option<Outcome>>, s: State, id: nat, o: Option<Outcome>) {
    && id in s.pos && s.pos[id] < |out| && s.pos[id] < Processed(s)
    && o.Some? && o == out[s.pos[id]]
  }

  /** The completion a peeking thread has taken out of the queue but not yet returned. */
  function Taken(s: State): Option<Command> {
    if s.mtx.Some? && s.mtx.value < |s.threads| && s.threads[s.mtx.value].PeekTaken?
    then Some(s.threads[s.mtx.value].cmd) else None
  }

  ghost predicate TakenIs(s: State, id: nat) {
    Taken(s).Some? && Taken(s).value.req.id == id
  }

  predicate DistinctIds(q: seq<Command>) {
    forall i, j :: 0 <= i < j < |q| ==> q[i].req.id != q[j].req.id
  }

  ghost predicate ResultInv(out: seq<Option<Outcome>>, s: State) {
    && DistinctIds(s.completion)
    && (forall i :: 0 <= i < |s.completion| ==>
          Due(out, s, s.completion[i].req.id, s.completion[i].result) && s.completion[i].req.id !in s.delivered)
    && (forall x :: x in s.delivered ==>
          Due(out, s, x, Some(s.delivered[x])) && (x in s.claimed || IsClose(s, x)))
    && (Taken(s).Some? ==>
          var c := Taken(s).value;
          Due(out, s, c.req.id, c.result) && c.req.id !in s.delivered && !HasId(s.completion, c.req.id))
    && (forall k :: 0 <= k < |s.pushes| && k < Processed(s) ==>
          s.pushes[k].id in s.delivered || HasId(s.completion, s.pushes[k].id) || TakenIs(s, s.pushes[k].id))
  }

  /** The parts of the invariant that speak about the event loop. */
  ghost predicate LoopParts(env: Env, s: State) {
    QueueInv(s) && LoopInv(env, s) && CtxInv(s) && ClosureInv(s)
  }

  ghost predicate Inv(env: Env, s: State) {
    && IdInv(s)
    && ThreadInv(s)
    && LoopParts(env, s)
    && ResultInv(SyncRun(env, s.pushes), s)
  }
}
