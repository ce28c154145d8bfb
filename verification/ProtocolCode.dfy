/**
 * The queue and id classes against the step system: an operation of a class, done in a critical
 * section of its own, takes the objects from one state of the protocol to the state the
 * corresponding steps lead to.
 */
module ProtocolCode {
  import opened Base
  import opened CommandQueue
  import opened RequestIds
  import opened Protocol

  /** The thread number of the event loop among the sleepers of the request queue. */
  const LOOP: nat := 0

  /** The callers asleep in `completion.wait`. */
  ghost function Sleepers(threads: seq<Pc>): set<Sleeper> {
    set t | 0 <= t < |threads| && threads[t].Asleep? :: Sleeper(t, Some(threads[t].id))
  }

  /** The objects hold what the state of the protocol says, sleepers included. */
  ghost predicate Mirrors(comq: CommQueue, s: State)
    reads comq, comq.request, comq.completion
  {
    && comq.Valid()
    && comq.request.queue == s.request && comq.request.status == s.qstatus
    && comq.request.asleep == (if s.loop.PopAsleep? then {Sleeper(LOOP, None)} else {})
    && comq.completion.queue == s.completion && comq.completion.asleep == Sleepers(s.threads)
  }

  lemma {:induction false} SleepersMove(threads: seq<Pc>, t: nat, pc: Pc)
    requires t < |threads| && !threads[t].Asleep?
    ensures Sleepers(threads[t := pc]) ==
      Sleepers(threads) + if pc.Asleep? then {Sleeper(t, Some(pc.id))} else {}
  {
    var moved := threads[t := pc];
    assert forall u :: 0 <= u < |threads| && u != t ==> moved[u] == threads[u];
    assert moved[t] == pc;
  }

  /** `pushRequest` is the status check followed by the push, or the refusing status check. */
  method PushRequest(comq: CommQueue, ghost s: State, t: nat, req: Request) returns (rv: int)
    requires Mirrors(comq, s) && t < |s.threads| && s.threads[t] == Registered(req)
    modifies comq.request
    ensures rv == 0 <==> DoCheckQueue(s, t).threads[t] == Passed(req)
    ensures Mirrors(comq, if rv == 0 then DoPush(DoCheckQueue(s, t), t) else DoCheckQueue(s, t))
  {
    rv := comq.PushRequest(Command(req, None));
    ghost var checked := DoCheckQueue(s, t);
    SleepersMove(s.threads, t, checked.threads[t]);
    if rv == 0 {
      SleepersMove(checked.threads, t, DoPush(checked, t).threads[t]);
    }
  }

  /** One pass of `request.pop` is the loop's pop step. */
  method Pop(comq: CommQueue, ghost s: State) returns (r: Attempt)
    requires Mirrors(comq, s) && s.loop.Popping?
    modifies comq.request
    ensures Mirrors(comq, DoLoopPop(s))
    ensures DoLoopPop(s).loop == if r.Got? then Execute(r.cmd) else PopAsleep
  {
    r := comq.request.Pop(LOOP);
  }

  /** `popNoWait` is the drain's pop step. */
  method PopNoWait(comq: CommQueue, ghost s: State) returns (r: Option<Command>)
    requires Mirrors(comq, s) && s.loop.Drain?
    modifies comq.request`queue
    ensures Mirrors(comq, DoLoopDrainPop(s))
    ensures DoLoopDrainPop(s).loop == if r.Some? then DrainHave(r.value) else Done
  {
    r := comq.request.PopNoWait();
  }

  /** `completion.push` publishes and wakes every waiter. */
  method PushCompletion(comq: CommQueue, ghost s: State, c: Command)
    requires Mirrors(comq, s)
    modifies comq.completion
    ensures Mirrors(comq, Protocol.PushCompletion(s, c))
  {
    comq.completion.Push(c);
    assert Sleepers(Protocol.PushCompletion(s, c).threads) == {};
  }

  /** One pass of `completion.wait` takes the completion or puts the caller to sleep. */
  method Wait(comq: CommQueue, ghost s: State, t: nat, id: nat, ghost closing: bool) returns (r: Attempt)
    requires Mirrors(comq, s) && t < |s.threads| && s.threads[t] == Waiting(id, closing)
    modifies comq.completion
    ensures Mirrors(comq, DoWaitFind(s, t))
    ensures DoWaitFind(s, t).threads[t] == if r.Got? then Idle else Asleep(id, closing)
    ensures r.Got? ==> id in DoWaitFind(s, t).delivered && DoWaitFind(s, t).delivered[id] == ResultOf(r.cmd)
  {
    r := comq.completion.Wait(t, id);
    SleepersMove(s.threads, t, DoWaitFind(s, t).threads[t]);
  }

  /** `completion.tryFind`, as callPeekResult uses it. */
  method TryFind(comq: CommQueue, ghost s: State, t: nat, id: nat) returns (r: Option<Command>)
    requires Mirrors(comq, s) && t < |s.threads| && s.threads[t] == PeekHeld(id)
    modifies comq.completion`queue
    ensures Mirrors(comq, DoPeekFind(s, t))
    ensures DoPeekFind(s, t).threads[t] == if r.Some? then PeekTaken(r.value) else Idle
  {
    r := comq.completion.TryFindNoLock(id);
    SleepersMove(s.threads, t, DoPeekFind(s, t).threads[t]);
  }

  /** The sequence number and `rem_reqid`. */
  ghost predicate MirrorsIds(ids: IdSource, s: State)
    reads ids
  {
    ids.seqNo == s.fetches % TWO64 && ids.rem == s.rem
  }

  lemma {:induction false} BumpIs(n: nat)
    ensures Bump(n % TWO64) == (n + 1) % TWO64
  {
  }

  /** `issueRequestID` is one fetch, or two across the wraparound, followed by the insertion. */
  method IssueRequestID(ids: IdSource, ghost s: State, t: nat, ghost body: Body) returns (id: nat, ghost s': State)
    requires MirrorsIds(ids, s) && t < |s.threads| && s.threads[t] == Checked(body)
    modifies ids
    ensures MirrorsIds(ids, s') && t < |s'.threads| && s'.threads[t] == Registered(Request(id, body))
    ensures var s1 := DoFetch(s, t);
      s' == if s1.threads[t].Numbered? then DoRegister(s1, t) else DoRegister(DoFetch(s1, t), t)
  {
    hide Bump;
    BumpIs(s.fetches);
    BumpIs(s.fetches + 1);
    var rounds;
    id, rounds := ids.IssueRequestID();
    s' := DoFetch(s, t);
    if rounds == 2 {
      s' := DoFetch(s', t);
    }
    s' := DoRegister(s', t);
  }
}
