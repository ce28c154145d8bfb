/**
 * The event loop as the code runs it, on the queue classes and with no other thread in between: it
 * refines the synchronous interpreter. The module `Protocol` covers the interleavings.
 */
module EventLoop {
  import opened Base
  import opened CommandQueue
  import opened VeHandler
  import opened Interpreter

  /** Why the loop stopped running. */
  datatype LoopExit =
    | Sleeping     // in pop, the request queue is empty
    | FailedOut    // returned through the failure branch
    | Closed       // the close handler ended the thread
    | NeverBack    // the VE function of the current call does not return

  /** The commands of the first `n` requests with their results. */
  function Answered(p: seq<Request>, out: seq<Option<Outcome>>, n: nat): (r: seq<Command>)
    requires n <= |p| == |out|
    ensures |r| == n
  {
    seq(n, i requires 0 <= i < n => Command(p[i], out[i]))
  }

  /** Requests as they come into the queue: no result yet. */
  predicate AllNew(q: seq<Command>) {
    forall i :: 0 <= i < |q| ==> q[i].result.None?
  }

  function Requests(q: seq<Command>): (r: seq<Request>)
    ensures |r| == |q|
    ensures forall i :: 0 <= i < |q| ==> r[i] == q[i].req
  {
    seq(|q|, i requires 0 <= i < |q| => q[i].req)
  }

  /** Publishing one more result after those of the first `n` requests, which were put behind `before`. */
  lemma {:induction false} AnsweredNext(before: seq<Command>, p: seq<Request>, out: seq<Option<Outcome>>, n: nat)
    requires n < |p| == |out|
    ensures before + Answered(p, out, n) + [Command(p[n], out[n])] == before + Answered(p, out, n + 1)
  {
    assert Answered(p, out, n + 1) == Answered(p, out, n) + [Command(p[n], out[n])];
  }

  lemma {:induction false} TakeFront(all: seq<Command>, n: nat)
    requires n < |all|
    ensures all[n..][0] == all[n] && all[n..][1..] == all[n + 1..]
  {
  }

  /** Running request `k` in its turn: the interpreter's result, and how the interpreter goes on. */
  lemma {:induction false} TurnOf(env: Env, p: seq<Request>, k: nat)
    requires k < |p| && After(env, p[..k]) == Live
    ensures p[k].body.CloseContext? ==> SyncRun(env, p)[k] == Some(Outcome(0, CmdOk))
    ensures !p[k].body.CloseContext? ==>
      match RunBody(env, p[..k], p[k])
      case None => SyncRun(env, p)[k] == None
      case Some(r) =>
        && SyncRun(env, p)[k] == Some(r.outcome)
        && After(env, p[..k + 1]) == (if r.rv == 0 then Live else Failed)
    ensures p[..k] + [p[k]] == p[..k + 1]
  {
    hide RunBody;
    SyncRunAt(env, p, k);
    assert p[..k + 1][..k] == p[..k];
  }

  /** After a failure at request `k`, draining gives the rest exactly the interpreter's results. */
  lemma {:induction false} DrainedRest(env: Env, all: seq<Command>, k: nat)
    requires k < |all| && AllNew(all) && After(env, Requests(all)[..k + 1]) == Failed
    ensures var p := Requests(all);
      Answered(p, SyncRun(env, p), |p|) ==
        Answered(p, SyncRun(env, p), k + 1) + AllUnfinished(all[k + 1..])
  {
    hide After, SyncRun, LastOutcome;
    var p := Requests(all);
    forall j | k + 1 <= j < |p| ensures SyncRun(env, p)[j] == Some(UNFINISHED) {
      AfterFailed(env, p, k + 1, j);
      UnfinishedAfterFailure(env, p, j);
      SyncRunAt(env, p, j);
    }
    var left, right := Answered(p, SyncRun(env, p), |p|), AllUnfinished(all[k + 1..]);
    assert forall j :: k + 1 <= j < |p| ==> left[j] == right[j - (k + 1)];
    assert left[..k + 1] == Answered(p, SyncRun(env, p), k + 1);
  }

  /** The request has the result OK. */
  predicate IsOk(o: Option<Outcome>) {
    o.Some? && o.value.status == CmdOk
  }

  /** The first `n` requests are not close requests and have the result OK. */
  predicate AllOk(p: seq<Request>, out: seq<Option<Outcome>>, n: nat)
    requires n <= |p| == |out|
  {
    forall i :: 0 <= i < n ==> IsOk(out[i]) && !p[i].body.CloseContext?
  }

  /** Which way of ending belongs to which requests and results. */
  ghost predicate ExitFits(exit: LoopExit, n: nat, p: seq<Request>, out: seq<Option<Outcome>>)
    requires n <= |p| == |out|
  {
    && (exit.Sleeping? <==> AllOk(p, out, |p|))
    && (exit.FailedOut? <==> exists i :: 0 <= i < n && out[i].Some? && out[i].value.status != CmdOk)
    && (exit.Closed? <==> 0 < n && p[n - 1].body.CloseContext? && AllOk(p, out, n - 1))
    && (exit.NeverBack? <==> n < |p| && AllOk(p, out, n) && out[n] == None)
  }

  lemma {:induction false} NextOk(p: seq<Request>, out: seq<Option<Outcome>>, n: nat)
    requires n < |p| == |out| && AllOk(p, out, n) && IsOk(out[n]) && !p[n].body.CloseContext?
    ensures AllOk(p, out, n + 1)
  {
  }

  lemma {:induction false} EndsAtFirst(p: seq<Request>, out: seq<Option<Outcome>>, n: nat)
    requires n <= |p| == |out| && AllOk(p, out, n)
    ensures n == |p| ==> ExitFits(Sleeping, n, p, out)
    ensures n < |p| && p[n].body.CloseContext? && IsOk(out[n]) ==> ExitFits(Closed, n + 1, p, out)
    ensures n < |p| && !p[n].body.CloseContext? && out[n] == None ==> ExitFits(NeverBack, n, p, out)
    ensures n < |p| && !p[n].body.CloseContext? && out[n].Some? && !IsOk(out[n]) ==> ExitFits(FailedOut, |p|, p, out)
  {
  }

  class ThreadContext {
    const comq: CommQueue
    var state: ContextState
    var executed: seq<Request>

    ghost predicate Valid()
      reads this, comq, comq.request, comq.completion
    {
      comq.Valid()
    }

    constructor ()
      ensures Valid() && fresh(comq) && fresh(comq.request) && fresh(comq.completion)
      ensures state == StBlocked && executed == []
      ensures comq.request.queue == [] && comq.completion.queue == [] && comq.request.status == QueueReady
    {
      comq := new CommQueue();
      state, executed := StBlocked, [];
    }

    /** Runs the handler of a request; a call unblocks the VE thread first, and may never come back. */
    method Execute(env: Env, req: Request) returns (ran: Option<Ran>)
      requires !req.body.CloseContext?
      modifies this`state, this`executed
      ensures ran == RunBody(env, old(executed), req)
      ensures ran.None? ==> state == StRunning && executed == old(executed)
      ensures ran.Some? ==> state == ran.value.ctx && executed == old(executed) + [req]
      ensures ran.Some? ==> (ran.value.rv == 0 <==> ran.value.outcome.status == CmdOk)
      ensures ran.Some? && ran.value.rv == 0 ==> state == StBlocked
    {
      hide RunBody;
      if req.body.VeCall? {
        state := StRunning;
      }
      ran := RunBody(env, executed, req);
      if ran.None? {
        OnlyCallsHang(env, executed, req);
      } else {
        RunBodyFacts(env, executed, req);
        executed := executed + [req];
        state := ran.value.ctx;
      }
    }

    /** The failure branch: closes the queue, publishes the failed command and drains the rest. */
    method Fail(command: Command)
      requires Valid()
      modifies this`state, comq.request, comq.completion
      ensures Valid() && state == StExit && comq.request.status == QueueClosed && comq.request.queue == []
      ensures comq.completion.queue == old(comq.completion.queue) + [command] + AllUnfinished(old(comq.request.queue))
    {
      hide HasId, AllUnfinished;
      state := StExit;
      comq.request.SetStatus(QueueClosed);
      comq.completion.Push(command);
      comq.SetCompletion();
    }

    /**
     * `eventLoop` on the requests queued at the start. The completions are the interpreter's results
     * in request order: of all requests if the loop sleeps or failed, up to and including the close
     * request if it was closed, and of the requests before the current one if that never comes back.
     * The results alone decide how the loop ends.
     */
    method EventLoop(env: Env) returns (exit: LoopExit, n: nat)
      requires Valid() && state == StBlocked && executed == [] && AllNew(comq.request.queue)
      requires comq.request.status == QueueReady
      modifies this, comq.request, comq.completion
      ensures Valid() && n <= |old(comq.request.queue)|
      ensures var p := Requests(old(comq.request.queue));
        comq.completion.queue == old(comq.completion.queue) + Answered(p, SyncRun(env, p), n)
      ensures var p := Requests(old(comq.request.queue));
        ExitFits(exit, n, p, SyncRun(env, p))
      ensures exit.Sleeping? || exit.FailedOut? ==> n == |old(comq.request.queue)| && comq.request.queue == []
      ensures exit.Sleeping? ==> state == StBlocked && comq.request.status == QueueReady
      ensures exit.FailedOut? ==> state == StExit && comq.request.status == QueueClosed
      ensures exit.Closed? ==> 0 < n && old(comq.request.queue)[n - 1].req.body.CloseContext? && state == StExit
      ensures exit.Closed? ==> comq.request.queue == old(comq.request.queue)[n..] && comq.request.status == QueueReady
      ensures exit.NeverBack? ==>
        && n < |old(comq.request.queue)| && comq.request.queue == old(comq.request.queue)[n + 1..]
        && comq.request.status == QueueReady && state == StRunning
    {
      hide After, SyncRun, LastOutcome, RunBody, HasId, Answered, AllUnfinished, Requests, AllOk, ExitFits;
      ghost var all := comq.request.queue;
      ghost var p := Requests(all);
      var total := |comq.request.queue|;
      n := 0;
      StartLive(env, p);
      assert old(comq.completion.queue) + Answered(p, SyncRun(env, p), 0) == old(comq.completion.queue);
      while state == StBlocked
        invariant Valid() && n <= |all| && comq.request.queue == all[n..] && comq.request.status == QueueReady
        invariant AllOk(p, SyncRun(env, p), n)
        invariant After(env, p[..n]) == Live && executed == p[..n] && state == StBlocked
        invariant comq.completion.queue == old(comq.completion.queue) + Answered(p, SyncRun(env, p), n)
        decreases |all| - n
      {
        EndsAtFirst(p, SyncRun(env, p), n);
        var popped := comq.request.Pop(0);
        if popped.Slept? {
          return Sleeping, n;
        }
        var command := popped.cmd;
        TurnOf(env, p, n);
        AnsweredNext(old(comq.completion.queue), p, SyncRun(env, p), n);
        TakeFront(all, n);
        if command.req.body.CloseContext? {
          state := StExit;
          comq.completion.Push(Finish(command, Outcome(0, CmdOk)));
          return Closed, n + 1;
        }
        var ran := Execute(env, command.req);
        if ran.None? {
          return NeverBack, n;
        }
        command := Finish(command, ran.value.outcome);
        if ran.value.rv != 0 {
          Fail(command);
          DrainedRest(env, all, n);
          return FailedOut, total;
        }
        comq.completion.Push(command);
        NextOk(p, SyncRun(env, p), n);
        n := n + 1;
      }
    }

    static lemma {:induction false} OnlyCallsHang(env: Env, executed: seq<Request>, req: Request)
      requires RunBody(env, executed, req).None? && !req.body.CloseContext?
      ensures req.body.VeCall?
    {
    }

    static lemma {:induction false} StartLive(env: Env, p: seq<Request>)
      ensures After(env, p[..0]) == Live && Answered(p, SyncRun(env, p), 0) == [] && AllOk(p, SyncRun(env, p), 0)
    {
    }
  }
}
