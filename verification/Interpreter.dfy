/**
 * What one command does when the pseudo thread runs it, and the synchronous interpreter: the same
 * commands run one after the other by one thread, with no queue and no concurrency.
 */
module Interpreter {
  import opened Base
  import opened CommandQueue
  import opened VeHandler

  /** What the outside world answers to one command: VE exceptions, a return value, a transfer result. */
  datatype Raw = Raw(events: seq<VeEvent>, retval: nat, transfer: int)

  /**
   * The outside world. It answers the last command of a history, so it may remember everything that
   * was run before; every stateful VE process is such a function.
   */
  type Env = seq<Request> -> Raw

  /** The handler's return code, the result it stored and the context state it left. */
  datatype Ran = Ran(rv: int, outcome: Outcome, ctx: ContextState)

  /** Runs a call, transfer or VH command; `None` when the VE function never comes back. */
  function RunBody(env: Env, executed: seq<Request>, req: Request): Option<Ran> {
    var raw := env(executed + [req]);
    match req.body
    case VeCall(_) =>
      (match HandlerLoop(DefaultFilter, Machine(StRunning, [], []), 0, raw.events)
       case Returned(status, exs, m, _) =>
         if status == HsBlockRequested then Some(Ran(0, Outcome(U64(raw.retval), CmdOk), m.state))
         else if status == HsException then Some(Ran(1, Outcome(U64(exs), CmdException), m.state))
         else Some(Ran(1, Outcome(0, CmdError), m.state))
       case Pending(_) => None
       case Threw(_, _, _) => None)
    case MemTransfer(_) =>
      Some(Ran(raw.transfer, Outcome(U64(raw.transfer), if raw.transfer == 0 then CmdOk else CmdError), StBlocked))
    case VhCall(_) =>
      Some(Ran(0, Outcome(U64(raw.retval), CmdOk), StBlocked))
    case CloseContext => None
  }

  /**
   * A command that reports success leaves the context BLOCKED, the return code is zero exactly when
   * the stored status is OK, a VH command cannot fail and the ERROR branch of a VE call is dead.
   */
  lemma {:induction false} RunBodyFacts(env: Env, executed: seq<Request>, req: Request)
    requires RunBody(env, executed, req).Some?
    ensures var r := RunBody(env, executed, req).value;
      && (r.rv == 0 ==> r.ctx == StBlocked)
      && (r.rv == 0 <==> r.outcome.status == CmdOk)
      && (req.body.VhCall? ==> r.rv == 0)
      && (req.body.VeCall? ==> r.outcome.status != CmdError)
      && r.outcome.status != CmdUnfinished
  {
    var raw := env(executed + [req]);
    HandlerStatusTrace(DefaultFilter, Machine(StRunning, [], []), 0, raw.events);
  }

  /**
   * The result of a VE call, read off the trace: it finishes exactly when the VE side gets to a
   * decisive event, with (return value, OK) for a clean block request and (EXS, EXCEPTION) for an
   * error.
   */
  lemma {:induction false} CallOutcomeExact(env: Env, executed: seq<Request>, req: Request)
    requires req.body.VeCall?
    ensures var raw := env(executed + [req]);
      var i := FirstDecisive(raw.events);
      var ran := RunBody(env, executed, req);
      && (ran.Some? <==> i < |raw.events| && raw.events[i].Raised?)
      && (ran.Some? && ErrorRaised(raw.events[i].exs) ==>
            ran.value.rv == 1 && ran.value.outcome == Outcome(U64(raw.events[i].exs.value), CmdException))
      && (ran.Some? && !ErrorRaised(raw.events[i].exs) ==>
            ran.value == Ran(0, Outcome(U64(raw.retval), CmdOk), StBlocked))
  {
    var raw := env(executed + [req]);
    var m := Machine(StRunning, [], []);
    DefaultLoopExact(m, 0, raw.events);
    HandlerStatusTrace(DefaultFilter, m, 0, raw.events);
  }

  /** A transfer always finishes: its result is the transfer's, and its status says whether that is zero. */
  lemma {:induction false} TransferOutcomeExact(env: Env, executed: seq<Request>, req: Request)
    requires req.body.MemTransfer?
    ensures var t := env(executed + [req]).transfer;
      var status := if t == 0 then CmdOk else CmdError;
      RunBody(env, executed, req) == Some(Ran(t, Outcome(U64(t), status), StBlocked))
  {
  }

  /** A VH call always finishes, with what the function returns and status OK. */
  lemma {:induction false} VhOutcomeExact(env: Env, executed: seq<Request>, req: Request)
    requires req.body.VhCall?
    ensures var retval := env(executed + [req]).retval;
      RunBody(env, executed, req) == Some(Ran(0, Outcome(U64(retval), CmdOk), StBlocked))
  {
  }

  /** The result that the answer of the outside world stands for, by the kind of command. */
  predicate Conveys(raw: Raw, body: Body, o: Outcome) {
    match body
    case VeCall(_) =>
      var i := FirstDecisive(raw.events);
      && i < |raw.events| && raw.events[i].Raised?
      && (if ErrorRaised(raw.events[i].exs) then o == Outcome(U64(raw.events[i].exs.value), CmdException)
          else o == Outcome(U64(raw.retval), CmdOk))
    case MemTransfer(_) =>
      o.retval == U64(raw.transfer) && o.status == if raw.transfer == 0 then CmdOk else CmdError
    case VhCall(_) => o.retval == U64(raw.retval) && o.status == CmdOk
    case CloseContext => o.retval == 0 && o.status == CmdOk
  }

  lemma {:induction false} RunConveys(env: Env, executed: seq<Request>, req: Request)
    requires RunBody(env, executed, req).Some?
    ensures Conveys(env(executed + [req]), req.body, RunBody(env, executed, req).value.outcome)
  {
    match req.body {
      case VeCall(_) => CallOutcomeExact(env, executed, req);
      case MemTransfer(_) => TransferOutcomeExact(env, executed, req);
      case VhCall(_) => VhOutcomeExact(env, executed, req);
      case CloseContext =>
    }
  }

  /** The interpreter accepts commands, has failed, or will never get to the next command. */
  datatype Mode = Live | Failed | Stopped

  function After(env: Env, p: seq<Request>): Mode
    decreases |p|
  {
    if p == [] then Live
    else
      var before, last := p[..|p| - 1], p[|p| - 1];
      match After(env, before)
      case Failed => Failed
      case Stopped => Stopped
      case Live =>
        if last.body.CloseContext? then Stopped
        else
          match RunBody(env, before, last)
          case None => Stopped
          case Some(r) => if r.rv == 0 then Live else Failed
  }

  /** The result of the last command of the list; `None` if it never gets one. */
  function LastOutcome(env: Env, p: seq<Request>): Option<Outcome>
    requires p != []
  {
    var before, last := p[..|p| - 1], p[|p| - 1];
    match After(env, before)
    case Failed => Some(UNFINISHED)
    case Stopped => None
    case Live =>
      if last.body.CloseContext? then Some(Outcome(0, CmdOk))
      else
        match RunBody(env, before, last)
        case None => None
        case Some(r) => Some(r.outcome)
  }

  /** The synchronous interpreter: the results of the whole list. */
  function SyncRun(env: Env, p: seq<Request>): (r: seq<Option<Outcome>>)
    ensures |r| == |p|
    decreases |p|
  {
    if p == [] then [] else SyncRun(env, p[..|p| - 1]) + [LastOutcome(env, p)]
  }

  /** The result of command `k` as the protocol proofs use it. */
  function Expected(env: Env, p: seq<Request>, k: nat): Option<Outcome>
    requires k < |p|
  {
    LastOutcome(env, p[..k + 1])
  }

  lemma {:induction false} SyncRunAt(env: Env, p: seq<Request>, k: nat)
    requires k < |p|
    ensures SyncRun(env, p)[k] == Expected(env, p, k)
    decreases |p|
  {
    if k < |p| - 1 {
      SyncRunAt(env, p[..|p| - 1], k);
      assert p[..|p| - 1][..k + 1] == p[..k + 1];
    } else {
      assert p[..k + 1] == p;
    }
  }

  /** Results already due do not change when more commands are accepted. */
  lemma {:induction false} ExpectedStable(env: Env, p: seq<Request>, r: Request)
    ensures forall k :: 0 <= k <= |p| ==> (p + [r])[..k] == p[..k]
    ensures forall k :: 0 <= k < |p| ==> Expected(env, p + [r], k) == Expected(env, p, k)
  {
    forall k | 0 <= k < |p| ensures Expected(env, p + [r], k) == Expected(env, p, k) {
      assert (p + [r])[..k + 1] == p[..k + 1];
    }
  }

  lemma {:induction false} AfterFailed(env: Env, p: seq<Request>, i: nat, j: nat)
    requires i <= j <= |p| && After(env, p[..i]) == Failed
    ensures After(env, p[..j]) == Failed
    decreases j
  {
    if i < j {
      AfterFailed(env, p, i, j - 1);
      assert p[..j][..j - 1] == p[..j - 1];
    }
  }

  lemma {:induction false} AfterStopped(env: Env, p: seq<Request>, i: nat, j: nat)
    requires i <= j <= |p| && After(env, p[..i]) == Stopped
    ensures After(env, p[..j]) == Stopped
    decreases j
  {
    hide RunBody;
    if i < j {
      AfterStopped(env, p, i, j - 1);
      assert p[..j][..j - 1] == p[..j - 1];
    }
  }

  /** While a later command still has a result, the current one comes back, or is the close request asked about. */
  lemma {:induction false} ComesBack(env: Env, p: seq<Request>, d: nat, k: nat)
    requires d <= k < |p| && After(env, p[..d]) == Live && SyncRun(env, p)[k].Some?
    ensures p[d].body.CloseContext? ==> k == d
    ensures !p[d].body.CloseContext? ==> RunBody(env, p[..d], p[d]).Some?
  {
    hide RunBody, SyncRun;
    SyncRunAt(env, p, k);
    assert p[..d + 1][..d] == p[..d] && p[..k + 1][..k] == p[..k];
    if k > d && After(env, p[..d + 1]) == Stopped {
      AfterStopped(env, p, d + 1, k);
    }
  }

  /**
   * A result other than UNFINISHED is what the outside world answered to this command after all the
   * commands before it, in order.
   */
  lemma {:induction false} ResultConveys(env: Env, p: seq<Request>, k: nat)
    requires k < |p| && SyncRun(env, p)[k].Some? && SyncRun(env, p)[k].value.status != CmdUnfinished
    ensures Conveys(env(p[..k + 1]), p[k].body, SyncRun(env, p)[k].value)
  {
    hide RunBody, SyncRun, FirstDecisive;
    SyncRunAt(env, p, k);
    assert p[..k + 1][..k] == p[..k] && p[..k] + [p[k]] == p[..k + 1];
    if !p[k].body.CloseContext? {
      RunConveys(env, p[..k], p[k]);
    }
  }

  /** A result other than OK, or UNFINISHED after an earlier one, means the interpreter has failed. */
  lemma {:induction false} NotOkFails(env: Env, p: seq<Request>)
    requires p != [] && LastOutcome(env, p).Some? && LastOutcome(env, p).value.status != CmdOk
    ensures After(env, p) == Failed
  {
    var before, last := p[..|p| - 1], p[|p| - 1];
    if RunBody(env, before, last).Some? {
      RunBodyFacts(env, before, last);
    }
  }

  /**
   * The shape of a run: after the first command whose status is not OK, every further command gets
   * `(0, UNFINISHED)`, whatever it is.
   */
  lemma {:induction false} SyncRunShape(env: Env, p: seq<Request>, i: nat, j: nat)
    requires i < j < |p|
    requires SyncRun(env, p)[i].Some? && SyncRun(env, p)[i].value.status != CmdOk
    ensures SyncRun(env, p)[j] == Some(Outcome(0, CmdUnfinished))
  {
    SyncRunAt(env, p, i);
    NotOkFails(env, p[..i + 1]);
    AfterFailed(env, p, i + 1, j);
    UnfinishedAfterFailure(env, p, j);
    SyncRunAt(env, p, j);
  }

  lemma {:induction false} UnfinishedAfterFailure(env: Env, p: seq<Request>, j: nat)
    requires j < |p| && After(env, p[..j]) == Failed
    ensures Expected(env, p, j) == Some(UNFINISHED)
  {
    assert p[..j + 1][..j] == p[..j];
  }
}
