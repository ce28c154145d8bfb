/**
 * The exception handler of the pseudo thread: the system call filters, the handling of a single
 * exception and the loop that repeats it while the VE thread runs.
 */
module VeHandler {
  import opened Base

  datatype ContextState = StUnknown | StRunning | StSyscall | StBlocked | StExit

  /** System calls by name; the numbers are not needed, only which calls differ. */
  datatype Sysnum =
    | RtSigaction | RtSigreturn | Fork | Vfork | Execve | ExitThread | Wait4 | RtSigpending
    | RtSigtimedwait | RtSigsuspend | Sigaltstack | ExitGroup | Signalfd | Signalfd4
    | Clone | Sysve | OtherCall(num: nat)

  const VEO_BLOCK: nat := 0x14

  predicate DefaultFiltered(n: Sysnum) {
    n in {RtSigaction, RtSigreturn, Fork, Vfork, Execve, ExitThread, Wait4, RtSigpending,
          RtSigtimedwait, RtSigsuspend, Sigaltstack, ExitGroup, Signalfd, Signalfd4}
  }

  /** A system call request: the number and the first argument. */
  datatype Syscall = Syscall(num: Sysnum, arg0: nat)

  predicate IsVeoBlock(c: Syscall) {
    c.num == Sysve && c.arg0 == VEO_BLOCK
  }

  /** The exception status register: its value and the bits the handler looks at. */
  datatype Exs = Exs(value: nat, monc: bool, mont: bool, rdbg: bool, uncorrectable: bool, correctable: bool)

  /** What one `vedl_wait_exception` call gives. `Quiet` is a return without any exception bit. */
  datatype VeEvent =
    | Interrupted
    | WaitFailed(errno: int)
    | Quiet
    | Raised(exs: Exs, call: Syscall)

  datatype Filter = DefaultFilter | HookCloneFilter | ExitFilter

  datatype HandlerStatus = HsException | HsTerminated | HsBlockRequested | HsClone | HsExitGroup

  /** `break_flag`: `None` is zero. */
  type BreakFlag = Option<HandlerStatus>

  /** The context state, the calls passed to the real handler and the calls answered with ENOSYS. */
  datatype Machine = Machine(state: ContextState, handled: seq<Syscall>, refused: seq<Syscall>)

  predicate ErrorRaised(exs: Exs) {
    exs.mont || exs.uncorrectable || (exs.correctable && !(exs.monc || exs.rdbg))
  }

  /** Of the calls that are told apart, all but clone and sysve are on the list; no other call is. */
  lemma {:induction false} FilteredCalls(n: Sysnum)
    ensures DefaultFiltered(n) <==> n != Clone && n != Sysve && !n.OtherCall?
  {
    match n {
      case OtherCall(_) =>
      case _ =>
    }
  }

  /**
   * When an exception is an error: MONT or an uncorrectable one always, a correctable one unless it
   * comes with a system call or a debug stop; a system call or debug stop alone never.
   */
  lemma {:induction false} ErrorCases(x: Exs)
    ensures x.mont || x.uncorrectable ==> ErrorRaised(x)
    ensures x.correctable && !x.monc && !x.rdbg ==> ErrorRaised(x)
    ensures ErrorRaised(x) ==> x.mont || x.uncorrectable || x.correctable
    ensures !x.mont && !x.uncorrectable && (x.monc || x.rdbg) ==> !ErrorRaised(x)
  {
  }

  /** The calls a filter keeps away from the real system call handler. */
  predicate Intercepted(filter: Filter, c: Syscall) {
    || DefaultFiltered(c.num)
    || IsVeoBlock(c)
    || (filter.HookCloneFilter? && c.num == Clone)
  }

  function ApplyDefault(m: Machine, c: Syscall): (bool, BreakFlag, Machine) {
    if DefaultFiltered(c.num) then (true, None, m.(refused := m.refused + [c]))
    else if IsVeoBlock(c) then (true, Some(HsBlockRequested), m.(state := StBlocked))
    else (false, None, m)
  }

  function ApplyFilter(filter: Filter, m: Machine, c: Syscall): (bool, BreakFlag, Machine) {
    match filter
    case DefaultFilter => ApplyDefault(m, c)
    case HookCloneFilter => if c.num == Clone then (true, Some(HsClone), m) else ApplyDefault(m, c)
    case ExitFilter => if c.num == ExitGroup then (true, Some(HsExitGroup), m) else ApplyDefault(m, c)
  }

  /** What a filter has to do with a call, in words of the call alone; it determines the result. */
  lemma {:induction false} FilterDetermined(
    filter: Filter, m: Machine, c: Syscall, filtered: bool, flag: BreakFlag, m': Machine)
    requires filtered <==> Intercepted(filter, c)
    requires flag == Some(HsBlockRequested) <==> IsVeoBlock(c)
    requires flag == Some(HsClone) <==> filter == HookCloneFilter && c.num == Clone
    requires flag == Some(HsExitGroup) <==> filter == ExitFilter && c.num == ExitGroup
    requires flag.Some? ==> flag.value in {HsBlockRequested, HsClone, HsExitGroup}
    requires m'.handled == m.handled && m'.state == if IsVeoBlock(c) then StBlocked else m.state
    requires m'.refused == m.refused + if filtered && flag.None? then [c] else []
    ensures ApplyFilter(filter, m, c) == (filtered, flag, m')
  {
    var r := m.refused;
    assert r + [] == r;
  }

  /** One raised exception: the new machine and the handler status (`None` is zero). */
  function OnRaised(filter: Filter, m: Machine, exs: Exs, c: Syscall): (BreakFlag, Machine) {
    var (filtered, flag, m1) := if exs.monc then ApplyFilter(filter, m, c) else (true, None, m);
    var m2 := if filtered then m1 else m1.(state := StRunning, handled := m1.handled + [c]);
    (if ErrorRaised(exs) then Some(HsException) else flag, m2)
  }

  /** How the loop over a finite list of events ends; `Pending` waits for the next event. */
  datatype LoopResult =
    | Returned(status: HandlerStatus, exs: nat, m: Machine, rest: seq<VeEvent>)
    | Pending(m: Machine)
    | Threw(errno: int, m: Machine, rest: seq<VeEvent>)

  function HandlerLoop(filter: Filter, m: Machine, exs: nat, events: seq<VeEvent>): LoopResult
    decreases |events|
  {
    if m.state != StRunning then Returned(HsTerminated, exs, m, events)
    else if events == [] then Pending(m)
    else
      match events[0]
      case Interrupted => HandlerLoop(filter, m, exs, events[1..])
      case Quiet => HandlerLoop(filter, m, exs, events[1..])
      case WaitFailed(e) => Threw(e, m, events[1..])
      case Raised(x, c) =>
        var (status, m') := OnRaised(filter, m, x, c);
        match status
        case Some(st) => Returned(st, x.value, m', events[1..])
        case None => HandlerLoop(filter, m', x.value, events[1..])
  }

  /** The call that one event hands to the real handler, if any: an independent reading of the trace. */
  function PassedOnBy(filter: Filter, e: VeEvent): seq<Syscall> {
    if e.Raised? && e.exs.monc && !Intercepted(filter, e.call) then [e.call] else []
  }

  function PassedOn(filter: Filter, events: seq<VeEvent>): seq<Syscall> {
    if events == [] then [] else PassedOnBy(filter, events[0]) + PassedOn(filter, events[1..])
  }

  /** How many events the loop has not read. */
  function Unread(r: LoopResult): nat {
    if r.Pending? then 0 else |r.rest|
  }

  /**
   * Over every finite trace: a loop entered in RUNNING never reports TERMINATED, a BLOCK_REQUESTED
   * return means the state is BLOCKED, and the default filter only ever reports BLOCK_REQUESTED or
   * an exception.
   */
  lemma {:induction false} HandlerStatusTrace(filter: Filter, m: Machine, exs: nat, events: seq<VeEvent>)
    requires m.state == StRunning
    ensures var r := HandlerLoop(filter, m, exs, events);
      && (r.Returned? ==> r.status != HsTerminated)
      && (r.Returned? && r.status == HsBlockRequested ==> r.m.state == StBlocked)
      && (r.Returned? && filter.DefaultFilter? ==> r.status in {HsBlockRequested, HsException})
      && (!r.Returned? ==> r.m.state == StRunning)
      && Unread(r) <= |events|
    decreases |events|
  {
    if events != [] {
      match events[0] {
        case Interrupted => HandlerStatusTrace(filter, m, exs, events[1..]);
        case Quiet => HandlerStatusTrace(filter, m, exs, events[1..]);
        case WaitFailed(e) =>
        case Raised(x, c) =>
          var (status, m') := OnRaised(filter, m, x, c);
          if status.None? {
            HandlerStatusTrace(filter, m', x.value, events[1..]);
          }
      }
    }
  }

  lemma {:induction false} OnRaisedHandled(filter: Filter, m: Machine, x: Exs, c: Syscall)
    requires m.state == StRunning
    ensures OnRaised(filter, m, x, c).1.handled == m.handled + PassedOnBy(filter, Raised(x, c))
    ensures OnRaised(filter, m, x, c).0.None? ==> OnRaised(filter, m, x, c).1.state == StRunning
  {
  }

  lemma {:induction false} PassedOnSplit(filter: Filter, events: seq<VeEvent>, n: nat)
    requires 0 < n <= |events|
    ensures PassedOn(filter, events[..n]) == PassedOnBy(filter, events[0]) + PassedOn(filter, events[1..][..n - 1])
  {
    assert events[..n][1..] == events[1..][..n - 1];
  }

  /** Exactly the calls that no filter stops have reached the real handler, in the order raised. */
  lemma {:induction false} HandledTrace(filter: Filter, m: Machine, exs: nat, events: seq<VeEvent>)
    requires m.state == StRunning
    ensures var r := HandlerLoop(filter, m, exs, events);
      Unread(r) <= |events| &&
      r.m.handled == m.handled + PassedOn(filter, events[..|events| - Unread(r)])
    decreases |events|
  {
    hide OnRaised, ApplyFilter, ApplyDefault, Intercepted, PassedOn;
    var r := HandlerLoop(filter, m, exs, events);
    HandlerStatusTrace(filter, m, exs, events);
    PassedOnNone(filter);
    if events != [] {
      var tail := events[1..];
      match events[0] {
        case Interrupted => HandledTrace(filter, m, exs, tail);
        case Quiet => HandledTrace(filter, m, exs, tail);
        case WaitFailed(e) =>
        case Raised(x, c) =>
          OnRaisedHandled(filter, m, x, c);
          var (status, m') := OnRaised(filter, m, x, c);
          if status.None? {
            HandledTrace(filter, m', x.value, tail);
          }
      }
      PassedOnSplit(filter, events, |events| - Unread(r));
      assert tail[..0] == [];
    }
  }

  lemma {:induction false} PassedOnNone(filter: Filter)
    ensures PassedOn(filter, []) == []
  {
  }

  lemma {:induction false} PassedOnNotIntercepted(filter: Filter, events: seq<VeEvent>)
    ensures forall c :: c in PassedOn(filter, events) ==> !Intercepted(filter, c)
  {
    if events != [] {
      PassedOnNotIntercepted(filter, events[1..]);
    }
  }

  /**
   * The filtering law: whatever the VE side does, no call that the filters stop is ever passed to
   * the real system call handler by a handler loop entered in RUNNING.
   */
  lemma {:induction false} InterceptedNeverHandled(filter: Filter, exs: nat, events: seq<VeEvent>, c: Syscall)
    requires c in HandlerLoop(filter, Machine(StRunning, [], []), exs, events).m.handled
    ensures !DefaultFiltered(c.num)
    ensures !IsVeoBlock(c)
    ensures filter == HookCloneFilter ==> c.num != Clone
  {
    var m := Machine(StRunning, [], []);
    HandledTrace(filter, m, exs, events);
    var r := HandlerLoop(filter, m, exs, events);
    PassedOnNotIntercepted(filter, events[..|events| - Unread(r)]);
  }

  /** An event that ends the handler loop under the default filter: an error or a block request. */
  predicate Decisive(e: VeEvent) {
    e.Raised? && (ErrorRaised(e.exs) || (e.exs.monc && IsVeoBlock(e.call)))
  }

  /** The position of the first decisive event or failed wait, or the length of the trace. */
  function FirstDecisive(events: seq<VeEvent>): (i: nat)
    ensures i <= |events|
    ensures i < |events| ==> Decisive(events[i]) || events[i].WaitFailed?
    ensures forall j :: 0 <= j < i ==> !Decisive(events[j]) && !events[j].WaitFailed?
  {
    if events == [] || Decisive(events[0]) || events[0].WaitFailed? then 0
    else
      assert forall j :: 1 <= j < |events| ==> events[j] == events[1..][j - 1];
      1 + FirstDecisive(events[1..])
  }

  lemma {:induction false} OnRaisedDefault(m: Machine, x: Exs, c: Syscall)
    requires m.state == StRunning
    ensures OnRaised(DefaultFilter, m, x, c).0 ==
      if ErrorRaised(x) then Some(HsException) else if x.monc && IsVeoBlock(c) then Some(HsBlockRequested) else None
    ensures OnRaised(DefaultFilter, m, x, c).0.None? ==> OnRaised(DefaultFilter, m, x, c).1.state == StRunning
  {
  }

  /**
   * How a handler loop with the default filter ends, exactly: at the first decisive event, with an
   * exception if it raises an error and with BLOCK_REQUESTED otherwise, and with that event's EXS.
   */
  lemma {:induction false} DefaultLoopExact(m: Machine, exs: nat, events: seq<VeEvent>)
    requires m.state == StRunning
    ensures var i, r := FirstDecisive(events), HandlerLoop(DefaultFilter, m, exs, events);
      && (r.Pending? <==> i == |events|)
      && (r.Threw? <==> i < |events| && events[i].WaitFailed?)
      && (r.Threw? ==> r.errno == events[i].errno)
      && (r.Returned? ==> r.exs == events[i].exs.value)
      && (r.Returned? ==> r.status == if ErrorRaised(events[i].exs) then HsException else HsBlockRequested)
    decreases |events|
  {
    hide OnRaised;
    if events != [] {
      match events[0] {
        case Interrupted => DefaultLoopExact(m, exs, events[1..]);
        case Quiet => DefaultLoopExact(m, exs, events[1..]);
        case WaitFailed(_) =>
        case Raised(x, c) =>
          OnRaisedDefault(m, x, c);
          var (status, m') := OnRaised(DefaultFilter, m, x, c);
          if status.None? {
            DefaultLoopExact(m', x.value, events[1..]);
          }
      }
    }
  }

  // ----- the exact law for every filter -----

  /** The status with which an event ends the loop under a filter; `None` when the loop goes on. */
  function StopStatus(filter: Filter, e: VeEvent): BreakFlag {
    if !e.Raised? then None
    else if ErrorRaised(e.exs) then Some(HsException)
    else if !e.exs.monc then None
    else if IsVeoBlock(e.call) then Some(HsBlockRequested)
    else if filter == HookCloneFilter && e.call.num == Clone then Some(HsClone)
    else if filter == ExitFilter && e.call.num == ExitGroup then Some(HsExitGroup)
    else None
  }

  /** The position of the first failed wait or event that ends the loop, or the length of the trace. */
  function FirstStop(filter: Filter, events: seq<VeEvent>): (i: nat)
    ensures i <= |events|
    ensures i < |events| ==> StopStatus(filter, events[i]).Some? || events[i].WaitFailed?
    ensures forall j :: 0 <= j < i ==> StopStatus(filter, events[j]).None? && !events[j].WaitFailed?
  {
    if events == [] || StopStatus(filter, events[0]).Some? || events[0].WaitFailed? then 0
    else
      assert forall j :: 1 <= j < |events| ==> events[j] == events[1..][j - 1];
      1 + FirstStop(filter, events[1..])
  }

  /** The call of an event that is answered with ENOSYS: one of the list, unless the exit filter wants it. */
  function AnsweredBy(filter: Filter, e: VeEvent): seq<Syscall> {
    if e.Raised? && e.exs.monc && DefaultFiltered(e.call.num) && !(filter == ExitFilter && e.call.num == ExitGroup)
    then [e.call] else []
  }

  function AnsweredCalls(filter: Filter, events: seq<VeEvent>): seq<Syscall> {
    if events == [] then [] else AnsweredBy(filter, events[0]) + AnsweredCalls(filter, events[1..])
  }

  /** The machine after reading some events: the calls passed on, the calls answered, BLOCKED on a block request. */
  function AfterReading(filter: Filter, m: Machine, events: seq<VeEvent>): Machine {
    Machine(
      if exists i :: 0 <= i < |events| && BlocksThread(events[i]) then StBlocked else m.state,
      m.handled + PassedOn(filter, events),
      m.refused + AnsweredCalls(filter, events))
  }

  predicate BlocksThread(e: VeEvent) {
    e.Raised? && e.exs.monc && IsVeoBlock(e.call)
  }

  lemma {:induction false} OnRaisedExact(filter: Filter, m: Machine, x: Exs, c: Syscall)
    requires m.state == StRunning
    ensures var (status, m') := OnRaised(filter, m, x, c);
      && status == StopStatus(filter, Raised(x, c))
      && m'.refused == m.refused + AnsweredBy(filter, Raised(x, c))
      && m'.state == if BlocksThread(Raised(x, c)) then StBlocked else StRunning
  {
    assert m.refused + [] == m.refused;
  }

  lemma {:induction false} AfterReadingNext(filter: Filter, m: Machine, m': Machine, events: seq<VeEvent>, n: nat)
    requires 0 < n <= |events| && m.state == m'.state == StRunning && !BlocksThread(events[0])
    requires m'.handled == m.handled + PassedOnBy(filter, events[0])
    requires m'.refused == m.refused + AnsweredBy(filter, events[0])
    ensures AfterReading(filter, m, events[..n]) == AfterReading(filter, m', events[1..][..n - 1])
  {
    hide PassedOnBy, AnsweredBy, BlocksThread;
    var all, rest := events[..n], events[1..][..n - 1];
    assert all[1..] == rest && all[0] == events[0];
    assert forall i :: 0 < i < |all| ==> all[i] == rest[i - 1];
    assert forall i :: 0 <= i < |rest| ==> rest[i] == all[i + 1];
  }

  lemma {:induction false} AfterReadingOne(filter: Filter, m: Machine, e: VeEvent)
    ensures AfterReading(filter, m, [e]) ==
      Machine(if BlocksThread(e) then StBlocked else m.state,
              m.handled + PassedOnBy(filter, e), m.refused + AnsweredBy(filter, e))
  {
    hide PassedOnBy, AnsweredBy, BlocksThread;
    var s, calls, answers := [e], PassedOnBy(filter, e), AnsweredBy(filter, e);
    assert s[1..] == [] && s[0] == e && calls + [] == calls && answers + [] == answers;
    assert PassedOn(filter, s) == calls + PassedOn(filter, []);
    assert AnsweredCalls(filter, s) == answers + AnsweredCalls(filter, []);
  }

  lemma {:induction false} AfterReadingNone(filter: Filter, m: Machine)
    ensures AfterReading(filter, m, []) == m
  {
  }

  /** The result of a loop entered in RUNNING, read off the trace. */
  function LoopAnswer(filter: Filter, m: Machine, events: seq<VeEvent>): LoopResult {
    var i := FirstStop(filter, events);
    if i == |events| then Pending(AfterReading(filter, m, events))
    else if events[i].WaitFailed? then Threw(events[i].errno, AfterReading(filter, m, events[..i]), events[i + 1..])
    else
      Returned(StopStatus(filter, events[i]).value, events[i].exs.value, AfterReading(filter, m, events[..i + 1]),
               events[i + 1..])
  }

  /** An event that does not end the loop only moves it on. */
  lemma {:induction false} AnswerNext(filter: Filter, m: Machine, m': Machine, events: seq<VeEvent>)
    requires events != [] && StopStatus(filter, events[0]).None? && !events[0].WaitFailed?
    requires m.state == m'.state == StRunning && !BlocksThread(events[0])
    requires m'.handled == m.handled + PassedOnBy(filter, events[0])
    requires m'.refused == m.refused + AnsweredBy(filter, events[0])
    ensures LoopAnswer(filter, m, events) == LoopAnswer(filter, m', events[1..])
  {
    hide AfterReading, StopStatus, BlocksThread, PassedOnBy, AnsweredBy;
    var i := FirstStop(filter, events);
    var tail := events[1..];
    assert i == 1 + FirstStop(filter, tail);
    if i == |events| {
      AfterReadingNext(filter, m, m', events, |events|);
      assert events[..|events|] == events && tail[..|events| - 1] == tail;
    } else {
      assert tail[i - 1] == events[i] && tail[i..] == events[i + 1..];
      AfterReadingNext(filter, m, m', events, i);
      AfterReadingNext(filter, m, m', events, i + 1);
    }
  }

  lemma {:induction false} AnswerStops(filter: Filter, m: Machine, exs: nat, events: seq<VeEvent>)
    requires m.state == StRunning && events != []
    requires StopStatus(filter, events[0]).Some? || events[0].WaitFailed?
    ensures HandlerLoop(filter, m, exs, events) == LoopAnswer(filter, m, events)
  {
    hide OnRaised, StopStatus, BlocksThread, PassedOnBy, AnsweredBy, AfterReading;
    assert FirstStop(filter, events) == 0;
    assert events[..1] == [events[0]] && events[..0] == [];
    AfterReadingOne(filter, m, events[0]);
    AfterReadingNone(filter, m);
    StopsOnlyRaised(filter, events[0]);
    if events[0].Raised? {
      OnRaisedExact(filter, m, events[0].exs, events[0].call);
      OnRaisedHandled(filter, m, events[0].exs, events[0].call);
    }
  }

  lemma {:induction false} StopsOnlyRaised(filter: Filter, e: VeEvent)
    ensures StopStatus(filter, e).Some? ==> e.Raised?
    ensures StopStatus(filter, e).None? ==> !BlocksThread(e)
    ensures !e.Raised? ==> PassedOnBy(filter, e) == [] && AnsweredBy(filter, e) == []
  {
  }

  /**
   * How a handler loop ends, exactly, for every filter: at the first failed wait, or at the first event
   * that raises an error, is a block request, is clone under the clone hook or exit_group under the
   * exit filter. It returns the status this event names and its EXS; what was read up to then has
   * been passed on, answered or has blocked the thread; the rest is unread. Entered in any state other
   * than RUNNING the loop reports TERMINATED and reads nothing.
   */
  lemma {:induction false} LoopExact(filter: Filter, m: Machine, exs: nat, events: seq<VeEvent>)
    ensures HandlerLoop(filter, m, exs, events) ==
      if m.state == StRunning then LoopAnswer(filter, m, events) else Returned(HsTerminated, exs, m, events)
    decreases |events|, 1
  {
    hide OnRaised, StopStatus, BlocksThread, PassedOnBy, AnsweredBy, LoopAnswer;
    if m.state == StRunning {
      if events == [] {
        EmptyAnswer(filter, m);
      } else if StopStatus(filter, events[0]).Some? || events[0].WaitFailed? {
        AnswerStops(filter, m, exs, events);
      } else {
        LoopExactNext(filter, m, exs, events);
      }
    }
  }

  lemma {:induction false} EmptyAnswer(filter: Filter, m: Machine)
    ensures LoopAnswer(filter, m, []) == Pending(m)
  {
    AfterReadingNone(filter, m);
  }

  lemma {:induction false} LoopExactNext(filter: Filter, m: Machine, exs: nat, events: seq<VeEvent>)
    requires m.state == StRunning && events != []
    requires StopStatus(filter, events[0]).None? && !events[0].WaitFailed?
    ensures HandlerLoop(filter, m, exs, events) == LoopAnswer(filter, m, events)
    decreases |events|, 0
  {
    hide OnRaised, StopStatus, BlocksThread, PassedOnBy, AnsweredBy, LoopAnswer;
    StopsOnlyRaised(filter, events[0]);
    if events[0].Raised? {
      var x, c := events[0].exs, events[0].call;
      OnRaisedExact(filter, m, x, c);
      OnRaisedHandled(filter, m, x, c);
      var (_, m') := OnRaised(filter, m, x, c);
      AnswerNext(filter, m, m', events);
      LoopExact(filter, m', x.value, events[1..]);
    } else {
      AnswerNext(filter, m, m, events);
      LoopExact(filter, m, exs, events[1..]);
    }
  }

  /** What one pass of the handler over the remaining events of a context gives. */
  datatype SingleResult = Single(status: BreakFlag) | SingleThrew(errno: int) | SingleWaits

  /** The pseudo thread's view of its VE thread: `input` holds the events the driver will report. */
  class VeContext {
    var state: ContextState
    var handled: seq<Syscall>
    var refused: seq<Syscall>
    var exs: nat
    var input: seq<VeEvent>

    ghost function View(): Machine
      reads this
    {
      Machine(state, handled, refused)
    }

    constructor (events: seq<VeEvent>)
      ensures View() == Machine(StUnknown, [], []) && exs == 0 && input == events
    {
      state, handled, refused, exs, input := StUnknown, [], [], 0, events;
    }

    /**
     * Stops exactly the calls of the list and block requests. Only a block request breaks the loop
     * and changes the state; only a call of the list is answered with ENOSYS.
     */
    method FilterDefault(c: Syscall) returns (filtered: bool, flag: BreakFlag)
      modifies this`state, this`refused
      ensures filtered <==> Intercepted(DefaultFilter, c)
      ensures flag == Some(HsBlockRequested) <==> IsVeoBlock(c)
      ensures flag.Some? ==> flag.value == HsBlockRequested
      ensures state == if IsVeoBlock(c) then StBlocked else old(state)
      ensures refused == old(refused) + if filtered && flag.None? then [c] else []
    {
      flag := None;
      if DefaultFiltered(c.num) {
        refused := refused + [c];
        return true, flag;
      }
      if IsVeoBlock(c) {
        flag := Some(HsBlockRequested);
        state := StBlocked;
        return true, flag;
      }
      return false, flag;
    }

    /**
     * Stops exactly the intercepted calls. The break flag names the reason, a block request under
     * every filter; a stopped call that does not break the loop is answered with ENOSYS.
     */
    method RunFilter(filter: Filter, c: Syscall) returns (filtered: bool, flag: BreakFlag)
      modifies this`state, this`refused
      ensures filtered <==> Intercepted(filter, c)
      ensures flag == Some(HsBlockRequested) <==> IsVeoBlock(c)
      ensures flag == Some(HsClone) <==> filter == HookCloneFilter && c.num == Clone
      ensures flag == Some(HsExitGroup) <==> filter == ExitFilter && c.num == ExitGroup
      ensures flag.Some? ==> filtered && flag.value in {HsBlockRequested, HsClone, HsExitGroup}
      ensures state == if IsVeoBlock(c) then StBlocked else old(state)
      ensures refused == old(refused) + if filtered && flag.None? then [c] else []
    {
      if filter == HookCloneFilter && c.num == Clone {
        return true, Some(HsClone);
      }
      if filter == ExitFilter && c.num == ExitGroup {
        return true, Some(HsExitGroup);
      }
      filtered, flag := FilterDefault(c);
    }

    /** Waits for a real exception, retrying interrupted and empty waits, and handles it. */
    method HandleSingleException(filter: Filter) returns (r: SingleResult)
      requires state == StRunning
      modifies this
      ensures |input| <= |old(input)|
      ensures r.Single? ==> |input| < |old(input)|
      ensures match r
        case SingleWaits => old(HandlerLoop(filter, View(), exs, input)) == Pending(View())
        case SingleThrew(e) => old(HandlerLoop(filter, View(), exs, input)) == Threw(e, View(), input)
        case Single(Some(st)) => old(HandlerLoop(filter, View(), exs, input)) == Returned(st, exs, View(), input)
        case Single(None) => old(HandlerLoop(filter, View(), exs, input)) == HandlerLoop(filter, View(), exs, input)
    {
      while input != [] && (input[0].Interrupted? || input[0].Quiet?)
        invariant View() == old(View()) && exs == old(exs) && |input| <= |old(input)|
        invariant HandlerLoop(filter, View(), exs, input) == old(HandlerLoop(filter, View(), exs, input))
        decreases |input|
      {
        input := input[1..];
      }
      if input == [] {
        return SingleWaits;
      }
      var e := input[0];
      input := input[1..];
      if e.WaitFailed? {
        return SingleThrew(e.errno);
      }
      exs := e.exs.value;
      var flag: BreakFlag := None;
      if e.exs.monc {
        var filtered;
        ghost var before := View();
        filtered, flag := RunFilter(filter, e.call);
        FilterDetermined(filter, before, e.call, filtered, flag, View());
        if !filtered {
          state := StSyscall;
          handled := handled + [e.call];
          state := StRunning;
        }
      }
      if ErrorRaised(e.exs) {
        return Single(Some(HsException));
      }
      return Single(flag);
    }

    /** `exceptionHandler`: the result is the loop function applied to the state on entry. */
    method ExceptionHandler(filter: Filter) returns (r: SingleResult)
      modifies this
      ensures match r
        case SingleWaits => old(HandlerLoop(filter, View(), exs, input)) == Pending(View())
        case SingleThrew(e) => old(HandlerLoop(filter, View(), exs, input)) == Threw(e, View(), input)
        case Single(None) => false
        case Single(Some(st)) => old(HandlerLoop(filter, View(), exs, input)) == Returned(st, exs, View(), input)
    {
      while state == StRunning
        invariant HandlerLoop(filter, View(), exs, input) == old(HandlerLoop(filter, View(), exs, input))
        decreases |input|
      {
        r := HandleSingleException(filter);
        if r != Single(None) {
          return;
        }
      }
      return Single(Some(HsTerminated));
    }
  }
}
