# Verification of the veoffload host library

veoffload lets a program on the vector host (VH) run functions on a vector engine (VE). This project
models the host-side machinery of `libveo` in Dafny and proves what it promises:

- **The request/completion protocol** of a thread context. Any number of caller threads issue request
  ids, push commands to a blocking request queue and collect results by `callPeekResult` or
  `callWaitResult`; one pseudo thread runs the event loop that executes commands and publishes
  completions, and on a failure closes the queue and drains it. `Protocol.dfy` is a step system with
  one step per critical section or access to a shared variable (`req_mtx`, the mutex of each queue,
  the atomic queue status, `state`, `seq_no`), program counters for every thread, and sleepers on the
  condition variables as explicit state. `ProtocolInvariant.dfy` states one inductive invariant,
  `ProtocolSteps.dfy` and `ProtocolInductive.dfy` show that every step keeps it, `ProtocolRuns.dfy`
  carries it over runs with the help of `ProtocolFrames.dfy`, and `ProtocolTheorems.dfy` (safety),
  `ProtocolExecution.dfy` (answers and execution), `ProtocolCalls.dfy` (every call gets its answer, and
  what the answer says), `ProtocolShutdown.dfy` (the end of a context),
  `ProtocolProgress.dfy` (what can still complete and return), `ProtocolClosers.dfy` (waiters on close
  requests) and `ProtocolWitness.dfy` (example runs) draw the consequences. The yardstick is the
  synchronous interpreter of `Interpreter.dfy`.
- **The queue classes and the event loop as code** (`CommandQueue.dfy`, `EventLoop.dfy`) and the
  **request ids** (`RequestIds.dfy`); `ProtocolCode.dfy` shows that each class operation has the effect
  of the corresponding protocol steps.
- **The exception handler and system call filters** of the pseudo thread (`VeHandler.dfy`): a class
  whose methods mirror the code, proved against a function over traces of VE exceptions. The
  interpreter runs VE calls through that same function, so the event loop's guard rests on it.
- **Call-argument marshalling** (`Bytes.dfy`, `CallFrame.dfy`, `CallArguments.dfy`, `CalleeView.dfy`):
  the byte image of the VE call frame, built in place, compared with a direct description of the
  layout, read back from the callee's side, and copied out again.
- **The symbol cache and the socket name** (`SymbolCache.dfy`, `SocketName.dfy`).

How the model reads the source:

- The outside world answers a command as a function of the whole history of executed commands, so
  it may be any stateful VE process; every theorem is for all such worlds. A VE call is answered with
  a finite list of exceptions; if the handler does not return on it, the command never finishes.
- Protocol theorems are for runs in which `seq_no` was incremented at most 2^64 times. Ids repeat
  after that, so the bound is exact (`RequestIds.DistinctIff`).
- Some state components are history variables (`pushes`, `pos`, `issued`, `claimed`, `refused`,
  `delivered`, `closure`): steps write them and never read them. `PushOrderIs`, `RecordedExactly` and
  `ClosureMeaning` show that each says what the steps of the run did, and the main theorems are stated
  over those steps.
- A peek that comes after another thread's `callWaitResult` has claimed the id answers ERROR although
  the waiter's result is still to come (`ErrorBeforeFinalExists`). The exactly-once theorem therefore
  orders answers by claims.
- A command's handler is one step, so copying out the results of a VE call is part of running it. With
  `AnswerAfterExecution`, a caller that sees OK sees it after `copyout`, whose effect is `CollectOutputs`.
- Unfinished commands have no result in the model; the source leaves the two fields uninitialised.
- Every lemma carries `{:induction false}`: proofs by induction are written out, and no proof rests on
  automatic induction.

Where the documentation and the code differ, the code is modelled:

- `callVHAsync` is documented to return the invalid id when a request fails, but returns the id of a
  refused push (`RefusedNeverCompletes`, with the run of `RefusedCallPends`). A push is refused if and
  only if its status check comes after CLOSED was stored (`RefusedExactly`).
- `close` is documented to return zero. It can return exactly when its request was accepted, can still
  be completed, and nobody else has collected or is collecting the result (`CloseCanReturnIff`); then it
  returns zero (`AcceptedCloseReturnsZero`). So it hangs when it is refused (`RefusedCloseHangs`, with the
  run of `RefusedCloseExists`), when it is accepted and left behind by the drain (`StrandedCloseExists`),
  behind another close request or a call that never comes back, and when a peek or wait on its id gets
  the result first.

## Model

| member | source | states |
|---|---|---|
| CommandQueue.BlockingQueue.Push | src/libveo/Command.cpp:14-18 | appends at the end, wakes every sleeper, re-establishes the no-lost-wakeup invariant |
| CommandQueue.BlockingQueue.Pop | src/libveo/Command.cpp:27-37 | one pass of the loop: takes the front of a non-empty queue, otherwise the caller goes to sleep |
| CommandQueue.BlockingQueue.TryFindNoLock | src/libveo/Command.cpp:47-56 | takes exactly the first command with the id, keeps the order of the others, leaves the queue alone if there is none |
| CommandQueue.BlockingQueue.Wait | src/libveo/Command.cpp:63-71 | one pass of the loop: takes the command with the id or goes to sleep on it |
| CommandQueue.BlockingQueue.PopNoWait | src/libveo/Command.cpp:73-82 | takes the front command or reports an empty queue |
| CommandQueue.CommQueue.PushRequest | src/libveo/Command.cpp:89-96 | queues the request and returns 0 exactly when the status is READY, otherwise returns 1 and changes nothing |
| CommandQueue.CommQueue.SetCompletion | src/libveo/Command.cpp:118-127 | empties the request queue into the completion queue in order, every command marked (0, UNFINISHED) |
| VeHandler.VeContext.FilterDefault | src/libveo/ThreadContext.cpp:200-220 | stops exactly the listed calls and block requests; only a block request sets the break flag and BLOCKED, only a listed call is answered with ENOSYS, none is handled |
| VeHandler.VeContext.RunFilter | src/libveo/ThreadContext.cpp:236-269 | stops exactly the intercepted calls of each filter; the break flag is CLONE, EXIT_GROUP or BLOCK_REQUESTED exactly for its call; other stopped calls are answered with ENOSYS |
| VeHandler.VeContext.HandleSingleException | src/libveo/ThreadContext.cpp:119-187 | one exception, after retrying interrupted and empty waits, advances the trace function by one |
| VeHandler.VeContext.ExceptionHandler | src/libveo/ThreadContext.hpp:66-74 | the loop computes the trace function of the state on entry |
| VeHandler.HandlerStatusTrace | src/libveo/ThreadContext.hpp:66-74 | over every trace from RUNNING: never TERMINATED, BLOCK_REQUESTED implies BLOCKED, the default filter reports nothing but BLOCK_REQUESTED and exceptions |
| VeHandler.HandledTrace | src/libveo/ThreadContext.cpp:149-166 | exactly the calls no filter stops reach the real handler, in the order raised |
| VeHandler.InterceptedNeverHandled | src/libveo/ThreadContext.cpp:46-80 | no default-filtered call and no block request, and no clone under the clone hook, ever reaches the real handler |
| VeHandler.DefaultLoopExact | src/libveo/ThreadContext.cpp:167-186 | the loop ends exactly at the first error or block request of the trace, with that event's status and EXS |
| VeHandler.LoopExact | src/libveo/ThreadContext.cpp:119-187 | for every filter the loop ends exactly at the first failed wait, error, block request, hooked clone or awaited exit_group, with that event's status and EXS; up to it calls are passed on, answered or block the thread; in another state than RUNNING it reports TERMINATED |
| VeHandler.FilteredCalls | src/libveo/ThreadContext.cpp:46-61 | exactly the fourteen listed calls are filtered by default |
| VeHandler.ErrorCases | src/libveo/ThreadContext.cpp:167-168 | MONT and uncorrectable errors always end the loop, correctable ones unless they come with MONC or RDBG |
| Interpreter.CallOutcomeExact | src/libveo/ThreadContext.cpp:505-532 | a VE call finishes exactly when its trace has a decisive event: (return value, OK) for a clean block request, (EXS, EXCEPTION) for an error |
| Interpreter.TransferOutcomeExact | src/libveo/AsyncTransfer.cpp:24-28 | a transfer's result is its return value, OK exactly for zero and ERROR otherwise |
| Interpreter.VhOutcomeExact | src/libveo/ThreadContext.cpp:567-574 | a VH call's result is what the function returns, with status OK |
| Interpreter.ResultConveys | src/libveo/ThreadContext.cpp:425-447 | a result other than UNFINISHED is the outside world's answer to that command after all commands before it, for every kind of command |
| Interpreter.RunBodyFacts | src/libveo/ThreadContext.cpp:505-574 | return code zero exactly when the stored status is OK, and then the context is BLOCKED; VH commands cannot fail; the ERROR branch of a VE call is dead |
| Interpreter.SyncRunShape | src/libveo/ThreadContext.cpp:436-446 | after the first result that is not OK every later request gets (0, UNFINISHED) |
| EventLoop.ThreadContext.EventLoop | src/libveo/ThreadContext.cpp:425-447 | run alone, the loop publishes the interpreter's results in request order; the results alone decide whether it sleeps, fails, closes or never comes back, and state, queue and queue status are stated for each |
| ProtocolInductive.StepInv | src/libveo/ThreadContext.cpp:425-684 | every step of every thread keeps the protocol invariant |
| ProtocolRuns.RunInv | src/libveo/ThreadContext.cpp:425-684 | the invariant holds in every state of every run |
| ProtocolRuns.RecordedExactly | src/libveo/ThreadContext.cpp:641-684 | an id counts as issued, claimed, refused or delivered exactly when an earlier step of the run registered it, passed the wait test or returned it to a peek, found the queue closed, or handed out its result |
| ProtocolRuns.DeliveredOnce | src/libveo/ThreadContext.cpp:641-684 | over a whole run at most one step hands out the result of an id |
| ProtocolTheorems.SequentialRefinement | src/libveo/ThreadContext.cpp:425-447 | in every interleaving, a result given to a caller is the synchronous interpreter's result for the one accepted request with that id, all accepted requests run in push order |
| ProtocolTheorems.ErrorExactly | src/libveo/ThreadContext.cpp:641-647 | a peek or wait answers ERROR if and only if no earlier step issued the id, or an earlier wait passed its test or an earlier peek returned the result |
| ProtocolTheorems.ExactlyOnce | src/libveo/ThreadContext.cpp:641-684 | of two answers about an id: after a final one only ERROR, after an ERROR about an id issued before it never PENDING, before a PENDING only PENDING or ERROR from before the issue |
| ProtocolTheorems.WaiterKeepsCompletion | src/libveo/ThreadContext.cpp:668-684 | for an id that is not a close request's (exactly the safe ones, see WaiterKeepsIff): nobody was given the result of a thread past the rem_reqid check; once the request is processed the result is in the completion queue and the thread is awake |
| ProtocolTheorems.NobodyElseTakes | src/libveo/Command.cpp:47-71 | for such ids no step of another thread removes the result or moves the waiter, which is awake |
| ProtocolClosers.NobodyElseTakesIff | src/libveo/Command.cpp:47-71 | for a thread past the rem_reqid check whose result is in the completion queue: no enabled step of anybody else removes it if and only if the id is not a close request's |
| ProtocolClosers.WaiterKeepsIff | src/libveo/ThreadContext.cpp:668-684 | the result stays in the completion queue in every continuation until that thread takes it if and only if the id is not a close request's |
| ProtocolClosers.RunClosers | src/libveo/ThreadContext.cpp:478-490 | in every state, an accepted close request whose result nobody was given has its closing thread waiting for it |
| ProtocolTheorems.NoLostWakeup | src/libveo/Command.cpp:63-71 | nobody sleeps in wait(id) while id is in the queue, nor in pop while the queue is non-empty |
| ProtocolTheorems.Conservation | src/libveo/Command.cpp:14-127 | places (request queue, event loop, completion queue, peeking thread) plus delivering steps of the run are one for each pushed id and zero for every other; completions have their result |
| ProtocolTheorems.GuardNeverDrops | src/libveo/ThreadContext.cpp:388-446 | the loop never leaves through its guard; it ends only by failure, close or at start-up, always in EXIT; that it is entered in BLOCKED follows from the handler's trace |
| ProtocolTheorems.IdsDistinct | src/libveo/ThreadContext.hpp:82-90 | ids issued by any threads over a run are pairwise distinct and never the invalid id |
| ProtocolCalls.RequestGoesThrough | src/libveo/ThreadContext.cpp:505-577 | a request function begun in another state than EXIT stays on its way with its command until its thread pushes it or is refused; begun in EXIT it changes nothing |
| ProtocolCalls.RequestReturns | src/libveo/Command.cpp:89-96 | after push or refusal the thread is back at its caller, a closing thread waits for its own id or the invalid id |
| ProtocolCalls.WaitAnswered | src/libveo/ThreadContext.cpp:668-684 | a callWaitResult not answered ERROR is in the wait in every later state until its own thread is answered with the final result of the id |
| ProtocolCalls.CloseAnswered | src/libveo/ThreadContext.cpp:483-490 | close waits for its own id in every later state until it collects its completion |
| ProtocolCalls.PeekAnswered | src/libveo/ThreadContext.cpp:641-656 | a callPeekResult not answered ERROR is inside the call in every later state until its own thread is answered PENDING or with the final result |
| ProtocolCalls.PendingExactly | src/libveo/ThreadContext.cpp:648-655 | a peek past its test is answered PENDING if and only if no completion with the id is in the queue |
| ProtocolCalls.PeekFinalIfThere | src/libveo/ThreadContext.cpp:641-656 | if the completion is there when a peek passes its test and the id is not a close request's, the peek is answered with the final result |
| ProtocolCalls.PeekPendsIff | src/libveo/ThreadContext.cpp:641-656 | with the completion there, some continuation answers the peek PENDING if and only if the id is a close request's |
| ProtocolCalls.AnswerReturns | src/libveo/ThreadContext.cpp:641-684 | every answer leaves its thread idle, a peek releases req_mtx, and ERROR changes nothing |
| ProtocolCalls.AnswerConveys | src/libveo/ThreadContext.cpp:425-447 | in every run a final answer other than UNFINISHED carries what the outside world answered to that accepted request after the accepted requests before it |
| ProtocolCalls.StartExactly | src/libveo/ThreadContext.cpp:388-410 | the event loop is entered in BLOCKED if and only if the first decisive event of the starting thread is a clean block request; otherwise the thread ends in EXIT |
| ProtocolExecution.AnswerAfterExecution | src/libveo/ThreadContext.cpp:436-446 | a final answer is UNFINISHED if and only if no step of the run ends the command; any other status comes after the step that ended it |
| ProtocolShutdown.ClosureMeaning | src/libveo/ThreadContext.cpp:438-439 | the producers past the status check when CLOSED is stored are on record in every later state |
| ProtocolShutdown.StrandedWereInFlight | src/libveo/Command.cpp:89-96 | what is left in the request queue after the failure branch came from producers that read READY before CLOSED was stored |
| ProtocolShutdown.AtomicDrainLosesNothing | src/libveo/ThreadContext.cpp:437-443 | were check and push one step, the queue would end empty and every accepted request completed or delivered |
| ProtocolShutdown.AfterTheEnd | src/libveo/ThreadContext.cpp:436-447 | after failure, close or a failed start: the loop never moves, status is CLOSED only after a failure, the queue keeps exactly the accepted requests beyond those published by then |
| ProtocolShutdown.LeftBehindNeverCompletes | src/libveo/Command.cpp:118-127 | a request in the queue when the loop has ended stays there, never completes and never gets a final answer |
| ProtocolShutdown.StrandedExactly | src/libveo/Command.cpp:118-127 | once the drain has found the queue empty, the ids in the queue and the producers still past the check are together exactly the producers past the check at that pop, without overlap |
| ProtocolShutdown.NothingStrandedIff | src/libveo/Command.cpp:89-127 | the queue stays empty in every continuation if and only if no producer is between check and push when the drain finds it empty |
| ProtocolShutdown.DrainTerminates | src/libveo/Command.cpp:118-127 | after CLOSED is stored the loop pops at most queue length plus producers past the check plus one times, takes at most twice that many steps in all, and can always go on until it has ended |
| ProtocolShutdown.ExitIsFinal | src/libveo/ThreadContext.cpp:501-502 | once EXIT is stored the context stays in EXIT and the threads inside request functions only become fewer |
| ProtocolShutdown.RefusedExactly | src/libveo/Command.cpp:89-96 | a status check refuses the request if and only if CLOSED was stored earlier in the run; otherwise the producer goes on to push |
| ProtocolShutdown.RefusedNeverCompletes | src/libveo/ThreadContext.cpp:575-577 | a refused request, whose id callVHAsync still returns, is never pushed, never completes and never gets a final answer |
| ProtocolShutdown.RefusedCloseHangs | src/libveo/ThreadContext.cpp:486-488 | when the status check of a close request comes after CLOSED was stored, the thread waits for the invalid id in every later state |
| ProtocolShutdown.AcceptedCloseReturnsZero | src/libveo/ThreadContext.cpp:478-490 | a close that returns was pushed and not refused, and the completion it finds has return value zero |
| ProtocolProgress.CompletableIff | src/libveo/ThreadContext.cpp:425-447 | an accepted request can be completed in some continuation if and only if it has been, or the loop has not ended and the synchronous interpreter gives the request a result |
| ProtocolProgress.WaitCanReturnIff | src/libveo/Command.cpp:63-71 | a thread waiting for an accepted request can return in some continuation if and only if the request can be completed and nobody else has been given the result or holds it in a peek |
| ProtocolProgress.ResultCanReturnIff | src/libveo/ThreadContext.cpp:668-684 | callWaitResult on an accepted request other than a close request can return if and only if the request can be completed |
| ProtocolProgress.CloseCanReturnIff | src/libveo/ThreadContext.cpp:478-490 | close can return if and only if its request is among the accepted ones, can be completed, and nobody has collected or is collecting its result |
| ProtocolWitness.StrandedRequestExists | src/libveo/Command.cpp:91-92 | a run with two callers in which an accepted request is left behind by the drain |
| ProtocolWitness.StrandedCloseExists | src/libveo/ThreadContext.cpp:483-490 | a run in which close was accepted and can never return, its request being left behind by the drain |
| ProtocolWitness.RefusedCloseExists | src/libveo/ThreadContext.cpp:486-488 | a run in which the status check of a close request comes after CLOSED was stored |
| ProtocolWitness.RefusedCallPends | src/libveo/ThreadContext.cpp:575-577 | a run in which the push of a VH call is refused and a peek on its id answers PENDING |
| ProtocolWitness.ErrorBeforeFinalExists | src/libveo/ThreadContext.cpp:668-684 | a run in which a peek answers ERROR for a claimed id and the waiter later gets its result |
| ProtocolWitness.CloseCanTakeAWaitersResult | src/libveo/ThreadContext.cpp:483-488 | a run in which close takes the result of a caller that waits for the close request's id |
| ProtocolCode.PushRequest | src/libveo/Command.cpp:89-96 | takes the queues from one protocol state to the state after the status check and the push, or after the refusing check |
| ProtocolCode.Pop | src/libveo/Command.cpp:27-37 | one pass has the effect of the loop's pop step, sleeping included |
| ProtocolCode.PopNoWait | src/libveo/Command.cpp:73-82 | has the effect of the drain's pop step |
| ProtocolCode.PushCompletion | src/libveo/Command.cpp:103-106 | publishes the command and wakes every waiter, as the publishing steps do |
| ProtocolCode.Wait | src/libveo/Command.cpp:63-71 | one pass has the effect of the waiter's step: it takes the completion or sleeps |
| ProtocolCode.TryFind | src/libveo/Command.cpp:58-61 | has the effect of the peek's search step |
| ProtocolCode.IssueRequestID | src/libveo/ThreadContext.hpp:82-90 | has the effect of one fetch step, or two across the wraparound, and the registering step |
| RequestIds.IdSource.IssueRequestID | src/libveo/ThreadContext.hpp:82-90 | the next valid id, recorded in rem_reqid, in one round, or two across the wraparound |
| RequestIds.IdAtIs | src/libveo/ThreadContext.hpp:82-90 | the n-th id of a context in closed form |
| RequestIds.DistinctIff | include/ve_offload.h:32-32 | n issues in a row are pairwise distinct if and only if n is at most 2^64-1 |
| Bytes.RoundTripLE | src/libveo/CallArgs.cpp:35-41 | decoding undoes the little-endian image of every value that fits |
| CallArguments.SetValue | src/libveo/CallArgs.cpp:33-53 | the value's image, padded to eight bytes, at the offset; all other bytes kept |
| CallArguments.CallArgs.Set | src/libveo/CallArgs.cpp:219-225 | stores one argument, keeps the others, leaves skipped positions without argument |
| CallArguments.CallArgs.ComputeStackSize | src/libveo/CallArgs.cpp:283-287 | the size through the int accumulator is the true total reduced to 32 bits and sign-extended |
| CallArguments.CallArgs.PlaceArg | src/libveo/CallArgs.cpp:165-186 | appends the padded data, writes the slot from position 8 on, records the VE address, and alters no byte of the frame so far outside its own slot |
| CallArguments.CallArgs.GetStackImage | src/libveo/CallArgs.cpp:280-304 | the string built in place is the frame of the layout at the new stack pointer; addresses and copy flags are recorded |
| CallArguments.CallArgs.Setup | src/libveo/CallArgs.cpp:306-314 | the size assertion holds if and only if the frame is below 2^31 bytes; then the saved copy is the frame |
| CallArguments.CallArgs.GetRegVal | src/libveo/CallArgs.cpp:263-273 | the register values of the first eight arguments |
| CallArguments.CallArgs.CopyIn | src/libveo/CallArgs.cpp:316-326 | writes exactly the frame's bytes at the new stack pointer, or nothing |
| CallArguments.CallArgs.CopyOut | src/libveo/CallArgs.cpp:328-341 | fetches the frame and copies the OUT regions to their buffers in argument order |
| CallFrame.LayoutDisjoint | src/libveo/CallArgs.cpp:15-31 | slot i is at 176 + 8 i and a region follows the one before it; slots and regions are pairwise disjoint, at multiples of eight, inside [176, total) |
| CallFrame.ImageAt | src/libveo/CallArgs.cpp:15-31 | the finished frame holds each argument's slot and data at the offsets of the layout |
| CallFrame.UnusedBytesZero | src/libveo/CallArgs.cpp:280-304 | every byte of the frame that carries no data is zero: linkage area, register slots, upper bytes of narrow integers, OUT buffers, padding |
| CallFrame.EarlierBytesKept | src/libveo/CallArgs.cpp:297-302 | slots and data of the first k arguments are final once k arguments are placed |
| CalleeView.CalleeFindsAll | src/libveo/CallArgs.cpp:165-186 | after a performed copy-in the callee finds every argument: integers in their low bytes, doubles and floats exactly, buffers through the pointer |
| CalleeView.NarrowIntegers | src/libveo/CallArgs.cpp:69-85 | a negative narrow integer is sign-extended in a register and zero-padded in a stack slot |
| CalleeView.DoCall | src/libveo/ThreadContext.cpp:277-302 | aborts exactly for frames of 2^31 bytes or more; otherwise the first eight arguments are in the registers; with a transfer the frame is in VE memory, the callee finds every argument and no byte outside the frame changed; without one no byte changed and later arguments are found exactly when memory held them |
| CalleeView.ElisionExact | src/libveo/CallArgs.cpp:294-302 | when no argument asks for copy-in, skipping it is right for every VE memory if and only if no OUT-only buffer is at position 8 or later |
| CalleeView.ElisionFails | src/libveo/CallArgs.cpp:170-185 | for every length, nine arguments for which the pointer of an OUT buffer of that length never reaches the VE |
| CalleeView.CopyOutByte | src/libveo/CallArgs.cpp:195-202 | a host byte takes what VE memory holds for the last OUT or INOUT buffer containing it, overlapping or not; every other byte is kept |
| CalleeView.CopyOutCorrect | src/libveo/CallArgs.cpp:195-202 | if the OUT buffers do not overlap, each becomes what VE memory holds at its pointer |
| CalleeView.CollectOutputs | src/libveo/CallArgs.cpp:328-341 | the same of the copy-out code after a setup, byte by byte and per buffer |
| CalleeView.InOutUnchanged | src/libveo/CallArgs.cpp:316-341 | with a VE function that writes nothing, INOUT buffers come back unchanged |
| CalleeView.ReuseSameFrame | src/libveo/CallArgs.cpp:161-186 | frame, recorded addresses and copy flags do not depend on what earlier calls recorded in the arguments |
| CalleeView.FrameMoves | src/libveo/CallArgs.cpp:280-314 | frames at sp and sp+d differ only in pointer slots and pointer registers, which move by d modulo 2^64 |
| SymbolCache.SymbolTable.GetSym | src/libveo/ProcHandle.cpp:617-647 | cached answer, or the VE side's; only non-zero answers are stored; the two exceptions |
| SymbolCache.CacheTransparent | src/libveo/ProcHandle.cpp:626-646 | in every interleaving, failing lookups included, a lookup that returns gives the resolver's answer at that moment; a symbol known when it began is found; zero is never cached |
| SymbolCache.CallGetSym | src/libveo/ProcHandle.cpp:617-647 | one call has the effect of its steps in the interleaved model (lookup and read; lookup and failure; lookup, resolve and store) and returns what the last of them returns |
| SocketName.GetVeNodeNum | src/libveo/ProcHandle.cpp:51-64 | the loop computes the reading function, overflow of the int included |
| SocketName.NodeNumberExact | src/libveo/ProcHandle.cpp:51-64 | from any string the positional value of the digits before the first dot is read, unless it exceeds the largest int |
| SocketName.SocketRoundTrip | src/libveo/api.cpp:220-221 | for every directory and every non-negative int n, the number read from the socket path is n, without overflow |

## Left out

- Process creation, shared-memory setup, signal masks, ELF loading and `auxv` copying in `ProcHandle.cpp`: calls into VEOS without visible semantics.
- `_callOpenContext`, `handleCloneRequest`, `exitProc`: thread creation through foreign code; the protocol starts with the pseudo thread of an existing context.
- Use of a context after `veo_context_close`: the context object is deleted. The step system lets threads go on after the close handler, which only adds behaviour.
- `clear` of the argument list, C API wrappers, node lists, thread attributes, CPU choice and logging: single-branch logic.
- The tests for a null function or zero address at the head of the request functions: they return the invalid id without touching shared state.
- Weak memory: `state` is a plain variable read by other threads; the model treats its accesses as atomic.
- Exceptions thrown out of the event loop (a failing `vedl_wait_exception`): the command then never finishes and the run stops there for the event loop.
- Numbers of system calls (`ve_syscall_no.h` is not part of this model): calls are distinguished by name.
- Register bits of EXS are independent flags; their positions are defined in headers that are not part of this model.
- Failing `ve_send_data` or `ve_recv_data` inside `copyin` and `copyout`: the code ignores the result; the model transfers successfully.
- Floating-point arithmetic: doubles and floats are 8- and 4-byte patterns.
- WaiterKeepsCompletion: not for ids of close requests, for which the guarantee is false; `WaiterKeepsIff` gives the exact condition and `CloseCanTakeAWaitersResult` an example.
- NobodyElseTakes: not for ids of close requests; `NobodyElseTakesIff` gives the exact condition.
- WaitCanReturnIff: for requests that are accepted already; a wait for an id whose producer has not pushed yet depends on what that producer and others still push.
- CompletableIff: says what some continuation reaches; that a fair scheduler reaches it is not stated, except for the drain (`DrainTerminates`).
- Set: takes positions from 0 on; a negative position is undefined behaviour in the source.
- Setup: assumes a frame below 2^63 bytes, the most a string can hold.
- Pop: one pass of the blocking loop; the repetition after a wakeup is in the step system.
- Wait: one pass of the blocking loop; the repetition after a wakeup is in the step system.
- PushRequest: the class method does check and push without interference; the step system separates them.
- SetCompletion: the class method drains without interference; the interleaved drain is `StrandedExactly` and `DrainTerminates`.
- ComputeStackSize: the final sum is signed `int` addition in the source, whose overflow is undefined; the model lets it wrap.
- CacheTransparent: the source reads a found entry through an iterator after unlocking, which a concurrent insertion may invalidate; the model reads the entry.
- Host memory is not part of the protocol's state: that `copyout` is over when OK is answered is a matter of step order, not of bytes.
- Argument objects are values in the argument list, and host buffers are ranges of one host memory array, so overlapping buffers are covered but separate allocations are not told apart.
- Commands are values that move from queue to queue, as the unique pointers of the source do; object identity is not modelled.
- SocketName: strings do not contain the terminating NUL, and paths do not end with a slash.
