/** Commands, the blocking queue they travel through and the request/completion queue pair. */
module CommandQueue {
  import opened Base

  /** The request id that no request ever gets. */
  const INVALID_ID: nat := TWO64 - 1

  datatype CommandStatus = CmdOk | CmdException | CmdError | CmdUnfinished

  /** What `setResult` stores in a command. */
  datatype Outcome = Outcome(retval: nat, status: CommandStatus)

  /** What a command does when the pseudo thread runs it. The payloads name the captured arguments. */
  datatype Body =
    | VeCall(target: nat)
    | MemTransfer(xfer: nat)
    | VhCall(func: nat)
    | CloseContext

  datatype Request = Request(id: nat, body: Body)

  /** `result` is `None` until `setResult` is called: the source leaves both fields uninitialised. */
  datatype Command = Command(req: Request, result: Option<Outcome>)

  datatype QueueStatus = QueueReady | QueueClosed

  const UNFINISHED: Outcome := Outcome(0, CmdUnfinished)

  predicate HasId(q: seq<Command>, id: nat) {
    exists i :: 0 <= i < |q| && q[i].req.id == id
  }

  /** The position of the first command with this id, or the length of the queue. */
  function FirstIndex(q: seq<Command>, id: nat): (r: nat)
    ensures r <= |q|
    ensures r < |q| ==> q[r].req.id == id
    ensures forall j :: 0 <= j < r ==> q[j].req.id != id
    ensures r < |q| <==> HasId(q, id)
  {
    if q == [] then 0
    else if q[0].req.id == id then 0
    else
      var r := 1 + FirstIndex(q[1..], id);
      assert forall j :: 1 <= j < |q| ==> q[j] == q[1..][j - 1];
      r
  }

  function Without(q: seq<Command>, i: nat): (r: seq<Command>)
    requires i < |q|
    ensures |r| == |q| - 1
    ensures multiset(r) + multiset{q[i]} == multiset(q)
  {
    assert q == q[..i] + [q[i]] + q[i + 1..];
    q[..i] + q[i + 1..]
  }

  function Finish(c: Command, o: Outcome): Command {
    c.(result := Some(o))
  }

  /** The queue content after every command got the result `UNFINISHED`. */
  function AllUnfinished(q: seq<Command>): (r: seq<Command>)
    ensures |r| == |q|
    ensures forall i :: 0 <= i < |q| ==> r[i] == Finish(q[i], UNFINISHED)
  {
    seq(|q|, i requires 0 <= i < |q| => Finish(q[i], UNFINISHED))
  }

  /** A thread asleep on the condition variable: in `pop` (`None`) or in `wait(id)` (`Some(id)`). */
  datatype Sleeper = Sleeper(tid: nat, wanted: Option<nat>)

  /** The result of one pass of a blocking loop: a command, or the thread went to sleep. */
  datatype Attempt = Got(cmd: Command) | Slept

  /**
   * The blocking queue. One method call is one critical section of the source: the loops of `pop`
   * and `wait` appear as one pass, which either takes a command or leaves the caller asleep.
   */
  class BlockingQueue {
    var queue: seq<Command>
    var status: QueueStatus
    var asleep: set<Sleeper>

    /** No lost wakeup: nobody sleeps while the thing they sleep for is in the queue. */
    ghost predicate Valid()
      reads this
    {
      forall s :: s in asleep ==>
        match s.wanted
        case None => queue == []
        case Some(id) => !HasId(queue, id)
    }

    constructor ()
      ensures Valid() && queue == [] && status == QueueReady && asleep == {}
    {
      queue, status, asleep := [], QueueReady, {};
    }

    method Push(cmd: Command)
      modifies this
      ensures Valid()
      ensures queue == old(queue) + [cmd] && asleep == {} && status == old(status)
    {
      queue := queue + [cmd];
      asleep := {};
    }

    method Pop(tid: nat) returns (r: Attempt)
      requires Valid()
      modifies this
      ensures Valid() && status == old(status)
      ensures old(queue) != [] ==>
        r == Got(old(queue)[0]) && queue == old(queue)[1..] && asleep == old(asleep)
      ensures old(queue) == [] ==>
        r == Slept && queue == [] && asleep == old(asleep) + {Sleeper(tid, None)}
    {
      if queue != [] {
        r := Got(queue[0]);
        queue := queue[1..];
      } else {
        r := Slept;
        asleep := asleep + {Sleeper(tid, None)};
      }
    }

    /** Takes the first command with this id out of the queue. Called with the lock held. */
    method TryFindNoLock(msgid: nat) returns (r: Option<Command>)
      requires Valid()
      modifies this`queue
      ensures Valid()
      ensures r.None? ==> !HasId(old(queue), msgid) && queue == old(queue)
      ensures r.Some? ==>
        var i := FirstIndex(old(queue), msgid);
        i < |old(queue)| && r.value == old(queue)[i] && queue == Without(old(queue), i)
    {
      var it := 0;
      while it < |queue|
        invariant 0 <= it <= |queue| && queue == old(queue)
        invariant forall j :: 0 <= j < it ==> queue[j].req.id != msgid
      {
        if queue[it].req.id == msgid {
          assert FirstIndex(queue, msgid) == it;
          r := Some(queue[it]);
          queue := Without(queue, it);
          assert forall j :: 0 <= j < |queue| ==> queue[j] in old(queue);
          return;
        }
        it := it + 1;
      }
      r := None;
    }

    method Wait(tid: nat, msgid: nat) returns (r: Attempt)
      requires Valid()
      modifies this
      ensures Valid() && status == old(status)
      ensures HasId(old(queue), msgid) ==>
        var i := FirstIndex(old(queue), msgid);
        r == Got(old(queue)[i]) && queue == Without(old(queue), i) && asleep == old(asleep)
      ensures !HasId(old(queue), msgid) ==>
        r == Slept && queue == old(queue) && asleep == old(asleep) + {Sleeper(tid, Some(msgid))}
    {
      var found := TryFindNoLock(msgid);
      match found
      case Some(c) =>
        r := Got(c);
      case None =>
        r := Slept;
        asleep := asleep + {Sleeper(tid, Some(msgid))};
    }

    method PopNoWait() returns (r: Option<Command>)
      requires Valid()
      modifies this`queue
      ensures Valid()
      ensures old(queue) == [] ==> r == None && queue == []
      ensures old(queue) != [] ==> r == Some(old(queue)[0]) && queue == old(queue)[1..]
    {
      if queue != [] {
        r := Some(queue[0]);
        queue := queue[1..];
      } else {
        r := None;
      }
    }

    method SetStatus(s: QueueStatus)
      modifies this`status
      ensures status == s
    {
      status := s;
    }
  }

  /** The queue pair between the callers and the pseudo thread. */
  class CommQueue {
    const request: BlockingQueue
    const completion: BlockingQueue

    ghost predicate Valid()
      reads this, request, completion
    {
      request != completion && request.Valid() && completion.Valid()
    }

    constructor ()
      ensures Valid() && fresh(request) && fresh(completion)
      ensures request.queue == [] && completion.queue == [] && request.status == QueueReady
    {
      request := new BlockingQueue();
      completion := new BlockingQueue();
    }

    /** Returns 0 when the request was queued and 1 when the queue was already closed. */
    method PushRequest(req: Command) returns (rv: int)
      requires Valid()
      modifies request
      ensures Valid() && request.status == old(request.status)
      ensures rv == 0 <==> old(request.status) == QueueReady
      ensures rv == 0 ==> request.queue == old(request.queue) + [req] && request.asleep == {}
      ensures rv != 0 ==> rv == 1 && request.queue == old(request.queue) && request.asleep == old(request.asleep)
    {
      if request.status == QueueReady {
        request.Push(req);
        return 0;
      }
      return 1;
    }

    /**
     * The shutdown drain. Run without interference it empties the request queue, keeps the order,
     * marks every drained command UNFINISHED and leaves nobody asleep if anything was drained.
     */
    method SetCompletion()
      requires Valid()
      modifies request`queue, completion
      ensures Valid()
      ensures request.queue == []
      ensures completion.queue == old(completion.queue) + AllUnfinished(old(request.queue))
      ensures old(request.queue) != [] ==> completion.asleep == {}
      ensures completion.status == old(completion.status)
    {
      ghost var all := request.queue;
      ghost var k := 0;
      while true
        invariant Valid()
        invariant 0 <= k <= |all| && request.queue == all[k..]
        invariant completion.queue == old(completion.queue) + AllUnfinished(all)[..k]
        invariant k > 0 ==> completion.asleep == {}
        invariant completion.status == old(completion.status)
        decreases |all| - k
      {
        var command := request.PopNoWait();
        if command.None? {
          assert AllUnfinished(all)[..k] == AllUnfinished(all);
          return;
        }
        completion.Push(Finish(command.value, UNFINISHED));
        assert AllUnfinished(all)[..k + 1] == AllUnfinished(all)[..k] + [AllUnfinished(all)[k]];
        k := k + 1;
      }
    }
  }
}
