/** Issuing request ids from the wrapping 64-bit sequence number. */
module RequestIds {
  import opened Base
  import opened CommandQueue

  /** One atomic fetch-and-add gives `seqNo` and leaves this. */
  function Bump(seqNo: nat): nat {
    (seqNo + 1) % TWO64
  }

  /** The id issued from a sequence number: the invalid value is skipped. */
  function NextId(seqNo: nat): nat {
    if seqNo == INVALID_ID then Bump(seqNo) else seqNo
  }

  /** The id sequence of one context and the set of ids whose result is still to be collected. */
  class IdSource {
    var seqNo: nat
    var rem: set<nat>

    ghost predicate Valid()
      reads this
    {
      seqNo < TWO64
    }

    constructor ()
      ensures Valid() && seqNo == 0 && rem == {}
    {
      seqNo, rem := 0, {};
    }

    /** `issueRequestID`, not interleaved: it takes one or two rounds, two only across the wraparound. */
    method IssueRequestID() returns (ret: nat, rounds: nat)
      requires Valid()
      modifies this
      ensures Valid() && ret == NextId(old(seqNo)) && seqNo == Bump(ret)
      ensures ret != INVALID_ID && rem == old(rem) + {ret}
      ensures rounds == if old(seqNo) == INVALID_ID then 2 else 1
    {
      ret := INVALID_ID;
      rounds := 0;
      while ret == INVALID_ID
        invariant Valid() && rem == old(rem)
        invariant rounds == 0 ==> ret == INVALID_ID && seqNo == old(seqNo)
        invariant rounds > 0 && ret == INVALID_ID ==> rounds == 1 && old(seqNo) == INVALID_ID && seqNo == 0
        invariant ret != INVALID_ID ==> ret == NextId(old(seqNo)) && seqNo == Bump(ret)
        invariant ret != INVALID_ID ==> rounds == if old(seqNo) == INVALID_ID then 2 else 1
        decreases if ret == INVALID_ID then 2 - rounds else 0
      {
        ret := seqNo;
        seqNo := Bump(seqNo);
        rounds := rounds + 1;
      }
      rem := rem + {ret};
    }
  }

  /** The sequence number after `n` issues. */
  function SeqAfter(start: nat, n: nat): nat {
    if n == 0 then start else Bump(NextId(SeqAfter(start, n - 1)))
  }

  /** The `n`-th id issued. */
  function IdAt(start: nat, n: nat): nat {
    NextId(SeqAfter(start, n))
  }

  lemma {:induction false} ModStep(a: nat)
    ensures (a + 1) % INVALID_ID == if a % INVALID_ID + 1 == INVALID_ID then 0 else a % INVALID_ID + 1
  {
  }

  lemma {:induction false} NextAfter(id: nat)
    requires id < INVALID_ID
    ensures NextId(Bump(id)) == if id + 1 == INVALID_ID then 0 else id + 1
  {
  }

  lemma {:induction false} FirstId(start: nat)
    requires start < TWO64
    ensures NextId(start) < INVALID_ID && NextId(start) % INVALID_ID == NextId(start)
  {
  }

  /** The ids run through 0 .. 2^64-2 in order, again and again. */
  lemma {:induction false} IdAtIs(start: nat, n: nat)
    requires start < TWO64
    ensures IdAt(start, n) == (NextId(start) + n) % INVALID_ID
    ensures IdAt(start, n) < INVALID_ID
  {
    hide NextId, Bump;
    FirstId(start);
    if n > 0 {
      IdAtIs(start, n - 1);
      NextAfter(IdAt(start, n - 1));
      ModStep(NextId(start) + n - 1);
    }
  }

  lemma {:induction false} ModSum(a: nat, d: nat)
    ensures var r := a % INVALID_ID + d % INVALID_ID;
      (a + d) % INVALID_ID == if r < INVALID_ID then r else r - INVALID_ID
  {
    var q, r := a / INVALID_ID + d / INVALID_ID, a % INVALID_ID + d % INVALID_ID;
    if r < INVALID_ID {
      RemainderIs(a + d, q, r);
    } else {
      RemainderIs(a + d, q + 1, r - INVALID_ID);
    }
  }

  lemma {:induction false} RemainderIs(x: nat, q: nat, r: nat)
    requires x == INVALID_ID * q + r && r < INVALID_ID
    ensures x % INVALID_ID == r
  {
  }

  /** When two issues give the same id. */
  lemma {:induction false} SameIdIff(start: nat, i: nat, j: nat)
    requires start < TWO64 && i <= j
    ensures IdAt(start, i) == IdAt(start, j) <==> (j - i) % INVALID_ID == 0
  {
    hide IdAt, NextId;
    IdAtIs(start, i);
    IdAtIs(start, j);
    ModSum(NextId(start) + i, j - i);
  }

  /** `n` issues in a row are pairwise distinct exactly when there are at most 2^64-1 of them. */
  lemma {:induction false} DistinctIff(start: nat, n: nat)
    requires start < TWO64
    ensures n <= 0xFFFF_FFFF_FFFF_FFFF <==> forall i: nat, j: nat :: i < j < n ==> IdAt(start, i) != IdAt(start, j)
  {
    if n <= INVALID_ID {
      forall i: nat, j: nat | i < j < n ensures IdAt(start, i) != IdAt(start, j) {
        SameIdIff(start, i, j);
      }
    } else {
      SameIdIff(start, 0, INVALID_ID);
      assert 0 < INVALID_ID < n && IdAt(start, 0) == IdAt(start, INVALID_ID);
    }
  }
}
