/** The symbol cache of a process handle, alone and under concurrent lookups. */
module SymbolCache {
  import opened Base

  const SYMNAME_LEN_MAX: nat := 255

  datatype Key = Key(lib: nat, name: string)

  /** What `getSym` gives its caller; `NameTooLong` and `LookupFailed` are the two exceptions. */
  datatype Found = Address(value: nat) | NameTooLong | LookupFailed

  class SymbolTable {
    var symName: map<Key, nat>

    constructor ()
      ensures symName == map[]
    {
      symName := map[];
    }

    /**
     * `getSym` without interference. `answer` is what the VE side answers if asked: `None` when the
     * request itself fails, zero when there is no such symbol.
     */
    method GetSym(lib: nat, name: string, answer: Option<nat>) returns (r: Found)
      modifies this
      ensures |name| > SYMNAME_LEN_MAX <==> r == NameTooLong
      ensures |name| <= SYMNAME_LEN_MAX && Key(lib, name) in old(symName) ==> r == Address(old(symName)[Key(lib, name)])
      ensures |name| <= SYMNAME_LEN_MAX && Key(lib, name) !in old(symName) ==>
        r == (if answer.Some? then Address(answer.value) else LookupFailed)
      ensures symName ==
        if |name| <= SYMNAME_LEN_MAX && Key(lib, name) !in old(symName) && answer.Some? && answer.value != 0
        then old(symName)[Key(lib, name) := answer.value] else old(symName)
    {
      if |name| > SYMNAME_LEN_MAX {
        return NameTooLong;
      }
      var key := Key(lib, name);
      if key in symName {
        return Address(symName[key]);
      }
      if answer.None? {
        return LookupFailed;
      }
      if answer.value == 0 {
        return Address(0);
      }
      symName := symName[key := answer.value];
      return Address(answer.value);
    }
  }

  // ----- concurrent lookups -----

  /**
   * A looking-up thread. `known` is history: what the resolver knew about the key when the lookup
   * began.
   */
  datatype SymPc =
    | Idle
    | Hit(key: Key, known: Option<nat>)                    // found in the cache, mutex released, value not yet read
    | Missed(key: Key, known: Option<nat>)                 // not in the cache, about to ask the VE side
    | Resolved(key: Key, known: Option<nat>, addr: nat)    // non-zero answer, about to store it

  /** `table` is the resolver: the symbols the VE side knows, an absent key answers zero. */
  datatype SymState = SymState(cache: map<Key, nat>, table: map<Key, nat>, threads: seq<SymPc>)

  datatype SymStep =
    | Appear(key: Key, addr: nat)      // a symbol becomes known, for example when a library is loaded
    | Lookup(t: nat, key: Key)
    | ReadHit(t: nat)
    | Resolve(t: nat)
    | Fail(t: nat)                     // the request to the VE side fails, getSym throws
    | Store(t: nat)

  function Answer(table: map<Key, nat>, key: Key): Option<nat> {
    if key in table then Some(table[key]) else None
  }

  predicate SymEnabled(s: SymState, step: SymStep) {
    match step
    case Appear(key, addr) => key !in s.table && addr != 0
    case Lookup(t, _) => t < |s.threads| && s.threads[t].Idle?
    case ReadHit(t) => t < |s.threads| && s.threads[t].Hit?
    case Resolve(t) => t < |s.threads| && s.threads[t].Missed?
    case Fail(t) => t < |s.threads| && s.threads[t].Missed?
    case Store(t) => t < |s.threads| && s.threads[t].Resolved?
  }

  function SymApply(s: SymState, step: SymStep): SymState
    requires SymEnabled(s, step)
  {
    match step
    case Appear(key, addr) => s.(table := s.table[key := addr])
    case Lookup(t, key) =>
      var known := Answer(s.table, key);
      s.(threads := s.threads[t := if key in s.cache then Hit(key, known) else Missed(key, known)])
    case ReadHit(t) => s.(threads := s.threads[t := Idle])
    case Resolve(t) =>
      var pc := s.threads[t];
      s.(threads := s.threads[t := if pc.key in s.table then Resolved(pc.key, pc.known, s.table[pc.key]) else Idle])
    case Fail(t) => s.(threads := s.threads[t := Idle])
    case Store(t) =>
      var pc := s.threads[t];
      s.(cache := s.cache[pc.key := pc.addr], threads := s.threads[t := Idle])
  }

  /** The key and the value a step returns to its caller; a failing lookup returns nothing. */
  function Returns(s: SymState, step: SymStep): Option<(Key, Option<nat>, nat)>
    requires SymEnabled(s, step)
  {
    match step
    case ReadHit(t) =>
      var pc := s.threads[t];
      Some((pc.key, pc.known, if pc.key in s.cache then s.cache[pc.key] else 0))
    case Resolve(t) => if s.threads[t].key in s.table then None else Some((s.threads[t].key, s.threads[t].known, 0))
    case Store(t) => Some((s.threads[t].key, s.threads[t].known, s.threads[t].addr))
    case _ => None
  }

  ghost predicate SymPcOk(s: SymState, pc: SymPc) {
    && (!pc.Idle? && pc.known.Some? ==> Answer(s.table, pc.key) == pc.known)
    && (pc.Hit? ==> pc.key in s.cache)
    && (pc.Resolved? ==> Answer(s.table, pc.key) == Some(pc.addr))
  }

  /** The cache agrees with the resolver and holds no zero. */
  ghost predicate SymInv(s: SymState) {
    && (forall k :: k in s.table ==> s.table[k] != 0)
    && (forall k :: k in s.cache ==> k in s.table && s.table[k] == s.cache[k])
    && (forall t :: 0 <= t < |s.threads| ==> SymPcOk(s, s.threads[t]))
  }

  lemma {:induction false} SymStepInv(s: SymState, step: SymStep)
    requires SymInv(s) && SymEnabled(s, step)
    ensures SymInv(SymApply(s, step))
  {
    var s' := SymApply(s, step);
    forall u | 0 <= u < |s.threads| ensures SymPcOk(s', s'.threads[u]) {
      assert SymPcOk(s, s.threads[u]);
    }
  }

  ghost predicate SymRun(states: seq<SymState>, steps: seq<SymStep>) {
    && |states| == |steps| + 1
    && states[0].cache == map[] && (forall k :: k in states[0].table ==> states[0].table[k] != 0)
    && (forall t :: 0 <= t < |states[0].threads| ==> states[0].threads[t].Idle?)
    && forall i :: 0 <= i < |steps| ==> SymIsStep(states[i], steps[i], states[i + 1])
  }

  ghost predicate SymIsStep(s: SymState, step: SymStep, s': SymState) {
    SymEnabled(s, step) && s' == SymApply(s, step)
  }

  lemma {:induction false} SymRunInv(states: seq<SymState>, steps: seq<SymStep>, i: nat)
    requires SymRun(states, steps) && i < |states|
    ensures SymInv(states[i])
    decreases i
  {
    if i > 0 {
      SymRunInv(states, steps, i - 1);
      assert SymIsStep(states[i - 1], steps[i - 1], states[i - 1 + 1]);
      SymStepInv(states[i - 1], steps[i - 1]);
    }
  }

  /**
   * Cache transparency. In every interleaving of lookups, some of which may fail, and with symbols
   * appearing at any time, a lookup that returns gives what the resolver answers for the key at that
   * moment; a symbol already known when the lookup began is found; and zero is returned only while
   * the symbol is unknown.
   */
  lemma {:induction false} CacheTransparent(states: seq<SymState>, steps: seq<SymStep>, i: nat)
    requires SymRun(states, steps) && i < |steps|
    requires SymEnabled(states[i], steps[i]) && Returns(states[i], steps[i]).Some?
    ensures var (key, known, value) := Returns(states[i], steps[i]).value;
      && (value != 0 <==> key in states[i].table)
      && (key in states[i].table ==> states[i].table[key] == value)
      && (known.Some? ==> known.value == value)
      && (key in states[i + 1].cache ==> states[i + 1].cache[key] == value != 0)
  {
    SymRunInv(states, steps, i);
    assert SymIsStep(states[i], steps[i], states[i + 1]);
    var s := states[i];
    var t := steps[i].t;
    assert SymPcOk(s, s.threads[t]);
  }

  // ----- one call of getSym as steps -----

  /** The steps of a call that nobody interferes with, for the answer the VE side gives if asked. */
  function CallSteps(s: SymState, t: nat, key: Key, answer: Option<nat>): (r: seq<SymStep>)
    ensures |r| >= 2
  {
    if key in s.cache then [Lookup(t, key), ReadHit(t)]
    else if answer.None? then [Lookup(t, key), Fail(t)]
    else if answer.value == 0 then [Lookup(t, key), Resolve(t)]
    else [Lookup(t, key), Resolve(t), Store(t)]
  }

  /** The steps can be taken one after the other and lead from `s` to `s'`. */
  ghost predicate Leads(s: SymState, steps: seq<SymStep>, s': SymState)
    decreases |steps|
  {
    if steps == [] then s' == s else SymEnabled(s, steps[0]) && Leads(SymApply(s, steps[0]), steps[1..], s')
  }

  /** What the last step of a call gives the caller: a value, or the exception of a failed request. */
  function Gives(s: SymState, step: SymStep): Found
    requires SymEnabled(s, step)
  {
    match Returns(s, step)
    case Some((_, _, value)) => Address(value)
    case None => LookupFailed
  }

  /**
   * A call of getSym with a name of legal length takes the table from one state of the interleaved
   * model to the state its steps lead to, leaves every thread where it was and returns what the last
   * of the steps returns.
   */
  method CallGetSym(table: SymbolTable, ghost s: SymState, ghost t: nat, key: Key, answer: Option<nat>)
    returns (r: Found, ghost last: SymState, ghost s': SymState)
    requires table.symName == s.cache && t < |s.threads| && s.threads[t].Idle? && |key.name| <= SYMNAME_LEN_MAX
    requires (forall k :: k in s.table ==> s.table[k] != 0)
    requires answer.Some? ==> answer.value == if key in s.table then s.table[key] else 0
    modifies table
    ensures var steps := CallSteps(s, t, key, answer);
      var end := |steps| - 1;
      && Leads(s, steps[..end], last) && SymEnabled(last, steps[end]) && s' == SymApply(last, steps[end])
      && r == Gives(last, steps[end])
    ensures table.symName == s'.cache && s'.threads == s.threads && s'.table == s.table
  {
    r := table.GetSym(key.lib, key.name, answer);
    ghost var steps := CallSteps(s, t, key, answer);
    last := SymApply(s, steps[0]);
    assert Leads(s, [steps[0]], last);
    if |steps| == 3 {
      ghost var second := last;
      last := SymApply(second, steps[1]);
      assert Leads(second, [steps[1]], last);
      assert steps[..2][1..] == [steps[1]];
    } else {
      assert steps[..1] == [steps[0]];
    }
    s' := SymApply(last, steps[|steps| - 1]);
  }
}
