/** `CallArgs`: the argument list of a VE call and the code that builds and transfers its frame. */
module CallArguments {
  import opened Base
  import opened Bytes
  import opened CallFrame

  // ----- writing into the frame string -----

  /** `std::string::replace(pos, n, data)`: at most `n` characters go, all of `data` comes. */
  function StrReplace(s: seq<byte>, pos: nat, n: nat, data: seq<byte>): seq<byte>
    requires pos <= |s|
  {
    s[..pos] + data + (if pos + n <= |s| then s[pos + n..] else [])
  }

  /** The string with `data` at `offset`, everything else kept, grown with zeros where needed. */
  function Overwrite(s: seq<byte>, offset: nat, data: seq<byte>): seq<byte> {
    (if offset <= |s| then s[..offset] else s + Zeros(offset - |s|))
    + data
    + (if offset + |data| <= |s| then s[offset + |data|..] else [])
  }

  lemma {:induction false} OverwriteElsewhere(s: seq<byte>, offset: nat, data: seq<byte>)
    ensures |s| <= |Overwrite(s, offset, data)|
    ensures forall i :: 0 <= i < |s| && !(offset <= i < offset + |data|) ==> Overwrite(s, offset, data)[i] == s[i]
  {
    var left := if offset <= |s| then s[..offset] else s + Zeros(offset - |s|);
    assert left + data == Overwrite(s, offset, data)[..|left + data|];
  }

  /** `set_value`: writes the image of a value and pads it to eight bytes. */
  method SetValue(str: seq<byte>, offset: nat, image: seq<byte>) returns (r: seq<byte>)
    ensures r == Overwrite(str, offset, image + Zeros(PadLen(|image|)))
  {
    r := str;
    if |r| < offset {
      r := r + Zeros(offset - |r|);
    }
    r := StrReplace(r, offset, |image|, image);
    if |image| % 8 > 0 {
      var pad := 8 - |image| % 8;
      assert r[..offset + |image|] == (if offset <= |str| then str[..offset] else str + Zeros(offset - |str|)) + image;
      r := StrReplace(r, offset + |image|, pad, Zeros(pad));
    }
  }

  /** Overwriting the next slot of a partly built frame. */
  lemma {:induction false} FillSlot(zeros: seq<byte>, slots: seq<byte>, gap: nat, data: seq<byte>, slot: seq<byte>)
    requires |slot| == 8 <= gap
    ensures Overwrite(zeros + slots + Zeros(gap) + data, |zeros| + |slots|, slot) ==
      zeros + (slots + slot) + Zeros(gap - 8) + data
  {
  }

  /** A slot of zeros is already there. */
  lemma {:induction false} SkipSlot(zeros: seq<byte>, slots: seq<byte>, gap: nat, data: seq<byte>)
    requires 8 <= gap
    ensures zeros + slots + Zeros(gap) + data == zeros + (slots + Zeros(8)) + Zeros(gap - 8) + data
  {
    assert Zeros(gap) == Zeros(8) + Zeros(gap - 8);
  }

  // ----- sizes in C arithmetic -----

  /** Conversion to a 32-bit `int`. */
  function ToInt32(x: int): (r: int)
    ensures -0x8000_0000 <= r < 0x8000_0000
  {
    (x + 0x8000_0000) % 0x1_0000_0000 - 0x8000_0000
  }

  /** Numbers that differ by a multiple of 2^32 convert to the same `int`. */
  lemma {:induction false} Int32Congruent(a: int, b: int, q: int)
    requires a == b + 0x1_0000_0000 * q
    ensures ToInt32(a) == ToInt32(b)
  {
    var k, m := (b + 0x8000_0000) / 0x1_0000_0000, (b + 0x8000_0000) % 0x1_0000_0000;
    assert a + 0x8000_0000 == 0x1_0000_0000 * (k + q) + m;
  }

  lemma {:induction false} Int32Differs(x: int) returns (q: int)
    ensures ToInt32(x) == x + 0x1_0000_0000 * q
  {
    q := -((x + 0x8000_0000) / 0x1_0000_0000);
  }

  lemma {:induction false} U64Differs(x: int) returns (q: int)
    ensures U64(x) == x + 0x1_0000_0000 * q
  {
    q := -0x1_0000_0000 * (x / TWO64);
  }

  lemma {:induction false} Int32Add(x: int, y: int)
    ensures ToInt32(U64(ToInt32(x)) + y) == ToInt32(x + y)
    ensures ToInt32(U64(U64(ToInt32(x)) + y)) == ToInt32(x + y)
    ensures ToInt32(ToInt32(x) + y) == ToInt32(x + y)
  {
    hide ToInt32, U64;
    var p := Int32Differs(x);
    var q := U64Differs(ToInt32(x));
    var r := U64Differs(U64(ToInt32(x)) + y);
    Int32Congruent(ToInt32(x) + y, x + y, p);
    Int32Congruent(U64(ToInt32(x)) + y, x + y, p + q);
    Int32Congruent(U64(U64(ToInt32(x)) + y), x + y, p + q + r);
  }

  /** The size computed through the `int` accumulator is the true size exactly below 2^31. */
  lemma {:induction false} Int32SizeExact(total: nat)
    requires total < 0x8000_0000_0000_0000
    ensures U64(ToInt32(total)) == total <==> total < 0x8000_0000
  {
  }

  class CallArgs {
    var arguments: seq<Arg>
    var stackTop: nat
    var stackSize: nat
    var stackBuf: array<byte>
    var copiedIn: bool
    var copiedOut: bool

    constructor ()
      ensures arguments == [] && fresh(stackBuf)
    {
      arguments, stackTop, stackSize, copiedIn, copiedOut := [], 0, 0, false, false;
      stackBuf := new byte[0];
    }

    /** `set`/`setOnStack`: stores one argument; positions skipped on the way hold no argument. */
    method Set(argnum: nat, a: Arg)
      modifies this`arguments
      ensures |arguments| == if |old(arguments)| < argnum + 1 then argnum + 1 else |old(arguments)|
      ensures arguments[argnum] == a
      ensures forall k :: 0 <= k < |arguments| && k != argnum ==>
        arguments[k] == if k < |old(arguments)| then old(arguments)[k] else Null
    {
      if |arguments| < argnum + 1 {
        arguments := arguments + seq(argnum + 1 - |arguments|, i => Null);
      }
      arguments := arguments[argnum := a];
    }

    /** The size expression of `getStackImage`, in the types the code uses. */
    method ComputeStackSize() returns (size: nat)
      ensures size == U64(ToInt32(Total(arguments)))
    {
      var acc: int := 0;
      var k := 0;
      while k < |arguments|
        invariant 0 <= k <= |arguments| && acc == ToInt32(DataSize(arguments, k))
      {
        Int32Add(DataSize(arguments, k), SizeOnStack(arguments[k]));
        acc := ToInt32(U64(U64(acc) + SizeOnStack(arguments[k])));
        k := k + 1;
      }
      Int32Add(DataSize(arguments, |arguments|), PARAM_AREA_OFFSET + 8 * |arguments|);
      size := U64(ToInt32(PARAM_AREA_OFFSET + 8 * |arguments| + acc));
    }

    /**
     * `setStackImage` of the argument at position `n`, for a frame at `sp`. It touches no byte of the
     * string it gets except those of its own slot.
     */
    static method PlaceArg(a: Arg, host: array<byte>, sp: nat, stack: seq<byte>, n: nat)
      returns (a': Arg, stack': seq<byte>, isIn: bool, isOut: bool)
      requires ValidArg(a, host.Length)
      ensures isIn == ArgIn(a, n) && isOut == (a.StackArg? && a.isOut)
      ensures a' == if a.StackArg? then a.(vemva := U64(sp + |stack|)) else a
      ensures var appended := stack + Region(a, host[..]);
        stack' == if n < NUM_ARGS_ON_REGISTER then appended
                  else Overwrite(appended, SlotOffset(n), Slot(a, n, U64(sp + |stack|)))
      ensures |stack| <= |stack'|
      ensures forall i :: 0 <= i < |stack| ==>
        stack'[i] == stack[i] || (n >= NUM_ARGS_ON_REGISTER && SlotOffset(n) <= i < SlotOffset(n) + 8)
    {
      hide Overwrite, LE, ValidArgs, ToInt32;
      OverwriteElsewhere(stack + Region(a, host[..]), SlotOffset(n), Slot(a, n, U64(sp + |stack|)));
      a', stack' := a, stack;
      if a.StackArg? {
        a' := a.(vemva := U64(sp + |stack|));
        isIn, isOut := a.isIn, a.isOut;
        if a.isIn {
          stack' := stack' + host[a.buf..a.buf + a.len];
        } else {
          stack' := stack' + Zeros(a.len);
        }
        if a.len % 8 > 0 {
          stack' := stack' + Zeros(8 - a.len % 8);
        }
        assert stack' == stack + Region(a, host[..]);
        if n >= NUM_ARGS_ON_REGISTER {
          stack' := SetValue(stack', PARAM_AREA_OFFSET + 8 * n, LE(a'.vemva, 8));
          assert LE(a'.vemva, 8) + Zeros(PadLen(8)) == Slot(a, n, a'.vemva);
        }
      } else {
        isIn, isOut := false, false;
        assert stack + Region(a, host[..]) == stack;
        if n < NUM_ARGS_ON_REGISTER {
          return;
        }
        isIn := true;
        assert ScalarImage(a) + Zeros(PadLen(|ScalarImage(a)|)) == Slot(a, n, 0);
        stack' := SetValue(stack', PARAM_AREA_OFFSET + 8 * n, ScalarImage(a));
      }
    }

    /** One argument more: from the frame of the first `k` to the frame of the first `k + 1`. */
    static lemma {:induction false} PlaceNext(args: seq<Arg>, host: seq<byte>, sp: nat, k: nat)
      requires ValidArgs(args, |host|) && k < |args|
      ensures var appended := PartialImage(args, host, sp, k) + Region(args[k], host);
        PartialImage(args, host, sp, k + 1) ==
          if k < NUM_ARGS_ON_REGISTER then appended
          else Overwrite(appended, SlotOffset(k), Slot(args[k], k, Pointer(args, sp, k)))
    {
      hide Overwrite, PartialImage, Region, LE, ScalarImage;
      var zeros, slots, gap := Zeros(PARAM_AREA_OFFSET), Slots(args, host, sp, k), 8 * (|args| - k);
      var data, data' := Data(args, host, k), Data(args, host, k + 1);
      var appended := PartialImage(args, host, sp, k) + Region(args[k], host);
      PartialImageParts(args, host, sp, k);
      PartialImageParts(args, host, sp, k + 1);
      assert appended == zeros + slots + Zeros(gap) + data';
      FillSlot(zeros, slots, gap, data', Slot(args[k], k, Pointer(args, sp, k)));
      SkipSlot(zeros, slots, gap, data');
    }

    /**
     * `getStackImage`: shifts the stack pointer by the computed size, builds the frame argument by
     * argument and records in each by-reference argument its VE address. The result is the frame of
     * the layout, whatever the arguments recorded before.
     */
    method GetStackImage(host: array<byte>, sp: nat) returns (stack: seq<byte>, newSp: nat)
      requires ValidArgs(arguments, host.Length)
      modifies this
      ensures stackSize == U64(ToInt32(Total(old(arguments)))) && stackTop == newSp == U64(sp - stackSize)
      ensures stack == Image(old(arguments), host[..], newSp)
      ensures arguments == Placed(old(arguments), newSp, |old(arguments)|)
      ensures copiedIn == AnyIn(old(arguments), |old(arguments)|)
      ensures copiedOut == AnyOut(old(arguments), |old(arguments)|)
      ensures stackBuf == old(stackBuf)
    {
      hide Overwrite, PartialImage, Slots, Data, Region, Slot, ToInt32, SizeOnStack, AnyIn, AnyOut, Placed;
      ghost var args := arguments;
      var count := |arguments|;
      stackSize := ComputeStackSize();
      newSp := U64(sp - stackSize);
      stackTop := newSp;
      stack := Zeros(PARAM_AREA_OFFSET + 8 * count);
      copiedIn, copiedOut := false, false;
      var n := 0;
      StartImage(args, host[..], newSp);
      while n < count
        invariant 0 <= n <= count == |args| && arguments == Placed(args, newSp, n)
        invariant stack == PartialImage(args, host[..], newSp, n)
        invariant copiedIn == AnyIn(args, n) && copiedOut == AnyOut(args, n)
        invariant stackTop == newSp && stackSize == old(U64(ToInt32(Total(arguments)))) && stackBuf == old(stackBuf)
      {
        var arg, i, o;
        PlaceNext(args, host[..], newSp, n);
        PlacedNext(args, newSp, n);
        arg, stack, i, o := PlaceArg(arguments[n], host, newSp, stack, n);
        arguments := arguments[n := arg];
        copiedIn := copiedIn || i;
        copiedOut := copiedOut || o;
        AnyNext(args, n);
        n := n + 1;
      }
    }

    static lemma {:induction false} StartImage(args: seq<Arg>, host: seq<byte>, sp: nat)
      requires ValidArgs(args, |host|)
      ensures Zeros(PARAM_AREA_OFFSET + 8 * |args|) == PartialImage(args, host, sp, 0)
      ensures Placed(args, sp, 0) == args && !AnyIn(args, 0) && !AnyOut(args, 0)
    {
    }

    static lemma {:induction false} PlacedNext(args: seq<Arg>, sp: nat, n: nat)
      requires n < |args|
      ensures Placed(args, sp, n)[n] == args[n]
      ensures Placed(args, sp, n + 1) ==
        Placed(args, sp, n)[n := if args[n].StackArg? then args[n].(vemva := Pointer(args, sp, n)) else args[n]]
    {
    }

    static lemma {:induction false} AnyNext(args: seq<Arg>, n: nat)
      requires n < |args|
      ensures AnyIn(args, n + 1) <==> AnyIn(args, n) || ArgIn(args[n], n)
      ensures AnyOut(args, n + 1) <==> AnyOut(args, n) || (args[n].StackArg? && args[n].isOut)
    {
    }

    /**
     * `setup`: builds the frame and keeps a copy for the transfer. The assertion in the code aborts
     * the process when the two sizes differ (`ok` is false): exactly for frames of 2^31 bytes or more.
     */
    method Setup(host: array<byte>, sp: nat) returns (newSp: nat, ok: bool)
      requires ValidArgs(arguments, host.Length) && Total(arguments) < 0x8000_0000_0000_0000
      modifies this
      ensures ok <==> Total(old(arguments)) < 0x8000_0000
      ensures ok ==> newSp == U64(sp - Total(old(arguments))) && IsSetUp(old(arguments), host[..], newSp)
      ensures ok ==> fresh(stackBuf)
    {
      Int32SizeExact(Total(arguments));
      var img;
      img, newSp := GetStackImage(host, sp);
      ghost var bytes := host[..];
      ok := stackSize == |img|;
      if !ok {
        return;
      }
      var buf := new byte[stackSize];
      forall i | 0 <= i < stackSize {
        buf[i] := img[i];
      }
      assert buf[..] == img && host[..] == bytes;
      stackBuf := buf;
    }

    /** The state `setup` leaves for the transfers: everything follows from arguments, host and `sp`. */
    ghost predicate IsSetUp(args: seq<Arg>, host: seq<byte>, sp: nat)
      requires ValidArgs(args, |host|)
      reads this, stackBuf
    {
      && stackTop == sp && stackSize == Total(args)
      && stackBuf[..] == Image(args, host, sp)
      && arguments == Placed(args, sp, |args|)
      && copiedIn == AnyIn(args, |args|) && copiedOut == AnyOut(args, |args|)
    }

    /** `getRegVal`: the values of the first eight arguments. */
    method GetRegVal() returns (rv: seq<nat>)
      ensures rv == RegValues(arguments)
    {
      rv := [];
      var count := 0;
      while count < |arguments|
        invariant 0 <= count <= |arguments| && count < NUM_ARGS_ON_REGISTER
        invariant |rv| == count && forall i :: 0 <= i < count ==> rv[i] == RegValue(arguments[i])
      {
        rv := rv + [RegValue(arguments[count])];
        count := count + 1;
        if count >= NUM_ARGS_ON_REGISTER {
          return;
        }
      }
    }

    /** `copyin`: transfers the frame if some argument asked for it. */
    method CopyIn(mem: VeMem) returns (mem': VeMem)
      ensures forall x: nat :: copiedIn && Offset(x, stackTop) < stackBuf.Length ==>
        mem'(x) == stackBuf[Offset(x, stackTop)]
      ensures forall x: nat :: !(copiedIn && Offset(x, stackTop) < stackBuf.Length) ==> mem'(x) == mem(x)
      ensures copiedIn ==> mem' == WriteMem(mem, stackTop, stackBuf[..])
      ensures !copiedIn ==> mem' == mem
    {
      mem' := if copiedIn then WriteMem(mem, stackTop, stackBuf[..]) else mem;
    }

    /** `copyout`: fetches the frame and copies each OUT region back to its buffer, in order. */
    method CopyOut(host: array<byte>, mem: VeMem)
      requires host != stackBuf && stackBuf.Length == stackSize && OutsFit(arguments, stackTop, stackSize, host.Length)
      modifies host, stackBuf
      ensures copiedOut ==> stackBuf[..] == ReadMem(mem, stackTop, stackSize)
      ensures copiedOut ==> host[..] == CopiedOut(arguments, stackTop, stackBuf[..], old(host[..]), |arguments|)
      ensures !copiedOut ==> host[..] == old(host[..]) && stackBuf[..] == old(stackBuf[..])
    {
      if !copiedOut {
        return;
      }
      forall i | 0 <= i < stackSize {
        stackBuf[i] := mem(U64(stackTop + i));
      }
      ghost var img := stackBuf[..];
      assert img == ReadMem(mem, stackTop, stackSize);
      var k := 0;
      while k < |arguments|
        invariant 0 <= k <= |arguments| && stackBuf[..] == img
        invariant host[..] == CopiedOut(arguments, stackTop, img, old(host[..]), k)
        modifies host
      {
        CopyOutOne(arguments[k], host);
        k := k + 1;
      }
    }

    /** `copyoutFromStackImage` of one argument. */
    method CopyOutOne(a: Arg, host: array<byte>)
      requires host != stackBuf && stackBuf.Length == stackSize && OutFits(a, stackTop, stackSize, host.Length)
      modifies host
      ensures host[..] == CopiedBack(a, stackTop, stackBuf[..], old(host[..]))
    {
      if !a.StackArg? || !a.isOut {
        return;
      }
      var offset := Offset(a.vemva, stackTop);
      forall i | 0 <= i < a.len {
        host[a.buf + i] := stackBuf[offset + i];
      }
      assert host[..a.buf] == old(host[..a.buf]);
      assert host[a.buf..a.buf + a.len] == stackBuf[offset..offset + a.len];
      assert host[a.buf + a.len..] == old(host[a.buf + a.len..]);
      assert host[..] == host[..a.buf] + host[a.buf..a.buf + a.len] + host[a.buf + a.len..];
    }
  }

  function RegValues(args: seq<Arg>): (r: seq<nat>)
    ensures |r| == if |args| < NUM_ARGS_ON_REGISTER then |args| else NUM_ARGS_ON_REGISTER
    ensures forall i :: 0 <= i < |r| ==> r[i] == RegValue(args[i])
  {
    seq(if |args| < NUM_ARGS_ON_REGISTER then |args| else NUM_ARGS_ON_REGISTER,
        i requires 0 <= i < |args| => RegValue(args[i]))
  }

  /** The region of an OUT argument lies in the frame and its buffer in host memory. */
  predicate OutFits(a: Arg, top: nat, size: nat, hostSize: nat) {
    a.StackArg? && a.isOut ==> Offset(a.vemva, top) + a.len <= size && a.buf + a.len <= hostSize
  }

  predicate OutsFit(args: seq<Arg>, top: nat, size: nat, hostSize: nat) {
    forall k :: 0 <= k < |args| ==> OutFits(args[k], top, size, hostSize)
  }

  /** Host memory after one argument was copied out of the frame `img` fetched from `top`. */
  function CopiedBack(a: Arg, top: nat, img: seq<byte>, host: seq<byte>): (r: seq<byte>)
    requires OutFits(a, top, |img|, |host|)
    ensures |r| == |host|
  {
    if a.StackArg? && a.isOut then
      var offset := Offset(a.vemva, top);
      host[..a.buf] + img[offset..offset + a.len] + host[a.buf + a.len..]
    else host
  }

  function CopiedOut(args: seq<Arg>, top: nat, img: seq<byte>, host: seq<byte>, k: nat): (r: seq<byte>)
    requires OutsFit(args, top, |img|, |host|) && k <= |args|
    ensures |r| == |host|
  {
    if k == 0 then host else CopiedBack(args[k - 1], top, img, CopiedOut(args, top, img, host, k - 1))
  }
}
