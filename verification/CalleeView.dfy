/**
 * What the called VE function finds in its registers and on its stack, what comes back to the host
 * buffers, and when the transfer of the frame may be skipped.
 */
module CalleeView {
  import opened Base
  import opened Bytes
  import opened CallFrame
  import opened CallArguments

  /** The 64-bit value the callee takes as argument `k`: register `k`, or the slot on its stack. */
  function CalleeRaw(regs: seq<nat>, mem: VeMem, sp: nat, k: nat): nat {
    if k < NUM_ARGS_ON_REGISTER && k < |regs| then regs[k]
    else FromLE(ReadMem(mem, U64(sp + SlotOffset(k)), 8))
  }

  /**
   * The 64-bit value stands for the argument: an integer in the low bytes of its width, a double or
   * float as its exact image, a buffer as the pointer to its region.
   */
  predicate Decodes(a: Arg, ptr: nat, raw: nat) {
    match a
    case Null => false
    case IntArg(w, _, bits) => Pow256(w) > 0 && raw % Pow256(w) == bits
    case DoubleArg(bits) => raw == bits
    case FloatArg(bits) => raw == bits * 0x1_0000_0000
    case StackArg(_, _, _, _, _) => raw == ptr
  }

  /** The callee finds argument `k`: its value, and for an input buffer a copy of the bytes at the pointer. */
  predicate CalleeFinds(args: seq<Arg>, host: seq<byte>, regs: seq<nat>, mem: VeMem, sp: nat, k: nat)
    requires ValidArgs(args, |host|) && k < |args|
  {
    var raw, a := CalleeRaw(regs, mem, sp, k), args[k];
    && Decodes(a, Pointer(args, sp, k), raw)
    && (a.StackArg? && a.isIn ==> ReadMem(mem, raw, a.len) == host[a.buf..a.buf + a.len])
  }

  // ----- registers -----

  lemma {:induction false} RegisterLowBytes(a: Arg)
    requires a.IntArg? && ValidArg(a, 0)
    ensures RegValue(a) % Pow256(a.width) == a.bits
  {
    Pow256Values();
    if a.signed && 2 * a.bits >= Pow256(a.width) {
      LowBytes(a.bits, a.width);
    }
  }

  lemma {:induction false} LowBytes(bits: nat, width: nat)
    requires width in {1, 2, 4, 8} && bits < Pow256(width)
    ensures U64(bits - Pow256(width)) % Pow256(width) == bits
  {
    hide Pow256;
    Pow256Values();
    if width == 1 {
      assert U64(bits - 0x100) == TWO64 - 0x100 + bits;
    } else if width == 2 {
      assert U64(bits - 0x1_0000) == TWO64 - 0x1_0000 + bits;
    } else if width == 4 {
      assert U64(bits - 0x1_0000_0000) == TWO64 - 0x1_0000_0000 + bits;
    } else {
      assert U64(bits - TWO64) == bits;
    }
  }

  /** The registers are right whether or not the frame is transferred. */
  lemma {:induction false} RegisterView(args: seq<Arg>, host: seq<byte>, sp: nat, mem: VeMem, k: nat)
    requires ValidArgs(args, |host|) && k < |args| && k < NUM_ARGS_ON_REGISTER
    ensures var regs := RegValues(Placed(args, sp, |args|));
      && k < |regs| && Decodes(args[k], Pointer(args, sp, k), regs[k])
      && (args[k].StackArg? ==> CalleeRaw(regs, mem, sp, k) == Pointer(args, sp, k))
      && (!args[k].StackArg? ==> CalleeFinds(args, host, regs, mem, sp, k))
  {
    if args[k].IntArg? {
      RegisterLowBytes(args[k]);
    }
  }

  lemma {:induction false} RegistersDecode(args: seq<Arg>, host: seq<byte>, sp: nat)
    requires ValidArgs(args, |host|)
    ensures var regs := RegValues(Placed(args, sp, |args|));
      && |regs| <= |args|
      && forall k :: 0 <= k < |regs| ==> Decodes(args[k], Pointer(args, sp, k), regs[k])
  {
    hide Placed, Decodes, CalleeFinds, Pointer, RegValue, CalleeRaw;
    var regs := RegValues(Placed(args, sp, |args|));
    forall k | 0 <= k < |regs| ensures Decodes(args[k], Pointer(args, sp, k), regs[k]) {
      RegisterView(args, host, sp, x => 0, k);
    }
  }

  lemma {:induction false} WholeFrameRead(mem: VeMem, sp: nat, img: seq<byte>)
    requires |img| <= TWO64
    ensures ReadMem(WriteMem(mem, sp, img), sp, |img|) == img
  {
    var r := ReadMem(WriteMem(mem, sp, img), sp, |img|);
    forall i | 0 <= i < |img| ensures r[i] == img[i] {
      OffsetOf(sp, i);
    }
  }

  // ----- slots and regions of a transferred frame -----

  lemma {:induction false} SlotValue(a: Arg, k: nat, ptr: nat)
    requires ValidArg(a, if a.StackArg? then a.buf + a.len else 0) && ptr < TWO64 && k >= NUM_ARGS_ON_REGISTER
    ensures FromLE(Slot(a, k, ptr)) ==
      match a
      case IntArg(_, _, bits) => bits
      case DoubleArg(bits) => bits
      case FloatArg(bits) => bits * 0x1_0000_0000
      case _ => ptr
  {
    Pow256Values();
    match a {
      case IntArg(w, _, bits) =>
        RoundTripLE(bits, w);
        FromLEPad(LE(bits, w), 8 - w);
      case DoubleArg(bits) =>
        RoundTripLE(bits, 8);
        FromLEPad(LE(bits, 8), 0);
      case FloatArg(bits) =>
        RoundTripLE(bits * 0x1_0000_0000, 8);
        FromLEPad(LE(bits * 0x1_0000_0000, 8), 0);
      case StackArg(_, _, _, _, _) =>
        RoundTripLE(ptr, 8);
    }
  }

  lemma {:induction false} TransferredSlot(args: seq<Arg>, host: seq<byte>, sp: nat, mem: VeMem, k: nat)
    requires ValidArgs(args, |host|) && k < |args| && Total(args) <= TWO64
    ensures var mem' := WriteMem(mem, sp, Image(args, host, sp));
      ReadMem(mem', U64(sp + SlotOffset(k)), 8) == Slot(args[k], k, Pointer(args, sp, k))
  {
    hide Image, Slot, Pointer, ReadMem, WriteMem;
    ImageAt(args, host, sp, k);
    ReadWritten(mem, sp, Image(args, host, sp), SlotOffset(k), 8);
  }

  lemma {:induction false} SliceStart(s: seq<byte>, o: nat, len: nat, size: nat)
    requires len <= size && o + size <= |s|
    ensures s[o..o + len] == s[o..o + size][..len]
  {
  }

  /** After the transfer the pointer of an IN argument leads to its bytes. */
  lemma {:induction false} TransferredRegion(args: seq<Arg>, host: seq<byte>, sp: nat, mem: VeMem, k: nat)
    requires ValidArgs(args, |host|) && k < |args| && Total(args) <= TWO64 && args[k].StackArg?
    ensures var mem' := WriteMem(mem, sp, Image(args, host, sp));
      ReadMem(mem', Pointer(args, sp, k), args[k].len) ==
        if args[k].isIn then host[args[k].buf..args[k].buf + args[k].len] else Zeros(args[k].len)
  {
    hide Image, Slot, ReadMem, WriteMem, DataOffset;
    var img, o, len := Image(args, host, sp), DataOffset(args, k), args[k].len;
    ImageAt(args, host, sp, k);
    ReadWritten(mem, sp, img, o, len);
    SliceStart(img, o, len, SizeOnStack(args[k]));
    assert Region(args[k], host)[..len] ==
      if args[k].isIn then host[args[k].buf..args[k].buf + len] else Zeros(len);
  }

  lemma {:induction false} CalleeFindsOne(args: seq<Arg>, host: seq<byte>, sp: nat, mem: VeMem, k: nat)
    requires ValidArgs(args, |host|) && k < |args| && Total(args) <= TWO64
    ensures var mem' := WriteMem(mem, sp, Image(args, host, sp));
      CalleeFinds(args, host, RegValues(Placed(args, sp, |args|)), mem', sp, k)
  {
    hide Image, Slot, ReadMem, WriteMem, DataOffset, FromLE;
    var mem' := WriteMem(mem, sp, Image(args, host, sp));
    if args[k].StackArg? {
      TransferredRegion(args, host, sp, mem, k);
    }
    if k < NUM_ARGS_ON_REGISTER {
      RegisterView(args, host, sp, mem', k);
    } else {
      TransferredSlot(args, host, sp, mem, k);
      SlotValue(args[k], k, Pointer(args, sp, k));
    }
  }

  /**
   * The callee's view: for every gap-free argument list and stack pointer, after setup, register load
   * and a performed copy-in, the callee finds every argument.
   */
  lemma {:induction false} CalleeFindsAll(args: seq<Arg>, host: seq<byte>, sp: nat, mem: VeMem)
    requires ValidArgs(args, |host|) && Total(args) <= TWO64
    ensures var regs, mem' := RegValues(Placed(args, sp, |args|)), WriteMem(mem, sp, Image(args, host, sp));
      forall k: nat :: k < |args| ==> CalleeFinds(args, host, regs, mem', sp, k)
  {
    hide CalleeFinds, RegValues, Placed, WriteMem, Image;
    var regs, mem' := RegValues(Placed(args, sp, |args|)), WriteMem(mem, sp, Image(args, host, sp));
    forall k: nat | k < |args| ensures CalleeFinds(args, host, regs, mem', sp, k) {
      CalleeFindsOne(args, host, sp, mem, k);
    }
  }

  /**
   * Narrow integers agree in their low bytes only: a negative number is sign-extended in a register
   * and zero-padded in a stack slot.
   */
  lemma {:induction false} NarrowIntegers(args: seq<Arg>, host: seq<byte>, sp: nat, mem: VeMem, k: nat)
    requires ValidArgs(args, |host|) && k < |args| && Total(args) <= TWO64 && args[k].IntArg?
    ensures var raw := CalleeRaw(RegValues(Placed(args, sp, |args|)), WriteMem(mem, sp, Image(args, host, sp)), sp, k);
      var negative := args[k].signed && 2 * args[k].bits >= Pow256(args[k].width);
      raw == if k < NUM_ARGS_ON_REGISTER && negative then TWO64 - (Pow256(args[k].width) - args[k].bits)
             else args[k].bits
  {
    hide Image, Slot, ReadMem, WriteMem, DataOffset, FromLE;
    Pow256Values();
    if k >= NUM_ARGS_ON_REGISTER {
      TransferredSlot(args, host, sp, mem, k);
      SlotValue(args[k], k, Pointer(args, sp, k));
    }
  }

  // ----- when the transfer is skipped -----

  lemma {:induction false} ConstantMemory(b: byte, a: nat)
    requires b < 2
    ensures FromLE(ReadMem(x => b, a, 8)) == 0 <==> b == 0
  {
    var mem: VeMem := x => b;
    var r := ReadMem(mem, a, 8);
    if b == 0 {
      assert r == Zeros(8);
      FromLEZeros(8);
    } else {
      assert r[0] == 1;
    }
  }

  /**
   * Copy-in elision, exactly. When no argument asked for the transfer, leaving it out is right for
   * every previous content of VE memory if and only if no OUT-only buffer sits at position 8 or later.
   */
  lemma {:induction false} ElisionExact(args: seq<Arg>, host: seq<byte>, sp: nat)
    requires ValidArgs(args, |host|) && !AnyIn(args, |args|)
    ensures (forall mem: VeMem, k: nat :: k < |args| ==>
               CalleeFinds(args, host, RegValues(Placed(args, sp, |args|)), mem, sp, k))
      <==> !exists k: nat :: NUM_ARGS_ON_REGISTER <= k < |args| && args[k].StackArg? && !args[k].isIn
  {
    var regs := RegValues(Placed(args, sp, |args|));
    if k: nat :| NUM_ARGS_ON_REGISTER <= k < |args| && args[k].StackArg? && !args[k].isIn {
      var b: byte := if Pointer(args, sp, k) == 0 then 1 else 0;
      var mem: VeMem := x => b;
      ConstantMemory(b, U64(sp + SlotOffset(k)));
      assert !CalleeFinds(args, host, regs, mem, sp, k);
    } else {
      forall mem: VeMem, k: nat | k < |args| ensures CalleeFinds(args, host, regs, mem, sp, k) {
        assert !ArgIn(args[k], k);
        RegisterView(args, host, sp, mem, k);
      }
    }
  }

  /**
   * Eight zero arguments and an OUT buffer of `len` bytes in position 8, of whatever length: no
   * transfer, and the pointer never arrives.
   */
  lemma {:induction false} ElisionFails(len: nat)
    ensures var args, host := seq(8, i => DoubleArg(0)) + [StackArg(0, len, false, true, 0)], Zeros(len);
      ValidArgs(args, |host|) && !AnyIn(args, 9) &&
      exists mem: VeMem :: !CalleeFinds(args, host, RegValues(Placed(args, 0, 9)), mem, 0, 8)
  {
    var args, host := seq(8, i => DoubleArg(0)) + [StackArg(0, len, false, true, 0)], Zeros(len);
    var mem: VeMem := x => 0;
    ConstantMemory(0, U64(SlotOffset(8)));
    assert DataSize(args, 8) == 0 by { NoData(args, 8); }
    assert !CalleeFinds(args, host, RegValues(Placed(args, 0, 9)), mem, 0, 8);
  }

  lemma {:induction false} NoData(args: seq<Arg>, k: nat)
    requires k <= |args| && forall i :: 0 <= i < k ==> !args[i].StackArg?
    ensures DataSize(args, k) == 0
  {
    if k > 0 {
      NoData(args, k - 1);
    }
  }

  // ----- copying out -----

  /** The buffers of the OUT arguments do not overlap. */
  predicate OutsDisjoint(args: seq<Arg>) {
    forall i, j :: 0 <= i < j < |args| && args[i].StackArg? && args[i].isOut && args[j].StackArg? && args[j].isOut ==>
      args[i].buf + args[i].len <= args[j].buf || args[j].buf + args[j].len <= args[i].buf
  }

  /** Copying out this argument writes host byte `b`. */
  predicate Covers(a: Arg, b: nat) {
    a.StackArg? && a.isOut && a.buf <= b < a.buf + a.len
  }

  predicate InOutBuffer(args: seq<Arg>, n: nat, b: nat)
    requires n <= |args|
  {
    exists i :: 0 <= i < n && Covers(args[i], b)
  }

  /** Argument `k` is the last of the first `n` whose buffer holds byte `b`. */
  predicate LastCovers(args: seq<Arg>, n: nat, k: nat, b: nat)
    requires n <= |args|
  {
    k < n && Covers(args[k], b) && forall i :: k < i < n ==> !Covers(args[i], b)
  }

  lemma {:induction false} CopiedBackByte(a: Arg, top: nat, img: seq<byte>, host: seq<byte>, b: nat)
    requires OutFits(a, top, |img|, |host|) && b < |host|
    ensures CopiedBack(a, top, img, host)[b] ==
      if Covers(a, b) then img[Offset(a.vemva, top) + (b - a.buf)] else host[b]
  {
    hide Offset;
  }

  lemma {:induction false} CopiedOutKeeps(args: seq<Arg>, top: nat, img: seq<byte>, host: seq<byte>, n: nat, b: nat)
    requires OutsFit(args, top, |img|, |host|) && n <= |args| && b < |host| && !InOutBuffer(args, n, b)
    ensures CopiedOut(args, top, img, host, n)[b] == host[b]
  {
    hide Offset, CopiedBack, Covers;
    if n > 0 {
      CopiedOutKeeps(args, top, img, host, n - 1, b);
      CopiedBackByte(args[n - 1], top, img, CopiedOut(args, top, img, host, n - 1), b);
    }
  }

  /** Copying out in order: a byte gets the value of the last buffer that holds it. */
  lemma {:induction false} CopiedOutLast(
    args: seq<Arg>, top: nat, img: seq<byte>, host: seq<byte>, n: nat, k: nat, b: nat)
    requires OutsFit(args, top, |img|, |host|) && n <= |args| && b < |host| && LastCovers(args, n, k, b)
    ensures OutFits(args[k], top, |img|, |host|)
    ensures CopiedOut(args, top, img, host, n)[b] == img[Offset(args[k].vemva, top) + (b - args[k].buf)]
  {
    hide Offset, CopiedBack;
    assert OutFits(args[k], top, |img|, |host|);
    CopiedBackByte(args[n - 1], top, img, CopiedOut(args, top, img, host, n - 1), b);
    if k < n - 1 {
      CopiedOutLast(args, top, img, host, n - 1, k, b);
    }
  }

  lemma {:induction false} ReadInside(mem: VeMem, a: nat, size: nat, o: nat, len: nat)
    requires o + len <= size
    ensures ReadMem(mem, a, size)[o..o + len] == ReadMem(mem, U64(a + o), len)
  {
    var left, right := ReadMem(mem, a, size)[o..o + len], ReadMem(mem, U64(a + o), len);
    forall i | 0 <= i < len ensures left[i] == right[i] {
      AddMod(a, o, i);
    }
  }

  /** After setup, the regions of the OUT arguments are where copy-out looks for them. */
  lemma {:induction false} PlacedOutsFit(args: seq<Arg>, sp: nat, hostSize: nat)
    requires ValidArgs(args, hostSize) && Total(args) < TWO64
    ensures OutsFit(Placed(args, sp, |args|), sp, Total(args), hostSize)
    ensures forall k :: 0 <= k < |args| && args[k].StackArg? ==>
      Offset(Placed(args, sp, |args|)[k].vemva, sp) == DataOffset(args, k)
  {
    forall k | 0 <= k < |args| && args[k].StackArg?
      ensures Offset(Placed(args, sp, |args|)[k].vemva, sp) == DataOffset(args, k)
      ensures DataOffset(args, k) + args[k].len <= Total(args)
    {
      LayoutDisjoint(args, k, k);
      OffsetOf(sp, DataOffset(args, k));
    }
  }

  lemma {:induction false} CopyOutKeeps(args: seq<Arg>, host: seq<byte>, sp: nat, mem: VeMem, b: nat)
    requires ValidArgs(args, |host|) && Total(args) < TWO64 && b < |host| && !InOutBuffer(args, |args|, b)
    ensures OutsFit(Placed(args, sp, |args|), sp, Total(args), |host|)
    ensures CopiedOut(Placed(args, sp, |args|), sp, ReadMem(mem, sp, Total(args)), host, |args|)[b] == host[b]
  {
    hide CopiedOut, DataOffset, Offset, Pointer;
    var placed := Placed(args, sp, |args|);
    PlacedOutsFit(args, sp, |host|);
    assert forall i :: 0 <= i < |args| ==> Covers(placed[i], b) == Covers(args[i], b);
    CopiedOutKeeps(placed, sp, ReadMem(mem, sp, Total(args)), host, |args|, b);
  }

  /** The byte VE memory holds for host byte `b` of the buffer of argument `k`. */
  function VeByte(args: seq<Arg>, sp: nat, mem: VeMem, k: nat, b: nat): byte
    requires k < |args| && Covers(args[k], b)
  {
    mem(U64(Pointer(args, sp, k) + (b - args[k].buf)))
  }

  lemma {:induction false} CopyOutLast(args: seq<Arg>, host: seq<byte>, sp: nat, mem: VeMem, k: nat, b: nat)
    requires ValidArgs(args, |host|) && Total(args) < TWO64 && b < |host| && LastCovers(args, |args|, k, b)
    ensures OutsFit(Placed(args, sp, |args|), sp, Total(args), |host|)
    ensures CopiedOut(Placed(args, sp, |args|), sp, ReadMem(mem, sp, Total(args)), host, |args|)[b] ==
      VeByte(args, sp, mem, k, b)
  {
    hide CopiedOut, DataOffset, Offset, U64;
    var placed, img := Placed(args, sp, |args|), ReadMem(mem, sp, Total(args));
    PlacedOutsFit(args, sp, |host|);
    assert forall i :: 0 <= i < |args| ==> Covers(placed[i], b) == Covers(args[i], b);
    CopiedOutLast(placed, sp, img, host, |args|, k, b);
    LayoutDisjoint(args, k, k);
    AddMod(sp, DataOffset(args, k), b - args[k].buf);
  }

  /**
   * Copy-out, byte by byte, buffers overlapping or not: whatever the VE function left in memory, a
   * host byte takes the value VE memory holds for the last OUT or INOUT buffer that contains it, and
   * a byte of no such buffer keeps its value.
   */
  lemma {:induction false} CopyOutByte(args: seq<Arg>, host: seq<byte>, sp: nat, mem: VeMem, b: nat)
    requires ValidArgs(args, |host|) && Total(args) < TWO64 && b < |host|
    ensures OutsFit(Placed(args, sp, |args|), sp, Total(args), |host|)
    ensures var host' := CopiedOut(Placed(args, sp, |args|), sp, ReadMem(mem, sp, Total(args)), host, |args|);
      && (!InOutBuffer(args, |args|, b) ==> host'[b] == host[b])
      && forall k: nat :: LastCovers(args, |args|, k, b) ==> host'[b] == VeByte(args, sp, mem, k, b)
  {
    hide CopiedOut, ReadMem, Placed, VeByte, InOutBuffer;
    PlacedOutsFit(args, sp, |host|);
    if !InOutBuffer(args, |args|, b) {
      CopyOutKeeps(args, host, sp, mem, b);
    }
    forall k: nat | LastCovers(args, |args|, k, b)
      ensures CopiedOut(Placed(args, sp, |args|), sp, ReadMem(mem, sp, Total(args)), host, |args|)[b] ==
        VeByte(args, sp, mem, k, b)
    {
      CopyOutLast(args, host, sp, mem, k, b);
    }
  }

  /** If the OUT buffers do not overlap, each becomes what VE memory holds at its pointer. */
  lemma {:induction false} CopyOutCorrect(args: seq<Arg>, host: seq<byte>, sp: nat, mem: VeMem, k: nat)
    requires ValidArgs(args, |host|) && Total(args) < TWO64 && OutsDisjoint(args) && k < |args|
    requires args[k].StackArg? && args[k].isOut
    ensures OutsFit(Placed(args, sp, |args|), sp, Total(args), |host|)
    ensures var host' := CopiedOut(Placed(args, sp, |args|), sp, ReadMem(mem, sp, Total(args)), host, |args|);
      host'[args[k].buf..args[k].buf + args[k].len] == ReadMem(mem, Pointer(args, sp, k), args[k].len)
  {
    hide CopiedOut, DataOffset, Pointer;
    PlacedOutsFit(args, sp, |host|);
    var host' := CopiedOut(Placed(args, sp, |args|), sp, ReadMem(mem, sp, Total(args)), host, |args|);
    forall b | args[k].buf <= b < args[k].buf + args[k].len
      ensures host'[b] == ReadMem(mem, Pointer(args, sp, k), args[k].len)[b - args[k].buf]
    {
      assert LastCovers(args, |args|, k, b);
      CopyOutByte(args, host, sp, mem, b);
    }
  }

  /** A VE function that writes nothing after a performed copy-in leaves every INOUT buffer as it was. */
  lemma {:induction false} InOutUnchanged(args: seq<Arg>, host: seq<byte>, sp: nat, mem: VeMem, k: nat)
    requires ValidArgs(args, |host|) && Total(args) < TWO64 && OutsDisjoint(args) && k < |args|
    requires args[k].StackArg? && args[k].isIn && args[k].isOut
    ensures OutsFit(Placed(args, sp, |args|), sp, Total(args), |host|)
    ensures var mem' := WriteMem(mem, sp, Image(args, host, sp));
      var host' := CopiedOut(Placed(args, sp, |args|), sp, ReadMem(mem', sp, Total(args)), host, |args|);
      host'[args[k].buf..args[k].buf + args[k].len] == host[args[k].buf..args[k].buf + args[k].len]
  {
    hide Image, ReadMem, WriteMem, CopiedOut, OutsDisjoint;
    CopyOutCorrect(args, host, sp, WriteMem(mem, sp, Image(args, host, sp)), k);
    TransferredRegion(args, host, sp, mem, k);
  }

  // ----- a whole call -----

  /** What `_doCall` hands to the VE: the registers, the memory and the new stack pointer. */
  datatype Launch = Aborted | Launched(regs: seq<nat>, mem: VeMem, sp: nat)

  /**
   * `_doCall` up to the start of the VE function. The process aborts exactly for frames of 2^31 bytes
   * or more. Otherwise the first eight arguments are in the registers, transfer or not. If some
   * argument asks for it, the frame is in VE memory, the callee finds every argument and only bytes
   * between the new and the old stack pointer have changed; if none does, no byte has changed, so an
   * argument from position 8 on is found exactly when VE memory already held it.
   */
  method DoCall(args: CallArgs, host: array<byte>, sp: nat, mem: VeMem) returns (l: Launch)
    requires ValidArgs(args.arguments, host.Length) && Total(args.arguments) < 0x8000_0000_0000_0000
    modifies args
    ensures l.Aborted? <==> Total(old(args.arguments)) >= 0x8000_0000
    ensures l.Launched? ==> l.sp == U64(sp - Total(old(args.arguments)))
    ensures l.Launched? ==> args.IsSetUp(old(args.arguments), host[..], l.sp)
    ensures l.Launched? ==> forall x: nat :: Offset(x, l.sp) >= Total(old(args.arguments)) ==> l.mem(x) == mem(x)
    ensures l.Launched? ==>
      var list := old(args.arguments);
      && |l.regs| == (if |list| < NUM_ARGS_ON_REGISTER then |list| else NUM_ARGS_ON_REGISTER)
      && l.regs == RegValues(Placed(list, l.sp, |list|))
      && forall k :: 0 <= k < |l.regs| ==> Decodes(list[k], Pointer(list, l.sp, k), l.regs[k])
    ensures l.Launched? ==>
      var list := old(args.arguments);
      if AnyIn(list, |list|) then ReadMem(l.mem, l.sp, Total(list)) == Image(list, host[..], l.sp)
      else forall x: nat :: l.mem(x) == mem(x)
    ensures l.Launched? ==>
      var list := old(args.arguments);
      forall k: nat :: NUM_ARGS_ON_REGISTER <= k < |list| ==>
        (CalleeFinds(list, host[..], l.regs, l.mem, l.sp, k) <==>
          AnyIn(list, |list|) || CalleeFinds(list, host[..], l.regs, mem, l.sp, k))
    ensures l.Launched? ==>
      var list := old(args.arguments);
      (AnyIn(list, |list|) || |list| <= NUM_ARGS_ON_REGISTER ==>
         forall k: nat :: k < |list| ==> CalleeFinds(list, host[..], l.regs, l.mem, l.sp, k))
  {
    hide Image, CalleeFinds, RegValues, Placed, AnyIn, AnyOut, WriteMem, RegValue, Decodes, Pointer, ReadMem;
    ghost var list := args.arguments;
    var newSp, ok := args.Setup(host, sp);
    if !ok {
      return Aborted;
    }
    var regs := args.GetRegVal();
    var mem' := args.CopyIn(mem);
    ghost var bytes := host[..];
    assert args.stackBuf.Length == |args.stackBuf[..]| == Total(list);
    RegistersDecode(list, bytes, newSp);
    if AnyIn(list, |list|) {
      CalleeFindsAll(list, bytes, newSp, mem);
      WholeFrameRead(mem, newSp, Image(list, bytes, newSp));
    } else {
      ElisionExact(list, bytes, newSp);
    }
    return Launched(regs, mem', newSp);
  }

  /**
   * Collecting the outputs after the VE function has returned with memory `mem`: a host byte takes the
   * value VE memory holds for the last OUT or INOUT buffer that contains it, every other host byte is
   * as before; so buffers that do not overlap hold what VE memory holds at their pointers.
   */
  method CollectOutputs(args: CallArgs, host: array<byte>, mem: VeMem, ghost list: seq<Arg>, ghost atSetup: seq<byte>)
    requires host != args.stackBuf && |atSetup| == host.Length && ValidArgs(list, host.Length)
    requires Total(list) < 0x8000_0000
    requires args.IsSetUp(list, atSetup, args.stackTop)
    modifies host, args.stackBuf
    ensures forall b, k: nat :: 0 <= b < host.Length && LastCovers(list, |list|, k, b) ==>
      host[b] == VeByte(list, args.stackTop, mem, k, b)
    ensures forall b :: 0 <= b < host.Length && !InOutBuffer(list, |list|, b) ==> host[b] == old(host[b])
    ensures OutsDisjoint(list) ==> forall k: nat :: k < |list| && list[k].StackArg? && list[k].isOut ==>
      host[list[k].buf..list[k].buf + list[k].len] == ReadMem(mem, Pointer(list, args.stackTop, k), list[k].len)
  {
    hide Image, CopiedOut, ReadMem, Placed, OutsDisjoint, Pointer, InOutBuffer, VeByte;
    ghost var before, sp := host[..], args.stackTop;
    PlacedOutsFit(list, sp, host.Length);
    assert args.stackBuf.Length == |args.stackBuf[..]| == Total(list);
    args.CopyOut(host, mem);
    NoOutNoCover(list);
    if AnyOut(list, |list|) {
      forall b: nat | b < host.Length
        ensures !InOutBuffer(list, |list|, b) ==> host[..][b] == before[b]
        ensures forall k: nat :: LastCovers(list, |list|, k, b) ==>
          host[..][b] == VeByte(list, sp, mem, k, b)
      {
        CopyOutByte(list, before, sp, mem, b);
      }
      forall k: nat | OutsDisjoint(list) && k < |list| && list[k].StackArg? && list[k].isOut
        ensures host[..][list[k].buf..list[k].buf + list[k].len] == ReadMem(mem, Pointer(list, sp, k), list[k].len)
      {
        assert ValidArg(list[k], host.Length);
        CopyOutCorrect(list, before, sp, mem, k);
      }
    }
  }

  lemma {:induction false} NoOutNoCover(args: seq<Arg>)
    ensures !AnyOut(args, |args|) ==> forall b, k: nat :: !LastCovers(args, |args|, k, b)
  {
  }

  // ----- relocation and reuse -----

  /** The two lists differ at most in the VE addresses recorded by earlier calls. */
  predicate SameButVemva(a: seq<Arg>, b: seq<Arg>) {
    && |a| == |b|
    && forall k :: 0 <= k < |a| ==>
         if a[k].StackArg? then b[k].StackArg? && b[k].(vemva := a[k].vemva) == a[k] else b[k] == a[k]
  }

  lemma {:induction false} SameSizes(a: seq<Arg>, b: seq<Arg>, k: nat)
    requires SameButVemva(a, b) && k <= |a|
    ensures DataSize(a, k) == DataSize(b, k)
  {
    if k > 0 {
      SameSizes(a, b, k - 1);
    }
  }

  lemma {:induction false} SamePiece(x: Arg, y: Arg, host: seq<byte>, k: nat, ptr: nat)
    requires if x.StackArg? then y.StackArg? && y.(vemva := x.vemva) == x else y == x
    requires ValidArg(x, |host|) && ValidArg(y, |host|)
    ensures Slot(x, k, ptr) == Slot(y, k, ptr) && Region(x, host) == Region(y, host)
  {
    hide LE, Zeros, ScalarImage;
  }

  lemma {:induction false} SameContents(a: seq<Arg>, b: seq<Arg>, host: seq<byte>, sp: nat, k: nat)
    requires SameButVemva(a, b) && ValidArgs(a, |host|) && ValidArgs(b, |host|) && k <= |a|
    ensures Slots(a, host, sp, k) == Slots(b, host, sp, k) && Data(a, host, k) == Data(b, host, k)
  {
    hide Slot, Region, DataSize;
    if k > 0 {
      SameContents(a, b, host, sp, k - 1);
      SameSizes(a, b, k - 1);
      SamePiece(a[k - 1], b[k - 1], host, k - 1, Pointer(a, sp, k - 1));
    }
  }

  /**
   * Reuse: a frame does not depend on what earlier calls recorded in the arguments. In particular,
   * setting up the arguments that a previous setup left gives the frame a fresh list would give.
   */
  lemma {:induction false} ReuseSameFrame(a: seq<Arg>, b: seq<Arg>, host: seq<byte>, sp: nat)
    requires SameButVemva(a, b) && ValidArgs(a, |host|)
    ensures ValidArgs(b, |host|) && Total(a) == Total(b)
    ensures Image(a, host, sp) == Image(b, host, sp)
    ensures Placed(a, sp, |a|) == Placed(b, sp, |b|)
    ensures AnyIn(a, |a|) == AnyIn(b, |b|) && AnyOut(a, |a|) == AnyOut(b, |b|)
    ensures forall earlier: nat :: SameButVemva(a, Placed(a, earlier, |a|))
  {
    hide Image, Slots, Data, DataSize, AnyIn, AnyOut;
    SameValid(a, b, |host|);
    SameSizes(a, b, |a|);
    SameContents(a, b, host, sp, |a|);
    SameFlags(a, b);
    ImageParts(a, host, sp);
    ImageParts(b, host, sp);
    forall k | 0 <= k < |a| ensures Placed(a, sp, |a|)[k] == Placed(b, sp, |b|)[k] {
      SameSizes(a, b, k);
    }
  }

  lemma {:induction false} SameFlags(a: seq<Arg>, b: seq<Arg>)
    requires SameButVemva(a, b)
    ensures AnyIn(a, |a|) == AnyIn(b, |b|) && AnyOut(a, |a|) == AnyOut(b, |b|)
  {
    assert forall k :: 0 <= k < |a| ==> ArgIn(a[k], k) == ArgIn(b[k], k);
    assert forall k :: 0 <= k < |a| ==> (a[k].StackArg? && a[k].isOut <==> b[k].StackArg? && b[k].isOut);
  }

  lemma {:induction false} SameValid(a: seq<Arg>, b: seq<Arg>, hostSize: nat)
    requires SameButVemva(a, b) && ValidArgs(a, hostSize)
    ensures ValidArgs(b, hostSize)
  {
    forall k | 0 <= k < |b| ensures ValidArg(b[k], hostSize) {
      assert ValidArg(a[k], hostSize);
    }
  }

  lemma {:induction false} SlotMoves(args: seq<Arg>, host: seq<byte>, sp: nat, d: nat, k: nat)
    requires ValidArgs(args, |host|) && k < |args|
    ensures !args[k].Null? && (args[k].IntArg? ==> args[k].width <= 8)
    ensures var here, there := Slot(args[k], k, Pointer(args, sp, k)), Slot(args[k], k, Pointer(args, sp + d, k));
      if args[k].StackArg? && k >= NUM_ARGS_ON_REGISTER then FromLE(there) == U64(FromLE(here) + d) else there == here
  {
    hide FromLE, ScalarImage, LE, Pointer, U64;
    assert ValidArg(args[k], |host|);
    PointerMoves(args, sp, d, k);
    if args[k].StackArg? && k >= NUM_ARGS_ON_REGISTER {
      SlotValue(args[k], k, Pointer(args, sp, k));
      SlotValue(args[k], k, Pointer(args, sp + d, k));
    }
  }

  lemma {:induction false} RegisterMoves(args: seq<Arg>, sp: nat, d: nat, k: nat)
    requires k < |args|
    ensures var p, q := Placed(args, sp, |args|)[k], Placed(args, sp + d, |args|)[k];
      RegValue(q) == if args[k].StackArg? then U64(RegValue(p) + d) else RegValue(p)
  {
    hide Pointer, U64, Pow256;
    PointerMoves(args, sp, d, k);
  }

  /**
   * Relocation: frames at `sp` and `sp + d` differ only in the pointers, which move by `d` modulo
   * 2^64; so do the pointers in registers, and no other register changes.
   */
  lemma {:induction false} FrameMoves(args: seq<Arg>, host: seq<byte>, sp: nat, d: nat, k: nat)
    requires ValidArgs(args, |host|) && k < |args|
    ensures var here, there := Image(args, host, sp), Image(args, host, sp + d);
      && here[..PARAM_AREA_OFFSET] == there[..PARAM_AREA_OFFSET]
      && here[SlotOffset(|args|)..] == there[SlotOffset(|args|)..]
      && SlotOffset(k) + 8 <= |here| == |there|
      && (args[k].StackArg? && k >= NUM_ARGS_ON_REGISTER ==>
            FromLE(there[SlotOffset(k)..SlotOffset(k) + 8]) == U64(FromLE(here[SlotOffset(k)..SlotOffset(k) + 8]) + d))
      && (!(args[k].StackArg? && k >= NUM_ARGS_ON_REGISTER) ==>
            there[SlotOffset(k)..SlotOffset(k) + 8] == here[SlotOffset(k)..SlotOffset(k) + 8])
    ensures var p, q := Placed(args, sp, |args|)[k], Placed(args, sp + d, |args|)[k];
      RegValue(q) == if args[k].StackArg? then U64(RegValue(p) + d) else RegValue(p)
  {
    hide Image, FromLE, Slot, SlotOffset, RegValue, Placed, Pointer, U64;
    FrameEnds(args, host, sp, sp + d);
    ImageAt(args, host, sp, k);
    ImageAt(args, host, sp + d, k);
    SlotMoves(args, host, sp, d, k);
    RegisterMoves(args, sp, d, k);
  }

  lemma {:induction false} PointerMoves(args: seq<Arg>, sp: nat, d: nat, k: nat)
    requires k < |args|
    ensures Pointer(args, sp + d, k) == U64(Pointer(args, sp, k) + d)
  {
    AddMod(sp, DataOffset(args, k), d);
  }

  lemma {:induction false} FrameEnds(args: seq<Arg>, host: seq<byte>, sp: nat, sp': nat)
    requires ValidArgs(args, |host|)
    ensures var here, there := Image(args, host, sp), Image(args, host, sp');
      && here[..PARAM_AREA_OFFSET] == there[..PARAM_AREA_OFFSET]
      && here[SlotOffset(|args|)..] == there[SlotOffset(|args|)..]
  {
    hide Image, Slots, Data;
    ImageParts(args, host, sp);
    ImageParts(args, host, sp');
    var zeros, data := Zeros(PARAM_AREA_OFFSET), Data(args, host, |args|);
    SliceRight(zeros + Slots(args, host, sp, |args|), data, 0, |data|);
    SliceRight(zeros + Slots(args, host, sp', |args|), data, 0, |data|);
  }
}
