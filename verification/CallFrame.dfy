/**
 * The layout of a VE call frame: 176 bytes of linkage, one 8-byte slot per argument, then the padded
 * by-reference data. Everything here is a direct description of the finished frame; the code that
 * builds it step by step is in the module `CallArguments`.
 */
module CallFrame {
  import opened Base
  import opened Bytes

  const NUM_ARGS_ON_REGISTER: nat := 8
  const PARAM_AREA_OFFSET: nat := 176

  /**
   * An argument. `bits` is the object representation; `buf` and `len` locate a buffer in host
   * memory; `Null` is what `resize` leaves in a position that was never set.
   */
  datatype Arg =
    | Null
    | IntArg(width: nat, signed: bool, bits: nat)
    | DoubleArg(bits: nat)
    | FloatArg(bits: nat)
    | StackArg(buf: nat, len: nat, isIn: bool, isOut: bool, vemva: nat)

  predicate ValidArg(a: Arg, hostSize: nat) {
    match a
    case Null => false
    case IntArg(w, _, bits) => w in {1, 2, 4, 8} && bits < Pow256(w)
    case DoubleArg(bits) => bits < TWO64
    case FloatArg(bits) => bits < 0x1_0000_0000
    case StackArg(buf, len, _, _, _) => buf + len <= hostSize
  }

  /** No gaps, representations of the right size, buffers inside host memory. */
  predicate ValidArgs(args: seq<Arg>, hostSize: nat) {
    forall k :: 0 <= k < |args| ==> ValidArg(args[k], hostSize)
  }

  // ----- sizes and offsets -----

  function PadLen(len: nat): nat {
    if len % 8 > 0 then 8 - len % 8 else 0
  }

  function SizeOnStack(a: Arg): (r: nat)
    ensures a.StackArg? ==> a.len <= r < a.len + 8
  {
    if a.StackArg? then a.len + PadLen(a.len) else 0
  }

  function DataSize(args: seq<Arg>, k: nat): nat
    requires k <= |args|
  {
    if k == 0 then 0 else DataSize(args, k - 1) + SizeOnStack(args[k - 1])
  }

  function SlotOffset(k: nat): nat {
    PARAM_AREA_OFFSET + 8 * k
  }

  /** Where the data of argument `k` begins in the frame. */
  function DataOffset(args: seq<Arg>, k: nat): nat
    requires k <= |args|
  {
    PARAM_AREA_OFFSET + 8 * |args| + DataSize(args, k)
  }

  function Total(args: seq<Arg>): nat {
    DataOffset(args, |args|)
  }

  /** The VE address of the data of argument `k` in a frame at `sp`. */
  function Pointer(args: seq<Arg>, sp: nat, k: nat): (r: nat)
    requires k < |args|
    ensures r < TWO64
  {
    U64(sp + DataOffset(args, k))
  }

  lemma {:induction false} DataSizeGrows(args: seq<Arg>, i: nat, j: nat)
    requires i <= j <= |args|
    ensures DataSize(args, i) <= DataSize(args, j)
    decreases j
  {
    if i < j {
      DataSizeGrows(args, i, j - 1);
    }
  }

  lemma {:induction false} SizeAligned(a: Arg)
    ensures SizeOnStack(a) % 8 == 0
  {
    if a.StackArg? {
      assert a.len == 8 * (a.len / 8) + a.len % 8;
    }
  }

  lemma {:induction false} DataSizeAligned(args: seq<Arg>, k: nat)
    requires k <= |args|
    ensures DataSize(args, k) % 8 == 0
  {
    if k > 0 {
      hide SizeOnStack;
      DataSizeAligned(args, k - 1);
      SizeAligned(args[k - 1]);
    }
  }

  /**
   * The frame layout: slots and by-reference regions are pairwise disjoint, start at multiples of
   * eight and lie inside [176, total). Slot `i` is at 176 + 8 i, and a region follows the one before it.
   */
  lemma {:induction false} LayoutDisjoint(args: seq<Arg>, i: nat, j: nat)
    requires i < |args| && j < |args|
    ensures DataOffset(args, i) % 8 == 0 && SlotOffset(i) % 8 == 0
    ensures SlotOffset(i) == 176 + 8 * i && SlotOffset(i) + 8 <= DataOffset(args, j)
    ensures DataOffset(args, 0) == 176 + 8 * |args|
    ensures DataOffset(args, i + 1) == DataOffset(args, i) + SizeOnStack(args[i])
    ensures args[i].StackArg? ==> args[i].len <= SizeOnStack(args[i]) < args[i].len + 8
    ensures !args[i].StackArg? ==> SizeOnStack(args[i]) == 0
    ensures DataOffset(args, i) + SizeOnStack(args[i]) <= Total(args)
    ensures i < j ==> SlotOffset(i) + 8 <= SlotOffset(j)
    ensures i < j ==> DataOffset(args, i) + SizeOnStack(args[i]) <= DataOffset(args, j)
  {
    DataSizeAligned(args, i);
    DataSizeGrows(args, i + 1, |args|);
    if i < j {
      DataSizeGrows(args, i + 1, j);
    }
  }

  // ----- contents -----

  /** The bytes of a scalar as `set_value` writes them; a float fills the upper half of its slot. */
  function ScalarImage(a: Arg): (r: seq<byte>)
    requires !a.Null? && !a.StackArg?
    ensures a.IntArg? ==> |r| == a.width
    ensures !a.IntArg? ==> |r| == 8
  {
    match a
    case IntArg(w, _, bits) => LE(bits, w)
    case DoubleArg(bits) => LE(bits, 8)
    case FloatArg(bits) => LE(bits * 0x1_0000_0000, 8)
  }

  /** The slot of an argument: empty below position 8, then the zero-padded value or the pointer. */
  function Slot(a: Arg, k: nat, ptr: nat): (r: seq<byte>)
    requires !a.Null? && (a.IntArg? ==> a.width <= 8)
    ensures |r| == 8
  {
    if k < NUM_ARGS_ON_REGISTER then Zeros(8)
    else if a.StackArg? then LE(ptr, 8)
    else ScalarImage(a) + Zeros(8 - |ScalarImage(a)|)
  }

  /** The data of a by-reference argument: the buffer (or zeros for OUT) and the padding. */
  function Region(a: Arg, host: seq<byte>): (r: seq<byte>)
    requires ValidArg(a, |host|)
    ensures |r| == SizeOnStack(a)
  {
    if a.StackArg? then
      (if a.isIn then host[a.buf..a.buf + a.len] else Zeros(a.len)) + Zeros(PadLen(a.len))
    else []
  }

  function Slots(args: seq<Arg>, host: seq<byte>, sp: nat, k: nat): (r: seq<byte>)
    requires ValidArgs(args, |host|) && k <= |args|
    ensures |r| == 8 * k
  {
    if k == 0 then [] else Slots(args, host, sp, k - 1) + Slot(args[k - 1], k - 1, Pointer(args, sp, k - 1))
  }

  function Data(args: seq<Arg>, host: seq<byte>, k: nat): (r: seq<byte>)
    requires ValidArgs(args, |host|) && k <= |args|
    ensures |r| == DataSize(args, k)
  {
    if k == 0 then [] else Data(args, host, k - 1) + Region(args[k - 1], host)
  }

  /** The frame after the first `k` arguments have been placed. */
  function PartialImage(args: seq<Arg>, host: seq<byte>, sp: nat, k: nat): (r: seq<byte>)
    requires ValidArgs(args, |host|) && k <= |args|
    ensures |r| == DataOffset(args, k)
  {
    Zeros(PARAM_AREA_OFFSET) + Slots(args, host, sp, k) + Zeros(8 * (|args| - k)) + Data(args, host, k)
  }

  /** The finished frame. */
  function Image(args: seq<Arg>, host: seq<byte>, sp: nat): (r: seq<byte>)
    requires ValidArgs(args, |host|)
    ensures |r| == Total(args)
  {
    PartialImage(args, host, sp, |args|)
  }

  /** Is a transfer to the VE needed because of this argument? */
  predicate ArgIn(a: Arg, k: nat) {
    if a.StackArg? then a.isIn else k >= NUM_ARGS_ON_REGISTER
  }

  predicate AnyIn(args: seq<Arg>, k: nat)
    requires k <= |args|
  {
    exists i :: 0 <= i < k && ArgIn(args[i], i)
  }

  predicate AnyOut(args: seq<Arg>, k: nat)
    requires k <= |args|
  {
    exists i :: 0 <= i < k && args[i].StackArg? && args[i].isOut
  }

  /** The arguments after the first `k` have recorded their VE address. */
  function Placed(args: seq<Arg>, sp: nat, k: nat): (r: seq<Arg>)
    requires k <= |args|
    ensures |r| == |args|
  {
    seq(|args|, i requires 0 <= i < |args| =>
      if i < k && args[i].StackArg? then args[i].(vemva := Pointer(args, sp, i)) else args[i])
  }

  /** The value of an argument in a register: integers sign- or zero-extended to 64 bits. */
  function RegValue(a: Arg): nat {
    match a
    case Null => 0
    case IntArg(w, signed, bits) =>
      if signed && 2 * bits >= Pow256(w) then U64(bits - Pow256(w)) else bits
    case DoubleArg(bits) => bits
    case FloatArg(bits) => bits * 0x1_0000_0000
    case StackArg(_, _, _, _, vemva) => vemva
  }

  // ----- reading the finished frame -----

  lemma {:induction false} SliceLeft(a: seq<byte>, b: seq<byte>, lo: nat, hi: nat)
    requires lo <= hi <= |a|
    ensures (a + b)[lo..hi] == a[lo..hi]
  {
  }

  lemma {:induction false} SliceRight(a: seq<byte>, b: seq<byte>, lo: nat, hi: nat)
    requires lo <= hi <= |b|
    ensures (a + b)[|a| + lo..|a| + hi] == b[lo..hi]
  {
  }

  lemma {:induction false} SlotsAt(args: seq<Arg>, host: seq<byte>, sp: nat, n: nat, k: nat)
    requires ValidArgs(args, |host|) && k < n <= |args|
    ensures Slots(args, host, sp, n)[8 * k..8 * k + 8] == Slot(args[k], k, Pointer(args, sp, k))
    decreases n
  {
    hide Slot, Pointer;
    var before, last := Slots(args, host, sp, n - 1), Slot(args[n - 1], n - 1, Pointer(args, sp, n - 1));
    if k < n - 1 {
      SlotsAt(args, host, sp, n - 1, k);
      SliceLeft(before, last, 8 * k, 8 * k + 8);
    } else {
      SliceRight(before, last, 0, 8);
    }
  }

  lemma {:induction false} DataNext(args: seq<Arg>, host: seq<byte>, n: nat)
    requires ValidArgs(args, |host|) && n < |args|
    ensures Data(args, host, n + 1) == Data(args, host, n) + Region(args[n], host)
    ensures DataSize(args, n + 1) == DataSize(args, n) + SizeOnStack(args[n])
  {
    hide Region, SizeOnStack, ValidArg;
  }

  lemma {:induction false} DataAt(args: seq<Arg>, host: seq<byte>, n: nat, k: nat)
    requires ValidArgs(args, |host|) && k < n <= |args|
    ensures DataSize(args, k) + SizeOnStack(args[k]) <= DataSize(args, n)
    ensures Data(args, host, n)[DataSize(args, k)..DataSize(args, k) + SizeOnStack(args[k])] == Region(args[k], host)
    decreases n
  {
    hide Region, SizeOnStack, ValidArg, Data, DataSize;
    DataSizeGrows(args, k + 1, n);
    DataNext(args, host, k);
    DataNext(args, host, n - 1);
    var before, last := Data(args, host, n - 1), Region(args[n - 1], host);
    var lo, hi := DataSize(args, k), DataSize(args, k) + SizeOnStack(args[k]);
    if k < n - 1 {
      DataAt(args, host, n - 1, k);
      SliceLeft(before, last, lo, hi);
    } else {
      SliceRight(before, last, 0, |last|);
    }
  }

  lemma {:induction false} ImageParts(args: seq<Arg>, host: seq<byte>, sp: nat)
    requires ValidArgs(args, |host|)
    ensures Image(args, host, sp) ==
      Zeros(PARAM_AREA_OFFSET) + Slots(args, host, sp, |args|) + Data(args, host, |args|)
  {
    hide Slots, Data, ValidArgs;
    assert Zeros(8 * (|args| - |args|)) == [];
  }

  /** What the finished frame holds at the slot and at the region of argument `k`. */
  lemma {:induction false} ImageAt(args: seq<Arg>, host: seq<byte>, sp: nat, k: nat)
    requires ValidArgs(args, |host|) && k < |args|
    ensures SlotOffset(k) + 8 <= Total(args) && DataOffset(args, k) + SizeOnStack(args[k]) <= Total(args)
    ensures Image(args, host, sp)[SlotOffset(k)..SlotOffset(k) + 8] == Slot(args[k], k, Pointer(args, sp, k))
    ensures Image(args, host, sp)[DataOffset(args, k)..DataOffset(args, k) + SizeOnStack(args[k])] ==
      Region(args[k], host)
  {
    hide Slots, Data, ValidArg, Slot, Region, SizeOnStack, Image, DataSize;
    var n := |args|;
    var zeros, slots, data := Zeros(PARAM_AREA_OFFSET), Slots(args, host, sp, n), Data(args, host, n);
    ImageParts(args, host, sp);
    SlotsAt(args, host, sp, n, k);
    DataAt(args, host, n, k);
    SliceLeft(zeros + slots, data, SlotOffset(k), SlotOffset(k) + 8);
    SliceRight(zeros, slots, 8 * k, 8 * k + 8);
    SliceRight(zeros + slots, data, DataSize(args, k), DataSize(args, k) + SizeOnStack(args[k]));
  }

  lemma {:induction false} SlotPadding(a: Arg, k: nat, ptr: nat, j: nat)
    requires !a.Null? && (a.IntArg? ==> a.width <= 8) && j < 8
    ensures k < NUM_ARGS_ON_REGISTER ==> Slot(a, k, ptr)[j] == 0
    ensures a.IntArg? && a.width <= j ==> Slot(a, k, ptr)[j] == 0
  {
    hide LE;
  }

  lemma {:induction false} RegionPadding(a: Arg, host: seq<byte>, j: nat)
    requires ValidArg(a, |host|) && a.StackArg? && j < SizeOnStack(a)
    ensures j >= a.len || !a.isIn ==> Region(a, host)[j] == 0
  {
  }

  /**
   * Every byte of the frame that carries no data is zero: the linkage area, the slots of register
   * arguments, the upper bytes of narrow integers, output-only buffers and the padding of regions.
   */
  lemma {:induction false} UnusedBytesZero(args: seq<Arg>, host: seq<byte>, sp: nat, k: nat, j: nat)
    requires ValidArgs(args, |host|)
    ensures |Image(args, host, sp)| == Total(args) >= 176
    ensures j < 176 ==> Image(args, host, sp)[j] == 0
    ensures k < |args| && j < 8 && (k < 8 || (args[k].IntArg? && args[k].width <= j)) ==>
      SlotOffset(k) + j < Total(args) && Image(args, host, sp)[SlotOffset(k) + j] == 0
    ensures k < |args| && args[k].StackArg? && j < SizeOnStack(args[k]) && (args[k].len <= j || !args[k].isIn) ==>
      DataOffset(args, k) + j < Total(args) && Image(args, host, sp)[DataOffset(args, k) + j] == 0
  {
    hide Slots, Data, Slot, Region, SizeOnStack, Image, DataSize, Pointer;
    var img := Image(args, host, sp);
    ImageParts(args, host, sp);
    if k < |args| {
      ImageAt(args, host, sp, k);
      assert ValidArg(args[k], |host|);
      if j < 8 {
        SlotPadding(args[k], k, Pointer(args, sp, k), j);
        assert img[SlotOffset(k) + j] == img[SlotOffset(k)..SlotOffset(k) + 8][j];
      }
      if args[k].StackArg? && j < SizeOnStack(args[k]) {
        RegionPadding(args[k], host, j);
        assert img[DataOffset(args, k) + j] == img[DataOffset(args, k)..DataOffset(args, k) + SizeOnStack(args[k])][j];
      }
    }
  }

  lemma {:induction false} SlotsPrefix(args: seq<Arg>, host: seq<byte>, sp: nat, k: nat, n: nat)
    requires ValidArgs(args, |host|) && k <= n <= |args|
    ensures Slots(args, host, sp, k) <= Slots(args, host, sp, n)
    ensures Data(args, host, k) <= Data(args, host, n)
    decreases n
  {
    if k < n {
      SlotsPrefix(args, host, sp, k, n - 1);
    }
  }

  /** The partly built frame begins with the first `k` slots and ends with the first `k` regions. */
  lemma {:induction false} PartialEnds(args: seq<Arg>, host: seq<byte>, sp: nat, k: nat)
    requires ValidArgs(args, |host|) && k <= |args|
    ensures var part := PartialImage(args, host, sp, k);
      && part[..SlotOffset(k)] == Zeros(PARAM_AREA_OFFSET) + Slots(args, host, sp, k)
      && part[SlotOffset(|args|)..] == Data(args, host, k)
  {
    hide Slots, Data, ValidArgs, DataSize, PartialImage;
    var zeros, slots, gap, data :=
      Zeros(PARAM_AREA_OFFSET), Slots(args, host, sp, k), Zeros(8 * (|args| - k)), Data(args, host, k);
    PartialImageParts(args, host, sp, k);
    Prefix2(zeros, slots, gap + data);
    assert zeros + slots + gap + data == zeros + slots + (gap + data);
  }

  /** So does the finished frame, as far as they go. */
  lemma {:induction false} ImageEnds(args: seq<Arg>, host: seq<byte>, sp: nat, k: nat)
    requires ValidArgs(args, |host|) && k <= |args|
    ensures DataOffset(args, k) <= Total(args)
    ensures var img := Image(args, host, sp);
      && img[..SlotOffset(k)] == Zeros(PARAM_AREA_OFFSET) + Slots(args, host, sp, k)
      && img[SlotOffset(|args|)..DataOffset(args, k)] == Data(args, host, k)
  {
    hide Slots, Data, ValidArgs, DataSize, Image;
    var zeros, slots, data := Zeros(PARAM_AREA_OFFSET), Slots(args, host, sp, |args|), Data(args, host, |args|);
    SlotsPrefix(args, host, sp, k, |args|);
    ImageParts(args, host, sp);
    Prefix2(zeros, slots[..8 * k], slots[8 * k..] + data);
    assert zeros + slots + data == zeros + slots[..8 * k] + (slots[8 * k..] + data);
    SliceRight(zeros + slots, data, 0, DataSize(args, k));
  }

  /**
   * Placing a later argument never alters bytes of an earlier one: the slots and the data of the
   * first `k` arguments are already final after `k` arguments.
   */
  lemma {:induction false} EarlierBytesKept(args: seq<Arg>, host: seq<byte>, sp: nat, k: nat)
    requires ValidArgs(args, |host|) && k <= |args|
    ensures var part, img := PartialImage(args, host, sp, k), Image(args, host, sp);
      && |part| <= |img|
      && part[..SlotOffset(k)] == img[..SlotOffset(k)]
      && part[SlotOffset(|args|)..] == img[SlotOffset(|args|)..|part|]
  {
    hide Slots, Data, ValidArgs, DataSize, Image, PartialImage;
    PartialEnds(args, host, sp, k);
    ImageEnds(args, host, sp, k);
  }

  lemma {:induction false} Prefix2(a: seq<byte>, b: seq<byte>, c: seq<byte>)
    ensures (a + b + c)[..|a| + |b|] == a + b
  {
  }

  lemma {:induction false} PartialImageParts(args: seq<Arg>, host: seq<byte>, sp: nat, k: nat)
    requires ValidArgs(args, |host|) && k <= |args|
    ensures PartialImage(args, host, sp, k) ==
      Zeros(PARAM_AREA_OFFSET) + Slots(args, host, sp, k) + Zeros(8 * (|args| - k)) + Data(args, host, k)
  {
    hide Slots, Data, ValidArgs, DataSize;
  }
}
