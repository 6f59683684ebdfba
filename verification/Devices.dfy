/** The device register allocator and the byte-reversed descriptor table
    (src/mem.c, src/io.c) as a value. */
module Devices {
  import opened Words
  import opened Memory
  import opened Bits

  const MAX_IO_DEVICES := 2048

  /** What a device brings along. */
  datatype Info = Info(typecode: Word, length: Word, irq: Word, vendor: seq<Byte>)

  /** A device with the register base it was given. */
  datatype Placed = Placed(info: Info, base: Word)

  datatype Descriptor = Descriptor(
    typecode: Word,
    ioAddrBase: Word,
    ioAddrLen: Word,
    irq: Word,
    vendor: seq<Byte>,
    reserved1: Word,
    reserved2: Word)

  const NO_DESCRIPTOR := Descriptor(0, 0, 0, 0, [0, 0, 0, 0, 0, 0, 0, 0], 0, 0)

  /** The REVERSE macro. */
  function ReverseBytes(x: Word): Word {
    Or(Or(Or(And(Shr(x, 24), 0xFF), And(Shl(x, 8), 0xFF_0000)), And(Shr(x, 8), 0xFF00)), And(Shl(x, 24), 0xFF00_0000))
  }

  /** Masks and shifts in arithmetic. */
  lemma ReverseIs(x: Word)
    ensures ReverseBytes(x) ==
              x / 0x100_0000 + x / 0x1_0000 % 0x100 * 0x100 + x / 0x100 % 0x100 * 0x1_0000 + x % 0x100 * 0x100_0000
  {
    hide And, OrNat, Shl, Shr, Pow2, Wrap;
    var b3, b2, b1, b0 := x / 0x100_0000, x / 0x1_0000 % 0x100, x / 0x100 % 0x100, x % 0x100;
    BytesOfWord(x);
    RightParts(x);
    LeftParts(x);
    ByteSum(b3, b2, b1, b0);
  }

  lemma RightParts(x: Word)
    ensures And(Shr(x, 24), 0xFF) == x / 0x100_0000 && And(Shr(x, 8), 0xFF00) == x / 0x1_0000 % 0x100 * 0x100
  {
    hide And, Shr, Pow2;
    Pow2Values();
    BytesOfWord(x);
    ShiftRight(x, 24);
    AndOnes(x / 0x100_0000, 8);
    ShiftRight(x, 8);
    AndBand(x / 0x100, 8, 16);
  }

  lemma LeftParts(x: Word)
    ensures And(Shl(x, 8), 0xFF_0000) == x / 0x100 % 0x100 * 0x1_0000
    ensures And(Shl(x, 24), 0xFF00_0000) == x % 0x100 * 0x100_0000
  {
    hide And, Shl, Pow2, Wrap;
    Pow2Values();
    ShiftedBytes(x);
    ShiftLeft(x, 8);
    AndBand(Wrap(x * 0x100), 16, 24);
    ShiftLeft(x, 24);
    AndBand(Wrap(x * 0x100_0000), 24, 32);
  }

  lemma ShiftedBytes(x: Word)
    ensures var y, z, b1, b0 := Wrap(x * 0x100), Wrap(x * 0x100_0000), x / 0x100 % 0x100, x % 0x100;
            y % 0x100_0000 == b1 * 0x1_0000 + b0 * 0x100 && y % 0x1_0000 == b0 * 0x100 &&
            z % WORD_SIZE == b0 * 0x100_0000 && z % 0x100_0000 == 0
  {
    var b3, b2, b1, b0 := x / 0x100_0000, x / 0x1_0000 % 0x100, x / 0x100 % 0x100, x % 0x100;
    BytesOfWord(x);
    var y, z := b2 * 0x100_0000 + b1 * 0x1_0000 + b0 * 0x100, b0 * 0x100_0000;
    DivUnique(x * 0x100, WORD_SIZE, b3, y);
    DivUnique(y, 0x100_0000, b2, b1 * 0x1_0000 + b0 * 0x100);
    DivUnique(y, 0x1_0000, b2 * 0x100 + b1, b0 * 0x100);
    DivUnique(x * 0x100_0000, WORD_SIZE, b3 * 0x1_0000 + b2 * 0x100 + b1, z);
    DivUnique(z, WORD_SIZE, 0, z);
    DivUnique(z, 0x100_0000, b0, 0);
  }

  lemma ByteSum(b3: nat, b2: nat, b1: nat, b0: nat)
    requires b3 < 0x100 && b2 < 0x100 && b1 < 0x100 && b0 < 0x100
    ensures OrNat(OrNat(OrNat(b3, b1 * 0x1_0000), b2 * 0x100), b0 * 0x100_0000) ==
              b3 + b2 * 0x100 + b1 * 0x1_0000 + b0 * 0x100_0000
  {
    hide OrNat, Pow2;
    Pow2Values();
    OrSwap(b3, b1 * 0x1_0000, b2 * 0x100);
    OrDisjoint(b2 * 0x100, b3, 8);
    OrDisjoint(b1 * 0x1_0000, b2 * 0x100 + b3, 16);
    OrDisjoint(b0 * 0x100_0000, b1 * 0x1_0000 + b2 * 0x100 + b3, 24);
  }

  lemma ReverseTwice(x: Word)
    ensures ReverseBytes(ReverseBytes(x)) == x
    ensures ReverseBytes(x) == 0 <==> x == 0
  {
    hide ReverseBytes;
    var b3, b2, b1, b0 := x / 0x100_0000, x / 0x1_0000 % 0x100, x / 0x100 % 0x100, x % 0x100;
    BytesOfWord(x);
    ReverseIs(x);
    ReverseIs(ReverseBytes(x));
    WordOfBytes(b0, b1, b2, b3);
  }

  /** `device_descriptor_reverse` */
  function Reversed(d: Descriptor): Descriptor {
    Descriptor(ReverseBytes(d.typecode), ReverseBytes(d.ioAddrBase), ReverseBytes(d.ioAddrLen), ReverseBytes(d.irq),
               d.vendor, ReverseBytes(d.reserved1), ReverseBytes(d.reserved2))
  }

  /** `device_descriptor_set_fields` */
  function FieldsOf(p: Placed): Descriptor {
    Descriptor(p.info.typecode, p.base, p.info.length, p.info.irq, p.info.vendor, 0, 0)
  }

  /** `x` has the bytes of `y` in the opposite order. */
  predicate Mirrored(x: Word, y: Word) {
    x / 0x100_0000 == y % 0x100 && x / 0x1_0000 % 0x100 == y / 0x100 % 0x100 &&
    x / 0x100 % 0x100 == y / 0x1_0000 % 0x100 && x % 0x100 == y / 0x100_0000
  }

  lemma ReverseMirrors(x: Word)
    ensures Mirrored(ReverseBytes(x), x)
    ensures forall k | 0 <= k < 4 :: BigBytes(ReverseBytes(x), OpWord)[k] == BigBytes(x, OpWord)[3 - k]
  {
    hide ReverseBytes;
    var b3, b2, b1, b0 := x / 0x100_0000, x / 0x1_0000 % 0x100, x / 0x100 % 0x100, x % 0x100;
    BytesOfWord(x);
    ReverseIs(x);
    WordOfBytes(b0, b1, b2, b3);
  }

  /** A descriptor that tells of a device with registers from `base` on: its words
      byte by byte in the opposite order, the vendor string as it is. */
  predicate Tells(d: Descriptor, info: Info, base: int) {
    0 <= base < 0x1_0000_0000 &&
    Mirrored(d.typecode, info.typecode) && Mirrored(d.ioAddrBase, base) && Mirrored(d.ioAddrLen, info.length) &&
    Mirrored(d.irq, info.irq) && d.vendor == info.vendor && d.reserved1 == 0 && d.reserved2 == 0
  }

  lemma FieldsTell(p: Placed)
    ensures Tells(Reversed(FieldsOf(p)), p.info, p.base)
  {
    hide ReverseBytes, Mirrored;
    ReverseMirrors(p.info.typecode);
    ReverseMirrors(p.base);
    ReverseMirrors(p.info.length);
    ReverseMirrors(p.info.irq);
    ReverseTwice(0);
  }

  predicate IsFree(d: Descriptor)
    ensures IsFree(d) <==> d.typecode == 0
  {
    ReverseTwice(d.typecode);
    Reversed(d).typecode == 0
  }

  /** `get_free_descriptor`: the first free slot from `i` on. */
  function FirstFree(table: seq<Descriptor>, i: nat): (r: Option<nat>)
    ensures r.Some? ==> i <= r.value < |table| && IsFree(table[r.value])
    ensures forall k | i <= k < |table| && (r.Some? ==> k < r.value) :: !IsFree(table[k])
    decreases |table| - i
  {
    hide IsFree;
    if i >= |table| then None
    else if IsFree(table[i]) then Some(i)
    else FirstFree(table, i + 1)
  }

  /** Allocator and table; `placed` lists the devices oldest first. */
  datatype Bus = Bus(next: Word, placed: seq<Placed>, table: seq<Descriptor>)

  function EmptyTable(): (table: seq<Descriptor>)
    ensures |table| == MAX_IO_DEVICES && forall k | 0 <= k < MAX_IO_DEVICES :: table[k] == NO_DESCRIPTOR
  {
    seq(MAX_IO_DEVICES, _ => NO_DESCRIPTOR)
  }

  function EmptyBus(): Bus { Bus(IO_REGISTER_AREA, [], EmptyTable()) }

  /** `mmu_add_device`. The base wraps around when the register area is full. */
  function Add(b: Bus, info: Info): Bus {
    var p := Placed(info, b.next);
    Bus(Wrap(b.next + info.length), b.placed + [p], AddToTable(b.table, p))
  }

  /** `device_descriptor_add`: the first free slot gets the reversed fields. */
  function AddToTable(table: seq<Descriptor>, p: Placed): seq<Descriptor> {
    var slot := FirstFree(table, 0);
    if slot.Some? then table[slot.value := Reversed(FieldsOf(p))] else table
  }

  function AddAll(infos: seq<Info>): Bus {
    if infos == [] then EmptyBus()
    else Add(AddAll(infos[..|infos| - 1]), infos[|infos| - 1])
  }

  function TotalLength(infos: seq<Info>): nat {
    if infos == [] then 0 else TotalLength(infos[..|infos| - 1]) + infos[|infos| - 1].length
  }

  ghost predicate Tabulated(b: Bus, infos: seq<Info>) {
    |b.placed| == |infos| && |b.table| == MAX_IO_DEVICES &&
    b.next == Wrap(IO_REGISTER_AREA + TotalLength(infos)) &&
    (forall k | 0 <= k < |infos| :: b.placed[k] == Placed(infos[k], BaseOf(infos, k))) &&
    (forall k | 0 <= k < MAX_IO_DEVICES ::
       b.table[k] == if k < |infos| then Reversed(FieldsOf(Placed(infos[k], BaseOf(infos, k)))) else NO_DESCRIPTOR)
  }

  function BaseOf(infos: seq<Info>, k: nat): Word
    requires k <= |infos|
  {
    Wrap(IO_REGISTER_AREA + TotalLength(infos[..k]))
  }

  predicate AllNamed(infos: seq<Info>) { forall k | 0 <= k < |infos| :: infos[k].typecode != 0 }

  /** Device k starts where the lengths before it end, from 0xFFFF0000 on and modulo
      2 to the 32; the table's 2048 descriptors tell of the devices in the order
      they came, and are zero behind them. */
  ghost predicate Allocated(b: Bus, infos: seq<Info>) {
    |b.placed| == |infos| && |b.table| == 2048 &&
    b.next == (0xFFFF_0000 + TotalLength(infos)) % 0x1_0000_0000 &&
    (forall k | 0 <= k < |infos| ::
       b.placed[k].info == infos[k] &&
       b.placed[k].base == (0xFFFF_0000 + TotalLength(infos[..k])) % 0x1_0000_0000 &&
       (k < 2048 ==> Tells(b.table[k], infos[k], b.placed[k].base))) &&
    (forall k | |infos| <= k < 2048 :: b.table[k] == Descriptor(0, 0, 0, 0, [0, 0, 0, 0, 0, 0, 0, 0], 0, 0))
  }

  /** After any sequence of additions with non-zero typecodes, allocator and table
      agree with the sequence, also when the table or the area has overflowed. */
  lemma AllocationAgrees(infos: seq<Info>)
    requires AllNamed(infos)
    ensures Allocated(AddAll(infos), infos)
  {
    hide AddAll, TotalLength, Reversed, FieldsOf, Tells;
    TableAgrees(infos);
    var b := AddAll(infos);
    forall k | 0 <= k < |infos|
      ensures b.placed[k].info == infos[k] &&
              b.placed[k].base == (0xFFFF_0000 + TotalLength(infos[..k])) % 0x1_0000_0000 &&
              (k < 2048 ==> Tells(b.table[k], infos[k], b.placed[k].base))
    {
      FieldsTell(Placed(infos[k], BaseOf(infos, k)));
    }
  }

  lemma {:induction false} TableAgrees(infos: seq<Info>)
    requires AllNamed(infos)
    ensures Tabulated(AddAll(infos), infos)
  {
    if infos != [] {
      TableAgrees(infos[..|infos| - 1]);
      AddAgrees(AddAll(infos[..|infos| - 1]), infos);
    }
  }

  lemma AddAgrees(b: Bus, infos: seq<Info>)
    requires infos != [] && AllNamed(infos) && Tabulated(b, infos[..|infos| - 1])
    ensures Tabulated(Add(b, infos[|infos| - 1]), infos)
  {
    hide Reversed, FieldsOf, BaseOf, TotalLength, FirstFree, Wrap;
    var n := |infos| - 1;
    var before, info := infos[..n], infos[n];
    PrefixBases(infos);
    FreeSlots(b.table, before, n);
    assert infos[..n + 1] == infos;
    assert b.next == BaseOf(infos, n);
    var b' := Add(b, info);
    forall k | 0 <= k < |infos| ensures b'.placed[k] == Placed(infos[k], BaseOf(infos, k)) {
      if k < n { assert b'.placed[k] == b.placed[k] == Placed(before[k], BaseOf(before, k)); }
    }
  }

  /** The bases depend on the devices before only. */
  lemma PrefixBase(infos: seq<Info>, n: nat, k: nat)
    requires k < n <= |infos|
    ensures infos[..n][k] == infos[k] && BaseOf(infos[..n], k) == BaseOf(infos, k)
  {
    hide Wrap, TotalLength;
    assert infos[..n][..k] == infos[..k];
  }

  lemma PrefixBases(infos: seq<Info>)
    requires infos != []
    ensures var n := |infos| - 1;
            (forall k | 0 <= k < n :: infos[..n][k] == infos[k] && BaseOf(infos[..n], k) == BaseOf(infos, k)) &&
            BaseOf(infos, n) == Wrap(IO_REGISTER_AREA + TotalLength(infos[..n])) &&
            Wrap(IO_REGISTER_AREA + TotalLength(infos)) == Wrap(BaseOf(infos, n) + infos[n].length)
  {
    hide BaseOf;
    var n := |infos| - 1;
    forall k | 0 <= k < n ensures infos[..n][k] == infos[k] && BaseOf(infos[..n], k) == BaseOf(infos, k) {
      PrefixBase(infos, n, k);
    }
    LastBase(infos);
  }

  lemma LastBase(infos: seq<Info>)
    requires infos != []
    ensures var n := |infos| - 1;
            BaseOf(infos, n) == Wrap(IO_REGISTER_AREA + TotalLength(infos[..n])) &&
            Wrap(IO_REGISTER_AREA + TotalLength(infos)) == Wrap(BaseOf(infos, n) + infos[n].length)
  {
    hide Wrap, TotalLength;
    var n := |infos| - 1;
    TotalLast(infos);
    WrapAddends(IO_REGISTER_AREA + TotalLength(infos[..n]), infos[n].length);
  }

  lemma TotalLast(infos: seq<Info>)
    requires infos != []
    ensures TotalLength(infos) == TotalLength(infos[..|infos| - 1]) + infos[|infos| - 1].length
  {
  }

  lemma WrapAddends(x: int, y: int)
    ensures Wrap(Wrap(x) + y) == Wrap(x + y)
  {
  }

  /** The first free slot is the one behind the devices added. */
  lemma FreeSlots(table: seq<Descriptor>, infos: seq<Info>, n: nat)
    requires n == |infos| && AllNamed(infos) && |table| == MAX_IO_DEVICES
    requires forall k | 0 <= k < MAX_IO_DEVICES ::
               table[k] == if k < n then Reversed(FieldsOf(Placed(infos[k], BaseOf(infos, k)))) else NO_DESCRIPTOR
    ensures FirstFree(table, 0) == if n < MAX_IO_DEVICES then Some(n) else None
  {
    hide ReverseBytes, BaseOf;
    forall k | 0 <= k < MAX_IO_DEVICES ensures IsFree(table[k]) <==> k >= n {
      if k < n { ReverseTwice(infos[k].typecode); }
      ReverseTwice(0);
    }
    var r := FirstFree(table, 0);
    if n < MAX_IO_DEVICES { assert IsFree(table[n]); }
  }

  /** The register region of a device. */
  predicate Covers(p: Placed, address: int) {
    p.base <= address < p.base + p.info.length
  }

  /** As long as the lengths fit the register area, even filling it, no address is
      in two devices' regions; the first region starts the area, every further one
      that is not empty starts where the one before it ends, and none passes the
      area's end. */
  lemma RegionsDisjoint(infos: seq<Info>, i: nat, j: nat, address: int)
    requires i < j < |infos| && AllNamed(infos)
    requires 0xFFFF_0000 + TotalLength(infos) <= 0x1_0000_0000
    ensures var p := AddAll(infos).placed;
            |p| == |infos| && p[0].base == 0xFFFF_0000 && !(Covers(p[i], address) && Covers(p[j], address)) &&
            (infos[j].length > 0 ==>
               p[i].base + infos[i].length <= p[j].base && p[j].base + infos[j].length <= 0x1_0000_0000 &&
               (j == i + 1 ==> p[j].base == p[i].base + infos[i].length))
  {
    hide TotalLength, BaseOf, AddAll, Tabulated, Wrap;
    TableAgrees(infos);
    Placements(infos, i);
    Placements(infos, j);
    Placements(infos, 0);
    assert infos[..0] == [];
    NoLength();
    BaseFits(infos, 0);
    if infos[j].length > 0 {
      PrefixTotal(infos, i, j);
      PrefixTotal(infos, j, |infos|);
      assert infos[..|infos|] == infos;
      BaseFits(infos, i);
      BaseFits(infos, j);
    }
  }

  /** The allocator's own counter: the first free address, 0 once the area is full. */
  lemma NextBase(infos: seq<Info>)
    requires AllNamed(infos) && 0xFFFF_0000 + TotalLength(infos) <= 0x1_0000_0000
    ensures AddAll(infos).next == if 0xFFFF_0000 + TotalLength(infos) == 0x1_0000_0000 then 0
                                  else 0xFFFF_0000 + TotalLength(infos)
  {
    hide TotalLength, AddAll;
    TableAgrees(infos);
    assert infos[..|infos|] == infos;
  }

  lemma NoLength()
    ensures TotalLength([]) == 0
  {
  }

  lemma Placements(infos: seq<Info>, k: nat)
    requires k < |infos| && Tabulated(AddAll(infos), infos)
    ensures |AddAll(infos).placed| == |infos| && AddAll(infos).placed[k] == Placed(infos[k], BaseOf(infos, k))
    ensures AddAll(infos).next == BaseOf(infos, |infos|)
  {
    hide AddAll, TotalLength, Wrap, Reversed;
    assert infos[..|infos|] == infos;
  }

  lemma BaseFits(infos: seq<Info>, k: nat)
    requires k <= |infos| && IO_REGISTER_AREA + TotalLength(infos[..k]) < WORD_SIZE
    ensures BaseOf(infos, k) == IO_REGISTER_AREA + TotalLength(infos[..k])
  {
    hide TotalLength;
  }

  /** Prefix sums grow by the lengths in between. */
  lemma {:induction false} PrefixTotal(infos: seq<Info>, i: nat, j: nat)
    requires i <= j <= |infos|
    ensures TotalLength(infos[..i]) <= TotalLength(infos[..j])
    ensures i < j ==> TotalLength(infos[..i]) + infos[i].length <= TotalLength(infos[..j])
    ensures j == i + 1 ==> TotalLength(infos[..i]) + infos[i].length == TotalLength(infos[..j])
    decreases j
  {
    if i < j {
      PrefixTotal(infos, i, j - 1);
      assert infos[..j][..j - 1] == infos[..j - 1];
    }
  }

  /** The mirror image is determined. */
  lemma OneMirror(x: Word, y: Word, z: Word)
    requires Mirrored(x, z) && Mirrored(y, z)
    ensures x == y
  {
    BytesOfWord(x);
    BytesOfWord(y);
  }

  /** The shutdown device, of type 0x103, which the simulator adds first. */
  lemma ShutdownDevice(infos: seq<Info>)
    requires AllNamed(infos) && infos != [] && infos[0].typecode == 0x103
    ensures |AddAll(infos).table| == 2048
    ensures var d := AddAll(infos).table[0]; d.typecode == 0x0301_0000 && d.ioAddrBase == 0x0000_FFFF
  {
    hide AddAll, TotalLength, Mirrored;
    AllocationAgrees(infos);
    var b := AddAll(infos);
    assert infos[..0] == [];
    NoLength();
    assert b.placed[0].base == 0xFFFF_0000 && Tells(b.table[0], infos[0], b.placed[0].base);
    ShutdownMirrors();
    OneMirror(b.table[0].typecode, 0x0301_0000, 0x103);
    OneMirror(b.table[0].ioAddrBase, 0x0000_FFFF, 0xFFFF_0000);
  }

  lemma ShutdownMirrors()
    ensures Mirrored(0x0301_0000, 0x103) && Mirrored(0x0000_FFFF, 0xFFFF_0000)
  {
  }
}
