/** What the two translations and the big-endian accesses amount to. */
module MemoryModel {
  import opened Words
  import opened Isa
  import opened Memory
  import opened Bits

  /** Every non-NULL translation leaves room for a word, whatever the memory's
      size; so NULL is the only way an access outside the I/O areas can fail. */
  lemma TranslationInBounds(size: nat, vaddr: Word)
    ensures Index(size, vaddr).Some? ==> Index(size, vaddr).value + 4 <= size
    ensures forall op :: Plain(size, vaddr, op) <==> vaddr < 0xFFFE_0000 && Index(size, vaddr).Some?
  {
    var s := SizeKseg(size);
    assert s <= size / 8 && SizeKuseg(size) <= size / 2;
    var total := KUSEG_PSTART + s + s + SizeKuseg(size);
    WrapBelow(total);
    WrapBelow(KSEG0_PSTART + s + s);
  }

  lemma WrapBelow(x: nat)
    ensures Wrap(x) <= x
  {
  }

  /** In kseg0 the translation is exactly the offset, up to an eighth of memory. */
  lemma Kseg0Linear(size: nat, vaddr: Word)
    requires size < WORD_SIZE && KSEG0_VSTART <= vaddr < KSEG0_VSTART + 0x2000_0000
    ensures Index(size, vaddr) == if vaddr - KSEG0_VSTART < size / 8 then Some(vaddr - KSEG0_VSTART) else None
  {
  }

  /** The translation of every address, in one table. */
  lemma TranslationTable(size: nat, vaddr: Word)
    requires size < 0x1_0000_0000 && vaddr < 0xFFFE_0000
    ensures Index(size, vaddr) ==
              if vaddr < 0x2000_0000 then
                if vaddr + 0x2000_0000 < size / 8 + size / 8 + size / 2 then Some(vaddr) else None
              else if vaddr <= 0xA000_0000 then
                if vaddr % 0x2000_0000 < size / 8 then Some(vaddr % 0x2000_0000) else None
              else if size >= 8 then Some(0) else None
  {
    assert SizeKseg(size) == size / 8 && SizeKuseg(size) == size / 2;
    assert Wrap(KUSEG_PSTART + size / 8 + size / 8 + size / 2) == KUSEG_PSTART + size / 8 + size / 8 + size / 2;
  }

  /** `vaddr` and the `n - 1` addresses behind it are in the usable part of kseg0. */
  predicate InKseg0(size: nat, vaddr: Word, n: nat) {
    size < WORD_SIZE && KSEG0_VSTART <= vaddr && vaddr - KSEG0_VSTART + n <= size / 8
  }

  /** The number of bytes of an access. */
  function Bytes(op: OpSize): (n: nat)
    ensures n == Width(op) && 0 < n <= 4
  {
    match op
    case OpByte => 1
    case OpHalf => 2
    case OpWord => 4
  }

  /** The number of values of a given width. */
  function Modulus(op: OpSize): (m: nat)
    ensures m > 0
  {
    BytePow(Bytes(op))
  }

  /** Reads are big-endian: the bytes of what a read returns, most significant
      first, are the bytes of memory from where its address lands, in order, and
      above them there is nothing. */
  lemma ReadIsBigEndian(mem: seq<Byte>, vaddr: Word, op: OpSize, k: nat)
    requires Plain(|mem|, vaddr, op) && k < Bytes(op)
    ensures var r := Read(mem, vaddr, op);
            !r.outside && r.data < Modulus(op) &&
            r.data / BytePow(Bytes(op) - 1 - k) % 0x100 == mem[Index(|mem|, vaddr).value + k]
  {
    hide GetBig, BigBytes, Index;
    var i := Index(|mem|, vaddr).value;
    GetBigBytes(mem, i, op);
    assert mem[i..i + Width(op)][k] == mem[i + k];
    ByteOfValue(GetBig(mem, i, op), op, k);
  }

  /** Byte k of a value of that width, from the left, in arithmetic terms. */
  lemma ByteOfValue(value: Word, op: OpSize, k: nat)
    requires k < Bytes(op)
    ensures BigBytes(value, op)[k] == value / BytePow(Bytes(op) - 1 - k) % 0x100
  {
    if op == OpWord && k == 0 { BytesOfWord(value); SmallMod(value / 0x100_0000, 0x100); }
  }

  lemma GetBigBytes(mem: seq<Byte>, i: nat, op: OpSize)
    requires i + Width(op) <= |mem|
    ensures GetBig(mem, i, op) < Modulus(op)
    ensures BigBytes(GetBig(mem, i, op), op) == mem[i..i + Width(op)]
  {
    match op
    case OpByte =>
    case OpHalf =>
      WordOfBytes(0, 0, ByteAt(mem, i), ByteAt(mem, i + 1));
    case OpWord =>
      WordOfBytes(ByteAt(mem, i), ByteAt(mem, i + 1), ByteAt(mem, i + 2), ByteAt(mem, i + 3));
  }

  /** A write of any width puts the value's bytes, most significant first, where
      its address lands and changes no other byte. */
  lemma WriteSetsBytes(mem: seq<Byte>, vaddr: Word, value: Word, op: OpSize, k: nat)
    requires Plain(|mem|, vaddr, op) && k < |mem|
    ensures var w, i := Write(mem, vaddr, value, op), Index(|mem|, vaddr).value;
            w.exception == NoException && !w.outside && |w.mem| == |mem| &&
            w.mem[k] == if i <= k < i + Bytes(op) then value / BytePow(Bytes(op) - 1 - (k - i)) % 0x100 else mem[k]
  {
    hide Index, BigBytes, BytePow;
    var i := Index(|mem|, vaddr).value;
    SetBigByte(mem, i, value, op, k);
    if i <= k < i + Bytes(op) { ByteOfValue(value, op, k - i); }
  }

  /** A write that does not reach plain memory changes nothing; only the
      descriptor area refuses it. */
  lemma WriteElsewhere(mem: seq<Byte>, vaddr: Word, value: Word, op: OpSize)
    requires !Plain(|mem|, vaddr, op)
    ensures var w := Write(mem, vaddr, value, op);
            w.mem == mem &&
            (w.exception == AddressErrorStore <==> 0xFFFE_0000 <= vaddr < 0xFFFF_0000) &&
            (w.exception == NoException <==> w.outside)
  {
    hide Index;
  }

  /** Reading back a write with its own width: the value, truncated. */
  lemma ReadBack(mem: seq<Byte>, vaddr: Word, value: Word, op: OpSize)
    requires Plain(|mem|, vaddr, op)
    ensures var r := Read(Write(mem, vaddr, value, op).mem, vaddr, op);
            !r.outside && r.data == value % Modulus(op)
  {
    hide Index, GetBig, BigBytes;
    var i := Index(|mem|, vaddr).value;
    var mem' := SetBig(mem, i, value, op);
    assert mem'[i..i + Width(op)] == BigBytes(value, op);
    GetBigSlice(mem', i, op);
    BigBytesValue(value, op);
  }

  lemma SetBigByte(mem: seq<Byte>, i: nat, value: Word, op: OpSize, k: nat)
    requires i + Width(op) <= |mem| && k < |mem|
    ensures SetBig(mem, i, value, op)[k] == if i <= k < i + Width(op) then BigBytes(value, op)[k - i] else mem[k]
  {
    hide BigBytes;
  }

  lemma GetBigSlice(mem: seq<Byte>, i: nat, op: OpSize)
    requires i + Width(op) <= |mem|
    ensures GetBig(mem, i, op) == GetBig(mem[i..i + Width(op)], 0, op)
  {
  }

  lemma BigBytesValue(value: Word, op: OpSize)
    ensures GetBig(BigBytes(value, op), 0, op) ==
              value % Modulus(op)
  {
    match op
    case OpByte =>
    case OpHalf => HalfBytes(value);
    case OpWord => BytesOfWord(value); WordFromBytes(BigBytes(value, OpWord), 0);
  }

  lemma WordFromBytes(b: seq<Byte>, i: nat)
    requires i + 4 <= |b|
    ensures GetBig(b, i, OpWord) == 
              b[i] as int * 0x100_0000 + b[i + 1] as int * 0x1_0000 + b[i + 2] as int * 0x100 + b[i + 3] as int
  {
  }

  lemma HalfBytes(value: Word)
    ensures value / 0x100 % 0x100 * 0x100 + value % 0x100 == value % 0x1_0000
  {
    var q := value / 0x100;
    DivUnique(value, 0x1_0000, q / 0x100, q % 0x100 * 0x100 + value % 0x100);
  }

  /** A write leaves a read alone exactly when it changes none of the bytes read;
      in particular when the two ranges are disjoint. */
  lemma ReadOther(mem: seq<Byte>, vaddr: Word, value: Word, op: OpSize, other: Word, op': OpSize)
    requires Plain(|mem|, vaddr, op) && Plain(|mem|, other, op')
    requires var i, j := Index(|mem|, vaddr).value, Index(|mem|, other).value;
             i + Width(op) <= j || j + Width(op') <= i
    ensures Read(Write(mem, vaddr, value, op).mem, other, op') == Read(mem, other, op')
  {
    hide Index, BigBytes, GetBig;
    var i, j := Index(|mem|, vaddr).value, Index(|mem|, other).value;
    var mem' := SetBig(mem, i, value, op);
    forall k | j <= k < j + Width(op') ensures mem'[k] == mem[k] { SetBigByte(mem, i, value, op, k); }
    assert mem'[j..j + Width(op')] == mem[j..j + Width(op')];
    GetBigSlice(mem', j, op');
    GetBigSlice(mem, j, op');
  }
}
