/** The flat byte memory behind `mmu_read` and `mmu_write` (src/mem.c, src/mem.h):
    two translations with 32-bit arithmetic, then big-endian accesses. */
module Memory {
  import opened Words
  import opened Isa

  const KSEG2_PSTART := 0xA000_0000
  const KUSEG_PSTART := 0x2000_0000
  const KSEG0_PSTART := 0x2000_0000
  const KSEG1_PSTART := 0x0000_0000
  const KSEG0_SIZE := 0x2000_0000
  const KSEG1_SIZE := 0x2000_0000
  const KUSEG_SIZE := 0x8000_0000
  const KSEG0_VSTART := 0x8000_0000

  const IO_REGISTER_AREA: Word := 0xFFFF_0000
  const IO_DESCRIPTOR_AREA: Word := 0xFFFE_0000

  datatype OpSize = OpByte | OpHalf | OpWord

  function Width(size: OpSize): nat {
    match size
    case OpByte => 1
    case OpHalf => 2
    case OpWord => 4
  }

  /** The last test of `translate_vaddr`, behind its chain of segments. */
  function OrKuseg(vaddr: Word, paddr: Word): Word {
    if vaddr < KSEG0_PSTART then Wrap(vaddr + KSEG0_SIZE + KSEG1_SIZE) else paddr
  }

  /** `translate_vaddr`, its branches in order. */
  function TranslateVaddr(vaddr: Word): Word {
    var low29: Word := vaddr % 0x2000_0000;
    var low31: Word := vaddr % 0x8000_0000;
    if vaddr > IO_REGISTER_AREA then vaddr
    else if vaddr > IO_DESCRIPTOR_AREA then OrKuseg(vaddr, 0)
    else if vaddr > KSEG2_PSTART then 0
    else if vaddr > KSEG1_PSTART then OrKuseg(vaddr, low29)
    else if vaddr > KSEG0_PSTART then OrKuseg(vaddr, low31)
    else OrKuseg(vaddr, 0)
  }

  /** The kseg1 test holds of every address that gets there, so the kseg0 case
      behind it is never taken; and the I/O descriptor area translates to 0. */
  lemma TranslationSegments(vaddr: Word)
    ensures TranslateVaddr(vaddr) ==
              if vaddr > IO_REGISTER_AREA then vaddr
              else if vaddr > KSEG2_PSTART then 0
              else if vaddr < KSEG0_PSTART then vaddr + KSEG0_SIZE + KSEG1_SIZE
              else vaddr % 0x2000_0000
  {
  }

  /** `translate_paddr`: the offset into `pmem`, or None for NULL. The three
      sizes are those `mmu_init` stores. */
  function TranslatePaddr(paddr: Word, kseg0: Word, kseg1: Word, kuseg: Word): Option<nat> {
    if paddr >= KSEG0_SIZE + KSEG1_SIZE + KUSEG_SIZE then
      None
    else if paddr >= KSEG1_SIZE + KSEG0_SIZE then
      if paddr >= Wrap(KUSEG_PSTART + kseg0 + kseg1 + kuseg) then None
      else Some(paddr - KSEG1_PSTART - KSEG0_PSTART - KUSEG_PSTART)
    else if paddr >= KSEG1_SIZE then
      if paddr >= Wrap(KSEG0_PSTART + kseg0 + kseg1) then None
      else Some(paddr - KSEG1_PSTART - KSEG0_PSTART)
    else
      if paddr >= Wrap(KSEG1_PSTART + kseg0) then None
      else Some(paddr - KSEG1_PSTART)
  }

  /** Segment sizes for `size` bytes of memory, truncated to 32 bits. */
  function SizeKseg(size: nat): Word { Wrap(size / 8) }
  function SizeKuseg(size: nat): Word { Wrap(size / 2) }

  /** Where a virtual address lands in a memory of `size` bytes. */
  function Index(size: nat, vaddr: Word): Option<nat> {
    TranslatePaddr(TranslateVaddr(vaddr), SizeKseg(size), SizeKseg(size), SizeKuseg(size))
  }

  function ByteAt(mem: seq<Byte>, i: nat): (r: int)
    requires i < |mem|
    ensures 0 <= r < 0x100
  {
    mem[i]
  }

  /** GET_BIGBYTE, GET_BIGHALF and GET_BIGWORD. */
  function GetBig(mem: seq<Byte>, i: nat, size: OpSize): Word
    requires i + Width(size) <= |mem|
  {
    match size
    case OpByte => mem[i]
    case OpHalf => ByteAt(mem, i) * 0x100 + ByteAt(mem, i + 1)
    case OpWord =>
      ByteAt(mem, i) * 0x100_0000 + ByteAt(mem, i + 1) * 0x1_0000
      + ByteAt(mem, i + 2) * 0x100 + ByteAt(mem, i + 3)
  }

  /** The bytes that SET_BIGBYTE, SET_BIGHALF and SET_BIGWORD store. */
  function BigBytes(value: Word, size: OpSize): (r: seq<Byte>)
    ensures |r| == Width(size)
  {
    match size
    case OpByte => [value % 0x100]
    case OpHalf => [value / 0x100 % 0x100, value % 0x100]
    case OpWord => [value / 0x100_0000, value / 0x1_0000 % 0x100, value / 0x100 % 0x100, value % 0x100]
  }

  function SetBig(mem: seq<Byte>, i: nat, value: Word, size: OpSize): (r: seq<Byte>)
    requires i + Width(size) <= |mem|
    ensures |r| == |mem|
  {
    mem[..i] + BigBytes(value, size) + mem[i + Width(size)..]
  }

  /** `outside` marks an access that leaves the plain memory: a NULL
      translation, which C leaves undefined, or an I/O area. */
  datatype ReadResult = ReadResult(exception: Exception, data: Word, outside: bool)
  datatype WriteResult = WriteResult(exception: Exception, mem: seq<Byte>, outside: bool)

  /** The access is one to plain memory. */
  predicate Plain(size: nat, vaddr: Word, op: OpSize) {
    vaddr < IO_DESCRIPTOR_AREA && Index(size, vaddr).Some? && Index(size, vaddr).value + Width(op) <= size
  }

  /** `mmu_read`; it never reports an exception. */
  function Read(mem: seq<Byte>, vaddr: Word, op: OpSize): (r: ReadResult)
    ensures r.exception == NoException
  {
    if Plain(|mem|, vaddr, op)
    then ReadResult(NoException, GetBig(mem, Index(|mem|, vaddr).value, op), false)
    else ReadResult(NoException, 0, true)
  }

  /** `mmu_write`; the descriptor area is read-only. */
  function Write(mem: seq<Byte>, vaddr: Word, value: Word, op: OpSize): (r: WriteResult)
    ensures |r.mem| == |mem|
    ensures r.exception != NoException ==> r.mem == mem
  {
    if Plain(|mem|, vaddr, op)
    then WriteResult(NoException, SetBig(mem, Index(|mem|, vaddr).value, value, op), false)
    else if IO_DESCRIPTOR_AREA <= vaddr < IO_REGISTER_AREA
    then WriteResult(AddressErrorStore, mem, false)
    else WriteResult(NoException, mem, true)
  }

  /** The word fetched from a virtual address. */
  function FetchWord(mem: seq<Byte>, vaddr: Word): Word {
    Read(mem, vaddr, OpWord).data
  }
}
