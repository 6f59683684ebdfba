/** The four pipeline registers (src/cpu.h). Fields that no code reads
    (`branch_addr`, `c_branch`, `eff_addr`) are dropped. */
module Latches {
  import opened Words
  import opened Isa

  datatype IfId = IfId(
    inst: Word,
    nextPc: Word,
    exception: Exception,
    badVAddr: Word,
    isBranchDelay: bool)

  /** The control bits set by the ID stage. */
  datatype Control = Control(
    regDst: bool,
    aluOp: nat,
    aluSrc: bool,
    beq: bool,
    bne: bool,
    memRead: bool,
    memWrite: bool,
    regWrite: bool,
    memToReg: bool,
    jump: bool)

  datatype IdEx = IdEx(
    c: Control,
    shamt: RegField,
    funct: nat,
    nextPc: Word,
    rsValue: Word,
    rtValue: Word,
    jumpAddr: Word,
    signExtImm: Word,
    rs: Slot,
    rt: Slot,
    rd: Slot,
    inst: Word,
    isBranchDelay: bool,
    exception: Exception,
    badVAddr: Word)

  datatype ExMem = ExMem(
    regWrite: bool,
    memRead: bool,
    memWrite: bool,
    memToReg: bool,
    aluRes: Word,
    rtValue: Word,
    regDst: Slot,
    nextPc: Word,
    isBranchDelay: bool,
    inst: Word,
    exception: Exception,
    badVAddr: Word)

  datatype MemWb = MemWb(
    regWrite: bool,
    memToReg: bool,
    aluRes: Word,
    readData: Word,
    regDst: Slot,
    nextPc: Word,
    inst: Word,
    isBranchDelay: bool,
    exception: Exception,
    badVAddr: Word)

  const NO_CONTROL := Control(false, 0, false, false, false, false, false, false, false, false)

  /** What `bzero` and `calloc` leave in the latches. */
  const ZERO_IF_ID := IfId(0, 0, NoException, 0, false)
  const ZERO_ID_EX := IdEx(NO_CONTROL, 0, 0, 0, 0, 0, 0, 0, 0, 0, 0, 0, false, NoException, 0)
  const ZERO_EX_MEM := ExMem(false, false, false, false, 0, 0, 0, 0, false, 0, NoException, 0)
  const ZERO_MEM_WB := MemWb(false, false, 0, 0, 0, 0, 0, false, NoException, 0)
}
