/** Instruction fields, opcodes, register numbers and exception codes
    (src/mips32.h, src/cpu.h, src/cp0.h). */
module Isa {
  import opened Words

  const OPCODE_R: nat := 0x00
  const OPCODE_J: nat := 0x02
  const OPCODE_JAL: nat := 0x03
  const OPCODE_BEQ: nat := 0x04
  const OPCODE_BNE: nat := 0x05
  const OPCODE_ADDI: nat := 0x08
  const OPCODE_ADDIU: nat := 0x09
  const OPCODE_SLTI: nat := 0x0A
  const OPCODE_SLTIU: nat := 0x0B
  const OPCODE_ANDI: nat := 0x0C
  const OPCODE_ORI: nat := 0x0D
  const OPCODE_LUI: nat := 0x0F
  const OPCODE_CP0: nat := 0x10
  const OPCODE_LWL: nat := 0x22
  const OPCODE_LW: nat := 0x23
  const OPCODE_LBU: nat := 0x24
  const OPCODE_LHU: nat := 0x25
  const OPCODE_LWR: nat := 0x26
  const OPCODE_SB: nat := 0x28
  const OPCODE_SH: nat := 0x29
  const OPCODE_SWR: nat := 0x2A
  const OPCODE_SW: nat := 0x2B
  const OPCODE_SWL: nat := 0x2E
  const OPCODE_LL: nat := 0x30
  const OPCODE_SC: nat := 0x38

  const FUNCT_SLL: nat := 0x00
  const FUNCT_SRL: nat := 0x02
  const FUNCT_JR: nat := 0x08
  const FUNCT_SYSCALL: nat := 0x0C
  const FUNCT_ADD: nat := 0x20
  const FUNCT_ADDU: nat := 0x21
  const FUNCT_SUB: nat := 0x22
  const FUNCT_SUBU: nat := 0x23
  const FUNCT_AND: nat := 0x24
  const FUNCT_OR: nat := 0x25
  const FUNCT_NOR: nat := 0x27
  const FUNCT_SLT: nat := 0x2A
  const FUNCT_SLTU: nat := 0x2B

  const CP0_MFC0: nat := 0x00
  const CP0_MTC0: nat := 0x04

  const INSTRUCTION_ERET: Word := 0x4200_0018

  /** The register file has 33 slots: 32 general registers and the PC. */
  const NUM_REGISTERS := 33
  const REG_V0 := 2
  const REG_V1 := 3
  const REG_SP := 29
  const REG_RA := 31
  const REG_PC := 32

  /** CP0 registers are numbered one higher than in the instruction word. */
  const CP0_SLOTS := 41
  const REG_BADVADDR := 10
  const REG_SR := 13
  const REG_EPC := 15
  const REG_CAUSE := 17
  const REG_EBASE := 20

  const EXCEPTION_VECTOR: Word := 0x8000_0080

  /** A register number as the latches carry it: a general register, the PC
      slot, or a CP0 number. */
  type Slot = x: nat | x <= 32

  /** A five-bit register field. */
  type RegField = x: nat | x < 32

  datatype Exception =
    | NoException | Interrupt | AddressErrorLoad | AddressErrorStore
    | BusErrorInstructionFetch | BusErrorLoadStore | Syscall | Breakpoint
    | Reserved | CpUnavailable | ArithmeticOverflow | Trap | FloatingPoint

  function Opcode(inst: Word): nat { inst / 0x400_0000 }
  function Rs(inst: Word): RegField { inst / 0x20_0000 % 32 }
  function Rt(inst: Word): RegField { inst / 0x1_0000 % 32 }
  function Rd(inst: Word): RegField { inst / 0x800 % 32 }
  function Shamt(inst: Word): RegField { inst / 0x40 % 32 }
  function Funct(inst: Word): nat { inst % 0x40 }
  function Imm(inst: Word): nat { inst % 0x1_0000 }
  function Address(inst: Word): nat { inst % 0x400_0000 }

  /** `(int32_t)(int16_t)imm`, kept as an unsigned word. */
  function SignExtend(imm: nat): Word
    requires imm < 0x1_0000
  {
    if imm < 0x8000 then imm else imm + 0xFFFF_0000
  }

  predicate IsMtc0(inst: Word) { Opcode(inst) == OPCODE_CP0 && Rs(inst) == CP0_MTC0 }
  predicate IsMfc0(inst: Word) { Opcode(inst) == OPCODE_CP0 && Rs(inst) == CP0_MFC0 }
  predicate IsJal(inst: Word) { Opcode(inst) == OPCODE_JAL }

  /** `get_cause` of src/exception.c: the exception code is not shifted. */
  function GetCause(e: Exception, inBranchDelay: bool): Word {
    if e == NoException then 0
    else (if inBranchDelay then 0x8000_0000 else 0) + CauseCode(e)
  }

  function CauseCode(e: Exception): (r: nat)
    ensures r < 16
  {
    match e
    case NoException => 0
    case Interrupt => 0
    case AddressErrorLoad => 4
    case AddressErrorStore => 5
    case BusErrorInstructionFetch => 6
    case BusErrorLoadStore => 7
    case Syscall => 8
    case Breakpoint => 9
    case Reserved => 10
    case CpUnavailable => 11
    case ArithmeticOverflow => 12
    case Trap => 13
    case FloatingPoint => 15
  }

  /** The codes of CP0's Cause register, Interrupt to FloatingPoint; 14 is unused. */
  lemma CauseCodes()
    ensures [CauseCode(Interrupt), CauseCode(AddressErrorLoad), CauseCode(AddressErrorStore),
             CauseCode(BusErrorInstructionFetch), CauseCode(BusErrorLoadStore), CauseCode(Syscall),
             CauseCode(Breakpoint), CauseCode(Reserved), CauseCode(CpUnavailable), CauseCode(ArithmeticOverflow),
             CauseCode(Trap), CauseCode(FloatingPoint)] == [0, 4, 5, 6, 7, 8, 9, 10, 11, 12, 13, 15]
    ensures GetCause(NoException, true) == GetCause(NoException, false) == 0
  {
  }

  /** `SR |= SR_EXL`, `SR &= ~SR_EXL` and the test of `SR_BEV`. */
  function SetExl(sr: Word): Word { if sr / 2 % 2 == 0 then sr + 2 else sr }
  function ClearExl(sr: Word): Word { if sr / 2 % 2 == 1 then sr - 2 else sr }
  predicate Bev(sr: Word) { sr / 0x40_0000 % 2 == 1 }

  /** `check_soverflow` of src/tools.c: two words of the same sign whose sum has the
      other one. */
  predicate Overflows(a: Word, b: Word)
    ensures Overflows(a, b) <==> !(-0x8000_0000 <= Signed(a) + Signed(b) <= 0x7FFF_FFFF)
    ensures Overflows(a, b) <==>
              (a < 0x8000_0000 <==> b < 0x8000_0000) &&
              (a < 0x8000_0000 <==> (a + b) % 0x1_0000_0000 >= 0x8000_0000)
  {
    (Signed(b) > 0 && Signed(a) > 0x7FFF_FFFF - Signed(b)) ||
    (Signed(b) < 0 && Signed(a) < -0x8000_0000 - Signed(b))
  }
}
