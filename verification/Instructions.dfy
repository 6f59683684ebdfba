/** The instruction set written down in numbers, as a manual would: what each word
    does to registers, CP0, memory and control flow. Nothing here is taken from the
    simulator's own fields, constants, masks or sign extension; `Reference` proves
    that the specification machine does the same. */
module Instructions {
  import opened Words
  import opened Isa
  import opened Memory
  import opened Bits
  import opened Stages
  import opened Sequential
  import opened Unaligned

  /** The fields that the formats overlay on a word. */
  datatype Fields = Fields(
    op: nat,
    rs: RegField,
    rt: RegField,
    rd: RegField,
    shamt: RegField,
    funct: nat,
    imm: nat,
    target: nat)

  function Split(w: Word): (f: Fields)
    ensures f.imm < 0x1_0000 && f.target < 0x400_0000
  {
    Fields(w / 0x400_0000, w / 0x20_0000 % 0x20, w / 0x1_0000 % 0x20, w / 0x800 % 0x20, w / 0x40 % 0x20, w % 0x40,
           w % 0x1_0000, w % 0x400_0000)
  }

  /** The fields put together again give the word, in each of the three formats; so
      they are determined by it, and it by them. */
  lemma Joined(w: Word)
    ensures var f := Split(w);
            f.op < 0x40 && f.funct < 0x40 &&
            w == f.op * 0x400_0000 + f.rs * 0x20_0000 + f.rt * 0x1_0000 + f.imm &&
            f.imm == f.rd * 0x800 + f.shamt * 0x40 + f.funct && w == f.op * 0x400_0000 + f.target
  {
    var q1 := w / 0x40;
    var q2 := q1 / 0x20;
    var q3 := q2 / 0x20;
    var q4 := q3 / 0x20;
    var q5 := q4 / 0x20;
    var r2 := q1 % 0x20 * 0x40 + w % 0x40;
    var r3 := q2 % 0x20 * 0x800 + r2;
    var r4 := q3 % 0x20 * 0x1_0000 + r3;
    DivUnique(w, 0x800, q2, r2);
    DivUnique(w, 0x1_0000, q3, r3);
    DivUnique(w, 0x20_0000, q4, r4);
    DivUnique(w, 0x400_0000, q5, q4 % 0x20 * 0x20_0000 + r4);
  }

  /** The two's complement value of a word, and of a 16-bit immediate. */
  function Value(w: Word): (x: int)
    ensures -0x8000_0000 <= x < 0x8000_0000
  {
    (w + 0x8000_0000) % 0x1_0000_0000 - 0x8000_0000
  }

  function Offset(imm: nat): (x: int)
    requires imm < 0x1_0000
    ensures -0x8000 <= x < 0x8000
  {
    if imm < 0x8000 then imm else imm - 0x1_0000
  }

  /** The word congruent to a number. */
  function Low32(x: int): Word { x % 0x1_0000_0000 }

  /** The address of word `target` in the 256 MB region of `next`. */
  function JumpTo(next: Word, target: nat): (t: Word)
    requires target < 0x400_0000
    ensures t / 0x1000_0000 == next / 0x1000_0000 && t % 0x1000_0000 == target * 4
  {
    next - next % 0x1000_0000 + target * 4
  }

  /** An immediate in the upper half. */
  function Upper(imm: nat): Word
    requires imm < 0x1_0000
  {
    imm * 0x1_0000
  }

  /** A number that is no 32-bit two's complement value. */
  predicate TooBig(x: int) { x < -0x8000_0000 || x >= 0x8000_0000 }

  /** An exception code as Cause holds it. */
  type Code = x: nat | x < 0x20

  const STORE_REFUSED: Code := 5
  const SYSTEM_CALL: Code := 8
  const OVERFLOW: Code := 12

  /** What one instruction amounts to. */
  datatype Effect =
    | Nothing
    | SetRegister(reg: RegField, value: Word)
    | SetCp0(slot: Slot, value: Word)
    | SetMemory(mem: seq<Byte>)
    | Jump(target: Word)
    | JumpAndLink(target: Word, link: Word)
    | Raise(code: Code)
    | Return
    | Quit

  /** An instruction that passes `x` through the overflow-checked adder. */
  function Checked(x: int, e: Effect): Effect {
    if TooBig(x) then Raise(OVERFLOW) else e
  }

  function Flag(b: bool): Word { if b then 1 else 0 }

  /** R-type words. SUB adds; JR, too, passes its operands through the adder. */
  function EffectR(f: Fields, rs: Word, rt: Word, v0: Word): Effect {
    match f.funct
    case 0x00 => SetRegister(f.rd, Low32(rt * Pow2(f.shamt)))               // SLL
    case 0x02 => DivLe(rt, Pow2(f.shamt)); SetRegister(f.rd, rt / Pow2(f.shamt))  // SRL
    case 0x08 => Checked(Value(rs) + Value(rt), Jump(rs))                   // JR
    case 0x0C => if v0 == 10 then Quit else Raise(SYSTEM_CALL)              // SYSCALL
    case 0x20 => SetRegister(f.rd, Low32(rs + rt))                          // ADD
    case 0x21 => SetRegister(f.rd, Low32(rs + rt))                          // ADDU
    case 0x22 => SetRegister(f.rd, Low32(rs + rt))                          // SUB
    case 0x23 => SetRegister(f.rd, Low32(rs - rt))                          // SUBU
    case 0x24 => SetRegister(f.rd, And(rs, rt))                             // AND
    case 0x25 => SetRegister(f.rd, Or(rs, rt))                              // OR
    case 0x27 => SetRegister(f.rd, 0xFFFF_FFFF - Or(rs, rt))                // NOR
    case 0x2A => SetRegister(f.rd, Flag(Value(rs) < Value(rt)))             // SLT
    case 0x2B => SetRegister(f.rd, Flag(rs < rt))                           // SLTU
    case _ => Nothing
  }

  /** Immediate words; the logical ones take the immediate unextended. */
  function EffectI(f: Fields, rs: Word): Effect
    requires f.op in {0x08, 0x09, 0x0A, 0x0B, 0x0C, 0x0D, 0x0F} && f.imm < 0x1_0000
  {
    var i := Offset(f.imm);
    match f.op
    case 0x08 => Checked(Value(rs) + i, SetRegister(f.rt, Low32(rs + i)))   // ADDI
    case 0x09 => SetRegister(f.rt, Low32(rs + i))                           // ADDIU
    case 0x0A => SetRegister(f.rt, Flag(Value(rs) < i))                     // SLTI
    case 0x0B => SetRegister(f.rt, Flag(rs < Low32(i)))                     // SLTIU
    case 0x0C => SetRegister(f.rt, And(rs, f.imm))                          // ANDI
    case 0x0D => SetRegister(f.rt, Or(rs, f.imm))                           // ORI
    case 0x0F => SetRegister(f.rt, Upper(f.imm))                            // LUI
  }

  /** Loads from effective address `ea`. LWL puts the word's low bytes above the
      register's `ea % 4` low ones; LWR puts its high bytes below the others. */
  function EffectLoad(f: Fields, ea: Word, dst: Word, mem: seq<Byte>): Effect
    requires f.op in {0x22, 0x23, 0x24, 0x25, 0x26}
  {
    var k := ea % 4;
    var word := FetchWord(mem, ea - k);
    match f.op
    case 0x22 =>                                                            // LWL
      MergeLeftValue(dst, word, k);
      SetRegister(f.rt, dst % BytePow(k) + Low32(word * BytePow(k)))
    case 0x23 => SetRegister(f.rt, FetchWord(mem, ea))                      // LW
    case 0x24 => SetRegister(f.rt, Read(mem, ea, OpByte).data)              // LBU
    case 0x25 => SetRegister(f.rt, Read(mem, ea, OpHalf).data)              // LHU
    case 0x26 =>                                                            // LWR
      MergeRightValue(dst, word, k);
      SetRegister(f.rt, dst - dst % BytePow(k + 1) + word / BytePow(3 - k))
  }

  /** A write, which the read-only descriptor area refuses. */
  function Stored(mem: seq<Byte>, address: Word, value: Word, op: OpSize): Effect {
    if 0xFFFE_0000 <= address < 0xFFFF_0000 then Raise(STORE_REFUSED)
    else SetMemory(Memory.Write(mem, address, value, op).mem)
  }

  /** Stores. SC stores nothing, and SWL shifts the merged word once more. */
  function EffectStore(f: Fields, ea: Word, rt: Word, mem: seq<Byte>): Effect
    requires f.op in {0x28, 0x29, 0x2A, 0x2B, 0x2E, 0x38}
  {
    var k := ea % 4;
    var word := FetchWord(mem, ea - k);
    match f.op
    case 0x28 => Stored(mem, ea, rt, OpByte)                                // SB
    case 0x29 => Stored(mem, ea, rt, OpHalf)                                // SH
    case 0x2A =>                                                            // SWR
      StoreRightValue(word, rt, k);
      Stored(mem, ea - k, word % BytePow(3 - k) + Low32(rt * BytePow(3 - k)), OpWord)
    case 0x2B => Stored(mem, ea, rt, OpWord)                                // SW
    case 0x2E =>                                                            // SWL
      StoreLeftValue(word, rt, k);
      Stored(mem, ea - k, (word - word % BytePow(4 - k) + rt / BytePow(k)) / BytePow(3 - k), OpWord)
    case 0x38 => Nothing                                                    // SC
  }

  /** The effect of word `w` at address `pc`. Words of unknown opcode only pass
      through the adder. */
  function EffectOf(a: Arch): Effect {
    var w, pc := InstOf(a), a.Pc();
    var f := Split(w);
    var rs, rt, i := a.regs[f.rs], a.regs[f.rt], Offset(f.imm);
    if w == 0x4200_0018 then Return else                                    // ERET
    match f.op
    case 0x00 => EffectR(f, rs, rt, a.regs[2])
    case 0x02 => Checked(Value(rs) + Value(rt), Jump(JumpTo(Low32(pc + 4), f.target))) // J
    case 0x03 =>                                                            // JAL
      Checked(Value(Low32(pc + 8)) + Value(rt), JumpAndLink(JumpTo(Low32(pc + 4), f.target), Low32(pc + 8 + rt)))
    case 0x04 =>                                                            // BEQ
      Checked(Value(rs) + Value(rt), if rs == rt then Jump(Low32(pc + 4 + i * 4)) else Nothing)
    case 0x05 =>                                                            // BNE
      Checked(Value(rs) + Value(rt), if rs != rt then Jump(Low32(pc + 4 + i * 4)) else Nothing)
    case 0x10 =>
      if f.rs == 0 then SetRegister(f.rt, a.cp0[f.rd + 1])                  // MFC0
      else if f.rs == 4 then SetCp0(f.rd + 1, rt)                           // MTC0
      else Checked(Value(rs) + Value(rt), Nothing)
    case _ =>
      if f.op in {0x08, 0x09, 0x0A, 0x0B, 0x0C, 0x0D, 0x0F} then EffectI(f, rs)
      else if f.op in {0x22, 0x23, 0x24, 0x25, 0x26} then
        Checked(Value(rs) + i, EffectLoad(f, Low32(rs + i), rt, a.mem))
      else if f.op in {0x28, 0x29, 0x2A, 0x2B, 0x2E, 0x38} then
        Checked(Value(rs) + i, EffectStore(f, Low32(rs + i), rt, a.mem))
      else Checked(Value(rs) + Value(rt), Nothing)
  }

  /** On to the next instruction, with `target` taking effect after the delay slot. */
  function Advance(a: Arch, regs: Regs, cp0: Cp0Regs, mem: seq<Byte>, target: Option<Word>): Arch {
    Arch(regs[32 := a.npc], if target.Some? then target.value else Low32(a.npc + 4), target.Some?, cp0, mem)
  }

  function Restart(a: Arch, pc: Word, cp0: Cp0Regs): Arch {
    Arch(a.regs[32 := pc], Low32(pc + 4), false, cp0, a.mem)
  }

  function SetReg(regs: Regs, r: RegField, value: Word): Regs {
    regs[r := if r == 0 then 0 else value]
  }

  /** The exception record: SR, EPC and Cause are CP0 slots 13, 15 and 17. */
  function Record(a: Arch, code: Code): Cp0Regs {
    var sr := a.cp0[13];
    a.cp0[13 := if sr / 2 % 2 == 1 then sr else sr + 2]
         [15 := Low32(a.Pc() + 4)]
         [17 := if a.delay then code + 0x8000_0000 else code]
  }

  /** The handler's address, from SR's bit 22 and EBase. */
  function HandlerAt(a: Arch): Word {
    if a.cp0[13] / 0x40_0000 % 2 == 1 then a.cp0[20] else 0x8000_0080
  }

  function Apply(a: Arch, e: Effect): Arch {
    match e
    case Nothing => Advance(a, a.regs, a.cp0, a.mem, None)
    case SetRegister(r, value) => Advance(a, SetReg(a.regs, r, value), a.cp0, a.mem, None)
    case SetCp0(slot, value) => Advance(a, a.regs, a.cp0[slot := value], a.mem, None)
    case SetMemory(mem) => Advance(a, a.regs, a.cp0, mem, None)
    case Jump(target) => Advance(a, a.regs, a.cp0, a.mem, Some(target))
    case JumpAndLink(target, link) => Advance(a, SetReg(a.regs, 31, link), a.cp0, a.mem, Some(target))
    case Raise(code) => Restart(a, HandlerAt(a), Record(a, code))
    case Return =>
      var sr := a.cp0[13];
      Restart(a, a.cp0[15], a.cp0[13 := if sr / 2 % 2 == 1 then sr - 2 else sr])
    case Quit => Advance(a, a.regs, a.cp0, a.mem, None)
  }

  /** How write-back leaves an instruction of a given effect. */
  predicate EndsAs(a: Arch, e: Effect) {
    match e
    case Quit => Exits(a)
    case Raise(_) => Traps(a)
    case Return => Traps(a)
    case _ => Retires(a)
  }

  /** The instruction at `a` has effect `e`, and ends accordingly. */
  predicate Has(a: Arch, e: Effect) {
    Step(a) == Apply(a, e) && EndsAs(a, e)
  }
}
