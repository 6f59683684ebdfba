/** The specification machine is the instruction set: a step composed of decode,
    ALU, memory and commit blocks does what `Instructions` writes down. */
module Reference {
  import opened Words
  import opened Isa
  import opened Latches
  import opened Memory
  import opened Bits
  import opened Stages
  import opened Sequential
  import opened Hazards
  import opened Matching
  import opened Correctness
  import opened Unaligned
  import opened Instructions

  const LOADS := {OPCODE_LW, OPCODE_LBU, OPCODE_LHU, OPCODE_LWL, OPCODE_LWR}
  const STORES := {OPCODE_SC, OPCODE_SW, OPCODE_SH, OPCODE_SB, OPCODE_SWR, OPCODE_SWL}
  const FLOW := {OPCODE_BEQ, OPCODE_BNE, OPCODE_J, OPCODE_JAL}
  const IMMEDIATES := {OPCODE_ADDI, OPCODE_ADDIU, OPCODE_SLTI, OPCODE_SLTIU, OPCODE_ANDI, OPCODE_ORI, OPCODE_LUI}

  // ----- The simulator's own functions in the terms of the instruction set -----

  lemma FieldsAre(w: Word)
    ensures Split(w) == Fields(Opcode(w), Rs(w), Rt(w), Rd(w), Shamt(w), Funct(w), Imm(w), Address(w))
  {
  }

  lemma SignedIsValue(w: Word)
    ensures Signed(w) == Value(w)
  {
  }

  /** `check_soverflow` is the test whether the sum of the values fits. */
  lemma OverflowIsTooBig(x: Word, y: Word)
    ensures Overflows(x, y) <==> TooBig(Value(x) + Value(y))
  {
    SignedIsValue(x);
    SignedIsValue(y);
  }

  /** SIGN_EXTEND gives the word of the immediate's value. */
  lemma ExtensionIsOffset(imm: nat)
    requires imm < 0x1_0000
    ensures SignExtend(imm) == Low32(Offset(imm)) && Value(SignExtend(imm)) == Offset(imm)
  {
  }

  lemma SumIsOffset(x: Word, imm: nat)
    requires imm < 0x1_0000
    ensures Sum(x, SignExtend(imm)) == Low32(x + Offset(imm))
    ensures Overflows(x, SignExtend(imm)) <==> TooBig(Value(x) + Offset(imm))
  {
    hide Overflows, Value, TooBig;
    ExtensionIsOffset(imm);
    OverflowIsTooBig(x, SignExtend(imm));
  }

  lemma BranchIsOffset(pc: Word, imm: nat)
    requires imm < 0x1_0000
    ensures Sum(Plus4(pc), SignExtend(imm) * 4) == Low32(pc + 4 + Offset(imm) * 4)
  {
    hide Wrap;
    var negative, carry := if imm < 0x8000 then 0 else 1, if pc + 4 < WORD_SIZE then 0 else 1;
    PlusCarry(pc);
    WrapAdd(pc + 4 + Offset(imm) * 4, 4 * negative - carry);
    LowIsWrap(pc + 4 + Offset(imm) * 4);
  }

  lemma PlusCarry(pc: Word)
    ensures Plus4(pc) == if pc + 4 < WORD_SIZE then pc + 4 else pc + 4 - WORD_SIZE
  {
  }

  lemma LowIsWrap(x: int)
    ensures Low32(x) == Wrap(x)
  {
  }

  lemma LinkIs(pc: Word, rt: Word)
    ensures Plus4(pc) == Low32(pc + 4) && Plus4(Plus4(pc)) == Low32(pc + 8)
    ensures Sum(Low32(pc + 8), rt) == Low32(pc + 8 + rt)
  {
  }

  lemma TargetIsJump(inst: Word, next: Word)
    ensures JumpTarget(inst, next) == JumpTo(next, Address(inst))
  {
  }

  /** The record that `handle_exception` makes, and the handler's address. */
  lemma RecordIs(a: Arch, w: MemWb)
    requires w.exception != NoException && w.exception != AddressErrorLoad
    requires w.nextPc == Plus4(a.Pc()) && w.isBranchDelay == a.delay
    ensures RecordException(a.cp0, w) == Record(a, CauseCode(w.exception))
    ensures HandlerPc(RecordException(a.cp0, w)) == HandlerAt(a)
  {
    hide CauseCode;
    LinkIs(a.Pc(), 0);
    ExlKeepsBev(a.cp0[13]);
  }

  lemma ExlKeepsBev(sr: Word)
    ensures Bev(SetExl(sr)) <==> sr / 0x40_0000 % 2 == 1
    ensures SetExl(sr) == if sr / 2 % 2 == 1 then sr else sr + 2
    ensures ClearExl(sr) == if sr / 2 % 2 == 1 then sr - 2 else sr
  {
  }

  // ----- The blocks, piece by piece -----

  function AluB(a: Arch): Word {
    if ControlOf(InstOf(a)).aluSrc then SignExtend(Imm(InstOf(a))) else OperandRt(a)
  }

  lemma ExecParts(a: Arch)
    ensures var e, inst := ExecOf(a), InstOf(a);
            var c := ControlOf(inst);
            var r := AluResult(c.aluOp, FunctOf(inst), Opcode(inst), Shamt(inst), OperandA(a), AluB(a));
            e.inst == inst && e.nextPc == Plus4(a.Pc()) && e.isBranchDelay == a.delay &&
            e.exception == AluException(c.aluOp, FunctOf(inst), Opcode(inst), OperandA(a), AluB(a)) &&
            (r.Some? ==> e.aluRes == r.value) && e.rtValue == OperandRt(a) &&
            e.regDst == (if c.regDst then RdOf(inst) else SourceB(inst)) &&
            e.memRead == c.memRead && e.memWrite == c.memWrite && e.regWrite == c.regWrite && e.memToReg == c.memToReg
  {
    hide InstOf, ControlOf, OperandA, OperandRt, AluResult, AluException, SourceA, SourceB, RdOf, FunctOf;
    DecodedOperands(a);
  }

  lemma TargetParts(a: Arch)
    ensures var c, inst := ControlOf(InstOf(a)), InstOf(a);
            var branch := Wrap(Plus4(a.Pc()) + SignExtend(Imm(inst)) * 4);
            TargetOf(a) ==
              if c.bne && OperandA(a) != OperandRt(a) then Some(branch)
              else if c.beq && OperandA(a) == OperandRt(a) then Some(branch)
              else if !c.jump then None
              else if Opcode(inst) == OPCODE_R then Some(OperandA(a))
              else Some(JumpTarget(inst, Plus4(a.Pc())))
  {
    hide InstOf, ControlOf, OperandA, OperandRt, SourceA, SourceB, RdOf, FunctOf, JumpTarget, Plus4;
    DecodedOperands(a);
    if ControlOf(InstOf(a)).jump { JumpKinds(InstOf(a)); }
    EretControl();
  }

  lemma StepReturns(a: Arch)
    requires InstOf(a) == INSTRUCTION_ERET
    ensures Has(a, Return)
  {
    hide InstOf, ControlOf, OperandA, OperandRt, AluResult, AluException, SourceA, SourceB, RdOf, FunctOf, Load,
         Store, ClearExl, ExecOf, AluB, Plus4, TargetOf, Low32;
    EretControl();
    ExecParts(a);
    LinkIs(a.cp0[REG_EPC], 0);
    ExlKeepsBev(a.cp0[REG_SR]);
  }

  lemma StepRaises(a: Arch, e: Exception)
    requires InstOf(a) != INSTRUCTION_ERET && ExecOf(a).exception == e
    requires e != NoException && e != AddressErrorLoad
    ensures Has(a, if e == Syscall && a.regs[REG_V0] == 10 then Quit else Raise(CauseCode(e)))
  {
    hide InstOf, ControlOf, OperandA, OperandRt, AluResult, AluException, Load, Store, ExecOf, AluB, Plus4, TargetOf,
         RecordException, HandlerPc, Record, CauseCode, Low32;
    ExecParts(a);
    LinkIs(a.npc, 0);
    RecordIs(a, AccessOf(a).latch);
    LinkIs(HandlerPc(RecordException(a.cp0, AccessOf(a).latch)), 0);
    if e == Syscall { SyscallIsStraight(a); }
  }

  lemma SyscallIsStraight(a: Arch)
    requires ExecOf(a).exception == Syscall
    ensures TargetOf(a).None?
  {
    hide InstOf, ControlOf, OperandA, OperandRt, AluResult, ExecOf, AluB, TargetOf, FunctOf;
    ExecParts(a);
    TargetParts(a);
    AluOps(InstOf(a));
  }

  lemma AluOps(inst: Word)
    ensures var c := ControlOf(inst); c.aluOp == 2 ==> !c.beq && !c.bne && !c.jump
  {
  }

  /** An instruction that reaches write-back without touching memory. */
  lemma StepRetires(a: Arch)
    requires InstOf(a) != INSTRUCTION_ERET && ExecOf(a).exception == NoException
    requires !ControlOf(InstOf(a)).memRead && !ControlOf(InstOf(a)).memWrite
    ensures Retires(a)
    ensures var e, inst := ExecOf(a), InstOf(a);
            Step(a) ==
              Advance(a, if e.regWrite && !IsMtc0(inst) then a.regs[e.regDst := if e.regDst == 0 then 0 else e.aluRes]
                         else a.regs,
                      if e.regWrite && IsMtc0(inst) then a.cp0[e.regDst := e.aluRes] else a.cp0, a.mem, TargetOf(a))
  {
    hide InstOf, ControlOf, OperandA, OperandRt, AluResult, AluException, Load, Store, ExecOf, AluB, Plus4, TargetOf,
         IsMtc0, FunctOf, SourceB, RdOf;
    ExecParts(a);
    LinkIs(a.npc, 0);
    LoadKinds(InstOf(a));
  }

  lemma StepLoads(a: Arch)
    requires Opcode(InstOf(a)) in LOADS && ExecOf(a).exception == NoException
    ensures var inst := InstOf(a);
            var l := Load(Opcode(inst), ExecOf(a).aluRes, a.regs[Rt(inst)], 0, a.mem);
            Step(a) == Advance(a, SetReg(a.regs, Rt(inst), l.data), a.cp0, a.mem, None) && Retires(a)
  {
    hide InstOf, ControlOf, OperandA, OperandRt, AluResult, AluException, Load, ExecOf, AluB, Plus4, TargetOf,
         FunctOf;
    var inst := InstOf(a);
    LoadControl(inst);
    ExecParts(a);
    LinkIs(a.npc, 0);
    TargetParts(a);
    LoadNever(Opcode(inst), ExecOf(a).aluRes, a.regs[Rt(inst)], a.mem);
  }

  lemma LoadControl(inst: Word)
    requires Opcode(inst) in LOADS
    ensures inst != INSTRUCTION_ERET && !IsMtc0(inst)
    ensures ControlOf(inst) == NO_CONTROL.(aluSrc := true, memRead := true, regWrite := true, memToReg := true)
    ensures SourceB(inst) == Rt(inst)
  {
  }

  lemma LoadNever(op: nat, ea: Word, dst: Word, mem: seq<Byte>)
    ensures Load(op, ea, dst, 0, mem).exception == NoException
  {
    hide Read, MergeLeft, MergeRight;
  }

  lemma StepStores(a: Arch)
    requires Opcode(InstOf(a)) in STORES && ExecOf(a).exception == NoException
    ensures var inst := InstOf(a);
            var w := Store(Opcode(inst), ExecOf(a).aluRes, a.regs[Rt(inst)], a.regs[Rt(inst)], a.mem);
            Has(a, if w.exception == NoException then SetMemory(w.mem) else Raise(STORE_REFUSED))
  {
    hide InstOf, ControlOf, OperandA, AluResult, AluException, Store, ExecOf, AluB, Plus4, TargetOf, FunctOf,
         RecordException, HandlerPc, Record, Low32;
    var inst := InstOf(a);
    StoreControl(inst);
    ExecParts(a);
    TargetParts(a);
    StoreExceptions(ExecOf(a), ExecOf(a), a.regs[Rt(inst)], a.mem);
    LinkIs(a.npc, 0);
    if Store(Opcode(inst), ExecOf(a).aluRes, a.regs[Rt(inst)], a.regs[Rt(inst)], a.mem).exception != NoException {
      RecordIs(a, AccessOf(a).latch);
      LinkIs(HandlerPc(RecordException(a.cp0, AccessOf(a).latch)), 0);
    }
  }

  lemma StoreControl(inst: Word)
    requires Opcode(inst) in STORES
    ensures inst != INSTRUCTION_ERET && !IsMtc0(inst) && !IsMfc0(inst) && !IsJal(inst)
    ensures ControlOf(inst) == NO_CONTROL.(aluSrc := true, memWrite := true)
  {
  }

  // ----- Class by class -----

  lemma AddressParts(a: Arch)
    requires Opcode(InstOf(a)) in LOADS + STORES
    ensures var inst := InstOf(a);
            var rs, imm := a.regs[Rs(inst)], SignExtend(Imm(inst));
            inst != INSTRUCTION_ERET &&
            ExecOf(a).exception == (if Overflows(rs, imm) then ArithmeticOverflow else NoException) &&
            ExecOf(a).aluRes == Sum(rs, imm)
  {
    hide InstOf, ExecOf, Overflows, SignExtend, Imm;
    ExecParts(a);
  }

  lemma LoadEffect(a: Arch)
    requires Opcode(InstOf(a)) in LOADS
    ensures var inst := InstOf(a);
            var f, rs, imm := Split(inst), a.regs[Rs(inst)], SignExtend(Imm(inst));
            f.op in {0x22, 0x23, 0x24, 0x25, 0x26} &&
            EffectOf(a) == if Overflows(rs, imm) then Raise(OVERFLOW)
                           else EffectLoad(f, Sum(rs, imm), a.regs[Rt(inst)], a.mem)
  {
    hide InstOf, Overflows, EffectLoad, Rs, Rt, Imm, SignExtend, Sum, Value, TooBig, Low32, Split;
    FieldsAre(InstOf(a));
    SumIsOffset(a.regs[Rs(InstOf(a))], Imm(InstOf(a)));
  }

  lemma LoadedValue(inst: Word, ea: Word, dst: Word, mem: seq<Byte>)
    requires Opcode(inst) in LOADS
    ensures Split(inst).op in {0x22, 0x23, 0x24, 0x25, 0x26}
    ensures EffectLoad(Split(inst), ea, dst, mem) == SetRegister(Rt(inst), Load(Opcode(inst), ea, dst, 0, mem).data)
  {
    hide Read, MergeLeft, MergeRight, BytePow, Rt, Split;
    FieldsAre(inst);
    var word := FetchWord(mem, ea - ea % 4);
    MergeLeftValue(dst, word, ea % 4);
    MergeRightValue(dst, word, ea % 4);
  }

  lemma LoadMeaning(a: Arch)
    requires Opcode(InstOf(a)) in LOADS
    ensures Has(a, EffectOf(a))
  {
    hide InstOf, ExecOf, Step, Overflows, SignExtend, Imm, Rs, Rt, Load, EffectOf, EffectLoad, Record, Opcode, Sum,
         SetReg, Low32, Split;
    AddressParts(a);
    LoadEffect(a);
    if ExecOf(a).exception != NoException {
      StepRaises(a, ArithmeticOverflow);
    } else {
      StepLoads(a);
      LoadedValue(InstOf(a), ExecOf(a).aluRes, a.regs[Rt(InstOf(a))], a.mem);
    }
  }

  lemma StoreEffect(a: Arch)
    requires Opcode(InstOf(a)) in STORES
    ensures var inst := InstOf(a);
            var f, rs, imm := Split(inst), a.regs[Rs(inst)], SignExtend(Imm(inst));
            f.op in {0x28, 0x29, 0x2A, 0x2B, 0x2E, 0x38} &&
            EffectOf(a) == if Overflows(rs, imm) then Raise(OVERFLOW)
                           else EffectStore(f, Sum(rs, imm), a.regs[Rt(inst)], a.mem)
  {
    hide InstOf, Overflows, EffectStore, Rs, Rt, Imm, SignExtend, Sum, Value, TooBig, Low32, Split;
    FieldsAre(InstOf(a));
    SumIsOffset(a.regs[Rs(InstOf(a))], Imm(InstOf(a)));
  }

  /** Only the descriptor area refuses a write. */
  lemma WriteIs(mem: seq<Byte>, vaddr: Word, value: Word, op: OpSize)
    ensures var w := Memory.Write(mem, vaddr, value, op);
            Stored(mem, vaddr, value, op) ==
              if w.exception == NoException then SetMemory(w.mem) else Raise(STORE_REFUSED)
  {
    hide Index, SetBig;
  }

  /** The stores of whole values, and SC, which stores nothing. */
  lemma StoredWhole(inst: Word, ea: Word, rt: Word, mem: seq<Byte>)
    requires Opcode(inst) in {OPCODE_SC, OPCODE_SW, OPCODE_SH, OPCODE_SB}
    ensures Split(inst).op in {0x28, 0x29, 0x2A, 0x2B, 0x2E, 0x38}
    ensures var w := Store(Opcode(inst), ea, rt, rt, mem);
            EffectStore(Split(inst), ea, rt, mem) ==
              (if Opcode(inst) == OPCODE_SC then Nothing
               else if w.exception == NoException then SetMemory(w.mem) else Raise(STORE_REFUSED)) &&
            (Opcode(inst) == OPCODE_SC ==> w.exception == NoException && w.mem == mem)
  {
    hide Read, Memory.Write, StoreLeft, StoreRight, BytePow, Stored, Split, Opcode, Low32;
    FieldsAre(inst);
    WriteIs(mem, ea, rt, StoreSize(Opcode(inst)));
  }

  lemma StoredPart(inst: Word, ea: Word, rt: Word, mem: seq<Byte>)
    requires Opcode(inst) in {OPCODE_SWR, OPCODE_SWL}
    ensures Split(inst).op in {0x28, 0x29, 0x2A, 0x2B, 0x2E, 0x38}
    ensures var w := Store(Opcode(inst), ea, rt, rt, mem);
            EffectStore(Split(inst), ea, rt, mem) ==
              if w.exception == NoException then SetMemory(w.mem) else Raise(STORE_REFUSED)
  {
    hide Read, Memory.Write, StoreLeft, StoreRight, BytePow, Stored, Split, Opcode;
    FieldsAre(inst);
    var k := ea % 4;
    var word := FetchWord(mem, ea - k);
    if Opcode(inst) == OPCODE_SWR {
      StoreRightValue(word, rt, k);
      WriteIs(mem, AlignDown(ea), StoreRight(word, rt, k), OpWord);
    } else {
      StoreLeftValue(word, rt, k);
      WriteIs(mem, AlignDown(ea), StoreLeft(word, rt, k), OpWord);
    }
  }

  lemma StoredValue(inst: Word, ea: Word, rt: Word, mem: seq<Byte>)
    requires Opcode(inst) in STORES
    ensures Split(inst).op in {0x28, 0x29, 0x2A, 0x2B, 0x2E, 0x38}
    ensures var w := Store(Opcode(inst), ea, rt, rt, mem);
            EffectStore(Split(inst), ea, rt, mem) ==
              (if Opcode(inst) == OPCODE_SC then Nothing
               else if w.exception == NoException then SetMemory(w.mem) else Raise(STORE_REFUSED)) &&
            (Opcode(inst) == OPCODE_SC ==> w.exception == NoException && w.mem == mem)
  {
    hide Store, EffectStore, Split, Opcode;
    if Opcode(inst) in {OPCODE_SWR, OPCODE_SWL} {
      StoredPart(inst, ea, rt, mem);
    } else {
      StoredWhole(inst, ea, rt, mem);
    }
  }

  function StoreSize(op: nat): OpSize {
    if op == OPCODE_SB then OpByte else if op == OPCODE_SH then OpHalf else OpWord
  }

  lemma StoreMeaning(a: Arch)
    requires Opcode(InstOf(a)) in STORES
    ensures Has(a, EffectOf(a))
  {
    hide InstOf, ExecOf, Step, Overflows, SignExtend, Imm, Rs, Rt, Store, EffectOf, EffectStore, Record, Opcode, Sum,
         Low32, Split;
    AddressParts(a);
    StoreEffect(a);
    if ExecOf(a).exception != NoException {
      StepRaises(a, ArithmeticOverflow);
    } else {
      StepStores(a);
      StoredValue(InstOf(a), ExecOf(a).aluRes, a.regs[Rt(InstOf(a))], a.mem);
    }
  }

  lemma RControl(inst: Word)
    requires Opcode(inst) == OPCODE_R
    ensures inst != INSTRUCTION_ERET && !IsMtc0(inst) && !IsMfc0(inst) && !IsJal(inst)
    ensures ControlOf(inst) == if Funct(inst) == FUNCT_JR then NO_CONTROL.(jump := true)
                               else NO_CONTROL.(regDst := true, aluOp := 2, regWrite := true)
    ensures RdOf(inst) == Rd(inst) && FunctOf(inst) == Funct(inst)
  {
  }

  lemma REffect(a: Arch)
    requires Opcode(InstOf(a)) == OPCODE_R
    ensures var inst := InstOf(a);
            EffectOf(a) == EffectR(Split(inst), a.regs[Rs(inst)], a.regs[Rt(inst)], a.regs[REG_V0])
  {
    hide InstOf, EffectR, Rs, Rt, Split;
    FieldsAre(InstOf(a));
  }

  lemma RMeaning(a: Arch)
    requires Opcode(InstOf(a)) == OPCODE_R && Supported(InstOf(a))
    ensures Has(a, EffectOf(a))
  {
    hide InstOf, ExecOf, Step, Overflows, ControlOf, RdOf, FunctOf, Rs, Rt, Rd, Record, Funct, Opcode, Supported,
         Split, EffectR, EffectOf, Shamt, AluResult, Low32;
    var inst := InstOf(a);
    RControl(inst);
    REffect(a);
    ExecParts(a);
    TargetParts(a);
    SupportedFuncts(inst);
    if Funct(inst) in {FUNCT_JR, FUNCT_SYSCALL} {
      RFlow(inst, a.regs[Rs(inst)], a.regs[Rt(inst)], a.regs[REG_V0]);
    } else {
      RResult(inst, a.regs[Rs(inst)], a.regs[Rt(inst)], a.regs[REG_V0]);
    }
    if ExecOf(a).exception != NoException {
      StepRaises(a, ExecOf(a).exception);
    } else {
      StepRetires(a);
    }
  }

  lemma RFlow(inst: Word, rs: Word, rt: Word, v0: Word)
    requires Opcode(inst) == OPCODE_R
    ensures Funct(inst) == FUNCT_JR ==>
              EffectR(Split(inst), rs, rt, v0) == if Overflows(rs, rt) then Raise(OVERFLOW) else Jump(rs)
    ensures Funct(inst) == FUNCT_SYSCALL ==>
              EffectR(Split(inst), rs, rt, v0) == if v0 == 10 then Quit else Raise(SYSTEM_CALL)
  {
    hide Overflows, Split, Value, TooBig, Funct;
    FieldsAre(inst);
    OverflowIsTooBig(rs, rt);
  }

  lemma SupportedFuncts(inst: Word)
    requires Supported(inst) && Opcode(inst) == OPCODE_R
    ensures Funct(inst) in {FUNCT_JR, FUNCT_SYSCALL, FUNCT_ADD, FUNCT_ADDU, FUNCT_SUB, FUNCT_SUBU, FUNCT_AND,
                            FUNCT_OR, FUNCT_NOR, FUNCT_SLT, FUNCT_SLTU, FUNCT_SLL, FUNCT_SRL}
  {
  }

  lemma RResult(inst: Word, rs: Word, rt: Word, v0: Word)
    requires Opcode(inst) == OPCODE_R && Supported(inst) && Funct(inst) !in {FUNCT_JR, FUNCT_SYSCALL}
    ensures var r := AluResult(2, Funct(inst), OPCODE_R, Shamt(inst), rs, rt);
            r.Some? && EffectR(Split(inst), rs, rt, v0) == SetRegister(Rd(inst), r.value)
  {
    hide And, Or, Shl, Shr, Signed, Value, Pow2, Funct, Rd, Split, Shamt;
    FieldsAre(inst);
    SignedIsValue(rs);
    SignedIsValue(rt);
    ShiftLeft(rt, Shamt(inst));
    ShiftRight(rt, Shamt(inst));
  }

  lemma IControl(inst: Word)
    requires Opcode(inst) in IMMEDIATES
    ensures inst != INSTRUCTION_ERET && !IsMtc0(inst) && !IsMfc0(inst) && !IsJal(inst)
    ensures ControlOf(inst) == NO_CONTROL.(aluOp := 3, aluSrc := true, regWrite := true)
    ensures SourceB(inst) == Rt(inst)
  {
  }

  /** The logical immediates and LUI mask off the sign extension. */
  lemma LowHalf(imm: nat)
    requires imm < 0x1_0000
    ensures And(SignExtend(imm), 0xFFFF) == imm && Shl(SignExtend(imm), 16) == Wrap(imm * 0x1_0000)
  {
    var w: int := SignExtend(imm);
    Pow2Values();
    AndOnes(w, 16);
    ShiftLeft(SignExtend(imm), 16);
    if imm >= 0x8000 {
      assert w * 0x1_0000 == imm * 0x1_0000 + 0xFFFF * WORD_SIZE;
      WrapAdd(imm * 0x1_0000, 0xFFFF);
      assert w == 0xFFFF * 0x1_0000 + imm;
      DivUnique(w, 0x1_0000, 0xFFFF, imm);
    } else {
      SmallMod(w, 0x1_0000);
    }
  }

  lemma IResult(inst: Word, shamt: RegField, rs: Word)
    requires Opcode(inst) in IMMEDIATES
    ensures Split(inst).op in {0x08, 0x09, 0x0A, 0x0B, 0x0C, 0x0D, 0x0F}
    ensures var op, imm := Opcode(inst), SignExtend(Imm(inst));
            var r, e := AluResult(3, FunctOf(inst), op, shamt, rs, imm), AluException(3, FunctOf(inst), op, rs, imm);
            r.Some? && e in {NoException, ArithmeticOverflow} &&
            EffectI(Split(inst), rs) == if e == NoException then SetRegister(Rt(inst), r.value) else Raise(OVERFLOW)
  {
    hide Overflows, And, Or, Shl, Signed, Value, TooBig, Rt, SignExtend, Opcode, FunctOf, Split;
    var imm := SignExtend(Imm(inst));
    FieldsAre(inst);
    LowHalf(Imm(inst));
    SumIsOffset(rs, Imm(inst));
    ExtensionIsOffset(Imm(inst));
    SignedIsValue(rs);
    SignedIsValue(imm);
  }

  lemma IEffect(a: Arch)
    requires Opcode(InstOf(a)) in IMMEDIATES
    ensures Split(InstOf(a)).op in {0x08, 0x09, 0x0A, 0x0B, 0x0C, 0x0D, 0x0F}
    ensures EffectOf(a) == EffectI(Split(InstOf(a)), a.regs[Rs(InstOf(a))])
  {
    hide InstOf, EffectI, Rs, Split;
    FieldsAre(InstOf(a));
  }

  lemma IMeaning(a: Arch)
    requires Opcode(InstOf(a)) in IMMEDIATES
    ensures Has(a, EffectOf(a))
  {
    hide InstOf, ExecOf, Step, ControlOf, Rs, Rt, Record, Imm, SignExtend, Opcode, AluResult, AluException, EffectOf,
         EffectI, FunctOf, IsMtc0, Split, Low32;
    var inst := InstOf(a);
    IControl(inst);
    IEffect(a);
    ExecParts(a);
    TargetParts(a);
    IResult(inst, Shamt(inst), a.regs[Rs(inst)]);
    if ExecOf(a).exception != NoException {
      StepRaises(a, ExecOf(a).exception);
    } else {
      StepRetires(a);
    }
  }

  lemma FlowControl(inst: Word)
    requires Opcode(inst) in FLOW
    ensures inst != INSTRUCTION_ERET && !IsMtc0(inst) && !IsMfc0(inst)
    ensures ControlOf(inst) == if Opcode(inst) == OPCODE_BEQ then NO_CONTROL.(beq := true)
                               else if Opcode(inst) == OPCODE_BNE then NO_CONTROL.(bne := true)
                               else if Opcode(inst) == OPCODE_J then NO_CONTROL.(jump := true)
                               else NO_CONTROL.(jump := true, regWrite := true)
    ensures IsJal(inst) ==> SourceB(inst) == REG_RA
  {
  }

  lemma BranchEffect(a: Arch)
    requires Opcode(InstOf(a)) in {OPCODE_BEQ, OPCODE_BNE}
    ensures var inst, next := InstOf(a), Plus4(a.Pc());
            var rs, rt := a.regs[Rs(inst)], a.regs[Rt(inst)];
            EffectOf(a) ==
              if Overflows(rs, rt) then Raise(OVERFLOW)
              else if (Opcode(inst) == OPCODE_BEQ) == (rs == rt) then Jump(Sum(next, SignExtend(Imm(inst)) * 4))
              else Nothing
  {
    hide InstOf, Overflows, Sum, Rs, Rt, Imm, SignExtend, Plus4, Value, TooBig, Low32, Split;
    var inst := InstOf(a);
    FieldsAre(inst);
    OverflowIsTooBig(a.regs[Rs(inst)], a.regs[Rt(inst)]);
    BranchIsOffset(a.Pc(), Imm(inst));
  }

  lemma JumpEffect(a: Arch)
    requires Opcode(InstOf(a)) in {OPCODE_J, OPCODE_JAL}
    ensures var inst, op, next := InstOf(a), Opcode(InstOf(a)), Plus4(a.Pc());
            var x, rt := if op == OPCODE_JAL then Plus4(next) else a.regs[Rs(inst)], a.regs[Rt(inst)];
            EffectOf(a) ==
              if Overflows(x, rt) then Raise(OVERFLOW)
              else if op == OPCODE_JAL then JumpAndLink(JumpTarget(inst, next), Sum(x, rt))
              else Jump(JumpTarget(inst, next))
  {
    hide InstOf, Overflows, JumpTarget, JumpTo, Sum, Rs, Rt, Plus4, Value, TooBig, Low32, Split, Address;
    var inst := InstOf(a);
    FieldsAre(inst);
    OverflowIsTooBig(a.regs[Rs(inst)], a.regs[Rt(inst)]);
    OverflowIsTooBig(Plus4(Plus4(a.Pc())), a.regs[Rt(inst)]);
    LinkIs(a.Pc(), a.regs[Rt(inst)]);
    TargetIsJump(inst, Plus4(a.Pc()));
  }

  lemma FlowEffect(a: Arch)
    requires Opcode(InstOf(a)) in FLOW
    ensures var inst, op, next := InstOf(a), Opcode(InstOf(a)), Plus4(a.Pc());
            var rs, rt := a.regs[Rs(inst)], a.regs[Rt(inst)];
            var x := if op == OPCODE_JAL then Plus4(next) else rs;
            EffectOf(a) ==
              if Overflows(x, rt) then Raise(OVERFLOW)
              else if op == OPCODE_JAL then JumpAndLink(JumpTarget(inst, next), Sum(x, rt))
              else if op == OPCODE_J then Jump(JumpTarget(inst, next))
              else if (op == OPCODE_BEQ) == (rs == rt) then Jump(Sum(next, SignExtend(Imm(inst)) * 4))
              else Nothing
  {
    hide InstOf, Overflows, JumpTarget, Sum, Rs, Rt, Imm, SignExtend, Plus4, EffectOf, Opcode;
    if Opcode(InstOf(a)) in {OPCODE_BEQ, OPCODE_BNE} { BranchEffect(a); } else { JumpEffect(a); }
  }

  /** What EX and the redirect make of a jump or branch. */
  lemma FlowParts(a: Arch)
    requires Opcode(InstOf(a)) in FLOW
    ensures var inst, op, next := InstOf(a), Opcode(InstOf(a)), Plus4(a.Pc());
            var rs, rt := a.regs[Rs(inst)], a.regs[Rt(inst)];
            var x := if op == OPCODE_JAL then Plus4(next) else rs;
            ExecOf(a).exception == (if Overflows(x, rt) then ArithmeticOverflow else NoException) &&
            ExecOf(a).aluRes == Sum(x, rt) && ExecOf(a).regWrite == (op == OPCODE_JAL) &&
            (op == OPCODE_JAL ==> ExecOf(a).regDst == 31) &&
            TargetOf(a) ==
              if op in {OPCODE_J, OPCODE_JAL} then Some(JumpTarget(inst, next))
              else if (op == OPCODE_BEQ) == (rs == rt) then Some(Sum(next, SignExtend(Imm(inst)) * 4)) else None
  {
    hide InstOf, ExecOf, TargetOf, Overflows, ControlOf, Rs, Rt, Imm, SignExtend, Opcode, SourceB, JumpTarget,
         FunctOf, Plus4, IsMtc0, IsMfc0, RdOf, Wrap;
    FlowControl(InstOf(a));
    ExecParts(a);
    TargetParts(a);
  }

  lemma FlowMeaning(a: Arch)
    requires Opcode(InstOf(a)) in FLOW
    ensures Has(a, EffectOf(a))
  {
    hide InstOf, ExecOf, TargetOf, Step, Overflows, ControlOf, Sum, Rs, Rt, Record, Imm, SignExtend, Opcode, SourceB,
         JumpTarget, EffectOf, Plus4, IsMtc0, IsMfc0, Low32;
    FlowControl(InstOf(a));
    FlowEffect(a);
    FlowParts(a);
    if ExecOf(a).exception != NoException {
      StepRaises(a, ArithmeticOverflow);
    } else {
      StepRetires(a);
    }
  }

  /** The opcodes of no class above. */
  predicate Remaining(op: nat) {
    op != OPCODE_R && op !in FLOW && op !in IMMEDIATES && op !in LOADS && op !in STORES
  }

  lemma OtherControl(inst: Word)
    requires inst != INSTRUCTION_ERET && Opcode(inst) != OPCODE_LL
    requires Remaining(Opcode(inst))
    ensures !IsJal(inst)
    ensures ControlOf(inst) == if IsMfc0(inst) || IsMtc0(inst)
                               then NO_CONTROL.(regDst := true, aluOp := 2, regWrite := true) else NO_CONTROL
  {
  }

  lemma MoveEffect(a: Arch)
    requires IsMfc0(InstOf(a)) || IsMtc0(InstOf(a))
    requires InstOf(a) != INSTRUCTION_ERET
    ensures var inst := InstOf(a);
            EffectOf(a) == if IsMfc0(inst) then SetRegister(Rt(inst), a.cp0[Rd(inst) + 1])
                           else SetCp0(Rd(inst) + 1, a.regs[Rt(inst)])
  {
    hide InstOf, Rt, Rd, Value, TooBig, Low32, Split, Opcode;
    FieldsAre(InstOf(a));
  }

  lemma IdleEffect(a: Arch)
    requires InstOf(a) != INSTRUCTION_ERET && Opcode(InstOf(a)) != OPCODE_LL
    requires Remaining(Opcode(InstOf(a)))
    requires !IsMfc0(InstOf(a)) && !IsMtc0(InstOf(a))
    ensures EffectOf(a) == if Overflows(a.regs[Rs(InstOf(a))], a.regs[Rt(InstOf(a))]) then Raise(OVERFLOW) else Nothing
  {
    hide InstOf, Overflows, Rt, Rd, Value, TooBig, Low32, Split, Opcode, EffectR, EffectI, EffectLoad, EffectStore,
         JumpTo, Offset;
    var inst := InstOf(a);
    FieldsAre(inst);
    OverflowIsTooBig(a.regs[Rs(inst)], a.regs[Rt(inst)]);
  }

  /** CP0 moves: an addition of 0 in the ALU. */
  lemma MoveMeaning(a: Arch)
    requires IsMfc0(InstOf(a)) || IsMtc0(InstOf(a))
    requires InstOf(a) != INSTRUCTION_ERET
    ensures Has(a, EffectOf(a))
  {
    hide InstOf, ExecOf, Step, ControlOf, Rs, Rt, Rd, Imm, SignExtend, Opcode, EffectOf, Plus4, IsMfc0, IsMtc0, Low32,
         AluResult, AluException;
    var inst := InstOf(a);
    MoveControl(inst);
    MoveEffect(a);
    ExecParts(a);
    TargetParts(a);
    Cp0Kinds(inst);
    AddZero(inst, OperandA(a));
    StepRetires(a);
  }

  lemma MoveControl(inst: Word)
    requires IsMfc0(inst) || IsMtc0(inst)
    ensures !IsJal(inst) && ControlOf(inst) == NO_CONTROL.(regDst := true, aluOp := 2, regWrite := true)
    ensures Opcode(inst) != OPCODE_R
  {
  }

  lemma IdleParts(a: Arch)
    requires ControlOf(InstOf(a)) == NO_CONTROL
    requires !IsJal(InstOf(a)) && !IsMfc0(InstOf(a)) && !IsMtc0(InstOf(a))
    ensures TargetOf(a).None? && !ExecOf(a).regWrite
    ensures ExecOf(a).exception ==
              if Overflows(a.regs[Rs(InstOf(a))], a.regs[Rt(InstOf(a))]) then ArithmeticOverflow else NoException
  {
    hide InstOf, ExecOf, TargetOf, Overflows, ControlOf, Rs, Rt, IsMfc0, IsMtc0, IsJal, Opcode, FunctOf, Plus4, Imm,
         SignExtend;
    ExecParts(a);
    TargetParts(a);
  }

  /** Words of unknown opcode only pass through the checked adder. */
  lemma IdleMeaning(a: Arch)
    requires InstOf(a) != INSTRUCTION_ERET && Opcode(InstOf(a)) != OPCODE_LL
    requires Remaining(Opcode(InstOf(a)))
    requires !IsMfc0(InstOf(a)) && !IsMtc0(InstOf(a))
    ensures Has(a, EffectOf(a))
  {
    hide InstOf, ExecOf, TargetOf, Step, Overflows, ControlOf, Rs, Rt, Record, Opcode, EffectOf, IsMfc0, IsMtc0,
         IsJal, Low32, Remaining;
    OtherControl(InstOf(a));
    IdleEffect(a);
    IdleParts(a);
    if ExecOf(a).exception != NoException {
      StepRaises(a, ArithmeticOverflow);
    } else {
      StepRetires(a);
    }
  }

  lemma OtherMeaning(a: Arch)
    requires InstOf(a) != INSTRUCTION_ERET && Opcode(InstOf(a)) != OPCODE_LL
    requires Remaining(Opcode(InstOf(a)))
    ensures Has(a, EffectOf(a))
  {
    hide InstOf, Has, EffectOf, IsMfc0, IsMtc0, Opcode, Remaining;
    if IsMfc0(InstOf(a)) || IsMtc0(InstOf(a)) { MoveMeaning(a); } else { IdleMeaning(a); }
  }

  lemma AddZero(inst: Word, x: Word)
    requires IsMfc0(inst) || IsMtc0(inst)
    ensures FunctOf(inst) == FUNCT_ADD
    ensures forall shamt: RegField :: AluResult(2, FUNCT_ADD, Opcode(inst), shamt, x, 0) == Some(x)
    ensures AluException(2, FUNCT_ADD, Opcode(inst), x, 0) == NoException
  {
  }

  lemma Cp0Kinds(inst: Word)
    ensures !(IsMfc0(inst) && IsMtc0(inst))
  {
  }

  /** The specification machine is the instruction set: on every supported word,
      in every state, one step composed of decode, ALU, memory and commit blocks
      does what the word says. */
  lemma StepIsMeaning(a: Arch)
    requires Supported(InstOf(a))
    ensures Has(a, EffectOf(a))
  {
    hide InstOf, Step, Apply, EffectOf, Opcode, Funct;
    var op := Opcode(InstOf(a));
    if InstOf(a) == INSTRUCTION_ERET {
      StepReturns(a);
      EretEffect(a);
    } else if op == OPCODE_R {
      RMeaning(a);
    } else if op in IMMEDIATES {
      IMeaning(a);
    } else if op in LOADS {
      LoadMeaning(a);
    } else if op in STORES {
      StoreMeaning(a);
    } else if op in FLOW {
      FlowMeaning(a);
    } else {
      OtherMeaning(a);
    }
  }

  /** So the run that the pipeline is proved to follow is the instruction set's. */
  lemma RunIsMeaning(a: Arch, k: nat, i: nat)
    requires Runs(a, k) && i < k
    ensures Seq(a, i + 1) == Apply(Seq(a, i), EffectOf(Seq(a, i))) && EndsAs(Seq(a, i), EffectOf(Seq(a, i)))
  {
    hide Seq, Step, Apply, EffectOf, EndsAs, Ok, Supported, InstOf, Runs;
    RunsAt(a, k, i);
    OkParts(a, i);
    StepIsMeaning(Seq(a, i));
    SeqSucc(a, i);
  }

  lemma EretEffect(a: Arch)
    requires InstOf(a) == INSTRUCTION_ERET
    ensures EffectOf(a) == Return
  {
    hide InstOf;
  }
}
