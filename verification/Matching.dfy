/** Latch contents that agree in everything the later stages use, and the
    lemmas that carry agreement through each block. Fields a stage leaves stale
    are not compared, and of ERET only the word counts: its operands are never
    forwarded. */
module Matching {
  import opened Words
  import opened Isa
  import opened Latches
  import opened Memory
  import opened Stages
  import opened Hazards

  ghost predicate SameGpr(r: Regs, s: Regs) {
    forall i | 0 <= i < 32 :: r[i] == s[i]
  }

  lemma SameGprTrans(r: Regs, s: Regs, u: Regs)
    requires SameGpr(r, s) && SameGpr(s, u)
    ensures SameGpr(r, u)
  {
  }

  predicate IdMatch(p: IdEx, q: IdEx) {
    p.inst == q.inst && p.c == q.c == ControlOf(p.inst) && p.funct == q.funct == FunctOf(p.inst) &&
    p.shamt == q.shamt && p.nextPc == q.nextPc && p.signExtImm == q.signExtImm &&
    p.rs == q.rs == SourceA(p.inst) && p.rt == q.rt == SourceB(p.inst) && p.rd == q.rd == RdOf(p.inst) &&
    p.isBranchDelay == q.isBranchDelay && p.exception == q.exception == NoException &&
    (p.inst != INSTRUCTION_ERET ==> p.rsValue == q.rsValue && p.rtValue == q.rtValue) &&
    (Opcode(p.inst) in {OPCODE_J, OPCODE_JAL} ==> p.jumpAddr == q.jumpAddr)
  }

  predicate ExMatch(p: ExMem, q: ExMem) {
    var c := ControlOf(p.inst);
    p.inst == q.inst && p.regWrite == q.regWrite == c.regWrite && p.memRead == q.memRead == c.memRead &&
    p.memWrite == q.memWrite == c.memWrite && p.memToReg == q.memToReg == c.memToReg &&
    (p.inst != INSTRUCTION_ERET ==>
       p.exception == q.exception && p.exception != AddressErrorLoad &&
       p.nextPc == q.nextPc && p.isBranchDelay == q.isBranchDelay && p.rtValue == q.rtValue &&
       (p.exception == NoException ==> p.aluRes == q.aluRes) &&
       p.regDst == q.regDst && (p.regWrite ==> p.regDst == DestOf(p.inst)))
  }

  predicate WbMatch(p: MemWb, q: MemWb) {
    p.inst == q.inst &&
    (p.inst != INSTRUCTION_ERET ==>
       p.exception == q.exception && p.exception != AddressErrorLoad &&
       p.nextPc == q.nextPc && p.isBranchDelay == q.isBranchDelay &&
       p.regWrite == q.regWrite && p.regDst == q.regDst && (p.regWrite ==> p.regDst == DestOf(p.inst)) &&
       (p.exception == NoException && p.regWrite ==> WbData(p) == WbData(q)))
  }

  // A bubble in each latch: a word 0 that writes nothing but $zero.

  predicate IdleIf(f: IfId) { f.inst == 0 && f.exception == NoException }

  predicate IdleId(d: IdEx) {
    d.inst == 0 && d.exception == NoException && d.rs == 0 && d.rt == 0 &&
    !d.c.memRead && !d.c.memWrite && !d.c.beq && !d.c.bne && !d.c.jump &&
    (d.c.regWrite ==> d.c.regDst && d.rd == 0) &&
    ((d.c.aluOp == 2 && d.funct == FUNCT_SLL) ||
     (d.c.aluOp == 0 && !d.c.aluSrc && d.rsValue == 0 && d.rtValue == 0))
  }

  predicate IdleEx(e: ExMem) {
    e.inst == 0 && e.exception == NoException && !e.memRead && !e.memWrite && (e.regWrite ==> e.regDst == 0)
  }

  predicate IdleWb(w: MemWb) {
    w.inst == 0 && w.exception == NoException && (w.regWrite ==> w.regDst == 0)
  }

  /** What each stage makes of a bubble. */
  lemma IdleFlow(prevD: IdEx, prevE: ExMem, prevW: MemWb, f: IfId, d: IdEx, e: ExMem, regs: Regs, cp0: Cp0Regs,
                 dst: Word, rt: Word, mem: seq<Byte>)
    ensures IdleIf(f) ==> IdleId(DecodeFrom(prevD, f, regs, cp0))
    ensures IdleId(d) ==> IdleEx(Execute(prevE, d)) && Redirect(d).None? && Resolve(d) == d
    ensures IdleEx(e) ==> IdleWb(Access(prevW, e, dst, rt, mem).latch) && Access(prevW, e, dst, rt, mem).mem == mem &&
                            !Access(prevW, e, dst, rt, mem).outside
  {
  }

  lemma IdleForward(d: IdEx, e: ExMem, w: MemWb)
    requires IdleId(d)
    ensures Forward(d, e, w) == d
  {
  }

  /** A supported instruction never leaves the old ALU result behind. */
  lemma AluDefined(inst: Word, shamt: RegField, a: Word, b: Word)
    requires Supported(inst)
    ensures var c := ControlOf(inst);
            AluResult(c.aluOp, FunctOf(inst), Opcode(inst), shamt, a, b).Some? ||
            AluException(c.aluOp, FunctOf(inst), Opcode(inst), a, b) != NoException
  {
    hide And, Or, Nor, Shl, Shr;
  }

  lemma JumpKinds(inst: Word)
    requires ControlOf(inst).jump
    ensures Opcode(inst) in {OPCODE_J, OPCODE_JAL} || (Opcode(inst) == OPCODE_R && Funct(inst) == FUNCT_JR)
  {
  }

  lemma EretControl()
    ensures ControlOf(INSTRUCTION_ERET) == NO_CONTROL
    ensures Supported(INSTRUCTION_ERET)
  {
  }

  // ----- Agreement through the blocks -----

  lemma ExecuteMatch(prevP: ExMem, prevQ: ExMem, p: IdEx, q: IdEx)
    requires IdMatch(p, q) && Supported(p.inst)
    ensures ExMatch(Execute(prevP, p), Execute(prevQ, q))
    ensures Redirect(p) == Redirect(q)
  {
    hide AluResult, ControlOf, FunctOf, SourceA, SourceB, RdOf;
    EretControl();
    if p.inst != INSTRUCTION_ERET {
      AluDefined(p.inst, p.shamt, p.rsValue, OperandB(p));
      if p.c.jump { JumpKinds(p.inst); }
    }
  }

  /** A load has one of the five read cases, and only loads read. */
  lemma LoadKinds(inst: Word)
    ensures ControlOf(inst).memRead <==>
            Opcode(inst) in {OPCODE_LW, OPCODE_LBU, OPCODE_LHU, OPCODE_LWL, OPCODE_LWR}
    ensures ControlOf(inst).memToReg == ControlOf(inst).memRead
  {
  }

  lemma AccessMatch(prevP: MemWb, prevQ: MemWb, p: ExMem, q: ExMem, dstP: Word, dstQ: Word, rtP: Word, rtQ: Word,
                    mem: seq<Byte>)
    requires ExMatch(p, q)
    requires p.memRead && p.inst != INSTRUCTION_ERET ==> dstP == dstQ
    requires rtP == rtQ
    ensures WbMatch(Access(prevP, p, dstP, rtP, mem).latch, Access(prevQ, q, dstQ, rtQ, mem).latch)
    ensures Access(prevP, p, dstP, rtP, mem).mem == Access(prevQ, q, dstQ, rtQ, mem).mem
    ensures Access(prevP, p, dstP, rtP, mem).outside == Access(prevQ, q, dstQ, rtQ, mem).outside
  {
    hide ControlOf, DestOf, Read, Write, MergeLeft, MergeRight, StoreLeft, StoreRight;
    EretControl();
    LoadKinds(p.inst);
    StoreExceptions(p, q, rtP, mem);
  }

  /** A store can only fail with AddressErrorStore. */
  lemma StoreExceptions(p: ExMem, q: ExMem, rt: Word, mem: seq<Byte>)
    ensures Store(Opcode(p.inst), p.aluRes, p.rtValue, rt, mem).exception in {NoException, AddressErrorStore}
  {
    hide Plain, Read, StoreLeft, StoreRight, SetBig;
  }

  lemma WriteBackMatch(p: MemWb, q: MemWb, rp: Regs, rq: Regs, cp0: Cp0Regs)
    requires WbMatch(p, q) && SameGpr(rp, rq)
    ensures var c, c' := WriteBack(p, rp, cp0), WriteBack(q, rq, cp0);
            c.outcome == c'.outcome && SameGpr(c.regs, c'.regs) && c.cp0 == c'.cp0 &&
            (c.outcome.Retired? ==> c.regs[REG_PC] == rp[REG_PC] && c'.regs[REG_PC] == rq[REG_PC]) &&
            (c.outcome.Flushed? ==> c.regs[REG_PC] == c'.regs[REG_PC])
  {
    hide DestOf, WbData, HandlerPc;
    if !IsMtc0(p.inst) { DestIsGeneral(p.inst); }
  }
}
