/** The simulator core as it runs: one object whose registers, latches and memory
    the stage methods update in place (src/sim.c), proved against `Stages`. */
module MachineObject {
  import opened Words
  import opened Isa
  import opened Latches
  import opened Memory
  import opened MmuObject
  import opened Stages
  import opened Pipeline
  import opened Sequential
  import opened Schedule
  import opened Hazards
  import opened Timing
  import opened ControlFlow

  /** The ALU operations outside the two switches. */
  lemma AluOther(d: IdEx)
    ensures var op, a, b := d.c.aluOp, d.rsValue, OperandB(d);
            var r, e := AluResult(op, d.funct, Opcode(d.inst), d.shamt, a, b),
                        AluException(op, d.funct, Opcode(d.inst), a, b);
            (op == 0 ==> r == Some(Wrap(a + b)) && e == if Overflows(a, b) then ArithmeticOverflow else NoException) &&
            (op !in {0, 2, 3} ==> r == None && e == NoException)
  {
  }

  lemma NoRedirect(d: IdEx)
    requires d.exception != NoException
    ensures Redirect(d).None? && Resolve(d) == d
  {
  }

  lemma ResolveKeeps(d: IdEx)
    ensures Resolve(d) == d.(jumpAddr := Resolve(d).jumpAddr)
  {
  }

  function PipeEx(prev: ExMem, d: IdEx): (e: ExMem)
    ensures e.exception == NoException
  {
    ExMem(d.c.regWrite, d.c.memRead, d.c.memWrite, d.c.memToReg, prev.aluRes, d.rtValue, prev.regDst,
          d.nextPc, d.isBranchDelay, d.inst, NoException, prev.badVAddr)
  }

  lemma ExecuteException(prev: ExMem, d: IdEx)
    requires d.exception != NoException
    ensures Execute(prev, d) == PipeEx(prev, d).(exception := d.exception, badVAddr := d.badVAddr)
  {
  }

  lemma ExecuteParts(prev: ExMem, d: IdEx)
    requires d.exception == NoException
    ensures var r := AluResult(d.c.aluOp, d.funct, Opcode(d.inst), d.shamt, d.rsValue, OperandB(d));
            Execute(prev, d) == PipeEx(prev, d).(
              regDst := if d.c.regDst then d.rd else d.rt,
              aluRes := if r.Some? then r.value else PipeEx(prev, d).aluRes,
              exception := AluException(d.c.aluOp, d.funct, Opcode(d.inst), d.rsValue, OperandB(d)))
  {
    hide AluResult, AluException;
  }

  class Machine {
    const regs: array<Word>
    const cp0: array<Word>
    const mmu: Mmu
    var ifId: IfId
    var idEx: IdEx
    var exMem: ExMem
    var memWb: MemWb
    var finished: bool
    var outside: bool

    predicate Valid() {
      regs.Length == NUM_REGISTERS && cp0.Length == CP0_SLOTS && mmu.Sized() &&
      regs != cp0 && regs as object != mmu.pmem && cp0 as object != mmu.pmem
    }

    function Snapshot(): State
      requires Valid()
      reads this, regs, cp0, mmu.pmem
    {
      State(regs[..], cp0[..], ifId, idEx, exMem, memWb, mmu.pmem[..], finished, outside)
    }

    /** What `hw_init` and the loader leave: `mmu` already holds the program. */
    constructor (mmu: Mmu, entry: Word)
      requires mmu.Sized()
      ensures Valid() && this.mmu == mmu && fresh(regs) && fresh(cp0)
      ensures Initial(Snapshot()) && Snapshot().Pc() == entry && Snapshot().mem == old(mmu.pmem[..]) && !outside
      ensures regs[29] == Wrap(0x8000_0000 + mmu.sizeKseg0 - 4)
      ensures forall i | 0 <= i < 32 && i != 29 :: regs[i] == 0
      ensures forall i | 0 <= i < 41 :: cp0[i] == if i == 13 then 1 else 0
    {
      this.mmu := mmu;
      var stackTop := Wrap(KSEG0_VSTART + mmu.sizeKseg0 - 4);
      var r := new Word[NUM_REGISTERS](_ => 0);
      r[REG_SP] := stackTop;
      r[REG_PC] := entry;
      var c := new Word[CP0_SLOTS](_ => 0);
      c[REG_SR] := 1;
      regs, cp0 := r, c;
      ifId, idEx, exMem, memWb := ZERO_IF_ID, ZERO_ID_EX, ZERO_EX_MEM, ZERO_MEM_WB;
      finished, outside := false, false;
    }

    /** `interpret_if` */
    method InterpretIf()
      requires Valid()
      modifies this`ifId, this`outside, regs
      ensures Snapshot() == IfStage(old(Snapshot()))
    {
      hide Memory.Read, Rs, Rt;
      var exception, inst, left := mmu.Read(regs[REG_PC], OpWord);
      ifId := ifId.(exception := exception);
      outside := outside || left;
      if idEx.c.memRead && (idEx.rt == Rs(inst) || idEx.rt == Rt(inst)) {
        ifId := ifId.(inst := 0);
        return;
      }
      ifId := ifId.(inst := inst);
      regs[REG_PC] := Plus4(regs[REG_PC]);
      ifId := ifId.(nextPc := regs[REG_PC]);
      ifId := ifId.(badVAddr := 0);
      ifId := ifId.(isBranchDelay := false);
    }

    /** `interpret_id_control`: the control bits, case by case. */
    method InterpretIdControl()
      requires Valid() && idEx.inst == ifId.inst && idEx.nextPc == ifId.nextPc
      requires idEx.rs == Rs(ifId.inst) && idEx.rt == Rt(ifId.inst) && idEx.rd == Rd(ifId.inst)
      requires idEx.funct == Funct(ifId.inst)
      requires idEx.rsValue == regs[Rs(ifId.inst)] && idEx.rtValue == regs[Rt(ifId.inst)]
      modifies this`idEx
      ensures var inst, d := ifId.inst, old(idEx);
              idEx.c == ControlOf(inst) && idEx.rs == SourceA(inst) && idEx.rt == SourceB(inst) &&
              idEx.rd == RdOf(inst) && idEx.funct == FunctOf(inst) &&
              idEx.rsValue == (if IsJal(inst) then Plus4(d.nextPc)
                               else if IsMfc0(inst) then cp0[Rd(inst) + 1]
                               else if IsMtc0(inst) then regs[Rt(inst)] else d.rsValue) &&
              idEx.rtValue == (if IsMfc0(inst) || IsMtc0(inst) then 0 else d.rtValue) &&
              idEx.jumpAddr == (if Opcode(inst) in {OPCODE_J, OPCODE_JAL} then JumpTarget(inst, d.nextPc)
                                else d.jumpAddr) &&
              idEx == d.(c := idEx.c, rs := idEx.rs, rt := idEx.rt, rd := idEx.rd, funct := idEx.funct,
                         rsValue := idEx.rsValue, rtValue := idEx.rtValue, jumpAddr := idEx.jumpAddr)
    {
      hide JumpTarget, Plus4;
      var inst := ifId.inst;
      var op := Opcode(inst);
      idEx := idEx.(c := NO_CONTROL);
      if op == OPCODE_R {
        if Funct(idEx.inst) == FUNCT_JR {
          idEx := idEx.(c := idEx.c.(jump := true));
        } else {
          idEx := idEx.(c := idEx.c.(regDst := true, aluOp := 2, regWrite := true));
        }
      } else if op == OPCODE_LWL || op == OPCODE_LWR || op == OPCODE_LBU || op == OPCODE_LHU || op == OPCODE_LW {
        idEx := idEx.(c := idEx.c.(aluSrc := true, memRead := true, regWrite := true, memToReg := true));
      } else if op == OPCODE_LL || op == OPCODE_LUI {
        idEx := idEx.(c := idEx.c.(aluOp := 3, aluSrc := true, regWrite := true, regDst := false));
      } else if op == OPCODE_SC || op == OPCODE_SWR || op == OPCODE_SWL ||
                op == OPCODE_SB || op == OPCODE_SH || op == OPCODE_SW {
        idEx := idEx.(c := idEx.c.(aluOp := 0, aluSrc := true, memWrite := true));
      } else if op == OPCODE_BEQ {
        idEx := idEx.(c := idEx.c.(beq := true));
      } else if op == OPCODE_BNE {
        idEx := idEx.(c := idEx.c.(bne := true));
      } else if op == OPCODE_SLTI || op == OPCODE_SLTIU || op == OPCODE_ORI ||
                op == OPCODE_ANDI || op == OPCODE_ADDI || op == OPCODE_ADDIU {
        idEx := idEx.(c := idEx.c.(aluOp := 3, aluSrc := true, regWrite := true));
      } else if op == OPCODE_J {
        idEx := idEx.(c := idEx.c.(jump := true), jumpAddr := JumpTarget(idEx.inst, idEx.nextPc));
      } else if op == OPCODE_JAL {
        idEx := idEx.(c := idEx.c.(jump := true), jumpAddr := JumpTarget(idEx.inst, idEx.nextPc));
        idEx := idEx.(rsValue := Plus4(idEx.nextPc));
        idEx := idEx.(c := idEx.c.(regDst := false, regWrite := true), rt := REG_RA);
      } else if op == OPCODE_CP0 {
        ControlCp0();
      }
    }

    /** Its inner switch, on the function encoded in rs. */
    method ControlCp0()
      requires Valid() && idEx.inst == ifId.inst && Opcode(ifId.inst) == OPCODE_CP0 && idEx.c == NO_CONTROL
      modifies this`idEx
      ensures var inst, d := ifId.inst, old(idEx);
              idEx == if IsMfc0(inst) then
                        d.(c := NO_CONTROL.(regDst := true, aluOp := 2, regWrite := true), rs := Rd(inst) + 1,
                           rsValue := cp0[Rd(inst) + 1], rt := 0, rtValue := 0, rd := Rt(inst), funct := FUNCT_ADD)
                      else if IsMtc0(inst) then
                        d.(c := NO_CONTROL.(regDst := true, aluOp := 2, regWrite := true), rs := Rt(inst),
                           rsValue := regs[Rt(inst)], rt := 0, rtValue := 0, rd := Rd(inst) + 1, funct := FUNCT_ADD)
                      else d
    {
      var inst := ifId.inst;
      if Rs(inst) == CP0_MFC0 {
        idEx := idEx.(c := idEx.c.(regDst := true, aluOp := 2, regWrite := true));
        idEx := idEx.(rs := Rd(inst) + 1, rsValue := cp0[Rd(inst) + 1]);
        idEx := idEx.(rt := 0, rtValue := 0, rd := Rt(inst), funct := FUNCT_ADD);
      } else if Rs(inst) == CP0_MTC0 {
        idEx := idEx.(c := idEx.c.(regDst := true, aluOp := 2, regWrite := true));
        idEx := idEx.(rs := Rt(inst), rsValue := regs[Rt(inst)]);
        idEx := idEx.(rt := 0, rtValue := 0, rd := Rd(inst) + 1, funct := FUNCT_ADD);
      }
    }

    /** `interpret_id` */
    method InterpretId()
      requires Valid()
      modifies this`idEx
      ensures Snapshot() == IdStage(old(Snapshot()))
    {
      hide ControlOf, SourceA, SourceB, RdOf, FunctOf, JumpTarget, Plus4, SignExtend;
      var inst := ifId.inst;
      idEx := idEx.(rt := Rt(inst), rd := Rd(inst), rs := Rs(inst));
      idEx := idEx.(rsValue := regs[Rs(inst)], rtValue := regs[Rt(inst)]);
      idEx := idEx.(signExtImm := SignExtend(Imm(inst)), funct := Funct(inst), shamt := Shamt(inst));
      idEx := idEx.(inst := ifId.inst, nextPc := ifId.nextPc, badVAddr := ifId.badVAddr);
      idEx := idEx.(isBranchDelay := ifId.isBranchDelay, exception := NoException);
      if ifId.exception != NoException {
        idEx := idEx.(exception := ifId.exception, badVAddr := ifId.badVAddr);
        return;
      }
      InterpretIdControl();
    }

    /** `interpret_ex_alu` */
    method InterpretExAlu()
      requires Valid() && exMem.exception == NoException
      modifies this`exMem
      ensures var r := AluResult(idEx.c.aluOp, idEx.funct, Opcode(idEx.inst), idEx.shamt, idEx.rsValue, OperandB(idEx));
              exMem == old(exMem).(
                aluRes := if r.Some? then r.value else old(exMem.aluRes),
                exception := AluException(idEx.c.aluOp, idEx.funct, Opcode(idEx.inst), idEx.rsValue, OperandB(idEx)))
    {
      hide AluResult, AluException, Overflows, Wrap, Opcode;
      AluOther(idEx);
      var a := idEx.rsValue;
      var b := if idEx.c.aluSrc then idEx.signExtImm else idEx.rtValue;
      if idEx.c.aluOp == 0 {
        if Overflows(a, b) {
          exMem := exMem.(exception := ArithmeticOverflow);
        }
        exMem := exMem.(aluRes := Wrap(a + b));
        return;
      }
      if idEx.c.aluOp == 1 {
        return;
      }
      if idEx.c.aluOp == 2 {
        AluRType(a, b);
      }
      if idEx.c.aluOp == 3 {
        AluIType(a, b);
      }
    }

    /** The R-type switch of the ALU. */
    method AluRType(a: Word, b: Word)
      requires Valid() && exMem.exception == NoException
      modifies this`exMem
      ensures var r := AluResult(2, idEx.funct, Opcode(idEx.inst), idEx.shamt, a, b);
              exMem == old(exMem).(
                aluRes := if r.Some? then r.value else old(exMem.aluRes),
                exception := AluException(2, idEx.funct, Opcode(idEx.inst), a, b))
    {
      hide And, Or, Nor, Shl, Shr, Overflows, Wrap, Signed, Opcode;
      if idEx.funct == FUNCT_ADD {
        exMem := exMem.(aluRes := Wrap(a + b));
      } else if idEx.funct == FUNCT_ADDU {
        exMem := exMem.(aluRes := Wrap(a + b));
      } else if idEx.funct == FUNCT_SUB {
        exMem := exMem.(aluRes := Wrap(a + b));
      } else if idEx.funct == FUNCT_SUBU {
        exMem := exMem.(aluRes := Wrap(a - b));
      } else if idEx.funct == FUNCT_AND {
        exMem := exMem.(aluRes := And(a, b));
      } else if idEx.funct == FUNCT_OR {
        exMem := exMem.(aluRes := Or(a, b));
      } else if idEx.funct == FUNCT_NOR {
        exMem := exMem.(aluRes := Nor(a, b));
      } else if idEx.funct == FUNCT_SLT {
        exMem := exMem.(aluRes := if Signed(a) < Signed(b) then 1 else 0);
      } else if idEx.funct == FUNCT_SLTU {
        exMem := exMem.(aluRes := if a < b then 1 else 0);
      } else if idEx.funct == FUNCT_SLL {
        exMem := exMem.(aluRes := Shl(b, idEx.shamt));
      } else if idEx.funct == FUNCT_SRL {
        exMem := exMem.(aluRes := Shr(b, idEx.shamt));
      } else if idEx.funct == FUNCT_SYSCALL {
        exMem := exMem.(exception := Syscall);
      }
    }

    /** The I-type switch of the ALU. */
    method AluIType(a: Word, b: Word)
      requires Valid() && exMem.exception == NoException
      modifies this`exMem
      ensures var r := AluResult(3, idEx.funct, Opcode(idEx.inst), idEx.shamt, a, b);
              exMem == old(exMem).(
                aluRes := if r.Some? then r.value else old(exMem.aluRes),
                exception := AluException(3, idEx.funct, Opcode(idEx.inst), a, b))
    {
      hide And, Or, Nor, Shl, Shr, Overflows, Wrap, Signed, Opcode;
      var op := Opcode(idEx.inst);
      if op == OPCODE_ADDI {
        if Overflows(a, b) {
          exMem := exMem.(exception := ArithmeticOverflow);
        }
        exMem := exMem.(aluRes := Wrap(a + b));
      } else if op == OPCODE_ADDIU {
        exMem := exMem.(aluRes := Wrap(a + b));
      } else if op == OPCODE_SLTI {
        exMem := exMem.(aluRes := if Signed(a) < Signed(b) then 1 else 0);
      } else if op == OPCODE_SLTIU {
        exMem := exMem.(aluRes := if a < b then 1 else 0);
      } else if op == OPCODE_ANDI {
        exMem := exMem.(aluRes := And(a, And(b, 0xFFFF)));
      } else if op == OPCODE_ORI {
        exMem := exMem.(aluRes := Or(a, And(b, 0xFFFF)));
      } else if op == OPCODE_LUI {
        exMem := exMem.(aluRes := Shl(b, 16));
      }
    }

    /** `interpret_ex` */
    method InterpretEx()
      requires Valid()
      modifies this`exMem, this`idEx, this`ifId, regs
      ensures Snapshot() == ExStage(old(Snapshot()))
    {
      hide AluResult, AluException, Redirect, Resolve, Opcode, Execute, PipeEx;
      ghost var d, e := idEx, exMem;
      PipeToEx();
      if idEx.exception != NoException {
        exMem := exMem.(exception := idEx.exception, badVAddr := idEx.badVAddr);
        NoRedirect(d);
        ExecuteException(e, d);
        return;
      }
      TakeBranch();
      FinishEx(e, d);
    }

    /** The destination mux and the ALU. */
    method FinishEx(ghost e: ExMem, ghost d: IdEx)
      requires Valid() && d.exception == NoException
      requires idEx == Resolve(d) && exMem == PipeEx(e, d)
      modifies this`exMem
      ensures exMem == Execute(e, d)
    {
      hide AluResult, AluException, Resolve, Opcode, Execute;
      ResolveKeeps(d);
      exMem := exMem.(regDst := if !idEx.c.regDst then idEx.rt else idEx.rd);
      ExecuteParts(e, d);
      InterpretExAlu();
    }

    /** The control bits and values that EX hands on unchanged. */
    method PipeToEx()
      requires Valid()
      modifies this`exMem
      ensures exMem == PipeEx(old(exMem), idEx)
    {
      exMem := exMem.(memRead := idEx.c.memRead, memWrite := idEx.c.memWrite, rtValue := idEx.rtValue);
      exMem := exMem.(regWrite := idEx.c.regWrite, memToReg := idEx.c.memToReg);
      exMem := exMem.(inst := idEx.inst, nextPc := idEx.nextPc, isBranchDelay := idEx.isBranchDelay);
      exMem := exMem.(exception := NoException);
    }

    /** The jump and branch part of `interpret_ex`: redirects the PC and marks the
        instruction in IF_ID as a delay slot. */
    method TakeBranch()
      requires Valid() && idEx.exception == NoException
      modifies this`idEx, this`ifId, regs
      ensures idEx == Resolve(old(idEx))
      ensures var target := Redirect(old(idEx));
              ifId == (if target.Some? then old(ifId).(isBranchDelay := true) else old(ifId)) &&
              regs[..] == if target.Some? then old(regs[..])[REG_PC := target.value] else old(regs[..])
    {
      hide Wrap, Opcode, Funct;
      ghost var r := regs[..];
      if idEx.c.jump {
        if (Opcode(idEx.inst) == OPCODE_R && Funct(idEx.inst) == FUNCT_JR) || idEx.inst == INSTRUCTION_ERET {
          idEx := idEx.(jumpAddr := idEx.rsValue);
        }
        ifId := ifId.(isBranchDelay := true);
        regs[REG_PC] := idEx.jumpAddr;
      }
      if idEx.c.beq {
        if idEx.rsValue == idEx.rtValue {
          regs[REG_PC] := BranchTarget(idEx);
          ifId := ifId.(isBranchDelay := true);
        }
      }
      if idEx.c.bne {
        if idEx.rsValue != idEx.rtValue {
          regs[REG_PC] := BranchTarget(idEx);
          ifId := ifId.(isBranchDelay := true);
        }
      }
      assert forall i | 0 <= i < REG_PC :: regs[i] == r[i];
      assert regs[..] == r[REG_PC := regs[REG_PC]];
    }

    /** The read switch of `interpret_mem`. */
    method MemRead()
      requires Valid() && memWb.inst == exMem.inst && memWb.exception == NoException
      modifies this`memWb, this`outside
      ensures var l := Load(Opcode(exMem.inst), exMem.aluRes, regs[exMem.regDst], old(memWb.readData), mmu.pmem[..]);
              memWb == old(memWb).(readData := l.data, exception := l.exception) &&
              outside == (old(outside) || l.outside)
    {
      hide Opcode, Memory.Read, MergeLeft, MergeRight;
      var op, a := Opcode(memWb.inst), exMem.aluRes;
      if op == OPCODE_LW {
        var exception, data, left := mmu.Read(a, OpWord);
        memWb, outside := memWb.(readData := data, exception := exception), outside || left;
      } else if op == OPCODE_LBU {
        var exception, data, left := mmu.Read(a, OpByte);
        memWb, outside := memWb.(readData := data, exception := exception), outside || left;
      } else if op == OPCODE_LHU {
        var exception, data, left := mmu.Read(a, OpHalf);
        memWb, outside := memWb.(readData := data, exception := exception), outside || left;
      } else if op == OPCODE_LWL {
        var exception, word, left := mmu.Read(AlignDown(a), OpWord);
        memWb, outside := memWb.(exception := exception), outside || left;
        memWb := memWb.(readData := MergeLeft(regs[exMem.regDst], word, a % 4));
      } else if op == OPCODE_LWR {
        var exception, word, left := mmu.Read(AlignDown(a), OpWord);
        memWb, outside := memWb.(exception := exception), outside || left;
        memWb := memWb.(readData := MergeRight(regs[exMem.regDst], word, a % 4));
      }
    }

    /** The write switch of `interpret_mem`. */
    method MemWrite()
      requires Valid() && memWb.inst == exMem.inst && memWb.exception == NoException
      modifies this`memWb, this`outside, mmu.pmem
      ensures var w := Store(Opcode(exMem.inst), exMem.aluRes, exMem.rtValue, regs[Rt(exMem.inst)],
                             old(mmu.pmem[..]));
              memWb == old(memWb).(exception := w.exception) && mmu.pmem[..] == w.mem &&
              outside == (old(outside) || w.outside)
    {
      hide Opcode, Rt, Memory.Read, Memory.Write, StoreLeft, StoreRight;
      var op, a := Opcode(memWb.inst), exMem.aluRes;
      if op == OPCODE_SW {
        var exception, left := mmu.Write(a, exMem.rtValue, OpWord);
        memWb, outside := memWb.(exception := exception), outside || left;
      } else if op == OPCODE_SB {
        var exception, left := mmu.Write(a, exMem.rtValue, OpByte);
        memWb, outside := memWb.(exception := exception), outside || left;
      } else if op == OPCODE_SH {
        var exception, left := mmu.Write(a, exMem.rtValue, OpHalf);
        memWb, outside := memWb.(exception := exception), outside || left;
      } else if op == OPCODE_SWL {
        var _, word, left := mmu.Read(AlignDown(a), OpWord);
        var exception, left' := mmu.Write(AlignDown(a), StoreLeft(word, regs[Rt(exMem.inst)], a % 4), OpWord);
        memWb, outside := memWb.(exception := exception), outside || left || left';
      } else if op == OPCODE_SWR {
        var _, word, left := mmu.Read(AlignDown(a), OpWord);
        var exception, left' := mmu.Write(AlignDown(a), StoreRight(word, regs[Rt(exMem.inst)], a % 4), OpWord);
        memWb, outside := memWb.(exception := exception), outside || left || left';
      }
    }

    /** `interpret_mem` */
    method InterpretMem()
      requires Valid()
      modifies this`memWb, this`outside, mmu.pmem
      ensures Snapshot() == MemStage(old(Snapshot()))
    {
      hide Opcode, Rt, Load, Store;
      memWb := memWb.(regWrite := exMem.regWrite, regDst := exMem.regDst, memToReg := exMem.memToReg);
      memWb := memWb.(aluRes := exMem.aluRes, inst := exMem.inst, nextPc := exMem.nextPc);
      memWb := memWb.(isBranchDelay := exMem.isBranchDelay, exception := NoException);
      if exMem.exception != NoException {
        memWb := memWb.(exception := exMem.exception, badVAddr := exMem.badVAddr);
        return;
      }
      if exMem.memRead {
        MemRead();
      } else if exMem.memWrite {
        MemWrite();
      }
    }

    /** `handle_exception` */
    method HandleException()
      requires Valid()
      modifies this`ifId, this`idEx, this`exMem, this`memWb, regs, cp0
      ensures ifId == ZERO_IF_ID && idEx == ZERO_ID_EX && exMem == ZERO_EX_MEM && memWb == ZERO_MEM_WB
      ensures cp0[..] == RecordException(old(cp0[..]), old(memWb))
      ensures regs[..] == old(regs[..])[REG_PC := HandlerPc(cp0[..])]
    {
      hide GetCause, SetExl, Bev;
      ifId, idEx, exMem := ZERO_IF_ID, ZERO_ID_EX, ZERO_EX_MEM;
      cp0[REG_EPC] := memWb.nextPc;
      cp0[REG_CAUSE] := GetCause(memWb.exception, memWb.isBranchDelay);
      if memWb.exception == AddressErrorLoad {
        cp0[REG_BADVADDR] := memWb.badVAddr;
      }
      cp0[REG_SR] := SetExl(cp0[REG_SR]);
      regs[REG_PC] := EXCEPTION_VECTOR;
      if Bev(cp0[REG_SR]) {
        regs[REG_PC] := cp0[REG_EBASE];
      }
      memWb := ZERO_MEM_WB;
    }

    /** `interpret_wb` */
    method InterpretWb()
      requires Valid()
      modifies this`ifId, this`idEx, this`exMem, this`memWb, this`finished, regs, cp0
      ensures Snapshot() == WbStage(old(Snapshot()))
    {
      hide RecordException, HandlerPc, IsMtc0, ClearExl;
      if memWb.inst == INSTRUCTION_ERET {
        ifId, idEx, exMem := ZERO_IF_ID, ZERO_ID_EX, ZERO_EX_MEM;
        regs[REG_PC] := cp0[REG_EPC];
        cp0[REG_SR] := ClearExl(cp0[REG_SR]);
        memWb := ZERO_MEM_WB;
        return;
      }
      if memWb.exception != NoException {
        if memWb.exception == Syscall && regs[REG_V0] == 10 {
          finished := true;
          return;
        }
        HandleException();
        return;
      }
      var data := if memWb.memToReg then memWb.readData else memWb.aluRes;
      if memWb.regWrite {
        if IsMtc0(memWb.inst) {
          cp0[memWb.regDst] := data;
        } else {
          regs[memWb.regDst] := if memWb.regDst == 0 then 0 else data;
        }
      }
    }

    /** `forwarding_unit` */
    method ForwardingUnit()
      requires Valid()
      modifies this`idEx
      ensures Snapshot() == FwdStage(old(Snapshot()))
    {
      hide IllegalForward;
      if idEx.inst == INSTRUCTION_ERET {
        return;
      }
      if exMem.regWrite && exMem.regDst != 0 && exMem.regDst == idEx.rs {
        if IllegalForward(exMem.inst, idEx.inst) {
          return;
        }
        idEx := idEx.(rsValue := exMem.aluRes);
      } else if memWb.regWrite && memWb.regDst != 0 && memWb.regDst == idEx.rs {
        if IllegalForward(memWb.inst, idEx.inst) {
          return;
        }
        idEx := idEx.(rsValue := if memWb.memToReg then memWb.readData else memWb.aluRes);
      }
      if exMem.regWrite && exMem.regDst != 0 && exMem.regDst == idEx.rt {
        if IllegalForward(exMem.inst, idEx.inst) {
          return;
        }
        idEx := idEx.(rtValue := exMem.aluRes);
      } else if memWb.regWrite && memWb.regDst != 0 && memWb.regDst == idEx.rt {
        if IllegalForward(memWb.inst, idEx.inst) {
          return;
        }
        idEx := idEx.(rtValue := if memWb.memToReg then memWb.readData else memWb.aluRes);
      }
    }

    /** `tick`: the stages in reverse order, in place; as a whole the simultaneous
        update of `Pipeline.Tick`. */
    method TickOnce()
      requires Valid()
      modifies this, regs, cp0, mmu.pmem
      ensures Snapshot() == Tick(old(Snapshot()))
    {
      hide WbStage, MemStage, ExStage, IdStage, IfStage, FwdStage, Tick, Snapshot;
      ghost var p := Snapshot();
      InterpretWb();
      InterpretMem();
      InterpretEx();
      InterpretId();
      InterpretIf();
      ForwardingUnit();
      InPlaceIsSimultaneous(p);
    }

    /** The loop of `run`, for a program whose specification run reaches the exit
        syscall as instruction n: it stops, after exactly the ticks the cycle count
        says, and returns the specification machine's $v1. */
    method Run(ghost n: nat) returns (result: Word, ghost ticks: nat)
      requires Valid() && Initial(Snapshot()) && EndsAt(StartOf(Snapshot()), n)
      modifies this, regs, cp0, mmu.pmem
      ensures ticks == Due(StartOf(old(Snapshot())), n)
      ensures Snapshot() == Ticks(old(Snapshot()), ticks)
      ensures result == Seq(StartOf(old(Snapshot())), n).regs[3]
      ensures var a := StartOf(old(Snapshot()));
              Rd(InstOf(Seq(a, n))) == 0 && Ok(a, n + 1) ==> mmu.pmem[..] == Seq(a, n + 2).mem
    {
      hide EndsAt, Tick, Due, Seq, Ok, InstOf, Rd;
      ghost var p := Snapshot();
      ghost var last := Due(StartOf(p), n);
      ticks := 0;
      StopsOnTime(p, n, 0);
      while !finished
        invariant ticks <= last && Snapshot() == Ticks(p, ticks)
        invariant finished <==> ticks == last
        decreases last - ticks
      {
        TickOnce();
        ticks := ticks + 1;
        StopsOnTime(p, n, ticks);
      }
      result := regs[REG_V1];
      StopsOnTime(p, n, ticks);
      if Rd(InstOf(Seq(StartOf(p), n))) == 0 && Ok(StartOf(p), n + 1) { FinalMemory(p, n); }
      assert Ticks(p, last).regs[REG_V1] == Seq(StartOf(p), n).regs[REG_V1];
    }
  }
}
