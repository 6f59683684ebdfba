/** Where the code departs from what its instructions are documented to do, with
    the exact condition under which it does not. */
module Deviations {
  import opened Words
  import opened Isa
  import opened Latches
  import opened Stages
  import opened Pipeline
  import opened Sequential
  import opened Schedule
  import opened Hazards
  import opened Muxes
  import opened Matching
  import opened Forwarding
  import opened Refinement
  import opened Timing
  import opened Correctness
  import opened Exceptions
  import opened ControlFlow
  import opened Clashes

  /** What a retiring instruction other than a load or MTC0 writes. */
  lemma WritesResult(a: Arch)
    requires Retires(a) && DestOf(InstOf(a)) != 0 && !IsMtc0(InstOf(a)) && !ControlOf(InstOf(a)).memRead
    ensures Step(a).regs[DestOf(InstOf(a))] == ExecOf(a).aluRes
  {
    hide InstOf, ExecOf, AccessOf, Step, Retires, WbData;
    var d := DestOf(InstOf(a));
    DestIsGeneral(InstOf(a));
    RetiresThrough(a);
    Carries(a);
    StepVal(a, false, d);
  }

  // ----- JAL's link -----

  /** JAL behind arbitrary latches: EX's result is the address behind the delay
      slot exactly when nothing is forwarded to number rs and the value found for
      rt, which is looked for under the number of $ra, is 0; a value forwarded to
      rs takes the link's place. */
  lemma JalExact(prev: IdEx, f: IfId, prevE: ExMem, e: ExMem, w: MemWb, regs: Regs, cp0: Cp0Regs)
    requires IsJal(f.inst) && f.exception == NoException
    ensures var inst, link := f.inst, Plus4(f.nextPc);
            var rs := Select(Rs(inst), inst, e, w);
            var rt := if rs.Illegal? then regs[Rt(inst)]
                      else Muxed(Select(REG_RA, inst, e, w), regs[Rt(inst)]);
            Execute(prevE, Forward(DecodeFrom(prev, f, regs, cp0), e, w)).aluRes == link <==>
            if rs.Take? then Sum(rs.value, rt) == link else rt == 0
  {
    hide Select, DecodeFrom, Forward, Plus4, Rs, Rt, Sum, Overflows;
    var d := DecodeFrom(prev, f, regs, cp0);
    var g := Forward(d, e, w);
    DecodeParts(prev, f, regs, cp0);
    DecodeControl(prev, f, regs, cp0);
    SourceKinds(f.inst);
    JalIsNoEret(f.inst);
    ForwardParts(d, e, w);
    JalSum(prevE, g);
    WrapSumSame(Plus4(f.nextPc), g.rtValue);
  }

  lemma DecodeControl(prev: IdEx, f: IfId, regs: Regs, cp0: Cp0Regs)
    requires f.exception == NoException
    ensures var d := DecodeFrom(prev, f, regs, cp0); d.c == ControlOf(f.inst) && d.exception == NoException
  {
    hide ControlOf, FunctOf, RdOf, SourceA, SourceB, JumpTarget, Plus4;
  }

  lemma JalIsNoEret(inst: Word)
    requires IsJal(inst)
    ensures inst != INSTRUCTION_ERET && ControlOf(inst) == NO_CONTROL.(jump := true, regWrite := true)
    ensures DestOf(inst) == REG_RA && !IsMtc0(inst) && SourceA(inst) == Rs(inst) && SourceB(inst) == REG_RA
  {
  }

  lemma JalSum(prevE: ExMem, d: IdEx)
    requires d.c == NO_CONTROL.(jump := true, regWrite := true) && d.exception == NoException
    ensures Execute(prevE, d).aluRes == Sum(d.rsValue, d.rtValue)
  {
    hide Overflows;
  }

  lemma WrapSumSame(x: Word, y: Word)
    ensures Sum(x, y) == x <==> y == 0
  {
  }

  /** In every run, whatever is in flight ahead of it: JAL leaves the sum of the
      delivered operands in $ra, so its link is right exactly under the condition
      of `JalExact`. */
  lemma JalLeaves(p: State, k: nat)
    requires Initial(p) && Runs(StartOf(p), k) && IsJal(InstOf(Seq(StartOf(p), k)))
    requires !Overflows(DeliveredA(StartOf(p), k), DeliveredB(StartOf(p), k))
    ensures var a := StartOf(p);
            var inst, link, ra := InstOf(Seq(a, k)), Plus4(Plus4(Seq(a, k).Pc())), Ticks(p, Due(a, k)).regs[REG_RA];
            ra == Sum(DeliveredA(a, k), DeliveredB(a, k)) &&
            (ra == link <==>
               if Taken(Ahead(a, k, 2), Ahead(a, k, 1), Rs(inst), inst)
               then Sum(DeliveredA(a, k), DeliveredB(a, k)) == link
               else DeliveredB(a, k) == 0)
  {
    hide *;
    var a := StartOf(p);
    JalIsNoEret(InstOf(Seq(a, k)));
    JalDelivers(a, k);
    Leaves(p, k);
    WrapSumSame(Plus4(Plus4(Seq(a, k).Pc())), DeliveredB(a, k));
  }

  lemma JalDelivers(a: Arch, k: nat)
    requires IsJal(InstOf(Seq(a, k)))
    ensures Computes(InstOf(Seq(a, k))) && DestOf(InstOf(Seq(a, k))) == REG_RA
    ensures DeliveredResult(a, k) == Some(Sum(DeliveredA(a, k), DeliveredB(a, k)))
    ensures !Overflows(DeliveredA(a, k), DeliveredB(a, k)) ==> DeliveredException(a, k) == NoException
    ensures var inst := InstOf(Seq(a, k));
            !Taken(Ahead(a, k, 2), Ahead(a, k, 1), Rs(inst), inst) ==>
              DeliveredA(a, k) == Plus4(Plus4(Seq(a, k).Pc()))
  {
    hide Seq, InstOf, Before, Taken, Refused, Overflows, Plus4, Ahead, AheadAt, DeliveredB, ControlOf, SourceA,
         SourceB, FunctOf, IsJal, IsMtc0, DestOf, Rs, Rt, Shamt, Opcode;
    JalIsNoEret(InstOf(Seq(a, k)));
  }

  /** For a JAL that the pipeline may run, that is in terms of the architectural
      register: right exactly when the one named by target bits 20..16 holds 0. */
  lemma JalLink(p: State, k: nat)
    requires Initial(p) && Runs(StartOf(p), k) && Ok(StartOf(p), k)
    requires IsJal(InstOf(Seq(StartOf(p), k))) && Retires(Seq(StartOf(p), k))
    ensures var a := Seq(StartOf(p), k);
            Ticks(p, Due(StartOf(p), k)).regs[REG_RA] == Plus4(Plus4(a.Pc())) <==> a.regs[Rt(InstOf(a))] == 0
  {
    hide *;
    Commits(p, k);
    SeqSucc(StartOf(p), k);
    JalStep(Seq(StartOf(p), k));
    SameRa(Ticks(p, Due(StartOf(p), k)).regs, Step(Seq(StartOf(p), k)).regs);
  }

  lemma SameRa(r: Regs, s: Regs)
    requires SameGpr(r, s)
    ensures r[REG_RA] == s[REG_RA]
  {
  }

  lemma JalStep(a: Arch)
    requires IsJal(InstOf(a)) && Retires(a)
    ensures Step(a).regs[REG_RA] == Plus4(Plus4(a.Pc())) <==> a.regs[Rt(InstOf(a))] == 0
  {
    hide Step, Retires, InstOf, Sum, Plus4, DestOf, ControlOf, ExecOf, Rt;
    JalExec(a);
    JalDest(InstOf(a));
    WritesResult(a);
    WrapSumSame(Plus4(Plus4(a.Pc())), a.regs[Rt(InstOf(a))]);
  }

  lemma JalDest(inst: Word)
    requires IsJal(inst)
    ensures DestOf(inst) == REG_RA && !IsMtc0(inst) && !ControlOf(inst).memRead
  {
  }

  lemma JalExec(a: Arch)
    requires IsJal(InstOf(a))
    ensures ExecOf(a).aluRes == Sum(Plus4(Plus4(a.Pc())), a.regs[Rt(InstOf(a))])
  {
    hide InstOf, Plus4, Overflows;
  }

  // ----- SUB and the branches -----

  /** SUB adds; it subtracts exactly when twice the subtrahend wraps to 0. */
  lemma SubSubtracts(a: Arch)
    requires var inst := InstOf(a); Opcode(inst) == OPCODE_R && Funct(inst) == FUNCT_SUB && Rd(inst) != 0
    requires Retires(a)
    ensures var inst := InstOf(a);
            Step(a).regs[Rd(inst)] == Difference(a.regs[Rs(inst)], a.regs[Rt(inst)]) <==>
            a.regs[Rt(inst)] in {0, 0x8000_0000}
  {
    hide Step, Retires, InstOf, ExecOf, DestOf, ControlOf, IsMtc0, Opcode, Funct, Sum, Difference, Rs, Rt, Rd;
    SubExec(a);
    SubDest(InstOf(a));
    WritesResult(a);
    SumIsDifference(a.regs[Rs(InstOf(a))], a.regs[Rt(InstOf(a))]);
  }

  lemma SubExec(a: Arch)
    requires var inst := InstOf(a); Opcode(inst) == OPCODE_R && Funct(inst) == FUNCT_SUB
    ensures var inst := InstOf(a);
            ExecOf(a).aluRes == Sum(a.regs[Rs(inst)], a.regs[Rt(inst)])
  {
    hide InstOf, Plus4, And, Or, Nor, Shl, Shr, Signed, AluException;
  }

  lemma SubDest(inst: Word)
    requires Opcode(inst) == OPCODE_R && Funct(inst) == FUNCT_SUB
    ensures DestOf(inst) == Rd(inst) && !IsMtc0(inst) && !ControlOf(inst).memRead
  {
  }

  lemma SumIsDifference(x: Word, y: Word)
    ensures Sum(x, y) == Difference(x, y) <==> y in {0, 0x8000_0000}
  {
  }

  const SUB_3_1_2: Word := 0x0022_1822

  /** For one: SUB $3, $1, $2 with 5 and 3 gives 8. */
  lemma SubFails(a: Arch)
    requires InstOf(a) == SUB_3_1_2 && a.regs[1] == 5 && a.regs[2] == 3 && Retires(a)
    ensures Step(a).regs[3] == 8
  {
    hide Step, Retires, InstOf, ExecOf, DestOf, ControlOf, IsMtc0;
    SubExec(a);
    SubDest(InstOf(a));
    WritesResult(a);
  }

  /** A conditional branch raises an exception exactly when adding the two
      compared registers overflows. */
  lemma BranchRaises(a: Arch)
    requires Opcode(InstOf(a)) in {OPCODE_BEQ, OPCODE_BNE}
    ensures Raises(a) <==> Overflows(a.regs[Rs(InstOf(a))], a.regs[Rt(InstOf(a))])
    ensures Retires(a) <==> !Raises(a)
  {
    hide InstOf, Overflows, Plus4;
    BranchLatch(a);
  }

  lemma BranchLatch(a: Arch)
    requires Opcode(InstOf(a)) in {OPCODE_BEQ, OPCODE_BNE}
    ensures var w := AccessOf(a).latch;
            w.inst == InstOf(a) && !w.regWrite &&
            w.exception == if Overflows(a.regs[Rs(InstOf(a))], a.regs[Rt(InstOf(a))]) then ArithmeticOverflow
                           else NoException
  {
    hide InstOf, Overflows, Plus4, Load, Store;
  }

  const BEQ_1_1_1: Word := 0x1021_0001

  /** For one: BEQ $1, $1 with 0x40000000 in $1 raises. */
  lemma BranchFails(a: Arch)
    requires InstOf(a) == BEQ_1_1_1 && a.regs[1] == 0x4000_0000
    ensures Raises(a)
  {
    hide InstOf, Raises;
    BranchRaises(a);
  }

  // ----- The tick of the exit -----

  /** A store right behind the exit syscall still reaches memory: the tick that
      ends the program changes memory exactly as the store waiting in EX_MEM does. */
  lemma ExitTickMemory(p: State, n: nat)
    requires Initial(p) && EndsAt(StartOf(p), n)
    ensures var last := Ticks(p, Due(StartOf(p), n) - 1);
            var e := last.exMem;
            last.mem == Seq(StartOf(p), n).mem &&
            Ticks(p, Due(StartOf(p), n)).mem ==
              if e.exception == NoException && !e.memRead && e.memWrite
              then Store(Opcode(e.inst), e.aluRes, e.rtValue, last.regs[Rt(e.inst)], last.mem).mem
              else last.mem
  {
    hide *;
    var a0 := StartOf(p);
    var t := Due(a0, n) - 1;
    EndsParts(a0, n);
    SinceBeforeDue(a0, n);
    Refines(p, n, t);
    StepMemory(Seq(a0, n));
    ExitKeepsMemory(Seq(a0, n));
    var v := LastTick(p, n);
    ExitStep(Ticks(p, t), a0, n, v);
    TicksSucc(p, t);
    TickMemory(Ticks(p, t));
    ExitMemOut(Ticks(p, t));
  }

  lemma TickMemory(p: State)
    ensures Tick(p).mem == MemOut(p).mem
  {
    hide Retire, MemOut, ExOut, Decoded, Forward, IfOut, NextPc, Fetched;
  }

  lemma ExitMemOut(p: State)
    requires Retire(p).outcome.Finished?
    ensures var e := p.exMem;
            MemOut(p).mem ==
              if e.exception == NoException && !e.memRead && e.memWrite
              then Store(Opcode(e.inst), e.aluRes, e.rtValue, p.regs[Rt(e.inst)], p.mem).mem
              else p.mem
  {
    hide Load, Store, Rt, Opcode;
    FinishedKeeps(p.memWb, p.regs, p.cp0);
  }
}
