/** Exceptions as the running pipeline takes them, and the way back. */
module Exceptions {
  import opened Words
  import opened Isa
  import opened Memory
  import opened Stages
  import opened Pipeline
  import opened Sequential
  import opened Schedule
  import opened Hazards
  import opened Matching
  import opened Forwarding
  import opened Refinement
  import opened Timing
  import opened Correctness
  import opened Instructions
  import opened Reference

  lemma NotRetired(a: Arch)
    requires !Retires(a)
    ensures AccessOf(a).latch.inst == INSTRUCTION_ERET || AccessOf(a).latch.exception != NoException
  {
    hide AccessOf;
  }

  /** An instruction that raises an exception writes no memory. */
  lemma TrapKeepsMemory(a: Arch)
    requires !Retires(a)
    ensures AccessOf(a).mem == a.mem
  {
    hide Execute, WriteBack, Store, Load, DecodeOf;
    EretControl();
    NotRetired(a);
    ExecInst(a);
    ExecFlags(a);
  }

  /** `a`'s instruction raises an exception that is handled. */
  predicate Raises(a: Arch) {
    Traps(a) && InstOf(a) != INSTRUCTION_ERET
  }

  /** What an exception leaves in the architectural state: no register or byte
      changed, the record in CP0 (slots 13, 15 and 17: EXL set in SR, EPC behind the
      victim, Cause with the code and the delay bit), and the handler's address. */
  ghost predicate Recorded(a: Arch, b: Arch, code: nat) {
    SameGpr(b.regs, a.regs) && b.mem == a.mem && !b.delay &&
    b.cp0[15] == Low32(a.Pc() + 4) && b.cp0[17] == code + (if a.delay then 0x8000_0000 else 0) &&
    b.cp0[13] == a.cp0[13] + (if a.cp0[13] / 2 % 2 == 1 then 0 else 2) &&
    (forall i | 0 <= i < CP0_SLOTS && i !in {13, 15, 17} :: b.cp0[i] == a.cp0[i]) &&
    b.Pc() == HandlerAt(a) && b.npc == Low32(b.Pc() + 4)
  }

  /** The exception code by the victim's word and operands: 8 for SYSCALL, 5 for a
      store whose address is computed and then refused, 12 for an overflow. */
  function CodeOf(a: Arch): Code {
    var f := Split(InstOf(a));
    if f.op == 0x00 && f.funct == 0x0C then 8
    else if f.op in {0x28, 0x29, 0x2A, 0x2B, 0x2E} && !TooBig(Value(a.regs[f.rs]) + Offset(f.imm)) then 5
    else 12
  }

  lemma RaiseRecords(a: Arch)
    requires Raises(a) && Supported(InstOf(a))
    ensures Recorded(a, Step(a), CodeOf(a))
  {
    hide InstOf, Supported, Step, EffectOf, Low32, CodeOf, Traps, Retires, Exits;
    StepIsMeaning(a);
    ThreeOutcomes(a);
    RaisedCode(a);
  }

  lemma RaisedCode(a: Arch)
    requires InstOf(a) != INSTRUCTION_ERET
    ensures EffectOf(a) != Return && (EffectOf(a).Raise? ==> EffectOf(a).code == CodeOf(a))
  {
    hide InstOf, Split, Value, TooBig, Low32, Offset, FetchWord, JumpTo, Memory.Write;
  }

  lemma LatchFacts(a: Arch)
    ensures var w := AccessOf(a).latch;
            w.inst == InstOf(a) && w.nextPc == Plus4(a.Pc()) && w.isBranchDelay == a.delay &&
            w.exception != AddressErrorLoad
  {
    hide InstOf, ControlOf, AluResult, Load, Store, FunctOf, SourceA, SourceB, RdOf, Plus4;
    LoadNeverFails(a);
    StoreExceptions(ExecOf(a), ExecOf(a), a.regs[Rt(InstOf(a))], a.mem);
  }

  lemma LoadNeverFails(a: Arch)
    ensures forall prev: Word, dst: Word ::
              Load(Opcode(ExecOf(a).inst), ExecOf(a).aluRes, dst, prev, a.mem).exception == NoException
  {
    hide Read, MergeLeft, MergeRight, ExecOf;
  }

  /** The tick in which instruction k leaves MEM_WB by a flush. */
  lemma FlushTick(p: State, k: nat)
    requires Initial(p) && Runs(StartOf(p), k) && Ok(StartOf(p), k) && Traps(Seq(StartOf(p), k))
    ensures var q := Ticks(p, Due(StartOf(p), k) - 1);
            Flushes(q) && Tick(q) == Ticks(p, Due(StartOf(p), k))
  {
    hide *;
    var a0 := StartOf(p);
    var t := Due(a0, k) - 1;
    SinceBeforeDue(a0, k);
    var c, v := Track(p, k, t);
    SameInstruction(a0, t, c, k);
    KeptAt(a0, k, k);
    NotYetDue(t, a0, k, v);
    FlushStep(Ticks(p, t), a0, k, v);
    TicksSucc(p, t);
  }

  /** The tick of a flush, seen from both sides. */
  lemma AfterTrap(p: State, k: nat)
    requires Initial(p) && Runs(StartOf(p), k) && Ok(StartOf(p), k) && Traps(Seq(StartOf(p), k))
    ensures var a, b := Seq(StartOf(p), k), Seq(StartOf(p), k + 1);
            var before, after := Ticks(p, Due(StartOf(p), k) - 1), Ticks(p, Due(StartOf(p), k));
            b == Step(a) &&
            SameGpr(before.regs, a.regs) && before.cp0 == a.cp0 && before.mem == b.mem &&
            SameGpr(after.regs, b.regs) && after.cp0 == b.cp0 && after.mem == b.mem &&
            IdleWb(after.memWb) && IdleEx(after.exMem) && IdleId(after.idEx) &&
            after.ifId == FetchOf(b).(isBranchDelay := false) && after.Pc() == Plus4(b.Pc())
  {
    hide *;
    var a0 := StartOf(p);
    SinceBeforeDue(a0, k);
    SinceSucc(a0, k);
    SeqSucc(a0, k);
    Refines(p, k, Due(a0, k) - 1);
    ThreeOutcomes(Seq(a0, k));
    TrapKept(a0, k);
    RunsOneMore(a0, k);
    FlushGap(a0, k);
    Refines(p, k + 1, Due(a0, k));
    InStages(p, k + 1, Due(a0, k));
    FlushTick(p, k);
    FlushFetch(Ticks(p, Due(a0, k) - 1));
    FetchNext(Seq(a0, k + 1));
  }

  /** What follows a flush is fetched with nothing ahead of it. */
  lemma TrapKept(a: Arch, k: nat)
    requires Traps(Seq(a, k))
    ensures WordKept(a, k + 1)
  {
    hide Traps, Retires, AccessOf, FetchWord;
    ThreeOutcomes(Seq(a, k));
    TrapKeepsMemory(Seq(a, k));
    StepMemory(Seq(a, k));
    SeqSucc(a, k);
  }

  lemma FlushFetch(p: State)
    requires Flushes(p)
    ensures IdleWb(Tick(p).memWb) && IdleEx(Tick(p).exMem) && IdleId(Tick(p).idEx)
    ensures Tick(p).Pc() == Tick(p).ifId.nextPc
  {
    hide Retire, MemOut, ExOut, Decoded, IdleEx, IdleId, IdleWb, Stalls, Read, Forward, Plus4;
    FlushEmpties(p);
  }

  lemma HandlerWord(a: Arch)
    ensures InstOf(a) == FetchWord(a.mem, a.Pc())
  {
    hide FetchWord;
  }

  lemma FetchNext(a: Arch)
    ensures FetchOf(a).nextPc == Plus4(a.Pc()) && FetchOf(a).inst == InstOf(a)
  {
    hide InstOf;
  }

  /** Precise exceptions: in the tick before, the machine holds the state just
      before the victim; write-back then takes the exception, no register or byte
      of memory differs, CP0 holds the record, nothing younger is left in the
      pipeline, and the handler's first instruction is already in IF_ID. */
  lemma PreciseException(p: State, k: nat)
    requires Initial(p) && Runs(StartOf(p), k) && Ok(StartOf(p), k) && Raises(Seq(StartOf(p), k))
    ensures var victim := Seq(StartOf(p), k);
            var before, after := Ticks(p, Due(StartOf(p), k) - 1), Ticks(p, Due(StartOf(p), k));
            SameGpr(before.regs, victim.regs) && before.cp0 == victim.cp0 && before.mem == victim.mem &&
            SameGpr(after.regs, victim.regs) && after.mem == victim.mem &&
            Recorded(victim, Step(victim), CodeOf(victim)) && after.cp0 == Step(victim).cp0 &&
            IdleWb(after.memWb) && IdleEx(after.exMem) && IdleId(after.idEx) &&
            after.ifId.inst == FetchWord(after.mem, HandlerAt(victim)) && after.Pc() == Low32(HandlerAt(victim) + 4)
  {
    hide Ok, Exits, Tick, Traps, Due, Seq, Step, IdleWb, IdleEx, IdleId, WbMatch, ExMatch, HandlerAt, InstOf, Ticks,
         CodeOf, Low32, Plus4;
    LinkIs(Seq(StartOf(p), k + 1).Pc(), 0);
    AfterTrap(p, k);
    OkKept(StartOf(p), k);
    RaiseRecords(Seq(StartOf(p), k));
    FetchNext(Seq(StartOf(p), k + 1));
    HandlerWord(Seq(StartOf(p), k + 1));
  }

  /** Exactly when Cause.BD is set: the victim's predecessor in the run is a
      taken branch or jump, however many bubbles came between. */
  lemma BranchDelayBit(p: State, k: nat)
    requires Initial(p) && Runs(StartOf(p), k) && Ok(StartOf(p), k) && Raises(Seq(StartOf(p), k))
    ensures var after := Ticks(p, Due(StartOf(p), k));
            after.cp0[15] == Low32(Seq(StartOf(p), k).Pc() + 4) && after.cp0[17] % 0x8000_0000 < 0x20 &&
            (after.cp0[17] >= 0x8000_0000 <==>
               k > 0 && Retires(Seq(StartOf(p), k - 1)) && TargetOf(Seq(StartOf(p), k - 1)).Some?)
  {
    hide *;
    var a := Seq(StartOf(p), k);
    OkKept(StartOf(p), k);
    RaisesTraps(a);
    AfterTrap(p, k);
    RaiseRecords(a);
    RecordFields(a, Step(a), CodeOf(a));
    if k > 0 { RunsAt(StartOf(p), k, k - 1); }
    DelayOf(StartOf(p), k);
    StartDelay(p);
  }

  lemma RaisesTraps(a: Arch)
    requires Raises(a)
    ensures Traps(a)
  {
  }

  lemma StartDelay(p: State)
    ensures !StartOf(p).delay
  {
  }

  lemma RecordFields(a: Arch, b: Arch, code: nat)
    requires Recorded(a, b, code) && code < 0x20
    ensures b.cp0[15] == Low32(a.Pc() + 4) && b.cp0[REG_EPC] == Plus4(a.Pc())
    ensures b.cp0[17] % 0x8000_0000 == code && (b.cp0[17] >= 0x8000_0000 <==> a.delay)
    ensures a.cp0[REG_SR] / 2 % 2 == 0 ==> ClearExl(b.cp0[REG_SR]) == a.cp0[REG_SR]
  {
  }

  lemma DelayOf(a: Arch, k: nat)
    requires k > 0 ==> !Exits(Seq(a, k - 1))
    ensures k == 0 ==> Seq(a, k) == a
    ensures k > 0 ==> (Seq(a, k).delay <==> Retires(Seq(a, k - 1)) && TargetOf(Seq(a, k - 1)).Some?)
  {
    hide CommitOf, TargetOf, AccessOf;
  }

  // ----- ERET -----

  lemma EretReturns(a: Arch)
    requires InstOf(a) == INSTRUCTION_ERET
    ensures Traps(a)
    ensures SameGpr(Step(a).regs, a.regs) && Step(a).mem == a.mem
    ensures Step(a).cp0 == a.cp0[REG_SR := ClearExl(a.cp0[REG_SR])] && Step(a).Pc() == a.cp0[REG_EPC]
  {
    hide Access, Execute, DecodeOf, TargetOf, ClearExl, InstOf;
    LatchFacts(a);
    TrapKeepsMemory(a);
  }

  lemma EretOk(a: Arch, n: nat)
    requires InstOf(Seq(a, n)) == INSTRUCTION_ERET && WordKept(a, n)
    ensures Ok(a, n)
  {
    hide WordKept, Ahead, Seq, InstOf;
    EretControl();
  }

  /** Round trip: after an exception at instruction i with EXL clear, an ERET at j
      that finds EPC and SR as the exception left them resumes fetching at the
      victim's address + 4 with SR restored; nothing fetched behind the ERET has
      touched a register or memory. */
  lemma RoundTrip(p: State, i: nat, j: nat)
    requires Initial(p) && i < j && Runs(StartOf(p), j)
    requires Raises(Seq(StartOf(p), i)) && Seq(StartOf(p), i).cp0[REG_SR] / 2 % 2 == 0
    requires InstOf(Seq(StartOf(p), j)) == INSTRUCTION_ERET
    requires Seq(StartOf(p), j).cp0[REG_EPC] == Seq(StartOf(p), i + 1).cp0[REG_EPC]
    requires Seq(StartOf(p), j).cp0[REG_SR] == Seq(StartOf(p), i + 1).cp0[REG_SR]
    ensures var victim, eret := Seq(StartOf(p), i), Seq(StartOf(p), j);
            var after := Ticks(p, Due(StartOf(p), j));
            after.ifId.inst == FetchWord(after.mem, Low32(victim.Pc() + 4)) &&
            after.ifId.nextPc == after.Pc() == Low32(victim.Pc() + 8) &&
            after.cp0 == eret.cp0[REG_SR := victim.cp0[REG_SR]] &&
            SameGpr(after.regs, eret.regs) && after.mem == eret.mem &&
            IdleWb(after.memWb) && IdleEx(after.exMem) && IdleId(after.idEx)
  {
    hide *;
    var a0 := StartOf(p);
    var victim, eret := Seq(a0, i), Seq(a0, j);
    RunsAt(a0, j, i);
    OkKept(a0, i);
    RaiseRecords(victim);
    SeqSucc(a0, i);
    RecordFields(victim, Seq(a0, i + 1), CodeOf(victim));
    EretReturns(eret);
    LinkIs(victim.Pc(), 0);
    KeptAt(a0, j, j);
    EretOk(a0, j);
    AfterTrap(p, j);
    FetchNext(Step(eret));
    HandlerWord(Step(eret));
    SameGprTrans(Ticks(p, Due(a0, j)).regs, Step(eret).regs, eret.regs);
  }
}
