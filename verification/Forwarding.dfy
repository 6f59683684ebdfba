/** The operands that the forwarding unit hands to an instruction of the run are
    those the specification machine reads: the newest values of `Muxes` are the
    architectural ones. */
module Forwarding {
  import opened Words
  import opened Isa
  import opened Latches
  import opened Memory
  import opened Stages
  import opened Sequential
  import opened Hazards
  import opened Muxes
  import opened Matching

  /** Register `n` of CP0 (`cp`) or of the general file. */
  function Val(a: Arch, cp: bool, n: Slot): Word {
    if cp then a.cp0[n] else a.regs[n]
  }

  /** The architectural state after an optional instruction. */
  function After(a: Arch, valid: bool): Arch {
    if valid then Step(a) else a
  }

  /** The instruction's word, as the muxes see it ahead of another one. */
  function WordAt(a: Arch, valid: bool): Option<Word> {
    if valid then Some(InstOf(a)) else None
  }

  /** The latch holds what `a`'s instruction leaves there, or a bubble. */
  predicate WbHolds(w: MemWb, a: Arch, valid: bool) {
    if valid then WbMatch(w, AccessOf(a).latch) else IdleWb(w)
  }

  predicate ExHolds(e: ExMem, a: Arch, valid: bool) {
    if valid then ExMatch(e, ExecOf(a)) else IdleEx(e)
  }

  /** The instruction lets the younger ones behind it go on: it empties no
      pipeline, and if it is the exit syscall its rd field is 0, so that the
      left-over result it carries is not forwarded. */
  predicate LetsThrough(a: Arch) {
    !Traps(a) && (Exits(a) ==> DestOf(InstOf(a)) == 0)
  }

  lemma RetiresThrough(a: Arch)
    requires Retires(a)
    ensures LetsThrough(a)
  {
    hide CommitOf;
  }

  lemma ExecFlags(a: Arch)
    ensures ExecOf(a).memWrite == ControlOf(InstOf(a)).memWrite
  {
    hide InstOf, ControlOf, AluResult, AluException;
  }

  /** What an instruction carries towards write-back: its EX result is what it
      will write unless it is a load. */
  lemma Carries(a: Arch)
    requires LetsThrough(a)
    ensures var e, w := ExecOf(a), AccessOf(a).latch;
            w.inst == e.inst == InstOf(a) != INSTRUCTION_ERET &&
            w.regWrite == e.regWrite == ControlOf(InstOf(a)).regWrite &&
            e.memRead == ControlOf(InstOf(a)).memRead && w.regDst == e.regDst &&
            (e.regWrite ==> e.regDst == DestOf(InstOf(a))) &&
            (Retires(a) ==> e.exception == w.exception == NoException && (!e.memRead ==> WbData(w) == e.aluRes))
  {
    hide ControlOf, AluResult, AluException, Load, Store, SourceA, SourceB, RdOf, FunctOf, FetchWord;
    EretTraps(a);
    LoadKinds(InstOf(a));
  }

  lemma EretTraps(a: Arch)
    ensures !Traps(a) ==> AccessOf(a).latch.inst != INSTRUCTION_ERET
    ensures Retires(a) ==> AccessOf(a).latch.exception == NoException
  {
    hide AccessOf;
  }

  /** What one instruction does to one register. */
  lemma StepVal(a: Arch, cp: bool, n: Slot)
    requires LetsThrough(a)
    requires n != 0 && (cp || n < 32)
    ensures Val(Step(a), cp, n) == AfterWb(AccessOf(a).latch, cp, n, Val(a, cp, n))
  {
    hide Access, Execute, DecodeOf, TargetOf, WbData, InstOf, DestOf, ControlOf;
    Carries(a);
  }

  lemma StepZero(a: Arch)
    requires !Traps(a) && a.regs[0] == 0
    ensures Step(a).regs[0] == 0
  {
    hide Access, Execute, DecodeOf, TargetOf, WbData;
    EretTraps(a);
  }

  lemma ZeroStays(a1: Arch, v1: bool, a2: Arch, v2: bool)
    requires a2 == After(a1, v1) && a1.regs[0] == 0
    requires v1 ==> !Traps(a1)
    requires v2 ==> !Traps(a2)
    ensures a2.regs[0] == 0 && After(a2, v2).regs[0] == 0
  {
    hide Step, Traps;
    if v1 { StepZero(a1); }
    if v2 { StepZero(a2); }
  }

  // ----- The latches ahead, as the muxes see them -----

  lemma WbHoldsWord(w: MemWb, a: Arch, valid: bool)
    requires WbHolds(w, a, valid) && (valid ==> LetsThrough(a))
    ensures WbWord(w, WordAt(a, valid))
  {
    hide ControlOf, InstOf, ExecOf, AccessOf, DestOf, WbData, LetsThrough;
    if valid { Carries(a); }
  }

  lemma ExHoldsWord(e: ExMem, a: Arch, valid: bool)
    requires ExHolds(e, a, valid) && (valid ==> LetsThrough(a))
    ensures ExWord(e, WordAt(a, valid))
  {
    hide ControlOf, InstOf, ExecOf, AccessOf, DestOf, WbData, LetsThrough;
    if valid { Carries(a); }
  }

  /** The register's value after both older instructions is the newest one in the
      latches and the file, unless the nearer one is a load of it. */
  lemma NewestIsNext(cp: bool, n: Slot, a1: Arch, v1: bool, a2: Arch, v2: bool, e: ExMem, w: MemWb)
    requires n != 0 && (cp || n < 32)
    requires a2 == After(a1, v1)
    requires WbHolds(w, a1, v1) && ExHolds(e, a2, v2)
    requires v1 ==> LetsThrough(a1)
    requires v2 ==> LetsThrough(a2)
    requires v2 && ControlOf(InstOf(a2)).memRead ==> !WritesEx(e, cp, n)
    ensures Val(After(a2, v2), cp, n) == Newest(e, w, cp, n, Val(a1, cp, n))
  {
    hide ControlOf, InstOf, Step, DestOf, Retires;
    WbValue(cp, n, a1, v1, w);
    ExValue(cp, n, a2, v2, e);
  }

  lemma WbValue(cp: bool, n: Slot, a: Arch, valid: bool, w: MemWb)
    requires n != 0 && (cp || n < 32)
    requires WbHolds(w, a, valid) && (valid ==> LetsThrough(a))
    ensures Val(After(a, valid), cp, n) == AfterWb(w, cp, n, Val(a, cp, n))
  {
    hide ControlOf, InstOf, ExecOf, AccessOf, Step, DestOf, WbData, CommitOf;
    if valid { StepVal(a, cp, n); Carries(a); ThreeOutcomes(a); }
  }

  lemma ExValue(cp: bool, n: Slot, a: Arch, valid: bool, e: ExMem)
    requires n != 0 && (cp || n < 32)
    requires ExHolds(e, a, valid) && (valid ==> LetsThrough(a))
    requires valid && ControlOf(InstOf(a)).memRead ==> !WritesEx(e, cp, n)
    ensures Val(After(a, valid), cp, n) == if WritesEx(e, cp, n) then e.aluRes else Val(a, cp, n)
  {
    hide ControlOf, InstOf, ExecOf, AccessOf, Step, DestOf, WbData, CommitOf;
    if valid { StepVal(a, cp, n); Carries(a); ThreeOutcomes(a); }
  }

  /** A load just ahead writes neither register that the fields rs and rt name. */
  predicate Unloaded(a: Arch, valid: bool, inst: Word) {
    valid && ControlOf(InstOf(a)).memRead ==> SourceB(InstOf(a)) !in {Rs(inst), Rt(inst)}
  }

  lemma LoadDest(inst: Word)
    requires ControlOf(inst).memRead
    ensures DestOf(inst) == SourceB(inst) == Rt(inst) && !IsMtc0(inst)
  {
  }

  lemma NoLoadAhead(cp: bool, n: Slot, inst: Word, a: Arch, valid: bool, e: ExMem)
    requires ExHolds(e, a, valid) && (valid ==> LetsThrough(a)) && Unloaded(a, valid, inst)
    requires n in {Rs(inst), Rt(inst)} || cp
    ensures valid && ControlOf(InstOf(a)).memRead ==> !WritesEx(e, cp, n)
  {
    hide ControlOf, InstOf, ExecOf, DestOf, LetsThrough, SourceB, Rs, Rt;
    if valid && ControlOf(InstOf(a)).memRead { LoadDest(InstOf(a)); Carries(a); }
  }

  /** What ID reads and the older latches carry, together, is what the
      specification machine reads. */
  lemma ProperIsDecoded(a1: Arch, v1: bool, a2: Arch, v2: bool, a3: Arch, regs: Regs, e: ExMem, w: MemWb)
    requires a2 == After(a1, v1) && a3 == After(a2, v2)
    requires WbHolds(w, a1, v1) && ExHolds(e, a2, v2)
    requires v1 ==> LetsThrough(a1)
    requires v2 ==> LetsThrough(a2)
    requires Unloaded(a2, v2, InstOf(a3))
    requires SameGpr(regs, a1.regs) && a1.regs[0] == 0
    ensures DecodeOf(a3).rsValue == ProperA(FetchOf(a3), e, w, regs, a1.cp0)
    ensures DecodeOf(a3).rtValue == ProperB(FetchOf(a3), e, w, regs)
  {
    hide InstOf, Step, Retires, Traps, Exits, WbHolds, ExHolds, Newest, LetsThrough, Unloaded, Plus4, DecodeFrom,
         IsMfc0, IsMtc0, IsJal, SourceA, SourceB, Rs, Rt;
    var inst := InstOf(a3);
    DecodeParts(ZERO_ID_EX, FetchOf(a3), a3.regs, a3.cp0);
    FieldsOfA(inst);
    ZeroStays(a1, v1, a2, v2) by { LetsOn(a1, v1); LetsOn(a2, v2); }
    if IsMfc0(inst) {
      OneValue(true, SourceA(inst), a1, v1, a2, v2, a3, regs, e, w);
    } else {
      OneValue(false, SourceA(inst), a1, v1, a2, v2, a3, regs, e, w);
    }
    OneValue(false, Rt(inst), a1, v1, a2, v2, a3, regs, e, w);
  }

  lemma LetsOn(a: Arch, valid: bool)
    requires valid ==> LetsThrough(a)
    ensures valid ==> !Traps(a)
  {
  }

  lemma FieldsOfA(inst: Word)
    ensures IsMfc0(inst) ==> SourceA(inst) != 0
    ensures !IsMfc0(inst) ==> SourceA(inst) in {Rs(inst), Rt(inst)}
  {
  }

  lemma OneValue(cp: bool, n: Slot, a1: Arch, v1: bool, a2: Arch, v2: bool, a3: Arch, regs: Regs, e: ExMem, w: MemWb)
    requires a2 == After(a1, v1) && a3 == After(a2, v2)
    requires WbHolds(w, a1, v1) && ExHolds(e, a2, v2)
    requires v1 ==> LetsThrough(a1)
    requires v2 ==> LetsThrough(a2)
    requires Unloaded(a2, v2, InstOf(a3)) && (n in {Rs(InstOf(a3)), Rt(InstOf(a3))} || cp)
    requires SameGpr(regs, a1.regs) && a1.regs[0] == a3.regs[0] && (cp ==> n != 0)
    ensures Val(a3, cp, n) == Newest(e, w, cp, n, if cp then a1.cp0[n] else regs[n])
  {
    hide InstOf, Step, LetsThrough, Unloaded, WbHolds, ExHolds, Writes, WritesEx;
    if n != 0 {
      NoLoadAhead(cp, n, InstOf(a3), a2, v2, e);
      NewestIsNext(cp, n, a1, v1, a2, v2, e, w);
    }
  }

  /** What the ID stage and the forwarding unit leave in ID_EX is what the
      specification machine decodes, for an instruction that the two older ones
      still in flight do not harm, not named by a load just ahead. */
  lemma OperandsMatch(a1: Arch, v1: bool, a2: Arch, v2: bool, a3: Arch, prev: IdEx, regs: Regs, e: ExMem, w: MemWb)
    requires a2 == After(a1, v1) && a3 == After(a2, v2)
    requires WbHolds(w, a1, v1) && ExHolds(e, a2, v2)
    requires v1 ==> LetsThrough(a1)
    requires v2 ==> LetsThrough(a2)
    requires Unloaded(a2, v2, InstOf(a3))
    requires SameGpr(regs, a1.regs) && a1.regs[0] == 0
    requires Harmless(WordAt(a1, v1), WordAt(a2, v2), InstOf(a3))
    ensures IdMatch(Forward(DecodeFrom(prev, FetchOf(a3), regs, a1.cp0), e, w), DecodeOf(a3))
  {
    hide InstOf, Step, Retires, Traps, Exits, WbHolds, ExHolds, Newest, LetsThrough, Unloaded, ProperA, ProperB,
         Harmless, DecodeFrom, WordAt;
    var inst, f := InstOf(a3), FetchOf(a3);
    var d := DecodeFrom(prev, f, regs, a1.cp0);
    WbHoldsWord(w, a1, v1);
    ExHoldsWord(e, a2, v2);
    DecodeShapes(prev, f, regs, a1.cp0, a3);
    ForwardShape(d, e, w);
    if inst != INSTRUCTION_ERET {
      HarmlessSuffices(WordAt(a1, v1), WordAt(a2, v2), prev, f, e, w, regs, a1.cp0);
      ProperIsDecoded(a1, v1, a2, v2, a3, regs, e, w);
    }
  }

  /** Apart from the operands, decoding depends on the word and its address. */
  lemma DecodeShapes(prev: IdEx, f: IfId, regs: Regs, cp0: Cp0Regs, a: Arch)
    requires f == FetchOf(a)
    ensures var d, s := DecodeFrom(prev, f, regs, cp0), DecodeOf(a);
            d.inst == InstOf(a) && IdMatch(d.(rsValue := 0, rtValue := 0), s.(rsValue := 0, rtValue := 0))
  {
    hide InstOf, ControlOf, SourceA, SourceB, RdOf, FunctOf, JumpTarget, Plus4;
  }

  lemma ForwardShape(d: IdEx, e: ExMem, w: MemWb)
    ensures var f := Forward(d, e, w); f == d.(rsValue := f.rsValue, rtValue := f.rtValue)
  {
    hide Select;
  }
}
