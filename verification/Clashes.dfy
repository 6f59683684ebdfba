/** What the pipeline computes for every instruction of a run when register
    numbers clash in flight, harmed or not: its operands and its result, in terms
    of the specification machine's run. */
module Clashes {
  import opened Words
  import opened Isa
  import opened Latches
  import opened Stages
  import opened Pipeline
  import opened Sequential
  import opened Schedule
  import opened Hazards
  import opened Muxes
  import opened Matching
  import opened Forwarding
  import opened Refinement
  import opened Timing
  import opened Correctness

  /** The state whose register files instruction k is decoded from: the one before
      the oldest instruction still in flight. */
  function Before(a: Arch, k: nat): Arch {
    Seq(a, k - InFlight(a, k))
  }

  /** What the mux for number n yields in place of `file`. */
  function MuxValue(a: Arch, k: nat, n: Slot, file: Word): Word {
    var ex, wb := AheadAt(a, k, 1), AheadAt(a, k, 2);
    if !Taken(Ahead(a, k, 2), Ahead(a, k, 1), n, InstOf(Seq(a, k))) then file
    else if ex.Some? && Names(Ahead(a, k, 1), n) then ExecOf(Seq(a, ex.value)).aluRes
    else if wb.Some? then WbData(AccessOf(Seq(a, wb.value)).latch)
    else file
  }

  /** The operands as the pipeline delivers them. */
  function DeliveredA(a: Arch, k: nat): Word {
    var inst, b := InstOf(Seq(a, k)), Before(a, k);
    MuxValue(a, k, SourceA(inst),
             if IsJal(inst) then Plus4(Plus4(Seq(a, k).Pc()))
             else if IsMfc0(inst) then b.cp0[SourceA(inst)] else b.regs[SourceA(inst)])
  }

  function DeliveredB(a: Arch, k: nat): Word {
    var inst := InstOf(Seq(a, k));
    var file := if IsMfc0(inst) || IsMtc0(inst) then 0 else Before(a, k).regs[Rt(inst)];
    if Refused(Ahead(a, k, 2), Ahead(a, k, 1), SourceA(inst), inst) then file else MuxValue(a, k, SourceB(inst), file)
  }

  /** For every instruction of every run, whatever the words ahead of it: ID_EX
      holds it decoded, with those operands. So an operand is right exactly when
      the value delivered is the architectural one. */
  lemma Delivered(p: State, k: nat)
    requires Initial(p) && Runs(StartOf(p), k)
    ensures var a, d := StartOf(p), Ticks(p, Due(StartOf(p), k) - 3).idEx;
            DecodesTo(d, Seq(a, k)) &&
            (InstOf(Seq(a, k)) != INSTRUCTION_ERET ==>
               d.rsValue == DeliveredA(a, k) && d.rtValue == DeliveredB(a, k))
  {
    hide *;
    var a, t := StartOf(p), Due(StartOf(p), k) - 4;
    var q := Ticks(p, t);
    var n1, v1, v2 := Decodes(p, k);
    TicksSucc(p, t);
    DecodedBehind(q, a, k, n1, v1, Count(n1, v1), v2);
    TickForwards(q);
  }

  /** The latch holds the word decoded, operands aside. */
  predicate DecodesTo(d: IdEx, a: Arch) {
    d.inst == InstOf(a) && IdMatch(d.(rsValue := 0, rtValue := 0), DecodeOf(a).(rsValue := 0, rtValue := 0))
  }

  lemma TickForwards(q: State)
    ensures Tick(q).idEx == Forward(Decoded(q), ExOut(q), MemOut(q).latch)
  {
    hide Retire, MemOut, ExOut, Decoded, Forward, IfOut, NextPc, Fetched;
  }

  lemma DecodedBehind(q: State, a: Arch, k: nat, n1: nat, v1: bool, n2: nat, v2: bool)
    requires n2 == Count(n1, v1) && k == Count(n2, v2) && n1 == k - InFlight(a, k)
    requires OnSchedule(a, n1, v1, n2, v2) && Clear(a, n1, v1) && Clear(a, n2, v2) && DecodesAt(q, a, n1, v1, n2, v2)
    requires v1 ==> Retires(Seq(a, n1))
    requires v2 ==> Retires(Seq(a, n2))
    ensures var d := Forward(Decoded(q), ExOut(q), MemOut(q).latch);
            DecodesTo(d, Seq(a, k)) &&
            (InstOf(Seq(a, k)) != INSTRUCTION_ERET ==>
               d.rsValue == DeliveredA(a, k) && d.rtValue == DeliveredB(a, k))
  {
    hide Seq, Ok, Step, WbHolds, ExHolds, MemOut, ExOut, InFlight, InstOf, MarkedIf, Retire, InId, Resolve,
         LetsThrough, Unloaded, SourceA, SourceB, DecodeFrom, Forward, Plus4, IdMatch, MuxValue, Ahead, Refused,
         OnSchedule, Retires, IsMfc0, IsMtc0, IsJal, Clear, Rt, DecodeOf, Count;
    var inst, e, w, d := InstOf(Seq(a, k)), ExOut(q), MemOut(q).latch, Decoded(q);
    MuxWords(q, a, n1, v1, n2, v2);
    DecodeShapes(Resolve(InId(q)), MarkedIf(q), Retire(q).regs, Retire(q).cp0, Seq(a, k));
    DecodeParts(Resolve(InId(q)), FetchOf(Seq(a, k)), Retire(q).regs, Retire(q).cp0);
    ForwardShape(d, e, w);
    SourceKinds(inst);
    if inst != INSTRUCTION_ERET {
      ForwardParts(d, e, w);
      WordsSelect(Ahead(a, k, 2), Ahead(a, k, 1), e, w, SourceA(inst), inst);
      TakenValue(a, k, n1, v1, n2, v2, e, w, SourceA(inst), d.rsValue);
      TakenValue(a, k, n1, v1, n2, v2, e, w, SourceB(inst), d.rtValue);
    }
  }

  /** One mux on the run: what it takes is what the specification's instruction
      leaves in that latch. */
  lemma TakenValue(a: Arch, k: nat, n1: nat, v1: bool, n2: nat, v2: bool, e: ExMem, w: MemWb, n: Slot, file: Word)
    requires n2 == Count(n1, v1) && k == Count(n2, v2)
    requires OnSchedule(a, n1, v1, n2, v2) && Clear(a, n1, v1) && Clear(a, n2, v2)
    requires WbHolds(w, Seq(a, n1), v1) && ExHolds(e, Seq(a, n2), v2)
    requires v1 ==> Retires(Seq(a, n1))
    requires v2 ==> Retires(Seq(a, n2))
    ensures Muxed(Select(n, InstOf(Seq(a, k)), e, w), file) == MuxValue(a, k, n, file)
  {
    hide Seq, Ok, Step, WbHolds, ExHolds, InstOf, LetsThrough, AccessOf, ExecOf, WbData, IllegalForward, DestOf,
         IsMtc0, Retires, AheadAt, Refused, Taken, Select;
    WordsAhead(a, n1, v1, n2, v2);
    WbHoldsWord(w, Seq(a, n1), v1);
    ExHoldsWord(e, Seq(a, n2), v2);
    WordsSelect(Ahead(a, k, 2), Ahead(a, k, 1), e, w, n, InstOf(Seq(a, k)));
    TakenOne(Ahead(a, k, 2), Ahead(a, k, 1), n, InstOf(Seq(a, k)));
    if n != 0 { WordsWrite(Ahead(a, k, 2), Ahead(a, k, 1), e, w, n); }
    if v1 { HeldWb(w, Seq(a, n1)); }
    if v2 { HeldEx(e, Seq(a, n2)); }
  }

  lemma TakenOne(wb: Option<Word>, ex: Option<Word>, n: Slot, reader: Word)
    ensures Taken(wb, ex, n, reader) ==> n != 0 && (Names(ex, n) || Names(wb, n))
  {
    hide DestOf, IllegalForward;
  }

  lemma HeldWb(w: MemWb, a: Arch)
    requires WbHolds(w, a, true) && LetsThrough(a) && Retires(a)
    ensures w.regWrite ==> WbData(w) == WbData(AccessOf(a).latch)
  {
    hide AccessOf, ExecOf, WbData, ControlOf, InstOf, DestOf, LetsThrough, Retires;
    Carries(a);
  }

  lemma HeldEx(e: ExMem, a: Arch)
    requires ExHolds(e, a, true) && LetsThrough(a) && Retires(a)
    ensures e.aluRes == ExecOf(a).aluRes
  {
    hide AccessOf, ExecOf, WbData, ControlOf, InstOf, DestOf, LetsThrough, Retires;
    Carries(a);
  }

  // ----- From the operands to the register -----

  /** Nothing ahead of instruction k empties the pipeline while k is on its way. */
  lemma NoFlushAhead(p: State, k: nat, t: nat)
    requires Initial(p) && Runs(StartOf(p), k) && Due(StartOf(p), k) - 4 <= t < Due(StartOf(p), k) - 1
    ensures !Flushes(Ticks(p, t))
  {
    hide *;
    var a := StartOf(p);
    var c, v := Track(p, k, t);
    Located(t, a, c, v, k);
    WbAt(Ticks(p, t), a, c, v);
    CommitStep(Ticks(p, t), Seq(a, c), v.wb);
    RetiredFlushes(Ticks(p, t));
  }

  /** The second operand of the ALU, as the pipeline delivers it. */
  function DeliveredAluB(a: Arch, k: nat): Word {
    var inst := InstOf(Seq(a, k));
    if ControlOf(inst).aluSrc then SignExtend(Imm(inst)) else DeliveredB(a, k)
  }

  function DeliveredResult(a: Arch, k: nat): Option<Word> {
    var inst := InstOf(Seq(a, k));
    AluResult(ControlOf(inst).aluOp, FunctOf(inst), Opcode(inst), Shamt(inst), DeliveredA(a, k), DeliveredAluB(a, k))
  }

  function DeliveredException(a: Arch, k: nat): Exception {
    var inst := InstOf(Seq(a, k));
    AluException(ControlOf(inst).aluOp, FunctOf(inst), Opcode(inst), DeliveredA(a, k), DeliveredAluB(a, k))
  }

  /** An instruction that writes the ALU's result to a general register. */
  predicate Computes(inst: Word) {
    var c := ControlOf(inst);
    inst != INSTRUCTION_ERET && c.regWrite && !c.memRead && !IsMtc0(inst) && DestOf(inst) != 0
  }

  /** In every run, whatever the words ahead: the tick in which such an instruction
      is due leaves in its register what the ALU makes of the delivered operands. */
  lemma Leaves(p: State, k: nat)
    requires Initial(p) && Runs(StartOf(p), k)
    requires Computes(InstOf(Seq(StartOf(p), k)))
    requires DeliveredException(StartOf(p), k) == NoException && DeliveredResult(StartOf(p), k).Some?
    ensures var a := StartOf(p);
            Ticks(p, Due(a, k)).regs[DestOf(InstOf(Seq(a, k)))] == DeliveredResult(a, k).value
  {
    hide *;
    var a := StartOf(p);
    var t := Due(a, k) - 3;
    var inst := InstOf(Seq(a, k));
    Delivered(p, k);
    NoFlushAhead(p, k, t);
    NoFlushAhead(p, k, t + 1);
    TicksSucc(p, t);
    TicksSucc(p, t + 1);
    TicksSucc(p, t + 2);
    KindOf(inst);
    Executes(Ticks(p, t), a, k);
    Passes(Ticks(p, t + 1), inst, DeliveredResult(a, k).value);
    Lands(Ticks(p, t + 2), inst, DeliveredResult(a, k).value);
  }

  lemma KindOf(inst: Word)
    requires Computes(inst)
    ensures var c := ControlOf(inst);
            inst != INSTRUCTION_ERET && c.regWrite && !c.memRead && !c.memWrite && !c.memToReg && !IsMtc0(inst) &&
            DestOf(inst) != 0 && DestOf(inst) < 32
  {
    LoadKinds(inst);
    DestIsGeneral(inst);
  }

  /** EX_MEM carries the result of instruction `inst` to its register. */
  predicate InExMem(e: ExMem, inst: Word, r: Word) {
    e.inst == inst && e.exception == NoException && e.regWrite && !e.memRead && !e.memWrite && !e.memToReg &&
    e.regDst == DestOf(inst) && e.aluRes == r
  }

  predicate InMemWb(w: MemWb, inst: Word, r: Word) {
    w.inst == inst && w.exception == NoException && w.regWrite && w.regDst == DestOf(inst) && WbData(w) == r
  }

  lemma Executes(q: State, a: Arch, k: nat)
    requires !Flushes(q) && DecodesTo(q.idEx, Seq(a, k)) && InstOf(Seq(a, k)) != INSTRUCTION_ERET
    requires q.idEx.rsValue == DeliveredA(a, k) && q.idEx.rtValue == DeliveredB(a, k)
    requires DeliveredException(a, k) == NoException && DeliveredResult(a, k).Some?
    requires var c := ControlOf(InstOf(Seq(a, k))); c.regWrite && !c.memRead && !c.memWrite && !c.memToReg
    ensures InExMem(Tick(q).exMem, InstOf(Seq(a, k)), DeliveredResult(a, k).value)
  {
    hide Seq, Flushes, Retire, MemOut, Decoded, Forward, IfOut, NextPc, Fetched, InstOf, ControlOf, FunctOf, SourceA,
         SourceB, RdOf, AluResult, AluException, DeliveredA, DeliveredB, Opcode, Imm, SignExtend, Shamt;
    DecodedFields(Seq(a, k));
  }

  lemma DecodedFields(a: Arch)
    ensures DecodeOf(a).signExtImm == SignExtend(Imm(InstOf(a))) && DecodeOf(a).shamt == Shamt(InstOf(a))
  {
    hide InstOf, ControlOf, FunctOf, SourceA, SourceB, RdOf, SignExtend, Imm, Shamt;
  }

  lemma Passes(q: State, inst: Word, r: Word)
    requires !Flushes(q) && InExMem(q.exMem, inst, r)
    ensures InMemWb(Tick(q).memWb, inst, r)
  {
    hide Flushes, Retire, ExOut, Decoded, Forward, IfOut, NextPc, Fetched, DestOf, Load, Store;
  }

  lemma Lands(q: State, inst: Word, r: Word)
    requires InMemWb(q.memWb, inst, r) && inst != INSTRUCTION_ERET && !IsMtc0(inst) && 0 < DestOf(inst) < 32
    ensures Tick(q).regs[DestOf(inst)] == r
  {
    hide MemOut, ExOut, Decoded, Forward, IfOut, NextPc, Fetched, DestOf, WbData;
  }
}
