/** The main theorems about the pipeline, in terms of tick counts only. */
module Correctness {
  import opened Words
  import opened Isa
  import opened Latches
  import opened Stages
  import opened Pipeline
  import opened Sequential
  import opened Schedule
  import opened Hazards
  import opened Muxes
  import opened Matching
  import opened Forwarding
  import opened Refinement
  import opened Timing

  /** Refinement over whole runs, cycle for cycle: between the commits of
      instructions k-1 and k the pipelined core's registers and CP0 are those of
      the specification machine before instruction k, and so is the memory until
      the tick in which instruction k itself passes MEM. */
  lemma Refines(p: State, k: nat, t: nat)
    requires Initial(p) && Runs(StartOf(p), k)
    requires Since(StartOf(p), k) <= t < Due(StartOf(p), k)
    ensures var q, a := Ticks(p, t), Seq(StartOf(p), k);
            SameGpr(q.regs, a.regs) && q.cp0 == a.cp0 && !q.finished &&
            (t < Due(StartOf(p), k) - 1 ==> q.mem == a.mem) &&
            (t == Due(StartOf(p), k) - 1 && Ok(StartOf(p), k) ==> q.mem == Step(a).mem)
  {
    hide Ok, Exits, Tick, InvEx, TimedEx, Step, WbMatch, Gap, Ticks, WbHolds, Seq, Runs, Clear, WordKept;
    var a := StartOf(p);
    var c, v := Track(p, k, t);
    SameInstruction(a, t, c, k);
    KeptAt(a, k, k);
    NotYetDue(t, a, k, v);
  }

  // ----- Where an instruction is, tick by tick -----

  /** Nothing in flight ahead of an instruction due within four ticks flushes. */
  lemma AheadIsClear(t: nat, a: Arch, n: nat, k: nat)
    requires Runs(a, k) && n <= k && t < Due(a, n) < Due(a, k) <= t + 4
    ensures n < k && Clear(a, n, true) && Retires(Seq(a, n))
  {
    hide Ok, Exits, Traps, Retires, Seq, Due, Runs;
    RunsAt(a, k, n);
    ThreeOutcomes(Seq(a, n));
    if Traps(Seq(a, n)) {
      FlushGap(a, n);
      DueMonotone(a, n + 1, k);
    }
  }

  /** An instruction due in d ticks is in the d-th latch from the back. */
  lemma Located(t: nat, a: Arch, c: nat, v: Occupancy, k: nat)
    requires Runs(a, k) && c <= k && t < Due(a, c) && TimedWb(t, a, c, v)
    requires t < Due(a, k) <= t + 4
    ensures var n1 := Count(c, v.wb);
            var n2 := Count(n1, v.ex);
            var n3 := Count(n2, v.id);
            (Due(a, k) == t + 1 ==> v.wb && c == k) &&
            (Due(a, k) > t + 1 ==> Clear(a, c, v.wb) && (v.wb ==> Retires(Seq(a, c)))) &&
            (Due(a, k) == t + 2 ==> v.ex && n1 == k) &&
            (Due(a, k) > t + 2 ==> Clear(a, n1, v.ex)) &&
            (Due(a, k) == t + 3 ==> v.id && n2 == k) &&
            (Due(a, k) > t + 3 ==> Clear(a, n2, v.id) && v.fe && n3 == k)
  {
    hide Ok, Exits, Traps, Retires, Seq, Gap, Runs, Due, WordKept, LetsThrough;
    DueMonotone(a, c, k);
    KeptAt(a, k, c);
    NotYetDue(t, a, c, v);
    if Due(a, k) > t + 1 {
      if v.wb { AheadIsClear(t, a, c, k); }
      var n1 := Count(c, v.wb);
      DueMonotone(a, n1, k);
      KeptAt(a, k, n1);
      if Due(a, k) > t + 2 {
        if v.ex { AheadIsClear(t, a, n1, k); }
        var n2 := Count(n1, v.ex);
        DueMonotone(a, n2, k);
        KeptAt(a, k, n2);
        if Due(a, k) > t + 3 {
          if v.id { AheadIsClear(t, a, n2, k); }
          DueMonotone(a, Count(n2, v.id), k);
          KeptAt(a, k, Count(n2, v.id));
        }
      }
    }
  }

  /** Operand correctness and stage occupancy, for every instruction of every
      run: three ticks before it commits it is in ID_EX with the operands of the
      specification machine; the other latches hold the specified contents in
      the other ticks. */
  lemma InStages(p: State, k: nat, t: nat)
    requires Initial(p) && Runs(StartOf(p), k)
    ensures var a0 := StartOf(p);
            var a, q := Seq(a0, k), Ticks(p, t);
            (t == Due(a0, k) - 4 ==> q.ifId == FetchOf(a).(isBranchDelay := false)) &&
            (t == Due(a0, k) - 3 && Ok(a0, k) ==> IdMatch(q.idEx, DecodeOf(a)) && q.idEx.isBranchDelay == a.delay) &&
            (t == Due(a0, k) - 2 && Ok(a0, k) ==> ExMatch(q.exMem, ExecOf(a))) &&
            (t == Due(a0, k) - 1 && Ok(a0, k) ==> WbMatch(q.memWb, AccessOf(a).latch))
  {
    hide Ok, Exits, Tick, TimedWb, Step, Gap, Retires, ExMatch, WbMatch, Ticks, Runs, Inv, Clear, Seq, AccessOf,
         ExecOf, IdMatch, DecodeOf, WordKept;
    var a0 := StartOf(p);
    if t < Due(a0, k) <= t + 4 {
      var c, v := Track(p, k, t);
      Located(t, a0, c, v, k);
      KeptAt(a0, k, k);
      LatchesAt(Ticks(p, t), a0, c, v);
      if t == Due(a0, k) - 3 && Ok(a0, k) { DecodedDelay(Ticks(p, t).idEx, Seq(a0, k)); }
    }
  }

  lemma DecodedDelay(d: IdEx, a: Arch)
    requires IdMatch(d, DecodeOf(a))
    ensures d.isBranchDelay == a.delay
  {
    hide InstOf, ControlOf;
  }

  /** The invariant, read latch by latch along the run. */
  lemma LatchesAt(p: State, a: Arch, c: nat, v: Occupancy)
    requires Inv(p, a, c, v)
    ensures var n1 := Count(c, v.wb);
            var n2 := Count(n1, v.ex);
            var n3 := Count(n2, v.id);
            (v.wb && Ok(a, c) ==> WbMatch(p.memWb, AccessOf(Seq(a, c)).latch)) &&
            (Clear(a, c, v.wb) ==>
               (v.ex && Ok(a, n1) ==> ExMatch(p.exMem, ExecOf(Seq(a, n1)))) &&
               (Clear(a, n1, v.ex) ==>
                  (v.id && Ok(a, n2) ==> IdMatch(p.idEx, DecodeOf(Seq(a, n2)))) &&
                  (Clear(a, n2, v.id) ==>
                     (v.fe && WordKept(a, n3) ==> p.ifId == FetchOf(Seq(a, n3)).(isBranchDelay := false)))))
  {
    hide Ok, Clear, Seq, Base, WbMatch, ExMatch, IdMatch, IdleWb, IdleEx, IdleId, AccessOf, ExecOf, DecodeOf,
         WordKept;
  }

  /** The first operand as the specification machine's registers have it. JAL
      takes its return address here. */
  function OperandA(a: Arch): Word {
    var inst := InstOf(a);
    if IsJal(inst) then Plus4(Plus4(a.Pc()))
    else if IsMfc0(inst) then a.cp0[Rd(inst) + 1]
    else if IsMtc0(inst) then a.regs[Rt(inst)]
    else a.regs[Rs(inst)]
  }

  function OperandRt(a: Arch): Word {
    var inst := InstOf(a);
    if IsMfc0(inst) || IsMtc0(inst) then 0 else a.regs[Rt(inst)]
  }

  /** The same for the operands, by register: in ID_EX every instruction of the
      run carries the values of the architectural registers it names. */
  lemma Operands(p: State, k: nat)
    requires Initial(p) && Runs(StartOf(p), k) && Ok(StartOf(p), k)
    ensures var a, d := Seq(StartOf(p), k), Ticks(p, Due(StartOf(p), k) - 3).idEx;
            d.inst == InstOf(a) &&
            (d.inst != INSTRUCTION_ERET ==> d.rsValue == OperandA(a) && d.rtValue == OperandRt(a))
  {
    hide *;
    InStages(p, k, Due(StartOf(p), k) - 3);
    MatchedOperands(Ticks(p, Due(StartOf(p), k) - 3).idEx, Seq(StartOf(p), k));
  }

  lemma MatchedOperands(d: IdEx, a: Arch)
    requires IdMatch(d, DecodeOf(a))
    ensures d.inst == InstOf(a)
    ensures d.inst != INSTRUCTION_ERET ==> d.rsValue == OperandA(a) && d.rtValue == OperandRt(a)
  {
    hide InstOf, DecodeOf, OperandA, OperandRt, ControlOf, SourceA, SourceB, RdOf, FunctOf;
    DecodedOperands(a);
  }

  lemma DecodedOperands(a: Arch)
    ensures var d := DecodeOf(a);
            d.inst == InstOf(a) && d.rsValue == OperandA(a) && d.rtValue == OperandRt(a)
  {
    hide InstOf, ControlOf;
  }

  /** In the tick in which instruction k passes MEM, the register file that LWL,
      LWR, SWL and SWR read there, unforwarded, is the one before instruction k:
      the only older instruction left has just been written back. */
  lemma MemSeesRegisters(p: State, k: nat)
    requires Initial(p) && Runs(StartOf(p), k)
    ensures var q := Ticks(p, Due(StartOf(p), k) - 2);
            Retire(q).outcome.Retired? && SameGpr(Retire(q).regs, Seq(StartOf(p), k).regs)
  {
    hide *;
    var a0, t := StartOf(p), Due(StartOf(p), k) - 2;
    var c, v := Track(p, k, t);
    Located(t, a0, c, v, k);
    CountSeq(a0, c, v.wb);
    WbAt(Ticks(p, t), a0, c, v);
    CommitStep(Ticks(p, t), Seq(a0, c), v.wb);
  }

  lemma WbAt(p: State, a: Arch, n: nat, v: Occupancy)
    requires Inv(p, a, n, v) && Clear(a, n, v.wb)
    ensures Base(p, Seq(a, n)) && WbHolds(p.memWb, Seq(a, n), v.wb)
  {
    hide Ok, Seq, Base, WbHolds, LetsThrough;
  }

  // ----- Decoding, tick by tick -----

  /** How many instructions are still ahead of instruction k when it is decoded. */
  function InFlight(a: Arch, k: nat): (n: nat)
    ensures n <= k
  {
    if k > 1 && Due(a, k) <= Due(a, k - 2) + 2 then 2 else if k > 0 && Due(a, k) <= Due(a, k - 1) + 2 then 1 else 0
  }

  /** When instruction k is decoded, whether harmed or not: ID reads the register
      files before the oldest instruction in flight, and the muxes work on what the
      instructions in EX_MEM and MEM_WB carry, which are those one and two ticks
      ahead of it. */
  lemma Decodes(p: State, k: nat) returns (n1: nat, v1: bool, v2: bool)
    requires Initial(p) && Runs(StartOf(p), k)
    ensures var a, q := StartOf(p), Ticks(p, Due(StartOf(p), k) - 4);
            var n2 := Count(n1, v1);
            Count(n2, v2) == k && n1 == k - InFlight(a, k) && OnSchedule(a, n1, v1, n2, v2) &&
            Clear(a, n1, v1) && Clear(a, n2, v2) && DecodesAt(q, a, n1, v1, n2, v2) &&
            (v1 ==> Retires(Seq(a, n1))) && (v2 ==> Retires(Seq(a, n2)))
  {
    hide *;
    var a, t := StartOf(p), Due(StartOf(p), k) - 4;
    var q := Ticks(p, t);
    var c, v := Track(p, k, t);
    Located(t, a, c, v, k);
    KeptAt(a, k, k);
    n1, v1, v2 := Count(c, v.wb), v.ex, v.id;
    SinceBound(a, c, t);
    LatchesAhead(t, a, c, v);
    DecodeTick(q, a, c, v);
    FlightCount(t, a, c, v, k);
    AheadRetires(a, k, n1, v1);
    AheadRetires(a, k, Count(n1, v1), v2);
    CountBelow(n1, v1, v2);
  }

  lemma AheadRetires(a: Arch, k: nat, n: nat, valid: bool)
    requires Runs(a, k) && Clear(a, n, valid)
    ensures valid && n < k ==> Retires(Seq(a, n))
  {
    hide Ok, Seq, Exits, Traps, Retires, Runs;
    if valid && n < k { RunsAt(a, k, n); ThreeOutcomes(Seq(a, n)); }
  }

  lemma CountBelow(n1: nat, v1: bool, v2: bool)
    ensures var n2 := Count(n1, v1); (v1 ==> n1 < Count(n2, v2)) && (v2 ==> n2 < Count(n2, v2))
  {
  }

  lemma SinceBound(a: Arch, n: nat, t: nat)
    requires Since(a, n) <= t
    ensures n > 0 ==> Due(a, n - 1) <= t
  {
    hide Due;
  }

  lemma FlightCount(t: nat, a: Arch, n: nat, v: Occupancy, k: nat)
    requires TimedWb(t, a, n, v) && Clear(a, n, v.wb) && (n > 0 ==> Due(a, n - 1) <= t) && Due(a, k) == t + 4
    requires var n1 := Count(n, v.wb);
             var n2 := Count(n1, v.ex);
             Clear(a, n1, v.ex) && Clear(a, n2, v.id) && v.fe && k == Count(n2, v.id)
    ensures Count(n, v.wb) == k - InFlight(a, k)
  {
    hide Seq, Due, Ok, LetsThrough, WordKept, Clear;
    var n1 := Count(n, v.wb);
    var n2 := Count(n1, v.ex);
    ClearKept(a, n, v.wb);
    ClearKept(a, n1, v.ex);
    ClearKept(a, n2, v.id);
    if k > 1 { DueMonotone(a, k - 2, k - 1); }
  }

  lemma ClearKept(a: Arch, n: nat, valid: bool)
    requires Clear(a, n, valid)
    ensures valid ==> WordKept(a, n)
  {
    hide Ok, LetsThrough, WordKept;
    if valid { OkKept(a, n); }
  }

  /** Exactly when an operand of instruction k meets an "illegal forward" exit in
      the tick that decodes it; never, if the words ahead are compatible. */
  lemma RefusedForwards(p: State, k: nat, n: Slot)
    requires Initial(p) && Runs(StartOf(p), k)
    ensures var a, q := StartOf(p), Ticks(p, Due(StartOf(p), k) - 4);
            var inst := InstOf(Seq(a, k));
            Decoded(q).inst == inst && Decoded(q).rs == SourceA(inst) && Decoded(q).rt == SourceB(inst) &&
            (Select(n, inst, ExOut(q), MemOut(q).latch).Illegal? <==> Refused(Ahead(a, k, 2), Ahead(a, k, 1), n, inst))
    ensures var a := StartOf(p);
            var inst := InstOf(Seq(a, k));
            CompatibleWith(Ahead(a, k, 2), inst) && CompatibleWith(Ahead(a, k, 1), inst) &&
            inst != INSTRUCTION_ERET && n in {SourceA(inst), SourceB(inst)} ==>
              !Refused(Ahead(a, k, 2), Ahead(a, k, 1), n, inst)
  {
    hide *;
    var a, q := StartOf(p), Ticks(p, Due(StartOf(p), k) - 4);
    var inst := InstOf(Seq(a, k));
    var n1, v1, v2 := Decodes(p, k);
    MuxWords(q, a, n1, v1, Count(n1, v1), v2);
    WordsSelect(Ahead(a, k, 2), Ahead(a, k, 1), ExOut(q), MemOut(q).latch, n, inst);
    if CompatibleWith(Ahead(a, k, 2), inst) && CompatibleWith(Ahead(a, k, 1), inst) {
      CompatibleHarmless(Ahead(a, k, 2), Ahead(a, k, 1), inst);
    }
  }

  lemma MuxWords(q: State, a: Arch, n1: nat, v1: bool, n2: nat, v2: bool)
    requires OnSchedule(a, n1, v1, n2, v2) && Clear(a, n1, v1) && Clear(a, n2, v2) && DecodesAt(q, a, n1, v1, n2, v2)
    ensures var k := Count(n2, v2);
            var inst := InstOf(Seq(a, k));
            WbWord(MemOut(q).latch, Ahead(a, k, 2)) && ExWord(ExOut(q), Ahead(a, k, 1)) &&
            Decoded(q).inst == inst && Decoded(q).rs == SourceA(inst) && Decoded(q).rt == SourceB(inst)
  {
    hide Seq, Ok, WbHolds, ExHolds, MemOut, ExOut, WbWord, ExWord, Ahead, OnSchedule, InstOf, MarkedIf, Retire, InId,
         Resolve, LetsThrough, Unloaded, SourceA, SourceB, DecodeFrom, Plus4;
    var k := Count(n2, v2);
    WordsAhead(a, n1, v1, n2, v2);
    WbHoldsWord(MemOut(q).latch, Seq(a, n1), v1);
    ExHoldsWord(ExOut(q), Seq(a, n2), v2);
    DecodeParts(Resolve(InId(q)), FetchOf(Seq(a, k)), Retire(q).regs, Retire(q).cp0);
  }
}
