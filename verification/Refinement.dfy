/** The pipeline refines the specification machine: the invariant that relates
    the four latches to consecutive specification states, and its preservation
    by every tick. */
module Refinement {
  import opened Words
  import opened Isa
  import opened Latches
  import opened Memory
  import opened Stages
  import opened Pipeline
  import opened Sequential
  import opened Schedule
  import opened Hazards
  import opened Matching
  import opened Forwarding

  /** Which latches hold an instruction rather than a bubble. */
  datatype Occupancy = Occupancy(wb: bool, ex: bool, id: bool, fe: bool)

  /** The index behind an optional instruction n. */
  function Count(n: nat, valid: bool): nat { if valid then n + 1 else n }

  lemma CountSeq(a: Arch, n: nat, valid: bool)
    ensures Seq(a, Count(n, valid)) == After(Seq(a, n), valid)
  {
    hide Step;
  }

  /** Instruction n, if it is there, is one the pipeline may run. */
  predicate Fit(a: Arch, n: nat, valid: bool) {
    valid ==> Ok(a, n)
  }

  /** And it lets the younger ones behind it go on. */
  predicate Clear(a: Arch, n: nat, valid: bool) {
    valid ==> Ok(a, n) && LetsThrough(Seq(a, n))
  }

  predicate IdHolds(d: IdEx, a: Arch, valid: bool) {
    if valid then IdMatch(d, DecodeOf(a)) else IdleId(d)
  }

  /** No branch is pending. */
  predicate Straight(a: Arch) {
    a.npc == Plus4(a.Pc()) && !a.delay
  }

  /** `a`'s instruction has been fetched and the PC points behind it; it waits
      directly behind another one, which is no load of its registers, or alone. */
  predicate FetchedIf(p: State, a: Arch, behind: bool) {
    p.ifId == FetchOf(a).(isBranchDelay := false) && p.Pc() == Plus4(a.Pc()) &&
    (if behind then !LoadUse(p.idEx, InstOf(a)) else Straight(a))
  }

  /** It is still to be fetched. */
  predicate Waits(p: State, a: Arch) {
    IdleIf(p.ifId) && p.Pc() == a.Pc() && Straight(a)
  }

  ghost predicate Base(p: State, a: Arch) {
    SameGpr(p.regs, a.regs) && p.cp0 == a.cp0 && a.regs[0] == 0 && !p.finished
  }

  /** The register files are those before instruction n, which is the one in
      MEM_WB, and the memory is that after it; each younger latch holds what the
      specification machine computes for the next instruction. Behind one that
      will empty the pipeline, or that the pipeline may not run, nothing is
      claimed. */
  ghost predicate Inv(p: State, a: Arch, n: nat, v: Occupancy) {
    Base(p, Seq(a, n)) && InvWb(p, a, n, v)
  }

  ghost predicate InvWb(p: State, a: Arch, n: nat, v: Occupancy) {
    (Fit(a, n, v.wb) ==> WbHolds(p.memWb, Seq(a, n), v.wb) && p.mem == After(Seq(a, n), v.wb).mem) &&
    (Clear(a, n, v.wb) ==> InvEx(p, a, Count(n, v.wb), v))
  }

  ghost predicate InvEx(p: State, a: Arch, n: nat, v: Occupancy) {
    (Fit(a, n, v.ex) ==> ExHolds(p.exMem, Seq(a, n), v.ex)) &&
    (Clear(a, n, v.ex) ==> InvId(p, a, Count(n, v.ex), v))
  }

  ghost predicate InvId(p: State, a: Arch, n: nat, v: Occupancy) {
    (Fit(a, n, v.id) ==> IdHolds(p.idEx, Seq(a, n), v.id)) &&
    (Clear(a, n, v.id) ==> InvIf(p, a, Count(n, v.id), v))
  }

  ghost predicate InvIf(p: State, a: Arch, n: nat, v: Occupancy) {
    if v.fe then WordKept(a, n) ==> FetchedIf(p, Seq(a, n), v.id) else Waits(p, Seq(a, n))
  }

  // ----- One lemma per stage, for a tick that does not flush -----

  /** WB: an instruction that retires, or a bubble, writes what it should. */
  lemma CommitStep(p: State, a: Arch, valid: bool)
    requires Base(p, a) && WbHolds(p.memWb, a, valid)
    requires valid ==> Retires(a)
    ensures Retire(p).outcome.Retired? && Retire(p).regs[REG_PC] == p.Pc()
    ensures SameGpr(Retire(p).regs, After(a, valid).regs) && Retire(p).cp0 == After(a, valid).cp0
    ensures After(a, valid).regs[0] == 0
  {
    hide WriteBack, AccessOf, ExecOf, DecodeOf, TargetOf, WbMatch;
    if valid {
      WriteBackMatch(p.memWb, AccessOf(a).latch, p.regs, a.regs, a.cp0);
      ThreeOutcomes(a);
      StepZero(a);
    } else {
      IdleCommit(p.memWb, p.regs, p.cp0);
    }
  }

  lemma IdleCommit(w: MemWb, regs: Regs, cp0: Cp0Regs)
    requires IdleWb(w) && regs[0] == 0
    ensures WriteBack(w, regs, cp0) == Commit(Retired, regs, cp0)
  {
  }

  /** MEM: reads its operands from EX_MEM and, unforwarded, from the registers
      that WB has just completed. */
  lemma MemStep(p: State, a: Arch, valid: bool)
    requires !Flushes(p) && SameGpr(Retire(p).regs, a.regs) && p.mem == a.mem
    requires ExHolds(p.exMem, a, valid)
    ensures WbHolds(MemOut(p).latch, a, valid) && MemOut(p).mem == After(a, valid).mem
    ensures MemOut(p).outside == (valid && AccessOf(a).outside)
  {
    hide Flushes, Retire, Access, Execute, DecodeOf, InstOf, WbMatch, ControlOf, DestOf, Step;
    var regs := Retire(p).regs;
    if valid {
      var e, e' := p.exMem, ExecOf(a);
      if e.memRead && e.inst != INSTRUCTION_ERET { LoadDest(e.inst); LoadWrites(e.inst); }
      ExecInst(a);
      AccessMatch(p.memWb, ZERO_MEM_WB, e, e', regs[e.regDst], a.regs[e'.regDst], regs[Rt(e.inst)],
                  a.regs[Rt(InstOf(a))], a.mem);
      StepMemory(a);
    } else {
      IdleFlow(p.idEx, p.exMem, p.memWb, p.ifId, p.idEx, p.exMem, p.regs, p.cp0, regs[p.exMem.regDst],
               regs[Rt(p.exMem.inst)], p.mem);
    }
  }

  lemma ExecInst(a: Arch)
    ensures ExecOf(a).inst == DecodeOf(a).inst == InstOf(a)
  {
    hide InstOf, AluResult, AluException, ControlOf;
  }

  lemma LoadWrites(inst: Word)
    requires ControlOf(inst).memRead
    ensures ControlOf(inst).regWrite
  {
  }

  lemma StepMemory(a: Arch)
    ensures Step(a).mem == AccessOf(a).mem
  {
    hide TargetOf, WriteBack, AccessOf;
  }

  function TargetAt(a: Arch, valid: bool): Option<Word> {
    if valid then TargetOf(a) else None
  }

  /** EX: executes the matching operands and redirects the PC as specified. */
  lemma ExStep(p: State, a: Arch, valid: bool)
    requires !Flushes(p) && IdHolds(p.idEx, a, valid)
    requires valid ==> Supported(InstOf(a))
    ensures ExHolds(ExOut(p), a, valid) && Redirect(InId(p)) == TargetAt(a, valid)
  {
    hide Flushes, Retire, Execute, Redirect, DecodeOf, InstOf, ExMatch, Supported;
    if valid {
      ExecInst(a);
      ExecuteMatch(InEx(p), ZERO_EX_MEM, p.idEx, DecodeOf(a));
    } else {
      IdleFlow(p.idEx, InEx(p), p.memWb, p.ifId, p.idEx, p.exMem, p.regs, p.cp0, 0, 0, p.mem);
    }
  }

  lemma StepDelay(a: Arch)
    requires !Traps(a)
    ensures Step(a).Pc() == a.npc && Step(a).delay == TargetOf(a).Some?
    ensures Step(a).npc == match TargetOf(a) { case Some(target) => target case None => Plus4(a.npc) }
  {
    hide TargetOf, WriteBack, AccessOf;
  }

  /** A taken branch in EX marks the instruction behind it, which is the delay
      slot; no bubble ever separates them. */
  lemma MarkStep(p: State, a: Arch, valid: bool)
    requires !Flushes(p) && Redirect(InId(p)) == TargetAt(a, valid)
    requires valid ==> !Traps(a)
    requires FetchedIf(p, After(a, valid), valid)
    ensures MarkedIf(p) == FetchOf(After(a, valid))
  {
    hide Flushes, Redirect, InstOf, TargetOf, LoadUse, Traps, Step;
    if valid { StepDelay(a); }
  }

  /** ID and forwarding: the decoded operands are the specified ones. */
  lemma IdStep(p: State, a1: Arch, v1: bool, a2: Arch, v2: bool)
    requires !Flushes(p) && a2 == After(a1, v1)
    requires v1 ==> LetsThrough(a1)
    requires v2 ==> LetsThrough(a2)
    requires SameGpr(Retire(p).regs, a1.regs) && Retire(p).cp0 == a1.cp0 && a1.regs[0] == 0
    requires WbHolds(MemOut(p).latch, a1, v1) && ExHolds(ExOut(p), a2, v2) && IdHolds(p.idEx, a2, v2)
    requires FetchedIf(p, After(a2, v2), v2) && MarkedIf(p) == FetchOf(After(a2, v2))
    requires Harmless(WordAt(a1, v1), WordAt(a2, v2), InstOf(After(a2, v2)))
    ensures IdMatch(Tick(p).idEx, DecodeOf(After(a2, v2)))
  {
    hide Flushes, Retire, MemOut, ExOut, MarkedIf, DecodeFrom, DecodeOf, InstOf, ControlOf, FetchOf, Step, WbHolds,
         ExHolds, IdMatch, Forward, LetsThrough, WordAt, Harmless, Resolve, NextPc, IfOut;
    var a3 := After(a2, v2);
    LatchKeepsOff(p.idEx, a2, v2, InstOf(a3));
    OperandsMatch(a1, v1, a2, v2, a3, Resolve(InId(p)), Retire(p).regs, ExOut(p), MemOut(p).latch);
  }

  lemma LatchKeepsOff(d: IdEx, a: Arch, valid: bool, inst: Word)
    requires IdHolds(d, a, valid) && (valid ==> !LoadUse(d, inst))
    ensures Unloaded(a, valid, inst)
  {
    hide InstOf, ControlOf, SourceA, SourceB, RdOf, FunctOf;
    if valid { ExecInst(a); }
  }

  /** A bubble in IF_ID becomes one in ID_EX. */
  lemma IdleStep(p: State)
    requires IdleIf(MarkedIf(p))
    ensures IdleId(Tick(p).idEx) && !Decoded(p).c.memRead
  {
    hide Retire, MemOut, ExOut, MarkedIf, InId, Resolve, NextPc, IfOut, Forward, DecodeFrom;
    IdleFlow(Resolve(InId(p)), p.exMem, p.memWb, MarkedIf(p), p.idEx, p.exMem, Retire(p).regs,
             Retire(p).cp0, 0, 0, p.mem);
    IdleForward(Decoded(p), ExOut(p), MemOut(p).latch);
  }

  lemma IdleMarked(p: State)
    requires !Flushes(p) && IdleIf(p.ifId)
    ensures IdleIf(MarkedIf(p))
  {
    hide Flushes, Redirect;
  }

  /** IF: the PC is where the specification machine goes on. */
  lemma PcStep(p: State, a2: Arch, v2: bool, fe: bool)
    requires !Flushes(p) && Retire(p).regs[REG_PC] == p.Pc() && Redirect(InId(p)) == TargetAt(a2, v2)
    requires v2 ==> !Traps(a2)
    requires fe ==> !Traps(After(a2, v2)) && FetchedIf(p, After(a2, v2), v2)
    requires !fe ==> Waits(p, After(a2, v2))
    ensures FetchPc(p) == After(After(a2, v2), fe).Pc()
  {
    hide Flushes, Retire, Redirect, InId, InstOf, TargetOf, LoadUse, Traps, Step, IdleIf;
    if v2 { StepDelay(a2); }
    if fe { StepDelay(After(a2, v2)); }
  }

  /** The word fetched is the one the specification machine will execute, although
      the two instructions ahead have not reached memory yet. */
  lemma FetchStep(p: State, a2: Arch, v2: bool, fe: bool)
    requires MemOut(p).mem == a2.mem
    requires var a3 := After(a2, v2);
             var a4 := After(a3, fe);
             FetchPc(p) == a4.Pc() && (v2 ==> LeavesWord(a2, a4.Pc())) && (fe ==> LeavesWord(a3, a4.Pc()))
    ensures Fetched(p).data == InstOf(After(After(a2, v2), fe))
  {
    hide MemOut, FetchPc, Step, Read;
  }

  lemma ForwardKeeps(d: IdEx, e: ExMem, w: MemWb)
    ensures var f := Forward(d, e, w);
            f.inst == d.inst && f.c == d.c && f.rs == d.rs && f.rt == d.rt && f.rd == d.rd
  {
    hide Select;
  }

  /** A load in ID_EX is not followed by a redirect. */
  lemma LoadIsStraight(d: IdEx, a: Arch)
    requires IdMatch(d, DecodeOf(a)) && d.c.memRead
    ensures TargetOf(a).None?
  {
    hide InstOf, ControlOf, SourceA, SourceB, RdOf, FunctOf;
    ExecInst(a);
    LoadControls(InstOf(a));
  }

  lemma LoadControls(inst: Word)
    requires ControlOf(inst).memRead
    ensures var c := ControlOf(inst); !c.beq && !c.bne && !c.jump
  {
  }

  /** The new IF_ID: the tick stalls exactly on a load-use pair. */
  lemma FetchedStep(p: State, a3: Arch, fe: bool)
    requires fe ==> !Traps(a3)
    requires FetchPc(p) == After(a3, fe).Pc() && IdHolds(Tick(p).idEx, a3, fe)
    requires !fe ==> IdleIf(MarkedIf(p)) && !Decoded(p).c.memRead && Straight(a3)
    ensures if Stalls(p) then Waits(Tick(p), After(a3, fe))
            else Fetched(p).data == InstOf(After(a3, fe)) ==> FetchedIf(Tick(p), After(a3, fe), fe)
    ensures Fetched(p).data == InstOf(After(a3, fe)) ==> (Stalls(p) <==> fe && UsesLoad(a3))
  {
    hide Retire, MemOut, ExOut, Redirect, DecodeOf, InstOf, TargetOf, Traps, ControlOf, Step, MarkedIf, Forward,
         FetchPc, Read, Decoded, SourceA, SourceB, RdOf, FunctOf, Plus4;
    ForwardKeeps(Decoded(p), ExOut(p), MemOut(p).latch);
    if fe && Stalls(p) {
      LoadIsStraight(Tick(p).idEx, a3);
      StepDelay(a3);
    }
  }

  // ----- A whole tick -----

  /** The occupancy after a tick: the latches shift by one stage, and a stall or
      a flush leaves bubbles behind. */
  function Shift(p: State, v: Occupancy): Occupancy {
    if Flushes(p) then Occupancy(false, false, false, true)
    else Occupancy(v.ex, v.id, v.fe, !Stalls(p))
  }

  /** The instruction to be decoded finds ahead of it what the schedule says. */
  predicate OnSchedule(a: Arch, n1: nat, v1: bool, n2: nat, v2: bool) {
    var n3 := Count(n2, v2);
    AheadAt(a, n3, 2) == (if v1 then Some(n1) else None) && AheadAt(a, n3, 1) == if v2 then Some(n2) else None
  }

  lemma WordsAhead(a: Arch, n1: nat, v1: bool, n2: nat, v2: bool)
    requires OnSchedule(a, n1, v1, n2, v2)
    ensures var n3 := Count(n2, v2);
            Ahead(a, n3, 2) == WordAt(Seq(a, n1), v1) && Ahead(a, n3, 1) == WordAt(Seq(a, n2), v2)
  {
    hide AheadAt, Seq, InstOf;
  }

  /** The instructions ahead of the one being fetched leave its word alone. */
  lemma AheadLeaves(a: Arch, n2: nat, v2: bool, fe: bool)
    requires Clear(a, n2, v2) && Clear(a, Count(n2, v2), fe) && WordKept(a, Count(Count(n2, v2), fe))
    ensures var n3 := Count(n2, v2);
            var pc := Seq(a, Count(n3, fe)).Pc();
            (v2 ==> LeavesWord(Seq(a, n2), pc)) && (fe ==> LeavesWord(Seq(a, n3), pc))
  {
    hide Ok, Seq, LeavesWord, Traps, Exits;
  }

  /** What the tick needs of the front end: the mark, the new ID_EX, the next PC. */
  lemma DecodeStep(p: State, a: Arch, n1: nat, v: Occupancy)
    requires Clear(a, n1, v.ex) && Clear(a, Count(n1, v.ex), v.id)
    requires var n2 := Count(n1, v.ex); InvIf(p, a, Count(n2, v.id), v) && IdHolds(p.idEx, Seq(a, n2), v.id)
    requires v.fe && WordKept(a, Count(Count(n1, v.ex), v.id)) ==> OnSchedule(a, n1, v.ex, Count(n1, v.ex), v.id)
    requires !Flushes(p)
    requires SameGpr(Retire(p).regs, Seq(a, n1).regs) && Retire(p).cp0 == Seq(a, n1).cp0 && Seq(a, n1).regs[0] == 0
    requires WbHolds(MemOut(p).latch, Seq(a, n1), v.ex) && ExHolds(ExOut(p), Seq(a, Count(n1, v.ex)), v.id)
    requires Redirect(InId(p)) == TargetAt(Seq(a, Count(n1, v.ex)), v.id)
    ensures var n3 := Count(Count(n1, v.ex), v.id);
            (Fit(a, n3, v.fe) ==> IdHolds(Tick(p).idEx, Seq(a, n3), v.fe)) &&
            (if v.fe then WordKept(a, n3) ==> MarkedIf(p) == FetchOf(Seq(a, n3))
             else IdleIf(MarkedIf(p)) && !Decoded(p).c.memRead)
  {
    hide Ok, Seq, Step, WordKept, Ahead, Harmless, Flushes, Retire, MemOut, ExOut, InId, MarkedIf, Decoded, Redirect,
         Traps, Exits, WbHolds, ExHolds, IdMatch, IdleId, OnSchedule, FetchedIf, DecodeOf, FetchOf, TargetOf, IdleIf,
         Tick, Supported, InstOf, LetsThrough;
    var n2 := Count(n1, v.ex);
    var n3 := Count(n2, v.id);
    CountSeq(a, n1, v.ex);
    CountSeq(a, n2, v.id);
    if !v.fe {
      IdleMarked(p);
      IdleStep(p);
    } else {
      if Ok(a, n3) { OkParts(a, n3); }
      if WordKept(a, n3) {
        LetsOn(Seq(a, n2), v.id);
        MarkStep(p, Seq(a, n2), v.id);
        if Ok(a, n3) {
          WordsAhead(a, n1, v.ex, n2, v.id);
          IdStep(p, Seq(a, n1), v.ex, Seq(a, n2), v.id);
        }
      }
    }
  }

  /** The new IF_ID, behind clear instructions. */
  lemma NextStep(p: State, a: Arch, n2: nat, v: Occupancy)
    requires Clear(a, n2, v.id) && Clear(a, Count(n2, v.id), v.fe)
    requires InvIf(p, a, Count(n2, v.id), v) && !Flushes(p) && Retire(p).regs[REG_PC] == p.Pc()
    requires MemOut(p).mem == Seq(a, n2).mem && Redirect(InId(p)) == TargetAt(Seq(a, n2), v.id)
    requires IdHolds(Tick(p).idEx, Seq(a, Count(n2, v.id)), v.fe)
    requires !v.fe ==> IdleIf(MarkedIf(p)) && !Decoded(p).c.memRead
    ensures InvIf(Tick(p), a, Count(Count(n2, v.id), v.fe), Occupancy(v.ex, v.id, v.fe, !Stalls(p)))
    ensures var n3 := Count(n2, v.id);
            WordKept(a, Count(n3, v.fe)) ==> (Stalls(p) <==> v.fe && UsesLoad(Seq(a, n3)))
  {
    hide Ok, Seq, Step, WordKept, Flushes, Retire, MemOut, ExOut, InId, MarkedIf, Decoded, Redirect, FetchPc, Fetched,
         Traps, Exits, IdHolds, FetchedIf, TargetOf, IdleIf, Tick, InstOf, LetsThrough, LeavesWord, UsesLoad, Stalls;
    var n3 := Count(n2, v.id);
    CountSeq(a, n2, v.id);
    CountSeq(a, n3, v.fe);
    LetsOn(Seq(a, n2), v.id);
    LetsOn(Seq(a, n3), v.fe);
    if v.fe { OkKept(a, n3); }
    PcStep(p, Seq(a, n2), v.id, v.fe);
    FetchedStep(p, Seq(a, n3), v.fe);
    if WordKept(a, Count(n3, v.fe)) {
      AheadLeaves(a, n2, v.id, v.fe);
      FetchStep(p, Seq(a, n2), v.id, v.fe);
    }
  }

  lemma OkKept(a: Arch, n: nat)
    requires Ok(a, n)
    ensures WordKept(a, n) && Supported(InstOf(Seq(a, n)))
  {
    OkParts(a, n);
  }

  /** A tick in which MEM_WB retires or is a bubble. */
  lemma RunStep(p: State, a: Arch, n: nat, v: Occupancy)
    requires Inv(p, a, n, v) && Clear(a, n, v.wb) && (v.wb ==> Retires(Seq(a, n)))
    requires var n1 := Count(n, v.wb);
             var n2 := Count(n1, v.ex);
             Clear(a, n1, v.ex) && Clear(a, n2, v.id) && v.fe && WordKept(a, Count(n2, v.id)) ==>
               OnSchedule(a, n1, v.ex, n2, v.id)
    ensures Retire(p).outcome.Retired? && !Flushes(p)
    ensures Inv(Tick(p), a, Count(n, v.wb), Shift(p, v))
    ensures var n1 := Count(n, v.wb);
            var n2 := Count(n1, v.ex);
            var n3 := Count(n2, v.id);
            Clear(a, n1, v.ex) && Clear(a, n2, v.id) && Clear(a, n3, v.fe) && WordKept(a, Count(n3, v.fe)) ==>
              (Stalls(p) <==> v.fe && UsesLoad(Seq(a, n3)))
  {
    hide Ok, Seq, Step, WordKept, Ahead, Harmless, Retire, MemOut, ExOut, InId, MarkedIf, Decoded, Redirect, FetchPc,
         Fetched, Traps, Retires, Exits, WbHolds, ExHolds, IdHolds, FetchedIf, DecodeOf, FetchOf, TargetOf, IdleIf,
         Supported, InstOf, LetsThrough, UsesLoad, Stalls, Forward, IfOut, NextPc, InvIf;
    var n1 := Count(n, v.wb);
    var n2 := Count(n1, v.ex);
    CountSeq(a, n, v.wb);
    CommitStep(p, Seq(a, n), v.wb);
    if Fit(a, n1, v.ex) {
      MemStep(p, Seq(a, n1), v.ex);
      CountSeq(a, n1, v.ex);
    }
    if Clear(a, n1, v.ex) && Fit(a, n2, v.id) {
      if v.id { OkKept(a, n2); }
      ExStep(p, Seq(a, n2), v.id);
      if Clear(a, n2, v.id) {
        DecodeStep(p, a, n1, v);
        if Clear(a, Count(n2, v.id), v.fe) { NextStep(p, a, n2, v); }
      }
    }
  }

  /** A tick in which write-back takes an exception or an ERET: the handler's
      (or the resumed) first instruction is fetched in the same tick. */
  lemma FlushStep(p: State, a: Arch, n: nat, v: Occupancy)
    requires Inv(p, a, n, v) && v.wb && Ok(a, n) && Traps(Seq(a, n))
    ensures Flushes(p)
    ensures Inv(Tick(p), a, n + 1, Shift(p, v))
  {
    hide Ok, Seq, Step, WriteBack, DecodeOf, AccessOf, WbMatch, InvEx, Access, Execute, Redirect, Decode, LetsThrough,
         Traps;
    TrapCommits(p, Seq(a, n));
    FlushEmpties(p);
    SeqSucc(a, n);
    FlushInvEx(p, a, n + 1, v);
  }

  lemma TrapCommits(p: State, a: Arch)
    requires Base(p, a) && WbHolds(p.memWb, a, true) && Traps(a)
    ensures Flushes(p) && SameGpr(Retire(p).regs, Step(a).regs) && Retire(p).cp0 == Step(a).cp0
    ensures Step(a).regs[0] == 0 && Straight(Step(a)) && Step(a).Pc() == Retire(p).regs[REG_PC]
  {
    hide WriteBack, AccessOf, WbMatch;
    WriteBackMatch(p.memWb, AccessOf(a).latch, p.regs, a.regs, a.cp0);
    FlushKeepsRegisters(AccessOf(a).latch, a.regs, a.cp0);
  }

  lemma FlushInvEx(p: State, a: Arch, n: nat, v: Occupancy)
    requires var b := Seq(a, n);
             Flushes(p) && b.mem == p.mem && Straight(b) && b.Pc() == Retire(p).regs[REG_PC]
    ensures InvEx(Tick(p), a, n, Shift(p, v))
  {
    hide Seq, WordKept, Ok, Flushes, Retire, MemOut, ExOut, Decoded, IdleEx, IdleId, IdleWb, Stalls, Read;
    FlushEmpties(p);
  }

  lemma FlushKeepsRegisters(w: MemWb, regs: Regs, cp0: Cp0Regs)
    requires WriteBack(w, regs, cp0).outcome.Flushed?
    ensures SameGpr(WriteBack(w, regs, cp0).regs, regs)
  {
    hide HandlerPc, GetCause;
  }

  /** After a flush the tick works on empty latches and fetches at the new PC. */
  lemma FlushEmpties(p: State)
    requires Flushes(p)
    ensures IdleWb(Tick(p).memWb) && IdleEx(Tick(p).exMem) && IdleId(Tick(p).idEx) && Tick(p).mem == p.mem
    ensures !Stalls(p) && FetchPc(p) == Retire(p).regs[REG_PC] && !MemOut(p).outside
  {
    hide Retire, Access, Execute, Redirect, Resolve, Decode, Read, Forward;
    var regs := Retire(p).regs;
    IdleFlow(ZERO_ID_EX, ZERO_EX_MEM, ZERO_MEM_WB, ZERO_IF_ID, ZERO_ID_EX, ZERO_EX_MEM, regs, Retire(p).cp0,
             regs[0], regs[0], p.mem);
    IdleForward(Decoded(p), ExOut(p), MemOut(p).latch);
  }

  /** The tick of the exit syscall: registers and CP0 stay, and the instruction
      behind it, already in EX_MEM, still passes MEM. */
  lemma ExitStep(p: State, a: Arch, n: nat, v: Occupancy)
    requires Inv(p, a, n, v) && v.wb && Ok(a, n) && Exits(Seq(a, n))
    ensures Retire(p).outcome.Finished? && Tick(p).finished
    ensures SameGpr(Tick(p).regs, Seq(a, n).regs) && Tick(p).cp0 == Seq(a, n).cp0
    ensures DestOf(InstOf(Seq(a, n))) == 0 && v.ex && Ok(a, n + 1) ==> Tick(p).mem == Seq(a, n + 2).mem
  {
    hide Ok, Seq, Step, Flushes, Retire, AccessOf, ExecOf, WbMatch, ExMatch, InvId, MemOut, ExOut, Decoded, Forward,
         IfOut, NextPc, Fetched, Redirect, InstOf, DestOf, Traps, Exits;
    ExitCommits(p, Seq(a, n));
    ThreeOutcomes(Seq(a, n));
    SeqSucc(a, n);
    SeqSucc(a, n + 1);
    if DestOf(InstOf(Seq(a, n))) == 0 && v.ex && Ok(a, n + 1) {
      MemStep(p, Seq(a, n + 1), true);
    }
  }

  lemma ExitCommits(p: State, a: Arch)
    requires Base(p, a) && WbHolds(p.memWb, a, true) && Exits(a)
    ensures Retire(p).outcome.Finished? && !Flushes(p) && Retire(p).regs == p.regs && Retire(p).cp0 == p.cp0
    ensures SameGpr(p.regs, Step(a).regs) && SameGpr(p.regs, a.regs) && p.cp0 == Step(a).cp0
  {
    hide WriteBack, AccessOf, WbMatch, TargetOf;
    WriteBackMatch(p.memWb, AccessOf(a).latch, p.regs, a.regs, a.cp0);
    FinishedKeeps(p.memWb, p.regs, p.cp0);
    FinishedKeeps(AccessOf(a).latch, a.regs, a.cp0);
  }

  lemma FinishedKeeps(w: MemWb, regs: Regs, cp0: Cp0Regs)
    requires WriteBack(w, regs, cp0).outcome.Finished?
    ensures WriteBack(w, regs, cp0) == Commit(Finished, regs, cp0)
    ensures regs[REG_V0] == 10
  {
    hide HandlerPc, RecordException;
  }

  // ----- Decoding behind whatever is in flight -----

  /** What ID and the forwarding unit work on when instruction k is decoded, be it
      harmed or not: the word and its address, the register files before the
      oldest instruction in flight, and what the two ahead carry. */
  ghost predicate DecodesAt(p: State, a: Arch, n1: nat, v1: bool, n2: nat, v2: bool) {
    MarkedIf(p) == FetchOf(Seq(a, Count(n2, v2))) &&
    SameGpr(Retire(p).regs, Seq(a, n1).regs) && Retire(p).cp0 == Seq(a, n1).cp0 && Seq(a, n1).regs[0] == 0 &&
    WbHolds(MemOut(p).latch, Seq(a, n1), v1) && ExHolds(ExOut(p), Seq(a, n2), v2) &&
    Unloaded(Seq(a, n2), v2, InstOf(Seq(a, Count(n2, v2))))
  }

  lemma DecodeTick(p: State, a: Arch, n: nat, v: Occupancy)
    requires Inv(p, a, n, v) && Clear(a, n, v.wb) && (v.wb ==> Retires(Seq(a, n))) && v.fe
    requires var n1 := Count(n, v.wb);
             var n2 := Count(n1, v.ex);
             Clear(a, n1, v.ex) && Clear(a, n2, v.id) && WordKept(a, Count(n2, v.id))
    ensures var n1 := Count(n, v.wb);
            DecodesAt(p, a, n1, v.ex, Count(n1, v.ex), v.id)
  {
    hide Ok, Seq, Step, WordKept, Ahead, Harmless, Retire, MemOut, ExOut, InId, MarkedIf, Decoded, Redirect, FetchPc,
         Fetched, Traps, Retires, Exits, WbHolds, ExHolds, IdHolds, DecodeOf, FetchOf, TargetOf, IdleIf, Supported,
         Flushes, InstOf, LetsThrough, UsesLoad, Stalls, Forward, IfOut, NextPc, Unloaded, LoadUse;
    var n1 := Count(n, v.wb);
    var n2 := Count(n1, v.ex);
    CountSeq(a, n, v.wb);
    CountSeq(a, n1, v.ex);
    CountSeq(a, n2, v.id);
    CommitStep(p, Seq(a, n), v.wb);
    RetiredFlushes(p);
    MemStep(p, Seq(a, n1), v.ex);
    if v.id { OkKept(a, n2); }
    ExStep(p, Seq(a, n2), v.id);
    LetsOn(Seq(a, n2), v.id);
    MarkStep(p, Seq(a, n2), v.id);
    LatchKeepsOff(p.idEx, Seq(a, n2), v.id, InstOf(Seq(a, Count(n2, v.id))));
  }

  lemma RetiredFlushes(p: State)
    requires Retire(p).outcome.Retired?
    ensures !Flushes(p)
  {
    hide Retire;
  }
}
