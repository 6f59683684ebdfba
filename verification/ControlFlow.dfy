/** Delay slots and the end of the run loop. */
module ControlFlow {
  import opened Words
  import opened Isa
  import opened Stages
  import opened Pipeline
  import opened Sequential
  import opened Schedule
  import opened Hazards
  import opened Matching
  import opened Forwarding
  import opened Refinement
  import opened Timing
  import opened Correctness

  lemma BranchIsNoLoad(a: Arch)
    requires !Traps(a) && TargetOf(a).Some?
    ensures Gap(a) == 1
  {
    hide CommitOf, InstOf, Step, ControlOf;
    BranchControl(InstOf(a));
    BranchDecoded(a);
  }

  lemma BranchDecoded(a: Arch)
    requires TargetOf(a).Some?
    ensures var c := ControlOf(InstOf(a)); DecodeOf(a).c == c && (c.jump || c.beq || c.bne)
  {
    hide InstOf, ControlOf;
  }

  lemma BranchControl(inst: Word)
    requires var c := ControlOf(inst); c.jump || c.beq || c.bne
    ensures !ControlOf(inst).memRead
  {
  }

  /** Exactly one delay slot. When a taken branch or jump is in ID_EX, the
      instruction at the address fetched next is right behind it in IF_ID, with
      no bubble; it commits in the very next tick, marked as a delay slot, and
      the instruction after it comes from the target. */
  lemma DelaySlot(p: State, k: nat)
    requires Initial(p) && Runs(StartOf(p), k + 1)
    requires Retires(Seq(StartOf(p), k)) && TargetOf(Seq(StartOf(p), k)).Some?
    ensures var a0 := StartOf(p);
            var branch, slot := Seq(a0, k), Seq(a0, k + 1);
            var q := Ticks(p, Due(a0, k) - 3);
            q.idEx.inst == InstOf(branch) &&
            slot.Pc() == branch.npc && slot.delay && q.ifId == FetchOf(slot).(isBranchDelay := false) &&
            Due(a0, k + 1) == Due(a0, k) + 1 && Ticks(p, Due(a0, k) - 2).idEx.isBranchDelay &&
            (Retires(slot) ==> Seq(a0, k + 2).Pc() == TargetOf(branch).value)
  {
    hide *;
    var a0 := StartOf(p);
    var branch, slot := Seq(a0, k), Seq(a0, k + 1);
    SeqSucc(a0, k);
    SeqSucc(a0, k + 1);
    ThreeOutcomes(branch);
    ThreeOutcomes(slot);
    StepDelay(branch);
    if Retires(slot) { StepDelay(slot); }
    BranchIsNoLoad(branch);
    DueSucc(a0, k);
    RunsLess(a0, k + 1, k);
    RunsAt(a0, k + 1, k);
    Operands(p, k);
    InStages(p, k + 1, Due(a0, k) - 3);
    DecodedMark(p, k + 1);
  }

  /** The delay mark arrives in ID_EX, whatever the operands. */
  lemma DecodedMark(p: State, k: nat)
    requires Initial(p) && Runs(StartOf(p), k)
    ensures Ticks(p, Due(StartOf(p), k) - 3).idEx.isBranchDelay == Seq(StartOf(p), k).delay
  {
    hide *;
    var a := StartOf(p);
    var q := Ticks(p, Due(a, k) - 4);
    var n1, v1, v2 := Decodes(p, k);
    TicksSucc(p, Due(a, k) - 4);
    TickMark(q, a, n1, v1, Count(n1, v1), v2);
  }

  lemma TickMark(q: State, a: Arch, n1: nat, v1: bool, n2: nat, v2: bool)
    requires DecodesAt(q, a, n1, v1, n2, v2)
    ensures Tick(q).idEx.isBranchDelay == Seq(a, Count(n2, v2)).delay
  {
    hide Seq, WbHolds, ExHolds, MemOut, ExOut, InstOf, MarkedIf, Retire, InId, Resolve, Unloaded, SourceA, SourceB,
         ControlOf, RdOf, FunctOf, JumpTarget, Plus4, NextPc, IfOut, Select;
  }

  // ----- The exit -----

  /** The program's end: instruction n is the exit syscall and it and everything
      before it is an instruction the pipeline may run. */
  ghost predicate EndsAt(a: Arch, n: nat) {
    Runs(a, n) && Ok(a, n) && Exits(Seq(a, n))
  }

  lemma EndsParts(a: Arch, n: nat)
    requires EndsAt(a, n)
    ensures Runs(a, n) && Ok(a, n) && Exits(Seq(a, n))
  {
    hide Runs, Ok, Exits, Seq;
  }

  /** The machine stops in exactly the tick in which the exit syscall commits,
      with the specification machine's registers. */
  lemma StopsOnTime(p: State, n: nat, t: nat)
    requires Initial(p) && EndsAt(StartOf(p), n)
    ensures t < Due(StartOf(p), n) ==> !Ticks(p, t).finished
    ensures t == Due(StartOf(p), n) ==>
              Ticks(p, t).finished && SameGpr(Ticks(p, t).regs, Seq(StartOf(p), n).regs) &&
              Ticks(p, t).cp0 == Seq(StartOf(p), n).cp0
  {
    hide *;
    var a0 := StartOf(p);
    EndsParts(a0, n);
    if t < Due(a0, n) {
      var k := Committed(a0, n, t);
      RunsLess(a0, n, k);
      Refines(p, k, t);
    } else if t == Due(a0, n) {
      var v := LastTick(p, n);
      ExitStep(Ticks(p, t - 1), a0, n, v);
      TicksSucc(p, t - 1);
    }
  }

  /** The state in which instruction n is about to be written back. */
  lemma LastTick(p: State, n: nat) returns (v: Occupancy)
    requires Initial(p) && Runs(StartOf(p), n)
    ensures var t := Due(StartOf(p), n) - 1;
            Inv(Ticks(p, t), StartOf(p), n, v) && TimedWb(t, StartOf(p), n, v) && v.wb
  {
    hide *;
    var a := StartOf(p);
    var t, c := Due(a, n) - 1, n;
    SinceBeforeDue(a, n);
    c, v := Track(p, n, t);
    SameInstruction(a, t, c, n);
    KeptAt(a, n, n);
    NotYetDue(t, a, n, v);
  }

  /** Instruction k's own tick: registers and CP0 as the specification machine
      leaves them. */
  lemma Commits(p: State, k: nat)
    requires Initial(p) && Runs(StartOf(p), k) && Ok(StartOf(p), k)
    ensures var q, b := Ticks(p, Due(StartOf(p), k)), Seq(StartOf(p), k + 1);
            SameGpr(q.regs, b.regs) && q.cp0 == b.cp0
  {
    hide *;
    var a, t := StartOf(p), Due(StartOf(p), k) - 1;
    var q := Ticks(p, t);
    var v := LastTick(p, k);
    TicksSucc(p, t);
    SeqSucc(a, k);
    TickKeeps(q);
    WbNow(q, a, k, v);
    ThreeOutcomes(Seq(a, k));
    if Retires(Seq(a, k)) {
      CommitStep(q, Seq(a, k), true);
      AfterOne(Seq(a, k));
    } else if Traps(Seq(a, k)) {
      TrapCommits(q, Seq(a, k));
    } else {
      ExitCommits(q, Seq(a, k));
    }
    SameGprTrans(Tick(q).regs, Retire(q).regs, Seq(a, k + 1).regs);
  }

  lemma WbNow(p: State, a: Arch, n: nat, v: Occupancy)
    requires Inv(p, a, n, v) && v.wb && Ok(a, n)
    ensures Base(p, Seq(a, n)) && WbHolds(p.memWb, Seq(a, n), true)
  {
    hide Ok, Seq, Base, WbHolds, Clear;
  }

  lemma AfterOne(a: Arch)
    ensures After(a, true) == Step(a)
  {
    hide Step;
  }

  lemma TickKeeps(p: State)
    ensures SameGpr(Tick(p).regs, Retire(p).regs) && Tick(p).cp0 == Retire(p).cp0
  {
    hide Retire, MemOut, ExOut, Decoded, Forward, IfOut, NextPc, Fetched;
  }

  /** The memory that the run leaves. The tick of the exit syscall still performs
      the memory access of the instruction behind it, which is the one after the
      exit in the specification machine's terms; so the final memory is the one at
      the exit exactly when that access changes no byte. */
  lemma FinalMemory(p: State, n: nat)
    requires Initial(p) && EndsAt(StartOf(p), n)
    requires Rd(InstOf(Seq(StartOf(p), n))) == 0 && Ok(StartOf(p), n + 1)
    ensures var a, last := StartOf(p), Ticks(p, Due(StartOf(p), n));
            last.finished && last.mem == Seq(a, n + 2).mem == AccessOf(Seq(a, n + 1)).mem &&
            (last.mem == Seq(a, n).mem <==> AccessOf(Seq(a, n + 1)).mem == Seq(a, n + 1).mem)
  {
    hide *;
    var a, t := StartOf(p), Due(StartOf(p), n) - 1;
    EndsParts(a, n);
    var v := LastTick(p, n);
    ExitWord(Seq(a, n));
    OkKept(a, n + 1);
    BehindExit(t, a, n, v);
    ExitStep(Ticks(p, t), a, n, v);
    TicksSucc(p, t);
    SeqSucc(a, n);
    SeqSucc(a, n + 1);
    StepMemory(Seq(a, n));
    StepMemory(Seq(a, n + 1));
    ExitKeepsMemory(Seq(a, n));
  }

  /** The exit is a SYSCALL word: an R-type word that names rd, and no load. */
  lemma ExitWord(a: Arch)
    requires Exits(a)
    ensures DestOf(InstOf(a)) == Rd(InstOf(a)) && Gap(a) == 1
  {
    hide InstOf;
  }

  lemma ExitKeepsMemory(a: Arch)
    requires Exits(a)
    ensures AccessOf(a).mem == a.mem
  {
    hide InstOf;
  }

  lemma BehindExit(t: nat, a: Arch, n: nat, v: Occupancy)
    requires TimedWb(t, a, n, v) && v.wb && Ok(a, n) && Exits(Seq(a, n)) && DestOf(InstOf(Seq(a, n))) == 0
    requires Due(a, n) == t + 1 && Gap(Seq(a, n)) == 1 && WordKept(a, n + 1)
    ensures v.ex
  {
    hide Ok, Seq, Due, Gap, WordKept, Exits, DestOf, InstOf;
    ThreeOutcomes(Seq(a, n));
    DueSucc(a, n);
  }
}
