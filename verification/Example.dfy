/** Programs to which the run theorems apply, with their results and tick counts. */
module Example {
  import opened Words
  import opened Isa
  import opened Memory
  import opened Stages
  import opened Pipeline
  import opened Sequential
  import opened Schedule
  import opened Hazards
  import opened Matching
  import opened Timing
  import opened Exceptions
  import opened ControlFlow
  import opened Instructions
  import opened Reference
  import MemoryModel
  import opened Programs

  const ADDIU_V0_10: Word := 0x2402_000A
  const SYSCALL_WORD: Word := 0x0000_000C
  const SW_V0_T0: Word := 0xAD02_0000
  const LW_V0_T0: Word := 0x8D02_0000
  const ADDU_4_2_2: Word := 0x0042_2021

  lemma AddiuFields()
    ensures var x := ADDIU_V0_10;
            Opcode(x) == OPCODE_ADDIU && Rs(x) == 0 && Rt(x) == REG_V0 && Imm(x) == 10 && SignExtend(10) == 10 &&
            Supported(x) && !ControlOf(x).memRead
  {
  }

  lemma SyscallFields()
    ensures var x := SYSCALL_WORD;
            Opcode(x) == OPCODE_R && Funct(x) == FUNCT_SYSCALL && Rd(x) == 0 && Supported(x)
  {
  }

  // ----- The smallest program: set $v0 to 10 and exit -----

  const EXIT := [ADDIU_V0_10, SYSCALL_WORD]

  lemma SetsV0(p: State, words: seq<Word>, i: nat)
    requires Loaded(p, words) && Stands(StartOf(p), i) && i < |words| && words[i] == ADDIU_V0_10
    ensures var a := StartOf(p);
            Stands(a, i + 1) && Retires(Seq(a, i)) && Seq(a, i + 1).cp0 == Seq(a, i).cp0 &&
            Seq(a, i + 1).regs == Seq(a, i).regs[REG_V0 := 10][REG_PC := Place(a.Pc(), i + 1)]
  {
    hide Seq, FetchWord, Place, Has, InstOf, Retires, Step, Opcode, Rs, Rt, Imm, SignExtend, Supported, ControlOf;
    WordThere(p, words, i);
    AddiuFields();
    AddiuEffect(Seq(StartOf(p), i));
    Advances(StartOf(p), i, SetRegister(REG_V0, 10));
  }

  lemma ExitsHere(p: State, words: seq<Word>, i: nat)
    requires Loaded(p, words) && Stands(StartOf(p), i) && i < |words| && words[i] == SYSCALL_WORD
    requires Seq(StartOf(p), i).regs[REG_V0] == 10
    ensures Exits(Seq(StartOf(p), i)) && Has(Seq(StartOf(p), i), Quit)
  {
    hide Seq, FetchWord, Place, InstOf, Exits, Step, Opcode, Funct, Rd, Supported;
    WordThere(p, words, i);
    SyscallFields();
    SyscallEffect(Seq(StartOf(p), i));
  }

  lemma ExitPairs()
    ensures Compatible(ADDIU_V0_10, SYSCALL_WORD)
  {
  }

  /** A program that begins with those two words ends at the second, in tick 6. */
  lemma Ends(p: State, words: seq<Word>)
    requires Loaded(p, words) && EXIT <= words
    ensures EndsAt(StartOf(p), 1) && Due(StartOf(p), 1) == 6
    ensures var a := StartOf(p);
            Stands(a, 0) && Stands(a, 1) && Has(Seq(a, 1), Quit) && InstOf(Seq(a, 1)) == SYSCALL_WORD &&
            Seq(a, 1).regs == p.regs[REG_V0 := 10][REG_PC := Place(p.Pc(), 1)]
  {
    hide Seq, FetchWord, Place, InstOf, Exits, Retires, Traps, Step, Due, Ok, Supported, Compatible, ControlOf,
         WordKept, Has, Stands;
    var a := StartOf(p);
    AddiuFields();
    SyscallFields();
    ExitPairs();
    Starts(p, words);
    assert words[0] == EXIT[0] && words[1] == EXIT[1];
    SetsV0(p, words, 0);
    ExitsHere(p, words, 1);
    StandsOk(p, words, 0);
    StandsOk(p, words, 1);
    OkParts(a, 1);
    RunsNone(a);
    RunsOn(a, 0);
    WordThere(p, words, 0);
    WordThere(p, words, 1);
    ThreeOutcomes(Seq(a, 0));
    NextDue(a, 0);
    FirstDue(a);
  }

  // ----- A store behind the exit -----

  const EXIT_THEN_STORE := [ADDIU_V0_10, SYSCALL_WORD, SW_V0_T0]

  lemma StoreFields()
    ensures var x := SW_V0_T0;
            Opcode(x) == OPCODE_SW && Rs(x) == 8 && Rt(x) == REG_V0 && Imm(x) == 0 && Supported(x)
    ensures Compatible(ADDIU_V0_10, SW_V0_T0) && Compatible(SYSCALL_WORD, SW_V0_T0)
  {
  }

  lemma BeyondExit(a: Arch, i: nat)
    requires Stands(a, i) && Has(Seq(a, i), Quit)
    ensures Stands(a, i + 1) && Seq(a, i + 1).regs == Seq(a, i).regs[REG_PC := Place(a.Pc(), i + 1)]
  {
    hide Seq, Step, Place, Low32, Exits;
    SeqSucc(a, i);
    PlaceSucc(a.Pc(), i + 1);
  }

  /** The specification run, one word past the exit. */
  lemma StoreRun(p: State)
    requires Loaded(p, EXIT_THEN_STORE)
    ensures var a := StartOf(p);
            EndsAt(a, 1) && Due(a, 1) == 6 && Ok(a, 2) && InstOf(Seq(a, 1)) == SYSCALL_WORD && Seq(a, 1).mem == p.mem &&
            Seq(a, 2).mem == p.mem && Seq(a, 2).regs[8] == p.regs[8] && Seq(a, 2).regs[REG_V0] == 10 &&
            InstOf(Seq(a, 2)) == SW_V0_T0
  {
    hide Seq, FetchWord, Place, InstOf, Step, Due, Ok, Supported, Compatible, WordKept, Has, EndsAt, Plus4;
    var a, words := StartOf(p), EXIT_THEN_STORE;
    assert EXIT <= words;
    Ends(p, words);
    StoreFields();
    BeyondExit(a, 1);
    StandsOk(p, words, 2);
    WordThere(p, words, 2);
  }

  /** The program ends, but memory is not the specification's: the word at the
      address in $t0 has become 10, although the store stands behind the exit. */
  lemma StoresAfterExit(p: State)
    requires Loaded(p, EXIT_THEN_STORE)
    ensures var a, last := StartOf(p), Ticks(p, 6);
            EndsAt(a, 1) && Due(a, 1) == 6 && last.finished && Seq(a, 1).mem == p.mem &&
            last.mem == Memory.Write(p.mem, p.regs[8], 10, OpWord).mem &&
            (Plain(|p.mem|, p.regs[8], OpWord) ==> FetchWord(last.mem, p.regs[8]) == 10)
  {
    hide Seq, Step, FetchWord, Ticks, Due, Ok, EndsAt, InstOf, Loaded, Initial, Memory.Write, Plain, Place, AccessOf,
         StartOf;
    var a := StartOf(p);
    StoreRun(p);
    SyscallFields();
    LoadedInitial(p, EXIT_THEN_STORE);
    FinalMemory(p, 1);
    StoreHere(Seq(a, 2));
    SeqSucc(a, 2);
    if Plain(|p.mem|, p.regs[8], OpWord) { ReadsBack(p.mem, p.regs[8]); }
  }

  lemma LoadedInitial(p: State, words: seq<Word>)
    requires Loaded(p, words)
    ensures Initial(p)
  {
    hide Initial, FetchWord, Place;
  }

  lemma StoreHere(a: Arch)
    requires InstOf(a) == SW_V0_T0 && a.regs[REG_V0] == 10
    ensures Step(a).mem == Memory.Write(a.mem, a.regs[8], 10, OpWord).mem
  {
    hide InstOf, Step, Memory.Write, Opcode, Rs, Rt, Imm, Supported, Record, Low32, Traps, Retires;
    StoreFields();
    SwEffect(a);
    WriteIs(a.mem, a.regs[8], 10, OpWord);
  }

  lemma ReadsBack(mem: seq<Byte>, vaddr: Word)
    requires Plain(|mem|, vaddr, OpWord)
    ensures FetchWord(Memory.Write(mem, vaddr, 10, OpWord).mem, vaddr) == 10
  {
    hide Plain, Read, Memory.Write;
    MemoryModel.ReadBack(mem, vaddr, 10, OpWord);
  }

  // ----- A load-use stall -----

  const LOAD_USE := [LW_V0_T0, ADDU_4_2_2, ADDIU_V0_10, SYSCALL_WORD]

  lemma LoadFields()
    ensures var x := LW_V0_T0;
            Opcode(x) == OPCODE_LW && Rs(x) == 8 && Rt(x) == REG_V0 && Imm(x) == 0 && Supported(x) &&
            ControlOf(x).memRead && SourceB(x) == REG_V0
    ensures var x := ADDU_4_2_2;
            Opcode(x) == OPCODE_R && Funct(x) == FUNCT_ADDU && Rs(x) == 2 && Rt(x) == 2 && Rd(x) == 4 && Supported(x) &&
            !ControlOf(x).memRead
    ensures Compatible(LW_V0_T0, ADDU_4_2_2) && Compatible(LW_V0_T0, ADDIU_V0_10)
    ensures Compatible(ADDU_4_2_2, ADDIU_V0_10) && Compatible(ADDU_4_2_2, SYSCALL_WORD)
  {
  }

  /** The specification run: double the word at the address in $t0, then exit. */
  lemma LoadUseRun(p: State)
    requires Loaded(p, LOAD_USE)
    ensures var a, x := StartOf(p), FetchWord(p.mem, p.regs[8]);
            Stands(a, 0) && Stands(a, 1) && Stands(a, 2) && Stands(a, 3) && Retires(Seq(a, 0)) && Retires(Seq(a, 1)) &&
            Retires(Seq(a, 2)) && Exits(Seq(a, 3)) && Seq(a, 3).regs[4] == Sum(x, x)
  {
    hide Seq, FetchWord, Place, InstOf, Exits, Retires, Step, Supported, Compatible, ControlOf, Has, Opcode, Funct,
         Rs, Rt, Rd, Imm, Sum, Stands;
    var a, words, x := StartOf(p), LOAD_USE, FetchWord(p.mem, p.regs[8]);
    LoadFields();
    Starts(p, words);
    WordThere(p, words, 0);
    LwEffect(Seq(a, 0));
    Advances(a, 0, SetRegister(REG_V0, x));
    WordThere(p, words, 1);
    AdduEffect(Seq(a, 1));
    Advances(a, 1, SetRegister(4, Sum(x, x)));
    SetsV0(p, words, 2);
    ExitsHere(p, words, 3);
  }

  /** In the pipeline it takes one tick more than the four words need, for the
      bubble behind the load, and $4 ends up with the doubled word. */
  lemma StallsOnce(p: State)
    requires Loaded(p, LOAD_USE)
    ensures var a, x, last := StartOf(p), FetchWord(p.mem, p.regs[8]), Ticks(p, 9);
            EndsAt(a, 3) && Due(a, 0) == 5 && Due(a, 1) == 7 && Due(a, 3) == 9 &&
            !Ticks(p, 8).finished && last.finished && last.regs[4] == Sum(x, x)
  {
    hide Seq, FetchWord, Place, InstOf, Exits, Retires, Traps, Step, Due, Ok, Supported, Compatible, ControlOf,
         WordKept, Stands, Ticks, Sum, SourceB, Rs, Rt;
    var a, words := StartOf(p), LOAD_USE;
    LoadUseRun(p);
    LoadFields();
    AddiuFields();
    SyscallFields();
    ExitPairs();
    StandsOk(p, words, 0);
    StandsOk(p, words, 1);
    StandsOk(p, words, 2);
    StandsOk(p, words, 3);
    OkParts(a, 1);
    OkParts(a, 2);
    OkParts(a, 3);
    RunsNone(a);
    RunsOn(a, 0);
    RunsOn(a, 1);
    RunsOn(a, 2);
    forall i: nat | i < 4 ensures InstOf(Seq(a, i)) == words[i] { WordThere(p, words, i); }
    FirstDue(a);
    LineDue(a, 0);
    LineDue(a, 1);
    LineDue(a, 2);
    StopsOnTime(p, 3, 8);
    StopsOnTime(p, 3, 9);
  }

  lemma LineDue(a: Arch, n: nat)
    requires Retires(Seq(a, n))
    ensures var x, y := InstOf(Seq(a, n)), InstOf(Seq(a, n + 1));
            Due(a, n + 1) == Due(a, n) + if ControlOf(x).memRead && SourceB(x) in {Rs(y), Rt(y)} then 2 else 1
  {
    hide *;
    ThreeOutcomes(Seq(a, n));
    NextDue(a, n);
  }

  // ----- An exception and the way back -----

  const TRAP := [SYSCALL_WORD, ADDIU_V0_10, SYSCALL_WORD]

  /** The handler is a lone ERET. */
  ghost predicate TrapProgram(p: State) {
    Loaded(p, TRAP) && FetchWord(p.mem, EXCEPTION_VECTOR) == INSTRUCTION_ERET &&
    p.regs[REG_V0] != 10 && p.cp0[REG_SR] == 1
  }

  /** The state the handler finds, and the one it returns to. */
  function InHandler(a: Arch): Arch {
    Restart(a, 0x8000_0080, a.cp0[13 := 3][15 := Low32(a.Pc() + 4)][17 := 8])
  }

  function Returned(a: Arch): Arch {
    Restart(a, Low32(a.Pc() + 4), InHandler(a).cp0[13 := 1])
  }

  lemma TrapStep(a: Arch)
    requires InstOf(a) == SYSCALL_WORD && a.regs[REG_V0] != 10 && !a.delay && a.cp0[REG_SR] == 1
    ensures Raises(a) && Step(a) == InHandler(a)
  {
    hide InstOf, Step, Opcode, Funct, Traps, Low32, Supported;
    SyscallFields();
    SyscallEffect(a);
    assert InstOf(a) != INSTRUCTION_ERET;
  }

  lemma HandlerStep(a: Arch)
    requires InstOf(InHandler(a)) == INSTRUCTION_ERET
    ensures Traps(InHandler(a)) && Step(InHandler(a)) == Returned(a)
  {
    hide InstOf, Step, Traps, Low32;
    var b := InHandler(a);
    StepReturns(b);
    assert b.cp0[15] == Low32(a.Pc() + 4);
    assert b.regs[32 := Low32(a.Pc() + 4)] == a.regs[32 := Low32(a.Pc() + 4)];
  }

  /** The specification run: trap, return behind the trap, set $v0, exit. */
  lemma TrapRun(p: State)
    requires TrapProgram(p)
    ensures var a := StartOf(p);
            Raises(a) && Seq(a, 0) == a && Seq(a, 1) == InHandler(a) && InstOf(Seq(a, 1)) == INSTRUCTION_ERET &&
            Traps(Seq(a, 1)) && Seq(a, 2) == Returned(a) && InstOf(Seq(a, 2)) == ADDIU_V0_10 && Retires(Seq(a, 2)) &&
            Seq(a, 3).mem == a.mem && Seq(a, 3).regs[REG_V0] == 10 && InstOf(Seq(a, 3)) == SYSCALL_WORD &&
            Exits(Seq(a, 3)) && InstOf(a) == SYSCALL_WORD
  {
    hide FetchWord, Step, Plus4, Traps, Retires, Exits, Raises, Seq, Opcode, Funct, Rs, Rt, Imm, SignExtend,
         Supported, ControlOf, Low32;
    var a := StartOf(p);
    Starts(p, TRAP);
    assert FetchWord(p.mem, Place(p.Pc(), 0)) == TRAP[0] && FetchWord(p.mem, Place(p.Pc(), 1)) == TRAP[1];
    assert FetchWord(p.mem, Place(p.Pc(), 2)) == TRAP[2];
    PlaceSucc(p.Pc(), 0);
    PlaceSucc(p.Pc(), 1);
    SeqSucc(a, 0);
    SeqSucc(a, 1);
    SeqSucc(a, 2);
    TrapStep(a);
    HandlerStep(a);
    AddiuFields();
    AddiuEffect(Returned(a));
    SyscallFields();
    SyscallEffect(Seq(a, 3));
  }

  lemma TrapPairs()
    ensures Compatible(SYSCALL_WORD, ADDIU_V0_10) && Compatible(INSTRUCTION_ERET, ADDIU_V0_10)
    ensures Compatible(INSTRUCTION_ERET, SYSCALL_WORD) && Compatible(ADDIU_V0_10, SYSCALL_WORD)
  {
  }

  lemma TrapOk(p: State)
    requires TrapProgram(p)
    ensures var a := StartOf(p); Ok(a, 0) && Ok(a, 1) && Ok(a, 2) && Ok(a, 3)
  {
    hide FetchWord, Step, Plus4, Traps, Retires, Exits, Seq, Supported, Compatible, InHandler, Returned, WordKept, Ok,
         InstOf, Place;
    var a := StartOf(p);
    TrapRun(p);
    TrapPairs();
    AddiuFields();
    SyscallFields();
    Starts(p, TRAP);
    StandsOk(p, TRAP, 0);
    RaisesTraps(a);
    TrapKept(a, 0);
    EretOk(a, 1);
    TrapKept(a, 1);
    CompatibleOk(a, 2);
    SameMemory(a);
    QuietKept(a);
    CompatibleOk(a, 3);
  }

  /** The last word is kept: nothing before it stores. */
  lemma QuietKept(a: Arch)
    requires Seq(a, 3).mem == a.mem && Seq(a, 2).mem == a.mem && Seq(a, 1).mem == a.mem
    ensures WordKept(a, 3)
  {
    hide FetchWord, Step, Traps, Seq;
    SeqSucc(a, 1);
    SeqSucc(a, 2);
  }

  lemma SameMemory(a: Arch)
    ensures InHandler(a).mem == a.mem && Returned(a).mem == a.mem
  {
  }

  /** In the pipeline: the trap is taken in tick 5, with Cause 8 and the word at
      0x80000080 already fetched; ERET returns in tick 9 with EXL cleared again and
      the word behind the trap already fetched, and the program ends in tick 14. */
  lemma TrapsAndReturns(p: State)
    requires TrapProgram(p)
    ensures var a, taken, back, last := StartOf(p), Ticks(p, 5), Ticks(p, 9), Ticks(p, 14);
            EndsAt(a, 3) && Due(a, 0) == 5 && Due(a, 1) == 9 && Due(a, 2) == 13 && Due(a, 3) == 14 &&
            taken.cp0[17] == 8 && taken.cp0[15] == Place(p.Pc(), 1) && taken.cp0[13] == 3 &&
            taken.ifId.inst == FetchWord(taken.mem, 0x8000_0080) && taken.Pc() == 0x8000_0084 &&
            back.ifId.inst == FetchWord(back.mem, Place(p.Pc(), 1)) && back.cp0[13] == 1 && back.mem == p.mem &&
            last.finished && last.regs[REG_V0] == 10
  {
    hide FetchWord, Step, Plus4, Traps, Retires, Exits, Raises, Seq, Ticks, Due, Ok, Runs, EndsAt, InstOf, Supported,
         Place, WordKept, Initial, Loaded, IdleWb, IdleEx, IdleId;
    var a := StartOf(p);
    TrapRun(p);
    TrapOk(p);
    RaisesTraps(a);
    TrapRuns(a);
    TrapDue(a);
    LoadedInitial(p, TRAP);
    RunsNone(a);
    PreciseException(p, 0);
    SeqSucc(a, 0);
    PlaceSucc(p.Pc(), 0);
    RoundTrip(p, 0, 1);
    StopsOnTime(p, 3, 14);
  }

  lemma TrapRuns(a: Arch)
    requires Ok(a, 0) && Ok(a, 1) && Ok(a, 2) && Ok(a, 3)
    requires Traps(Seq(a, 0)) && Traps(Seq(a, 1)) && Retires(Seq(a, 2)) && Exits(Seq(a, 3))
    ensures Runs(a, 1) && EndsAt(a, 3)
  {
    hide Traps, Retires, Exits, Seq, Ok, WordKept, Runs;
    OkParts(a, 1);
    OkParts(a, 2);
    OkParts(a, 3);
    RunsNone(a);
    RunsOn(a, 0);
    RunsOn(a, 1);
    RunsOn(a, 2);
  }

  lemma TrapDue(a: Arch)
    requires Traps(Seq(a, 0)) && Traps(Seq(a, 1)) && Retires(Seq(a, 2)) && InstOf(Seq(a, 2)) == ADDIU_V0_10
    ensures Due(a, 0) == 5 && Due(a, 1) == 9 && Due(a, 2) == 13 && Due(a, 3) == 14
  {
    hide Traps, Retires, Seq, Due, InstOf, ControlOf, Supported;
    FirstDue(a);
    FlushGap(a, 0);
    FlushGap(a, 1);
    AddiuFields();
    LineDue(a, 2);
  }
}
