/** Programs that do not meet `Hazards.Harmless`, with what the pipeline makes of
    them, and one that meets it although a forward is refused. */
module Counterexamples {
  import opened Words
  import opened Isa
  import opened Memory
  import opened Stages
  import opened Pipeline
  import opened Sequential
  import opened Schedule
  import opened Hazards
  import opened Timing
  import opened Correctness
  import opened ControlFlow
  import opened Clashes
  import opened Deviations
  import opened Instructions
  import opened Reference
  import opened Programs

  const ADDIU_RA_8: Word := 0x241F_0008
  const JAL_400: Word := 0x0C00_0100
  const ADDU_14_1_1: Word := 0x0021_7021
  const MTC0_1_12: Word := 0x4081_6000
  const ADDU_2_13_14: Word := 0x01AE_1021
  const MFC0_13_0: Word := 0x400D_0000
  const MFC0_2_12: Word := 0x4002_6000

  /** The schedule around the second word of a program that does not start with a
      load: the first is in EX_MEM when the second is decoded, MEM_WB is empty. */
  lemma SecondWord(a: Arch)
    requires Retires(Seq(a, 0)) && !ControlOf(InstOf(Seq(a, 0))).memRead
    ensures Due(a, 1) == 6 && AheadAt(a, 1, 1) == Some(0) && AheadAt(a, 1, 2) == None && InFlight(a, 1) == 1
    ensures Before(a, 1) == Seq(a, 0) && Ahead(a, 1, 1) == Some(InstOf(Seq(a, 0))) && Ahead(a, 1, 2) == None
  {
    hide Seq, InstOf, ControlOf, Due, SourceB, Rs, Rt, Retires, Traps;
    ThreeOutcomes(Seq(a, 0));
    NextDue(a, 0);
    FirstDue(a);
  }

  // ----- JAL behind a write of $ra -----

  const LINK_CLASH := [ADDIU_RA_8, JAL_400]

  lemma LinkFields()
    ensures var x := ADDIU_RA_8;
            Opcode(x) == OPCODE_ADDIU && Rs(x) == 0 && Rt(x) == REG_RA && Imm(x) == 8 && SignExtend(8) == 8 &&
            Supported(x) && !ControlOf(x).memRead && DestOf(x) == REG_RA && !IsMtc0(x)
    ensures var x := JAL_400;
            IsJal(x) && Rs(x) == 0 && Rt(x) == 0 && SourceA(x) == 0 && SourceB(x) == REG_RA && !IsMfc0(x) && !IsMtc0(x)
    ensures !IllegalForward(ADDIU_RA_8, JAL_400)
  {
  }

  lemma LinkDelivered(a: Arch)
    requires InstOf(Seq(a, 0)) == ADDIU_RA_8 && InstOf(Seq(a, 1)) == JAL_400
    requires AheadAt(a, 1, 1) == Some(0) && AheadAt(a, 1, 2) == None
    ensures DeliveredA(a, 1) == Plus4(Plus4(Seq(a, 1).Pc())) && DeliveredB(a, 1) == ExecOf(Seq(a, 0)).aluRes
    ensures !Ok(a, 1)
  {
    hide Seq, InstOf, AheadAt, ExecOf, Plus4, Before, DestOf, IsJal, IsMfc0, IsMtc0, SourceA, SourceB, IllegalForward,
         Rs, Rt, WordKept;
    LinkFields();
  }

  lemma AddiuResult(a: Arch)
    requires Opcode(InstOf(a)) == OPCODE_ADDIU
    ensures ExecOf(a).aluRes == Sum(a.regs[Rs(InstOf(a))], SignExtend(Imm(InstOf(a))))
  {
    hide InstOf, ExecOf, ControlOf, Rs, Imm, SignExtend;
    IControl(InstOf(a));
    ExecParts(a);
  }

  /** ADDIU $ra, $zero, 8 and then JAL, whose bits 20..16 name $zero: the address
      left in $ra is 8 too large. */
  lemma WrongLink(p: State)
    requires Loaded(p, LINK_CLASH) && !Overflows(Place(p.Pc(), 3), 8)
    ensures var a, link := StartOf(p), Place(p.Pc(), 3);
            Runs(a, 1) && !Ok(a, 1) && InstOf(Seq(a, 1)) == JAL_400 && Seq(a, 1).regs[Rt(JAL_400)] == 0 &&
            Plus4(Plus4(Seq(a, 1).Pc())) == link == Seq(a, 2).regs[REG_RA] && Due(a, 1) == 6 &&
            Ticks(p, 6).regs[REG_RA] == Sum(link, 8) != link
  {
    hide Seq, InstOf, Ticks, Due, Step, FetchWord, Place, Plus4, Ok, Runs, ExecOf, DeliveredA, DeliveredB, AheadAt,
         Ahead, Taken, Sum, Overflows, Retires, Before, InFlight, Opcode, Rs, Rt, Imm, SignExtend, Supported,
         ControlOf, Has, WordKept;
    var a, words := StartOf(p), LINK_CLASH;
    LinkFields();
    Starts(p, words);
    WordThere(p, words, 0);
    AddiuEffect(Seq(a, 0));
    SumZero(8);
    Advances(a, 0, SetRegister(REG_RA, 8));
    WordThere(p, words, 1);
    StandsOk(p, words, 0);
    StandsKept(a, 1);
    RunsNone(a);
    RunsOn(a, 0);
    SecondWord(a);
    LinkDelivered(a);
    AddiuResult(Seq(a, 0));
    PlaceSucc(p.Pc(), 1);
    PlaceSucc(p.Pc(), 2);
    JalLeaves(p, 1);
    WrapSumSame(Place(p.Pc(), 3), 8);
    SeqSucc(a, 1);
    JalMeans(Seq(a, 1));
  }

  lemma JalMeans(a: Arch)
    requires InstOf(a) == JAL_400 && a.regs[0] == 0
    ensures Step(a).regs[REG_RA] == Plus4(Plus4(a.Pc()))
  {
    hide InstOf, Step, Plus4, EffectOf, Overflows, JumpTarget, Retires, Low32;
    LinkFields();
    FlowMeaning(a);
    FlowEffect(a);
    NoOffset(Plus4(Plus4(a.Pc())));
  }

  lemma SumZero(x: Word)
    ensures Sum(0, x) == x
  {
  }

  // ----- Numbers that mean different registers -----

  const STALE := [ADDU_14_1_1, MTC0_1_12, ADDU_2_13_14]

  lemma StaleFields()
    ensures var x := ADDU_14_1_1;
            Opcode(x) == OPCODE_R && Funct(x) == FUNCT_ADDU && Rs(x) == 1 && Rt(x) == 1 && Rd(x) == 14 &&
            Supported(x) && !ControlOf(x).memRead && DestOf(x) == 14
    ensures var x := MTC0_1_12;
            IsMtc0(x) && x != INSTRUCTION_ERET && !IsMfc0(x) && Rt(x) == 1 && Rd(x) == 12 && Supported(x) &&
            !ControlOf(x).memRead && DestOf(x) == 13
    ensures Compatible(ADDU_14_1_1, MTC0_1_12)
  {
  }

  lemma SumFields()
    ensures var x := ADDU_2_13_14;
            Opcode(x) == OPCODE_R && Funct(x) == FUNCT_ADDU && Rs(x) == 13 && Rt(x) == 14 && Rd(x) == 2 &&
            Supported(x) && !IsJal(x) && !IsMfc0(x) && !IsMtc0(x) && SourceA(x) == 13 && SourceB(x) == 14
    ensures IllegalForward(MTC0_1_12, ADDU_2_13_14)
  {
  }

  lemma AdduComputes(a: Arch, k: nat)
    requires InstOf(Seq(a, k)) == ADDU_2_13_14
    ensures Computes(ADDU_2_13_14) && DestOf(ADDU_2_13_14) == 2
    ensures DeliveredException(a, k) == NoException
    ensures DeliveredResult(a, k) == Some(Sum(DeliveredA(a, k), DeliveredB(a, k)))
  {
    hide Seq, InstOf, DeliveredA, DeliveredB, Opcode, Funct, Rs, Rt, Rd;
    SumFields();
    RControl(ADDU_2_13_14);
  }

  /** The specification run of the first two words. */
  lemma StaleRun(p: State)
    requires Loaded(p, STALE)
    ensures var a := StartOf(p);
            Runs(a, 2) && Seq(a, 0) == a && Retires(Seq(a, 0)) && Retires(Seq(a, 1)) &&
            InstOf(Seq(a, 0)) == ADDU_14_1_1 && InstOf(Seq(a, 1)) == MTC0_1_12 && InstOf(Seq(a, 2)) == ADDU_2_13_14 &&
            Seq(a, 2).regs[13] == p.regs[13] && Seq(a, 2).regs[14] == Sum(p.regs[1], p.regs[1])
  {
    hide Seq, InstOf, Step, FetchWord, Place, Plus4, Ok, Runs, Sum, Retires, Opcode, Funct, Rs, Rt, Rd, Supported,
         ControlOf, Has, WordKept, Compatible, IsMtc0, IsMfc0, DestOf;
    var a, words := StartOf(p), STALE;
    StaleFields();
    Starts(p, words);
    WordThere(p, words, 0);
    AdduEffect(Seq(a, 0));
    Advances(a, 0, SetRegister(14, Sum(p.regs[1], p.regs[1])));
    WordThere(p, words, 1);
    Cp0Effect(Seq(a, 1));
    Advances(a, 1, SetCp0(13, Seq(a, 1).regs[1]));
    WordThere(p, words, 2);
    StandsOk(p, words, 0);
    StandsOk(p, words, 1);
    StandsKept(a, 1);
    StandsKept(a, 2);
    RunsNone(a);
    RunsOn(a, 0);
    RunsOn(a, 1);
  }

  /** Without loads, the two words before the third are in EX_MEM and MEM_WB. */
  lemma ThirdWord(a: Arch)
    requires Retires(Seq(a, 0)) && !ControlOf(InstOf(Seq(a, 0))).memRead
    requires Retires(Seq(a, 1)) && !ControlOf(InstOf(Seq(a, 1))).memRead
    ensures Due(a, 2) == 7 && AheadAt(a, 2, 1) == Some(1) && AheadAt(a, 2, 2) == Some(0) && InFlight(a, 2) == 2
    ensures Before(a, 2) == Seq(a, 0)
  {
    hide Seq, InstOf, ControlOf, Due, SourceB, Rs, Rt, Retires, Traps;
    ThreeOutcomes(Seq(a, 0));
    ThreeOutcomes(Seq(a, 1));
    NextDue(a, 0);
    NextDue(a, 1);
    FirstDue(a);
  }

  lemma StaleDelivered(a: Arch)
    requires InstOf(Seq(a, 0)) == ADDU_14_1_1 && InstOf(Seq(a, 1)) == MTC0_1_12 && InstOf(Seq(a, 2)) == ADDU_2_13_14
    requires AheadAt(a, 2, 1) == Some(1) && AheadAt(a, 2, 2) == Some(0) && Before(a, 2) == Seq(a, 0)
    ensures DeliveredA(a, 2) == Seq(a, 0).regs[13] && DeliveredB(a, 2) == Seq(a, 0).regs[14]
    ensures Refused(Ahead(a, 2, 2), Ahead(a, 2, 1), 13, ADDU_2_13_14) && !Ok(a, 2)
  {
    hide Seq, InstOf, AheadAt, ExecOf, AccessOf, Before, DestOf, IsJal, IsMfc0, IsMtc0, SourceA, SourceB,
         IllegalForward, Rs, Rt, WordKept, Opcode, Funct, Rd, Supported;
    StaleFields();
    SumFields();
    GivesFourteen();
  }

  lemma GivesFourteen()
    ensures Gives(Some(ADDU_14_1_1), false, 14)
  {
  }

  /** ADDU $14, $1, $1; MTC0 $1, $12; ADDU $2, $13, $14: CP0 register 12 has number
      13, its forward to $13 is refused, and with it the proper one to $14. The sum
      is right exactly when $14 already held what it is given. */
  lemma StaleOperand(p: State)
    requires Loaded(p, STALE)
    ensures var a, new14 := StartOf(p), Sum(p.regs[1], p.regs[1]);
            Runs(a, 2) && !Ok(a, 2) && Due(a, 2) == 7 && Seq(a, 2).regs[14] == new14 &&
            Ticks(p, 7).regs[2] == Sum(p.regs[13], p.regs[14]) && Seq(a, 3).regs[2] == Sum(p.regs[13], new14) &&
            (Ticks(p, 7).regs[2] == Seq(a, 3).regs[2] <==> p.regs[14] == new14)
  {
    hide Seq, InstOf, Ticks, Due, Step, FetchWord, Place, Plus4, Ok, Runs, DeliveredA, DeliveredB, AheadAt, Ahead,
         Sum, Retires, Before, InFlight, Opcode, Funct, Rs, Rt, Rd, Supported, ControlOf, Has, DestOf, IsMtc0, IsMfc0,
         SourceA, SourceB, IllegalForward, DeliveredResult, DeliveredException, Computes, Compatible, Loaded, Initial;
    var a := StartOf(p);
    LoadedStart(p, STALE);
    StaleRun(p);
    StaleFields();
    ThirdWord(a);
    StaleDelivered(a);
    AdduComputes(a, 2);
    Leaves(p, 2);
    SeqSucc(a, 2);
    AdduMeans(Seq(a, 2));
    SumCancels(p.regs[13], p.regs[14], Sum(p.regs[1], p.regs[1]));
  }

  lemma LoadedStart(p: State, words: seq<Word>)
    requires Loaded(p, words)
    ensures Initial(p) && StartOf(p).regs == p.regs && StartOf(p).cp0 == p.cp0
  {
    hide Initial, FetchWord, Place, Plus4;
  }

  lemma AdduMeans(a: Arch)
    requires InstOf(a) == ADDU_2_13_14
    ensures Retires(a) && Step(a).regs[2] == Sum(a.regs[13], a.regs[14])
  {
    hide InstOf, Step, Sum, Retires, Opcode, Funct, Rs, Rt, Rd;
    SumFields();
    AdduEffect(a);
  }

  lemma SumCancels(x: Word, y: Word, z: Word)
    ensures Sum(x, y) == Sum(x, z) <==> y == z
  {
  }

  // ----- MFC0 behind a write of a general register of the same number -----

  const FOREIGN := [MFC0_13_0, MFC0_2_12]

  lemma ForeignFields()
    ensures var x := MFC0_13_0;
            IsMfc0(x) && x != INSTRUCTION_ERET && !IsMtc0(x) && Rt(x) == 13 && Rd(x) == 0 && Supported(x) &&
            !ControlOf(x).memRead && DestOf(x) == 13
    ensures var x := MFC0_2_12;
            IsMfc0(x) && x != INSTRUCTION_ERET && !IsJal(x) && !IsMtc0(x) && Rt(x) == 2 && Rd(x) == 12 &&
            SourceA(x) == 13 && SourceB(x) == 0 && Supported(x)
    ensures !IllegalForward(MFC0_13_0, MFC0_2_12)
  {
  }

  lemma Mfc0Computes(a: Arch, k: nat)
    requires InstOf(Seq(a, k)) == MFC0_2_12
    ensures Computes(MFC0_2_12) && DestOf(MFC0_2_12) == 2 && DeliveredException(a, k) == NoException
    ensures DeliveredResult(a, k) == Some(Sum(DeliveredA(a, k), DeliveredB(a, k)))
  {
    hide Seq, InstOf, DeliveredA, DeliveredB;
  }

  lemma Mfc0Result(a: Arch)
    requires InstOf(a) == MFC0_13_0
    ensures ExecOf(a).aluRes == a.cp0[1]
  {
    hide InstOf, ExecOf;
    ExecParts(a);
  }

  lemma ForeignDelivered(a: Arch)
    requires InstOf(Seq(a, 0)) == MFC0_13_0 && InstOf(Seq(a, 1)) == MFC0_2_12
    requires AheadAt(a, 1, 1) == Some(0) && AheadAt(a, 1, 2) == None
    ensures DeliveredA(a, 1) == ExecOf(Seq(a, 0)).aluRes && DeliveredB(a, 1) == 0 && !Ok(a, 1)
  {
    hide Seq, InstOf, AheadAt, ExecOf, Before, DestOf, IsJal, IsMfc0, IsMtc0, SourceA, SourceB, IllegalForward, Rs,
         Rt, Rd, WordKept, Supported;
    ForeignFields();
  }

  /** MFC0 $13, $0; MFC0 $2, $12: the second reads CP0 register 12, number 13, and is
      given the new $13 instead. It is right exactly when the two CP0 registers
      hold the same. */
  lemma ForeignOperand(p: State)
    requires Loaded(p, FOREIGN)
    ensures var a := StartOf(p);
            Runs(a, 1) && !Ok(a, 1) && Due(a, 1) == 6 && Ticks(p, 6).regs[2] == p.cp0[1] &&
            Seq(a, 2).regs[2] == p.cp0[13] && (Ticks(p, 6).regs[2] == Seq(a, 2).regs[2] <==> p.cp0[1] == p.cp0[13])
  {
    hide Seq, InstOf, Ticks, Due, Step, FetchWord, Place, Plus4, Ok, Runs, DeliveredA, DeliveredB, AheadAt, Ahead,
         ExecOf, Sum, Retires, Before, InFlight, Rt, Rd, Supported, ControlOf, Has, DestOf, IsMtc0, IsMfc0, Computes,
         SourceA, SourceB, IllegalForward, DeliveredResult, DeliveredException, Compatible, Loaded, Initial, WordKept,
         Stands;
    var a, words := StartOf(p), FOREIGN;
    LoadedStart(p, words);
    ForeignFields();
    Starts(p, words);
    WordThere(p, words, 0);
    Cp0Effect(Seq(a, 0));
    Advances(a, 0, SetRegister(13, p.cp0[1]));
    WordThere(p, words, 1);
    StandsOk(p, words, 0);
    StandsKept(a, 1);
    RunsNone(a);
    RunsOn(a, 0);
    SecondWord(a);
    Mfc0Result(Seq(a, 0));
    ForeignDelivered(a);
    Mfc0Computes(a, 1);
    Leaves(p, 1);
    SumRight(p.cp0[1]);
    Cp0Effect(Seq(a, 1));
    Advances(a, 1, SetRegister(2, p.cp0[13]));
  }

  lemma SumRight(x: Word)
    ensures Sum(x, 0) == x
  {
  }

  // ----- A refused forward that does no harm -----

  const REFUSED := [MTC0_1_12, ADDU_2_13_14]

  lemma RefusedFields()
    ensures !Compatible(MTC0_1_12, ADDU_2_13_14) && Refused(None, Some(MTC0_1_12), 13, ADDU_2_13_14)
    ensures Harmless(None, Some(MTC0_1_12), ADDU_2_13_14)
  {
  }

  /** MTC0 $1, $12 and then ADDU $2, $13, $14, with nothing else in flight: the
      words are not compatible and the forward to $13 is refused, but both operands
      come from the registers, where they are. The run theorems apply. */
  lemma RefusedHarmless(p: State)
    requires Loaded(p, REFUSED)
    ensures var a := StartOf(p);
            Runs(a, 1) && Ok(a, 1) && !Compatible(MTC0_1_12, ADDU_2_13_14) &&
            Select(13, ADDU_2_13_14, ExOut(Ticks(p, 2)), MemOut(Ticks(p, 2)).latch).Illegal? &&
            Ticks(p, 6).regs[2] == Sum(p.regs[13], p.regs[14])
  {
    hide Seq, InstOf, Ticks, Due, Step, FetchWord, Place, Plus4, Ok, Runs, AheadAt, Ahead, Harmless, Refused, Sum,
         Retires, Before, InFlight, Rt, Rd, Supported, ControlOf, Has, DestOf, IsMtc0, IsMfc0, ExOut, MemOut,
         Compatible, Loaded, Initial, WordKept, Stands, Select, Opcode, Funct, Rs, Decoded;
    var a, words := StartOf(p), REFUSED;
    LoadedStart(p, words);
    StaleFields();
    SumFields();
    RefusedFields();
    Starts(p, words);
    WordThere(p, words, 0);
    Cp0Effect(Seq(a, 0));
    Advances(a, 0, SetCp0(13, p.regs[1]));
    WordThere(p, words, 1);
    StandsOk(p, words, 0);
    StandsKept(a, 1);
    RunsNone(a);
    RunsOn(a, 0);
    SecondWord(a);
    HarmlessOk(a, 1);
    RefusedForwards(p, 1, 13);
    Commits(p, 1);
    SeqSucc(a, 1);
    AdduMeans(Seq(a, 1));
  }

  lemma HarmlessOk(a: Arch, n: nat)
    requires Supported(InstOf(Seq(a, n))) && WordKept(a, n)
    requires Harmless(Ahead(a, n, 2), Ahead(a, n, 1), InstOf(Seq(a, n)))
    ensures Ok(a, n)
  {
    hide Supported, InstOf, Seq, WordKept, Harmless, Ahead;
  }
}
