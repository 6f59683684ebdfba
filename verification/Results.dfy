/** What the pipelined core leaves behind, in numbers: results, addresses, targets
    and stalls of the instructions of a run, straight from the bits of their words. */
module Results {
  import opened Words
  import opened Isa
  import opened Latches
  import opened Memory
  import opened Stages
  import opened Pipeline
  import opened Sequential
  import opened Schedule
  import opened Hazards
  import opened Matching
  import opened Refinement
  import opened Timing
  import opened Correctness
  import opened ControlFlow
  import opened Instructions
  import opened Reference

  /** Every instruction of a run: the tick in which it commits leaves the registers
      and CP0, and the tick before it the memory, of its written-down effect. */
  lemma InRun(p: State, k: nat)
    requires Initial(p) && Runs(StartOf(p), k) && Ok(StartOf(p), k)
    ensures var a := Seq(StartOf(p), k);
            var b, due := Apply(a, EffectOf(a)), Due(StartOf(p), k);
            var before, after := Ticks(p, due - 1), Ticks(p, due);
            SameGpr(after.regs, b.regs) && after.cp0 == b.cp0 && before.mem == b.mem && EndsAs(a, EffectOf(a))
  {
    hide Initial, Runs, Ok, StartOf, Seq, Step, Due, Ticks, Apply, EffectOf, SameGpr, EndsAs, Supported, InstOf;
    var a := StartOf(p);
    OkKept(a, k);
    StepIsMeaning(Seq(a, k));
    SeqSucc(a, k);
    Commits(p, k);
    SinceBeforeDue(a, k);
    Refines(p, k, Due(a, k) - 1);
  }

  /** The number of an immediate field. */
  function Number(w: Word): int {
    w % 0x1_0000 - if w % 0x1_0000 < 0x8000 then 0 else 0x1_0000
  }

  /** The registers that bits 25..21 and 20..16 name. */
  function RsOf(a: Arch): Word { a.regs[InstOf(a) / 0x20_0000 % 32] }
  function RtOf(a: Arch): Word { a.regs[InstOf(a) / 0x1_0000 % 32] }

  lemma ImmediateIs(a: Arch)
    requires InstOf(a) / 0x400_0000 == 0x09
    ensures EffectOf(a) == SetRegister(InstOf(a) / 0x1_0000 % 32, Wrap(RsOf(a) + Number(InstOf(a))))
  {
    hide InstOf;
  }

  lemma ComparisonIs(a: Arch)
    requires InstOf(a) / 0x400_0000 == 0 && InstOf(a) % 0x40 == 0x2A
    ensures EffectOf(a) ==
              SetRegister(InstOf(a) / 0x800 % 32,
                          if Wrap(RsOf(a) + 0x8000_0000) < Wrap(RtOf(a) + 0x8000_0000) then 1 else 0)
  {
    hide InstOf;
  }

  /** ADDIU adds the number of its immediate, modulo 2 to the 32. */
  lemma ImmediateResult(p: State, k: nat)
    requires Initial(p) && Runs(StartOf(p), k) && Ok(StartOf(p), k)
    requires var w := InstOf(Seq(StartOf(p), k)); w / 0x400_0000 == 0x09 && w / 0x1_0000 % 32 != 0
    ensures var a := Seq(StartOf(p), k);
            Ticks(p, Due(StartOf(p), k)).regs[InstOf(a) / 0x1_0000 % 32] == Wrap(RsOf(a) + Number(InstOf(a)))
  {
    hide Initial, Runs, Ok, StartOf, Seq, Due, Ticks, InstOf, Wrap, Low32, EffectOf, RsOf, Number;
    InRun(p, k);
    ImmediateIs(Seq(StartOf(p), k));
  }

  /** SLT compares as numbers with a sign: shifted by half the range, as words. */
  lemma ComparisonResult(p: State, k: nat)
    requires Initial(p) && Runs(StartOf(p), k) && Ok(StartOf(p), k)
    requires var w := InstOf(Seq(StartOf(p), k));
             w / 0x400_0000 == 0 && w % 0x40 == 0x2A && w / 0x800 % 32 != 0
    ensures var a := Seq(StartOf(p), k);
            Ticks(p, Due(StartOf(p), k)).regs[InstOf(a) / 0x800 % 32] ==
              if Wrap(RsOf(a) + 0x8000_0000) < Wrap(RtOf(a) + 0x8000_0000) then 1 else 0
  {
    hide Initial, Runs, Ok, StartOf, Seq, Due, Ticks, InstOf, Wrap, Low32, EffectOf, RsOf, RtOf;
    InRun(p, k);
    ComparisonIs(Seq(StartOf(p), k));
  }

  /** The number of a word, and whether base plus immediate is a 32-bit number. */
  function SignedNumber(w: Word): int { (w + 0x8000_0000) % 0x1_0000_0000 - 0x8000_0000 }

  predicate InReach(a: Arch) {
    -0x8000_0000 <= SignedNumber(RsOf(a)) + Number(InstOf(a)) < 0x8000_0000
  }

  function AddressOf(a: Arch): Word { Wrap(RsOf(a) + Number(InstOf(a))) }

  lemma LoadIs(a: Arch)
    requires InstOf(a) / 0x400_0000 == 0x23
    ensures EffectOf(a) == if InReach(a) then SetRegister(InstOf(a) / 0x1_0000 % 32, FetchWord(a.mem, AddressOf(a)))
                           else Raise(12)
  {
    hide InstOf, FetchWord, MergeLeft, MergeRight;
  }

  lemma StoreIs(a: Arch)
    requires InstOf(a) / 0x400_0000 == 0x2B
    ensures EffectOf(a) == if !InReach(a) then Raise(12)
                           else if 0xFFFE_0000 <= AddressOf(a) < 0xFFFF_0000 then Raise(5)
                           else SetMemory(Memory.Write(a.mem, AddressOf(a), RtOf(a), OpWord).mem)
  {
    hide InstOf, FetchWord, Memory.Write, StoreLeft, StoreRight;
  }

  lemma RaisedState(a: Arch, code: Code)
    ensures var b := Apply(a, Raise(code));
            SameGpr(b.regs, a.regs) && b.mem == a.mem && b.cp0[17] % 0x8000_0000 == code
  {
    hide Low32, HandlerAt;
  }

  /** LW reads at base plus number, unless the sum is no 32-bit number: then it
      raises the overflow exception and changes no register. */
  lemma LoadResult(p: State, k: nat)
    requires Initial(p) && Runs(StartOf(p), k) && Ok(StartOf(p), k)
    requires var w := InstOf(Seq(StartOf(p), k)); w / 0x400_0000 == 0x23 && w / 0x1_0000 % 32 != 0
    ensures var a, after := Seq(StartOf(p), k), Ticks(p, Due(StartOf(p), k));
            if InReach(a) then after.regs[InstOf(a) / 0x1_0000 % 32] == FetchWord(a.mem, AddressOf(a))
            else SameGpr(after.regs, a.regs) && after.cp0[17] % 0x8000_0000 == 12
  {
    hide Initial, Runs, Ok, StartOf, Seq, Due, Ticks, InstOf, EffectOf, FetchWord, AddressOf, InReach, Record,
         HandlerAt, Low32;
    InRun(p, k);
    LoadIs(Seq(StartOf(p), k));
    RaisedState(Seq(StartOf(p), k), 12);
  }

  /** SW writes at base plus number; the read-only descriptor area refuses it. */
  lemma StoreResult(p: State, k: nat)
    requires Initial(p) && Runs(StartOf(p), k) && Ok(StartOf(p), k)
    requires InstOf(Seq(StartOf(p), k)) / 0x400_0000 == 0x2B
    ensures var a, before, after := Seq(StartOf(p), k), Ticks(p, Due(StartOf(p), k) - 1), Ticks(p, Due(StartOf(p), k));
            if InReach(a) && !(0xFFFE_0000 <= AddressOf(a) < 0xFFFF_0000)
            then before.mem == Memory.Write(a.mem, AddressOf(a), RtOf(a), OpWord).mem
            else before.mem == a.mem && after.cp0[17] % 0x8000_0000 == if InReach(a) then 5 else 12
  {
    hide Initial, Runs, Ok, StartOf, Seq, Due, Ticks, InstOf, EffectOf, AddressOf, InReach, Record, HandlerAt, RtOf,
         Memory.Write, Low32;
    InRun(p, k);
    StoreIs(Seq(StartOf(p), k));
    RaisedState(Seq(StartOf(p), k), 12);
    RaisedState(Seq(StartOf(p), k), 5);
  }

  /** Where a conditional branch goes behind its slot: to the address behind it plus
      four times its number, or straight on. */
  function BranchGoal(a: Arch): Word {
    var taken := if InstOf(a) / 0x400_0000 == 4 then RsOf(a) == RtOf(a) else RsOf(a) != RtOf(a);
    if taken then Wrap(a.Pc() + 4 + Number(InstOf(a)) * 4) else Wrap(a.npc + 4)
  }

  /** BEQ and BNE of a run go there; the word at that address is in IF_ID four ticks
      before it commits. */
  lemma BranchResult(p: State, k: nat)
    requires Initial(p) && Runs(StartOf(p), k + 2)
    requires var a := StartOf(p);
             InstOf(Seq(a, k)) / 0x400_0000 in {4, 5} && Retires(Seq(a, k)) && Retires(Seq(a, k + 1))
    ensures var a := StartOf(p);
            var t, f := BranchGoal(Seq(a, k)), Ticks(p, Due(a, k + 2) - 4).ifId;
            Seq(a, k + 2).Pc() == t && f.nextPc == Wrap(t + 4) && f.inst == FetchWord(Seq(a, k + 2).mem, t)
  {
    hide *;
    var a := StartOf(p);
    Arrives(p, k);
    BranchIs(Seq(a, k));
  }

  /** J and JAL go to the word their low 26 bits count, in the 256 MB region of the
      slot's address. */
  lemma JumpResult(p: State, k: nat)
    requires Initial(p) && Runs(StartOf(p), k + 2)
    requires var a := StartOf(p);
             InstOf(Seq(a, k)) / 0x400_0000 in {2, 3} && Retires(Seq(a, k)) && Retires(Seq(a, k + 1))
    ensures var b, t, f := Seq(StartOf(p), k), Seq(StartOf(p), k + 2).Pc(), Ticks(p, Due(StartOf(p), k + 2) - 4).ifId;
            t / 0x1000_0000 == Wrap(b.Pc() + 4) / 0x1000_0000 && t % 0x1000_0000 == InstOf(b) % 0x400_0000 * 4 &&
            f.nextPc == Wrap(t + 4) && f.inst == FetchWord(Seq(StartOf(p), k + 2).mem, t)
  {
    hide *;
    var a := StartOf(p);
    Arrives(p, k);
    JumpIs(Seq(a, k));
  }

  /** Two instructions on, with the slot retiring: the target, or straight on; and
      what the pipeline has fetched. */
  lemma Arrives(p: State, k: nat)
    requires Initial(p) && Runs(StartOf(p), k + 2)
    requires Retires(Seq(StartOf(p), k)) && Retires(Seq(StartOf(p), k + 1))
    ensures var a := StartOf(p);
            var b, c, f := Seq(a, k), Seq(a, k + 2), Ticks(p, Due(a, k + 2) - 4).ifId;
            EndsAs(b, EffectOf(b)) && c.Pc() == Apply(b, EffectOf(b)).npc &&
            f.nextPc == Wrap(c.Pc() + 4) && f.inst == FetchWord(c.mem, c.Pc())
  {
    hide *;
    var a := StartOf(p);
    RunIsMeaning(a, k + 2, k);
    SeqSucc(a, k + 1);
    ThreeOutcomes(Seq(a, k + 1));
    StepDelay(Seq(a, k + 1));
    InStages(p, k + 2, Due(a, k + 2) - 4);
    FetchedHere(Seq(a, k + 2));
  }

  lemma FetchedHere(a: Arch)
    ensures FetchOf(a).inst == FetchWord(a.mem, a.Pc()) && FetchOf(a).nextPc == Wrap(a.Pc() + 4)
  {
    hide FetchWord;
  }

  lemma BranchIs(a: Arch)
    requires InstOf(a) / 0x400_0000 in {4, 5} && Retires(a) && EndsAs(a, EffectOf(a))
    ensures Apply(a, EffectOf(a)).npc == BranchGoal(a)
  {
    hide InstOf, CommitOf, Value;
    ThreeOutcomes(a);
  }

  lemma JumpIs(a: Arch)
    requires InstOf(a) / 0x400_0000 in {2, 3} && Retires(a) && EndsAs(a, EffectOf(a))
    ensures var t := Apply(a, EffectOf(a)).npc;
            t / 0x1000_0000 == Wrap(a.Pc() + 4) / 0x1000_0000 && t % 0x1000_0000 == InstOf(a) % 0x400_0000 * 4
  {
    hide InstOf, CommitOf, Value;
    ThreeOutcomes(a);
  }

  // ----- The rules that look at two words -----

  /** A stall follows exactly the five loads, when the next word's bits 25..21 or
      20..16 name the register loaded. */
  lemma StallRule(a: Arch)
    ensures var x, y := InstOf(a), InstOf(Step(a));
            UsesLoad(a) <==>
              0x22 <= x / 0x400_0000 <= 0x26 && x / 0x1_0000 % 32 in {y / 0x20_0000 % 32, y / 0x1_0000 % 32}
  {
    hide InstOf, Step;
    LoadKinds(InstOf(a));
    DecodedAs(a);
  }

  lemma DecodedAs(a: Arch)
    ensures DecodeOf(a).c == ControlOf(InstOf(a)) && DecodeOf(a).rt == SourceB(InstOf(a))
  {
    hide InstOf, ControlOf, SourceA, SourceB, RdOf, FunctOf;
  }

  /** A forward is refused exactly when writer and reader mean different register
      files and are not both CP0 words: MTC0 alone writes CP0, MFC0 alone reads it. */
  lemma RefusalRule(writer: Word, reader: Word)
    ensures var toCp0 := writer / 0x20_0000 == 0x10 * 32 + 4;
            var fromCp0 := reader / 0x20_0000 == 0x10 * 32;
            IllegalForward(writer, reader) <==>
              toCp0 != fromCp0 && !(writer / 0x400_0000 == 0x10 && reader / 0x400_0000 == 0x10)
  {
  }

  /** The words that are not supported are exactly those for which EX leaves the ALU
      result it finds, whatever the operands. */
  lemma SupportedExactly(inst: Word, shamt: RegField, x: Word, y: Word)
    ensures var c := ControlOf(inst);
            Supported(inst) <==>
              AluResult(c.aluOp, FunctOf(inst), Opcode(inst), shamt, x, y).Some? ||
              AluException(c.aluOp, FunctOf(inst), Opcode(inst), x, y) != NoException
  {
    hide And, Or, Nor, Shl, Shr, Wrap, Signed, Overflows;
  }

  /** In numbers: all but LL and the R-type functions the ALU does not list. */
  lemma SupportedWords(w: Word)
    ensures Supported(w) <==>
              w / 0x400_0000 != 0x30 &&
              (w / 0x400_0000 == 0 ==>
                 w % 0x40 in {0x00, 0x02, 0x08, 0x0C, 0x20, 0x21, 0x22, 0x23, 0x24, 0x25, 0x27, 0x2A, 0x2B})
  {
  }

  /** `handle_exception` writes BadVAddr, slot 10, for an address error on a load
      and for nothing else, a store's included. */
  lemma BadAddress(cp0: Cp0Regs, w: MemWb)
    ensures RecordException(cp0, w)[10] == if w.exception == AddressErrorLoad then w.badVAddr else cp0[10]
  {
    hide GetCause, SetExl;
  }
}
