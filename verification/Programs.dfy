/** Straight-line programs: the run theorems applied to words in memory. */
module Programs {
  import opened Words
  import opened Isa
  import opened Memory
  import opened Stages
  import opened Pipeline
  import opened Sequential
  import opened Schedule
  import opened Hazards
  import opened Timing
  import opened Instructions
  import opened Reference

  /** The place of the i-th word behind `pc`. */
  function Place(pc: Word, i: nat): Word {
    Wrap(pc + 4 * i)
  }

  /** A freshly loaded machine about to run these words. */
  ghost predicate Loaded(p: State, words: seq<Word>) {
    Initial(p) && forall i | 0 <= i < |words| :: FetchWord(p.mem, Place(p.Pc(), i)) == words[i]
  }

  /** After i words that change registers only, the specification machine stands at
      the i-th one. */
  predicate Stands(a: Arch, i: nat) {
    var b := Seq(a, i);
    b.mem == a.mem && b.Pc() == Place(a.Pc(), i) && b.npc == Place(a.Pc(), i + 1) && !b.delay && b.regs[0] == 0
  }

  predicate RegisterOnly(e: Effect) {
    e.Nothing? || e.SetRegister? || e.SetCp0?
  }

  lemma PlaceSucc(pc: Word, i: nat)
    ensures Place(pc, 0) == pc && Plus4(Place(pc, i)) == Low32(Place(pc, i) + 4) == Place(pc, i + 1)
  {
  }

  lemma Starts(p: State, words: seq<Word>)
    requires Loaded(p, words)
    ensures Stands(StartOf(p), 0) && Seq(StartOf(p), 0) == StartOf(p)
  {
    hide FetchWord, Place, Plus4;
    PlaceSucc(p.Pc(), 0);
    PlaceSucc(p.Pc(), 1);
  }

  lemma WordThere(p: State, words: seq<Word>, i: nat)
    requires Loaded(p, words) && Stands(StartOf(p), i) && i < |words|
    ensures InstOf(Seq(StartOf(p), i)) == words[i]
  {
    hide FetchWord, Place, Seq, Plus4;
  }

  /** One more word. */
  lemma Advances(a: Arch, i: nat, e: Effect)
    requires Stands(a, i) && Has(Seq(a, i), e) && RegisterOnly(e)
    ensures Stands(a, i + 1) && Retires(Seq(a, i))
    ensures var b := Seq(a, i);
            Seq(a, i + 1).regs ==
              (if e.SetRegister? then SetReg(b.regs, e.reg, e.value) else b.regs)[REG_PC := Place(a.Pc(), i + 1)] &&
            Seq(a, i + 1).cp0 == if e.SetCp0? then b.cp0[e.slot := e.value] else b.cp0
  {
    hide Seq, Step, Place, Low32, Retires;
    SeqSucc(a, i);
    PlaceSucc(a.Pc(), i + 1);
  }

  /** The word of an instruction that only register-only ones precede is kept. */
  lemma StandsKept(a: Arch, n: nat)
    requires Stands(a, n) && (n > 0 ==> Stands(a, n - 1)) && (n > 1 ==> Stands(a, n - 2))
    ensures WordKept(a, n)
  {
    hide Place, Plus4, FetchWord, Traps, Step, Seq;
    if n > 0 { SeqSucc(a, n - 1); }
    if n > 1 { SeqSucc(a, n - 2); }
  }

  /** It is one the pipeline may run if it is compatible with the two before it. */
  lemma StandsOk(p: State, words: seq<Word>, n: nat)
    requires Loaded(p, words) && n < |words| && Supported(words[n])
    requires var a := StartOf(p); Stands(a, n) && (n > 0 ==> Stands(a, n - 1)) && (n > 1 ==> Stands(a, n - 2))
    requires n > 0 ==> Compatible(words[n - 1], words[n])
    requires n > 1 ==> Compatible(words[n - 2], words[n])
    ensures Ok(StartOf(p), n)
  {
    hide *;
    StandsKept(StartOf(p), n);
    WordThere(p, words, n);
    if n > 0 { WordThere(p, words, n - 1); }
    if n > 1 { WordThere(p, words, n - 2); }
    CompatibleOk(StartOf(p), n);
  }

  /** Commit ticks: two for a load whose register the next word names. */
  lemma NextDue(a: Arch, n: nat)
    requires !Traps(Seq(a, n))
    ensures var x, y := InstOf(Seq(a, n)), InstOf(Seq(a, n + 1));
            Due(a, n + 1) == Due(a, n) +
              if ControlOf(x).memRead && SourceB(x) in {Rs(y), Rt(y)} then 2 else 1
  {
    hide Due, Traps, Seq, Step, InstOf, ControlOf, SourceB, Rs, Rt;
    SeqSucc(a, n);
    DueSucc(a, n);
    DecodedLoad(Seq(a, n));
  }

  lemma DecodedLoad(a: Arch)
    ensures DecodeOf(a).c == ControlOf(InstOf(a)) && DecodeOf(a).rt == SourceB(InstOf(a))
  {
    hide InstOf, ControlOf, SourceA, SourceB, RdOf, FunctOf, Plus4;
  }

  lemma FirstDue(a: Arch)
    ensures Due(a, 0) == 5
  {
  }

  lemma RunsNone(a: Arch)
    ensures Runs(a, 0)
  {
    hide Ok, Exits;
  }

  /** A run grows by one instruction. */
  lemma RunsOn(a: Arch, n: nat)
    requires Runs(a, n) && Ok(a, n) && WordKept(a, n + 1)
    requires Retires(Seq(a, n)) || Traps(Seq(a, n))
    ensures Runs(a, n + 1)
  {
    hide *;
    ThreeOutcomes(Seq(a, n));
    RunsOneMore(a, n);
  }

  // ----- Some words -----

  lemma AddiuEffect(a: Arch)
    requires Opcode(InstOf(a)) == OPCODE_ADDIU
    ensures var inst := InstOf(a);
            Has(a, SetRegister(Rt(inst), Sum(a.regs[Rs(inst)], SignExtend(Imm(inst)))))
  {
    hide InstOf, Has, EffectOf, Rs, Rt, Imm, SignExtend, Split;
    IEffect(a);
    IMeaning(a);
    FieldsAre(InstOf(a));
    SumIsOffset(a.regs[Rs(InstOf(a))], Imm(InstOf(a)));
  }

  lemma AdduEffect(a: Arch)
    requires Opcode(InstOf(a)) == OPCODE_R && Funct(InstOf(a)) == FUNCT_ADDU
    ensures var inst := InstOf(a);
            Has(a, SetRegister(Rd(inst), Sum(a.regs[Rs(inst)], a.regs[Rt(inst)])))
  {
    hide InstOf, Has, EffectOf, Rs, Rt, Rd, Funct, Split;
    RMeaning(a);
    REffect(a);
    FieldsAre(InstOf(a));
  }

  lemma SyscallEffect(a: Arch)
    requires Opcode(InstOf(a)) == OPCODE_R && Funct(InstOf(a)) == FUNCT_SYSCALL
    ensures Has(a, if a.regs[REG_V0] == 10 then Quit else Raise(SYSTEM_CALL))
  {
    hide InstOf, Has, EffectOf, Rs, Rt, Rd, Funct, Split;
    RMeaning(a);
    REffect(a);
    FieldsAre(InstOf(a));
  }

  lemma Cp0Effect(a: Arch)
    requires IsMfc0(InstOf(a)) || IsMtc0(InstOf(a))
    requires InstOf(a) != INSTRUCTION_ERET
    ensures var inst := InstOf(a);
            Has(a, if IsMfc0(inst) then SetRegister(Rt(inst), a.cp0[Rd(inst) + 1])
                   else SetCp0(Rd(inst) + 1, a.regs[Rt(inst)]))
  {
    hide InstOf, Has, EffectOf, Rt, Rd, IsMfc0, IsMtc0;
    MoveMeaning(a);
    MoveEffect(a);
  }

  /** LW and SW with offset 0, which cannot overflow. */
  lemma NoOffset(x: Word)
    ensures !Overflows(x, 0) && Sum(x, 0) == x && SignExtend(0) == 0
  {
  }

  lemma LwEffect(a: Arch)
    requires Opcode(InstOf(a)) == OPCODE_LW && Imm(InstOf(a)) == 0
    ensures var inst := InstOf(a);
            Has(a, SetRegister(Rt(inst), FetchWord(a.mem, a.regs[Rs(inst)])))
  {
    hide InstOf, Has, EffectOf, Rs, Rt, Imm, SignExtend, Sum, Overflows, FetchWord, Split;
    LoadMeaning(a);
    LoadEffect(a);
    FieldsAre(InstOf(a));
    NoOffset(a.regs[Rs(InstOf(a))]);
  }

  lemma SwEffect(a: Arch)
    requires Opcode(InstOf(a)) == OPCODE_SW && Imm(InstOf(a)) == 0
    ensures var inst := InstOf(a);
            Has(a, Stored(a.mem, a.regs[Rs(inst)], a.regs[Rt(inst)], OpWord))
  {
    hide InstOf, Has, EffectOf, Rs, Rt, Imm, SignExtend, Sum, Overflows, FetchWord, Stored, Split;
    StoreMeaning(a);
    StoreEffect(a);
    FieldsAre(InstOf(a));
    NoOffset(a.regs[Rs(InstOf(a))]);
  }
}
