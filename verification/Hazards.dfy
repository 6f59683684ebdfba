/** When an instruction may run behind the two ahead of it in the pipeline: the
    conditions under which the forwarding unit and the early fetch are harmless,
    as tests on the instruction words and on the addresses a store reaches. */
module Hazards {
  import opened Words
  import opened Isa
  import opened Memory
  import opened Stages
  import opened Sequential
  import opened Schedule

  /** The words whose execution does not depend on a left-over ALU result: all
      but LL and the R-type functions the ALU does not know. */
  predicate Supported(inst: Word) {
    (Opcode(inst) == OPCODE_R ==>
       Funct(inst) in {FUNCT_JR, FUNCT_SYSCALL, FUNCT_ADD, FUNCT_ADDU, FUNCT_SUB, FUNCT_SUBU, FUNCT_AND,
                       FUNCT_OR, FUNCT_NOR, FUNCT_SLT, FUNCT_SLTU, FUNCT_SLL, FUNCT_SRL}) &&
    Opcode(inst) != OPCODE_LL
  }

  /** The register number an instruction writes, 0 for none. */
  function DestOf(inst: Word): Slot {
    var c := ControlOf(inst);
    if !c.regWrite then 0 else if c.regDst then RdOf(inst) else SourceB(inst)
  }

  lemma DestIsGeneral(inst: Word)
    requires !IsMtc0(inst)
    ensures DestOf(inst) < 32
  {
  }

  // ----- One operand mux, by the words in MEM_WB and EX_MEM (None: a bubble) -----

  /** The older word writes number n, in whichever file. */
  predicate Names(older: Option<Word>, n: Slot) {
    older.Some? && n != 0 && DestOf(older.value) == n
  }

  /** It writes register n of CP0 (`cp`) or of the general file. */
  predicate Gives(older: Option<Word>, cp: bool, n: Slot) {
    Names(older, n) && (IsMtc0(older.value) <==> cp)
  }

  /** The mux for number n of `reader` gives up with an "illegal forward". */
  predicate Refused(wb: Option<Word>, ex: Option<Word>, n: Slot, reader: Word) {
    if Names(ex, n) then IllegalForward(ex.value, reader) else Names(wb, n) && IllegalForward(wb.value, reader)
  }

  /** The mux replaces the operand. */
  predicate Taken(wb: Option<Word>, ex: Option<Word>, n: Slot, reader: Word) {
    (Names(ex, n) || Names(wb, n)) && !Refused(wb, ex, n, reader)
  }

  /** The mux yields the newest value of register n of the file that is meant: a
      refused forward does no harm unless MEM_WB holds that value, and a value
      taken must come from the right file. */
  predicate Fresh(wb: Option<Word>, ex: Option<Word>, cp: bool, n: Slot, reader: Word) {
    if Names(ex, n) then (if IllegalForward(ex.value, reader) then !Gives(wb, cp, n) else Gives(ex, cp, n))
    else Names(wb, n) && !IllegalForward(wb.value, reader) ==> Gives(wb, cp, n)
  }

  /** General register n needs no forward. */
  predicate Settled(wb: Option<Word>, ex: Option<Word>, n: Slot) {
    !Gives(wb, false, n) && !Gives(ex, false, n)
  }

  /** Operand B's mux, which is not reached when operand A is refused. JAL looks
      for operand rt under the number of $ra. */
  predicate FreshB(wb: Option<Word>, ex: Option<Word>, reader: Word) {
    var rt := if IsJal(reader) then Rt(reader) else SourceB(reader);
    if Refused(wb, ex, SourceA(reader), reader) then Settled(wb, ex, rt)
    else if rt == SourceB(reader) then Fresh(wb, ex, false, rt, reader)
    else !Taken(wb, ex, SourceB(reader), reader) && Settled(wb, ex, rt)
  }

  /** Both operands of `reader` come out right behind these two words; exactly so
      by `Muxes.HarmlessSuffices` and `Muxes.HarmlessNeeded`. JAL's link is not to
      be replaced; ERET's operands are not used. */
  predicate Harmless(wb: Option<Word>, ex: Option<Word>, reader: Word) {
    reader == INSTRUCTION_ERET ||
    ((if IsJal(reader) then !Taken(wb, ex, SourceA(reader), reader)
      else Fresh(wb, ex, IsMfc0(reader), SourceA(reader), reader)) &&
     FreshB(wb, ex, reader))
  }

  // ----- A simpler test on pairs of words -----

  /** `younger` reads no number that `older` writes in the other register file,
      and JAL names no register that `older` writes: its link value and $ra pass
      through the operand muxes under the numbers rs, rt and 31. */
  predicate Compatible(older: Word, younger: Word) {
    var d := DestOf(older);
    d == 0 || younger == INSTRUCTION_ERET ||
    ((d == SourceA(younger) ==> (IsMtc0(older) <==> IsMfc0(younger))) &&
     (d == SourceB(younger) ==> !IsMtc0(older)) &&
     (IsJal(younger) ==> d != Rs(younger) && d != Rt(younger) && d != REG_RA))
  }

  ghost predicate CompatibleWith(older: Option<Word>, younger: Word) {
    older.Some? ==> Compatible(older.value, younger)
  }

  /** Under that condition no forward is refused as illegal. */
  lemma NeverIllegal(older: Word, younger: Word)
    requires Compatible(older, younger) && younger != INSTRUCTION_ERET && DestOf(older) != 0
    ensures DestOf(older) in {SourceA(younger), SourceB(younger)} ==> !IllegalForward(older, younger)
  {
  }

  /** Pairwise compatible words do no harm, and none of them is refused. */
  lemma CompatibleHarmless(wb: Option<Word>, ex: Option<Word>, reader: Word)
    requires CompatibleWith(wb, reader) && CompatibleWith(ex, reader)
    ensures Harmless(wb, ex, reader)
    ensures reader != INSTRUCTION_ERET ==>
              forall n | n in {SourceA(reader), SourceB(reader)} :: !Refused(wb, ex, n, reader)
  {
    hide DestOf;
    if reader != INSTRUCTION_ERET {
      if wb.Some? && DestOf(wb.value) != 0 { NeverIllegal(wb.value, reader); }
      if ex.Some? && DestOf(ex.value) != 0 { NeverIllegal(ex.value, reader); }
    }
  }

  // ----- Along a run -----

  /** `a`'s instruction leaves the word at `pc` alone. */
  predicate LeavesWord(a: Arch, pc: Word) {
    FetchWord(a.mem, pc) == FetchWord(Step(a).mem, pc)
  }

  /** The word of instruction n is not stored by the two before it, which have not
      reached memory when it is fetched. Behind a flush it is fetched last. */
  predicate WordKept(a: Arch, n: nat) {
    (n > 0 ==> LeavesWord(Seq(a, n - 1), Seq(a, n).Pc())) &&
    (n > 1 && !Traps(Seq(a, n - 1)) ==> LeavesWord(Seq(a, n - 2), Seq(a, n).Pc()))
  }

  /** Instruction n is one the pipeline may run: supported, fetched as it is, and
      unharmed by the instructions then in MEM_WB and EX_MEM. */
  predicate Ok(a: Arch, n: nat) {
    Supported(InstOf(Seq(a, n))) && WordKept(a, n) && Harmless(Ahead(a, n, 2), Ahead(a, n, 1), InstOf(Seq(a, n)))
  }

  /** The first `k` instructions are such, none is the exit, and the next one is
      fetched as it is. */
  ghost predicate Runs(a: Arch, k: nat) {
    WordKept(a, k) && forall i: nat | i < k :: Ok(a, i) && !Exits(Seq(a, i))
  }

  lemma RunsAt(a: Arch, k: nat, i: nat)
    requires Runs(a, k) && i < k
    ensures Ok(a, i) && !Exits(Seq(a, i)) && WordKept(a, i)
  {
    hide Exits, Seq, Supported, WordKept, Ahead, Harmless;
  }

  lemma RunsLess(a: Arch, n: nat, k: nat)
    requires Runs(a, n) && k <= n
    ensures Runs(a, k)
  {
    hide Ok, Exits, Seq, WordKept;
    if k < n { RunsAt(a, n, k); }
  }

  lemma RunsOneMore(a: Arch, k: nat)
    requires Runs(a, k) && Ok(a, k) && !Exits(Seq(a, k)) && WordKept(a, k + 1)
    ensures Runs(a, k + 1)
  {
    hide Ok, Exits, Seq, WordKept;
  }

  lemma OkParts(a: Arch, n: nat)
    requires Ok(a, n)
    ensures Supported(InstOf(Seq(a, n))) && WordKept(a, n)
    ensures Harmless(Ahead(a, n, 2), Ahead(a, n, 1), InstOf(Seq(a, n)))
  {
    hide Supported, WordKept, Harmless, Ahead, Seq, InstOf;
  }

  /** The simpler test: compatible with the two words before it in the run. */
  lemma CompatibleOk(a: Arch, n: nat)
    requires Supported(InstOf(Seq(a, n))) && WordKept(a, n)
    requires n > 0 ==> Compatible(InstOf(Seq(a, n - 1)), InstOf(Seq(a, n)))
    requires n > 1 ==> Compatible(InstOf(Seq(a, n - 2)), InstOf(Seq(a, n)))
    ensures Ok(a, n)
  {
    hide Supported, WordKept, Compatible, Harmless, Refused, Due, Seq, InstOf;
    CompatibleHarmless(Ahead(a, n, 2), Ahead(a, n, 1), InstOf(Seq(a, n)));
  }
}
