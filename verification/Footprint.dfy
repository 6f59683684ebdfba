/** A test on addresses for the requirement that an instruction does not store
    into the next two: the bytes it writes keep clear of the words fetched. */
module Footprint {
  import opened Words
  import opened Isa
  import opened Memory
  import opened MemoryModel
  import opened Stages
  import opened Sequential
  import opened Schedule
  import opened Hazards
  import opened Forwarding
  import opened Refinement
  import opened Exceptions
  import opened Instructions
  import opened Reference

  /** The address a store instruction computes, and the bytes it then writes: SWL
      and SWR write the whole aligned word. */
  function EffectiveAddress(a: Arch): Word {
    var f := Split(InstOf(a));
    Low32(a.regs[f.rs] + Offset(f.imm))
  }

  function StoreAddress(op: nat, ea: Word): Word {
    if op in {OPCODE_SWL, OPCODE_SWR} then AlignDown(ea) else ea
  }

  /** A write that reaches memory and a word fetched from memory do not overlap. */
  predicate Apart(size: nat, addr: Word, op: OpSize, pc: Word) {
    Plain(size, addr, op) && Plain(size, pc, OpWord) ==>
      var i, j := Index(size, addr).value, Index(size, pc).value;
      i + Width(op) <= j || j + 4 <= i
  }

  /** An instruction that is no store, or stores apart from the word at `pc`,
      leaves that word alone. */
  lemma StoresElsewhere(a: Arch, pc: Word)
    requires var op := Opcode(InstOf(a));
             op in STORES ==> Apart(|a.mem|, StoreAddress(op, EffectiveAddress(a)), StoreSize(op), pc)
    ensures LeavesWord(a, pc)
  {
    hide Step, InstOf, Retires, ExecOf, AccessOf, Store, FetchWord, Apart, Overflows, SignExtend, Imm, Rs, Split;
    var inst := InstOf(a);
    StepMemory(a);
    if !Retires(a) {
      TrapKeepsMemory(a);
    } else if Opcode(inst) in STORES {
      AddressParts(a);
      FieldsAre(inst);
      SumIsOffset(a.regs[Rs(inst)], Imm(inst));
      StoredMemory(a);
      StoreKeepsWord(Opcode(inst), EffectiveAddress(a), ExecOf(a).rtValue, a.regs[Rt(inst)], a.mem, pc);
    } else {
      OnlyStoresWrite(a);
    }
  }

  lemma OnlyStoresWrite(a: Arch)
    requires Opcode(InstOf(a)) !in STORES
    ensures AccessOf(a).mem == a.mem
  {
    hide InstOf, ExecOf, Load, Store, ControlOf;
    ExecFlags(a);
    NoStoreControl(InstOf(a));
    ExecInst(a);
  }

  lemma NoStoreControl(inst: Word)
    requires Opcode(inst) !in STORES
    ensures !ControlOf(inst).memWrite
  {
  }

  lemma StoredMemory(a: Arch)
    requires Opcode(InstOf(a)) in STORES && Retires(a)
    ensures AccessOf(a).mem ==
              Store(Opcode(InstOf(a)), ExecOf(a).aluRes, ExecOf(a).rtValue, a.regs[Rt(InstOf(a))], a.mem).mem
    ensures ExecOf(a).exception == NoException
  {
    hide InstOf, ExecOf, Load, Store, ControlOf, Retires, Opcode;
    RetiresThrough(a);
    Carries(a);
    ExecFlags(a);
    ExecInst(a);
    StoreControl(InstOf(a));
  }

  lemma StoreKeepsWord(op: nat, ea: Word, value: Word, rt: Word, mem: seq<Byte>, pc: Word)
    requires Apart(|mem|, StoreAddress(op, ea), StoreSize(op), pc)
    ensures FetchWord(Store(op, ea, value, rt, mem).mem, pc) == FetchWord(mem, pc)
  {
    hide Read, Write, StoreLeft, StoreRight, Apart;
    if op in {OPCODE_SW, OPCODE_SB, OPCODE_SH} { WriteKeepsWord(mem, ea, value, StoreSize(op), pc); }
    var word := Read(mem, AlignDown(ea), OpWord).data;
    if op == OPCODE_SWL { WriteKeepsWord(mem, AlignDown(ea), StoreLeft(word, rt, ea % 4), OpWord, pc); }
    if op == OPCODE_SWR { WriteKeepsWord(mem, AlignDown(ea), StoreRight(word, rt, ea % 4), OpWord, pc); }
  }

  lemma WriteKeepsWord(mem: seq<Byte>, vaddr: Word, value: Word, op: OpSize, pc: Word)
    requires Apart(|mem|, vaddr, op, pc)
    ensures Read(Write(mem, vaddr, value, op).mem, pc, OpWord) == Read(mem, pc, OpWord)
  {
    hide Index, GetBig, SetBig;
    if Plain(|mem|, vaddr, op) && Plain(|mem|, pc, OpWord) { ReadOther(mem, vaddr, value, op, pc, OpWord); }
  }

  /** In kseg0, where addresses are linear, being apart is a matter of addresses. */
  lemma ApartInKseg0(size: nat, addr: Word, op: OpSize, pc: Word)
    requires InKseg0(size, addr, Width(op)) && InKseg0(size, pc, 4)
    requires addr + Width(op) <= pc || pc + 4 <= addr
    ensures Apart(size, addr, op, pc)
  {
    hide Index;
    Kseg0Linear(size, addr);
    Kseg0Linear(size, pc);
  }

  // ----- A program that keeps its stores out of its code -----

  /** The word at `pc` lies in the bytes [lo, hi) of memory. */
  predicate InCode(size: nat, pc: Word, lo: nat, hi: nat) {
    Plain(size, pc, OpWord) && lo <= Index(size, pc).value && Index(size, pc).value + 4 <= hi
  }

  /** `a`'s instruction is no store, or writes outside those bytes. */
  predicate StoresOutside(a: Arch, lo: nat, hi: nat) {
    var op := Opcode(InstOf(a));
    var addr, size := StoreAddress(op, EffectiveAddress(a)), StoreSize(op);
    op in STORES && Plain(|a.mem|, addr, size) ==>
      Index(|a.mem|, addr).value + Width(size) <= lo || hi <= Index(|a.mem|, addr).value
  }

  /** Instructions up to n are fetched from [lo, hi), those before n store elsewhere. */
  ghost predicate Separate(a: Arch, n: nat, lo: nat, hi: nat) {
    (forall i: nat | i <= n :: InCode(|a.mem|, Seq(a, i).Pc(), lo, hi)) &&
    (forall i: nat | i < n :: StoresOutside(Seq(a, i), lo, hi))
  }

  /** Then every instruction is fetched as it is, and is a word of the program as
      loaded, so that `Ok` is a matter of the words alone. */
  lemma CodeKept(a: Arch, n: nat, lo: nat, hi: nat, k: nat)
    requires Separate(a, n, lo, hi) && k <= n
    ensures WordKept(a, k) && InstOf(Seq(a, k)) == FetchWord(a.mem, Seq(a, k).Pc())
    ensures Ok(a, k) <==>
              Supported(InstOf(Seq(a, k))) && Harmless(Ahead(a, k, 2), Ahead(a, k, 1), InstOf(Seq(a, k)))
  {
    hide *;
    var pc := Seq(a, k).Pc();
    CodeAt(a, n, lo, hi, k);
    WordStays(a, n, lo, hi, k, pc);
    if k > 0 {
      CodeLeft(a, n, lo, hi, k - 1, pc);
      if k > 1 { CodeLeft(a, n, lo, hi, k - 2, pc); }
    }
    KeptParts(a, k);
    OkSplit(a, k);
    FetchedThere(Seq(a, k));
  }

  lemma CodeAt(a: Arch, n: nat, lo: nat, hi: nat, i: nat)
    requires Separate(a, n, lo, hi) && i <= n
    ensures InCode(|a.mem|, Seq(a, i).Pc(), lo, hi)
    ensures i < n ==> StoresOutside(Seq(a, i), lo, hi)
  {
    hide InCode, StoresOutside, Seq;
  }

  lemma KeptParts(a: Arch, k: nat)
    requires k > 0 ==> LeavesWord(Seq(a, k - 1), Seq(a, k).Pc())
    requires k > 1 ==> LeavesWord(Seq(a, k - 2), Seq(a, k).Pc())
    ensures WordKept(a, k)
  {
    hide LeavesWord, Seq, Traps;
  }

  lemma OkSplit(a: Arch, k: nat)
    requires WordKept(a, k)
    ensures Ok(a, k) <==>
              Supported(InstOf(Seq(a, k))) && Harmless(Ahead(a, k, 2), Ahead(a, k, 1), InstOf(Seq(a, k)))
  {
    hide WordKept, Supported, Harmless, Ahead, InstOf, Seq;
  }

  lemma FetchedThere(a: Arch)
    ensures InstOf(a) == FetchWord(a.mem, a.Pc())
  {
    hide FetchWord;
  }

  /** One instruction leaves every word of the code alone. */
  lemma CodeLeft(a: Arch, n: nat, lo: nat, hi: nat, i: nat, pc: Word)
    requires Separate(a, n, lo, hi) && i < n && InCode(|a.mem|, pc, lo, hi)
    ensures LeavesWord(Seq(a, i), pc)
  {
    hide *;
    CodeAt(a, n, lo, hi, i);
    MemorySize(a, i);
    OutsideApart(Seq(a, i), lo, hi, pc);
    StoresElsewhere(Seq(a, i), pc);
  }

  lemma OutsideApart(a: Arch, lo: nat, hi: nat, pc: Word)
    requires StoresOutside(a, lo, hi) && InCode(|a.mem|, pc, lo, hi)
    ensures var op := Opcode(InstOf(a));
            op in STORES ==> Apart(|a.mem|, StoreAddress(op, EffectiveAddress(a)), StoreSize(op), pc)
  {
    hide InstOf, Index, EffectiveAddress, StoreAddress, StoreSize;
  }

  lemma MemorySize(a: Arch, i: nat)
    ensures |Seq(a, i).mem| == |a.mem|
  {
    hide Step;
    if i > 0 {
      MemorySize(a, i - 1);
      StepMemory(Seq(a, i - 1));
      AccessSize(Seq(a, i - 1));
    }
  }

  lemma AccessSize(a: Arch)
    ensures |AccessOf(a).mem| == |a.mem|
  {
    hide Access, ExecOf;
  }

  lemma WordStays(a: Arch, n: nat, lo: nat, hi: nat, k: nat, pc: Word)
    requires Separate(a, n, lo, hi) && k <= n && InCode(|a.mem|, pc, lo, hi)
    ensures FetchWord(Seq(a, k).mem, pc) == FetchWord(a.mem, pc)
  {
    hide Separate, InCode, Step, FetchWord;
    if k > 0 {
      WordStays(a, n, lo, hi, k - 1, pc);
      CodeLeft(a, n, lo, hi, k - 1, pc);
    }
  }
}
