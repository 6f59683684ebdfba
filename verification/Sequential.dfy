/** The specification machine: one whole instruction per step, with a `pc` (slot
    32) and an `npc` that gives the one branch delay slot. It uses the blocks of
    `Stages`, each on an empty latch, so what separates it from the pipeline is
    overlap: hazards, forwarding, stalls, redirects and flushes. */
module Sequential {
  import opened Words
  import opened Isa
  import opened Latches
  import opened Memory
  import opened Stages

  /** `delay` holds when the previous instruction was a taken branch or jump. */
  datatype Arch = Arch(regs: Regs, npc: Word, delay: bool, cp0: Cp0Regs, mem: seq<Byte>)
  {
    function Pc(): Word { regs[REG_PC] }
  }

  function InstOf(a: Arch): Word { FetchWord(a.mem, a.Pc()) }

  function FetchOf(a: Arch): IfId {
    IfId(InstOf(a), Plus4(a.Pc()), NoException, 0, a.delay)
  }

  function DecodeOf(a: Arch): IdEx { DecodeFrom(ZERO_ID_EX, FetchOf(a), a.regs, a.cp0) }
  function ExecOf(a: Arch): ExMem { Execute(ZERO_EX_MEM, DecodeOf(a)) }
  function TargetOf(a: Arch): Option<Word> { Redirect(DecodeOf(a)) }

  function AccessOf(a: Arch): MemResult {
    Access(ZERO_MEM_WB, ExecOf(a), a.regs[ExecOf(a).regDst], a.regs[Rt(InstOf(a))], a.mem)
  }

  function CommitOf(a: Arch): Commit { WriteBack(AccessOf(a).latch, a.regs, a.cp0) }

  predicate Retires(a: Arch) { CommitOf(a).outcome.Retired? }
  predicate Traps(a: Arch) { CommitOf(a).outcome.Flushed? }
  predicate Exits(a: Arch) { CommitOf(a).outcome.Finished? }

  /** The exit syscall changes nothing, and the step goes on to the instruction
      behind it: a run ends at the exit, but the pipeline has begun that one. */
  function Step(a: Arch): Arch {
    hide WriteBack, Access, Execute, Decode, Redirect, Read;
    var c := CommitOf(a);
    if c.outcome.Flushed? then
      Arch(c.regs, Plus4(c.regs[REG_PC]), false, c.cp0, AccessOf(a).mem)
    else
      var npc := match TargetOf(a) { case Some(target) => target case None => Plus4(a.npc) };
      Arch(c.regs[REG_PC := a.npc], npc, TargetOf(a).Some?, c.cp0, AccessOf(a).mem)
  }

  /** The state before the k-th instruction, counting from 0. */
  function Seq(a: Arch, k: nat): Arch {
    if k == 0 then a else Step(Seq(a, k - 1))
  }

  lemma SeqSucc(a: Arch, k: nat)
    ensures Seq(a, k + 1) == Step(Seq(a, k))
  {
    hide Step;
  }

  lemma ThreeOutcomes(a: Arch)
    ensures Retires(a) || Traps(a) || Exits(a)
    ensures Retires(a) ==> !Traps(a) && !Exits(a)
    ensures Traps(a) ==> !Exits(a)
  {
    hide CommitOf;
  }
}
