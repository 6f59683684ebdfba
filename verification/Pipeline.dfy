/** One clock tick as a simultaneous update of the four latches: every new
    latch is a function of the old ones. The only values that travel within a
    tick are write-back's register file and flush, the PC and delay mark set by
    EX, the control bits that the fetch tests, and the forwarded operands. */
module Pipeline {
  import opened Words
  import opened Isa
  import opened Latches
  import opened Memory
  import opened Stages

  function Retire(p: State): Commit { WriteBack(p.memWb, p.regs, p.cp0) }
  predicate Flushes(p: State) { Retire(p).outcome.Flushed? }

  // The latches as the later stages see them, after a possible flush.
  function InIf(p: State): IfId { if Flushes(p) then ZERO_IF_ID else p.ifId }
  function InId(p: State): IdEx { if Flushes(p) then ZERO_ID_EX else p.idEx }
  function InEx(p: State): ExMem { if Flushes(p) then ZERO_EX_MEM else p.exMem }
  function InWb(p: State): MemWb { if Flushes(p) then ZERO_MEM_WB else p.memWb }

  function MemOut(p: State): MemResult {
    var regs := Retire(p).regs;
    Access(InWb(p), InEx(p), regs[InEx(p).regDst], regs[Rt(InEx(p).inst)], p.mem)
  }

  function ExOut(p: State): ExMem { Execute(InEx(p), InId(p)) }

  /** The address fetched in this tick. */
  function FetchPc(p: State): Word {
    match Redirect(InId(p))
    case Some(target) => target
    case None => Retire(p).regs[REG_PC]
  }

  /** IF_ID with the delay-slot mark that EX adds. */
  function MarkedIf(p: State): IfId {
    if Redirect(InId(p)).Some? then InIf(p).(isBranchDelay := true) else InIf(p)
  }

  function Decoded(p: State): IdEx {
    DecodeFrom(Resolve(InId(p)), MarkedIf(p), Retire(p).regs, Retire(p).cp0)
  }

  function Fetched(p: State): ReadResult { Read(MemOut(p).mem, FetchPc(p), OpWord) }

  /** The tick inserts a bubble instead of fetching. */
  predicate Stalls(p: State) { LoadUse(Decoded(p), Fetched(p).data) }

  function IfOut(p: State): IfId {
    if Stalls(p) then MarkedIf(p).(exception := Fetched(p).exception, inst := 0)
    else IfId(Fetched(p).data, Plus4(FetchPc(p)), Fetched(p).exception, 0, false)
  }

  function NextPc(p: State): Word {
    if Stalls(p) then FetchPc(p) else Plus4(FetchPc(p))
  }

  function Tick(p: State): State {
    State(
      Retire(p).regs[REG_PC := NextPc(p)],
      Retire(p).cp0,
      IfOut(p),
      Forward(Decoded(p), ExOut(p), MemOut(p).latch),
      ExOut(p),
      MemOut(p).latch,
      MemOut(p).mem,
      p.finished || Retire(p).outcome.Finished?,
      p.outside || MemOut(p).outside || Fetched(p).outside)
  }

  lemma AfterMem(p: State)
    ensures MemStage(WbStage(p)) ==
              State(Retire(p).regs, Retire(p).cp0, InIf(p), InId(p), InEx(p), MemOut(p).latch, MemOut(p).mem,
                    p.finished || Retire(p).outcome.Finished?, p.outside || MemOut(p).outside)
  {
    hide WriteBack, Access;
  }

  /** EX on that state: the new PC, the delay mark and the new EX_MEM. */
  lemma AfterEx(p: State, q: State)
    requires q.idEx == InId(p) && q.exMem == InEx(p) && q.ifId == InIf(p) && q.regs == Retire(p).regs
    ensures ExStage(q) == q.(exMem := ExOut(p), idEx := Resolve(InId(p)), ifId := MarkedIf(p),
                             regs := Retire(p).regs[REG_PC := FetchPc(p)])
  {
    hide Retire, InIf, InId, InEx, Execute, Redirect, Resolve;
    assert Retire(p).regs == Retire(p).regs[REG_PC := Retire(p).regs[REG_PC]];
  }

  /** ID and IF on that one. */
  lemma AfterIf(p: State, q: State)
    requires q.idEx == Resolve(InId(p)) && q.ifId == MarkedIf(p) && q.cp0 == Retire(p).cp0
    requires q.regs == Retire(p).regs[REG_PC := FetchPc(p)] && q.mem == MemOut(p).mem
    ensures IfStage(IdStage(q)) == q.(idEx := Decoded(p), ifId := IfOut(p), regs := Retire(p).regs[REG_PC := NextPc(p)],
                                      outside := q.outside || Fetched(p).outside)
  {
    hide Retire, MemOut, InId, MarkedIf, FetchPc, Resolve, Decode, Read, LoadUse, Plus4;
    assert IdStage(q).idEx == Decoded(p);
    assert Retire(p).regs[REG_PC := FetchPc(p)][REG_PC := NextPc(p)] == Retire(p).regs[REG_PC := NextPc(p)];
  }

  /** Calling the stages in reverse order on shared latches is that
      simultaneous update: no stage sees a latch already overwritten. */
  lemma InPlaceIsSimultaneous(p: State)
    ensures TickInOrder(p) == Tick(p)
  {
    hide Retire, InIf, InId, InEx, InWb, MemOut, ExOut, FetchPc, MarkedIf, Decoded, Fetched, IfOut, NextPc, Stalls,
         Resolve, WbStage, MemStage, ExStage, IdStage, IfStage, Forward;
    var q := MemStage(WbStage(p));
    AfterMem(p);
    AfterEx(p, q);
    AfterIf(p, ExStage(q));
  }

  /** The state after `n` ticks. */
  function Ticks(p: State, n: nat): State {
    if n == 0 then p else Tick(Ticks(p, n - 1))
  }

  /** What `hw_init` and the loader leave behind: empty latches, the program in
      memory and its entry point in the PC slot. */
  predicate Initial(p: State) {
    p.ifId == ZERO_IF_ID && p.idEx == ZERO_ID_EX && p.exMem == ZERO_EX_MEM && p.memWb == ZERO_MEM_WB &&
    p.regs[0] == 0 && !p.finished
  }
}
