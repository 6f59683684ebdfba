/** What holds after every tick of every instruction stream, supported or not. */
module Safety {
  import opened Words
  import opened Isa
  import opened Latches
  import opened Memory
  import opened Stages
  import opened Pipeline

  /** ID_EX is empty or holds a decoded word under its own numbers. */
  predicate DecodedLatch(d: IdEx) {
    d.exception == NoException &&
    ((d.c == NO_CONTROL && d.inst == 0 && d.rs == 0 && d.rt == 0) ||
     (d.c == ControlOf(d.inst) && d.rs == SourceA(d.inst) && d.rt == SourceB(d.inst) && d.rd == RdOf(d.inst)))
  }

  /** A slot that write-back would use as a general register, or as a CP0 number. */
  predicate SafeDest(inst: Word, dst: Slot) {
    if IsMtc0(inst) then dst > 0 else dst < 32
  }

  /** The interlock: behind a load in ID_EX there is a bubble, or an instruction
      that does not name the loaded register. */
  predicate Interlocked(d: IdEx, f: IfId) {
    d.c.memRead ==> f.inst == 0 || (d.rt != Rs(f.inst) && d.rt != Rt(f.inst))
  }

  predicate Safe(p: State) {
    p.regs[0] == 0 && p.ifId.exception == NoException && DecodedLatch(p.idEx) && Interlocked(p.idEx, p.ifId) &&
    (p.exMem.regWrite ==> SafeDest(p.exMem.inst, p.exMem.regDst)) && (p.exMem.memRead ==> p.exMem.regDst < 32) &&
    (p.memWb.regWrite ==> SafeDest(p.memWb.inst, p.memWb.regDst))
  }

  lemma DecodedDest(inst: Word)
    ensures var c := ControlOf(inst);
            (c.regWrite ==> SafeDest(inst, if c.regDst then RdOf(inst) else SourceB(inst))) &&
            (c.memRead ==> c.regWrite && !c.regDst && !IsMtc0(inst) && !IsMfc0(inst) && !IsJal(inst) &&
                           Opcode(inst) != OPCODE_CP0)
  {
  }

  lemma ZeroDecode()
    ensures !ControlOf(0).memRead && SourceA(0) == 0 && SourceB(0) == 0 && Rs(0) == 0 && Rt(0) == 0
  {
  }

  lemma DecodeSafe(prev: IdEx, f: IfId, regs: Regs, cp0: Cp0Regs)
    requires f.exception == NoException
    ensures DecodedLatch(DecodeFrom(prev, f, regs, cp0)) && DecodeFrom(prev, f, regs, cp0).inst == f.inst
  {
    hide ControlOf, SourceA, SourceB, RdOf, FunctOf, JumpTarget;
  }

  lemma ExecuteSafe(prev: ExMem, d: IdEx)
    requires DecodedLatch(d)
    ensures var e := Execute(prev, d);
            e.inst == d.inst && e.memRead == d.c.memRead &&
            (e.regWrite ==> SafeDest(e.inst, e.regDst)) && (e.memRead ==> e.regDst < 32)
  {
    hide ControlOf, SourceA, SourceB, RdOf, AluResult, AluException;
    DecodedDest(d.inst);
  }

  lemma AccessSafe(prev: MemWb, e: ExMem, dst: Word, rt: Word, mem: seq<Byte>)
    ensures var w := Access(prev, e, dst, rt, mem).latch;
            w.inst == e.inst && w.regWrite == e.regWrite && w.regDst == e.regDst
  {
    hide Load, Store;
  }

  /** Write-back of a safe latch keeps $zero and, unless it flushes, the PC slot. */
  lemma WriteBackSafe(w: MemWb, regs: Regs, cp0: Cp0Regs)
    requires regs[0] == 0 && (w.regWrite ==> SafeDest(w.inst, w.regDst))
    ensures var c := WriteBack(w, regs, cp0);
            c.regs[0] == 0 && c.cp0[0] == cp0[0] && (!c.outcome.Flushed? ==> c.regs[REG_PC] == regs[REG_PC])
  {
    hide HandlerPc, GetCause, WbData, SetExl, ClearExl;
  }

  lemma ForwardSafe(d: IdEx, e: ExMem, w: MemWb)
    ensures var f := Forward(d, e, w);
            f.inst == d.inst && f.c == d.c && f.rs == d.rs && f.rt == d.rt && f.rd == d.rd && f.exception == d.exception
  {
    hide Select;
  }

  lemma SafeTick(p: State)
    requires Safe(p)
    ensures Safe(Tick(p)) && Tick(p).cp0[0] == p.cp0[0]
  {
    hide WriteBack, Access, Execute, DecodeFrom, Forward, ControlOf, SourceA, SourceB, RdOf, SafeDest, Redirect,
         Resolve, Read, Rs, Rt;
    WriteBackSafe(p.memWb, p.regs, p.cp0);
    var regs := Retire(p).regs;
    ZeroDest();
    AccessSafe(InWb(p), InEx(p), regs[InEx(p).regDst], regs[Rt(InEx(p).inst)], p.mem);
    ExecuteSafe(InEx(p), InId(p));
    DecodeSafe(Resolve(InId(p)), MarkedIf(p), Retire(p).regs, Retire(p).cp0);
    ForwardSafe(Decoded(p), ExOut(p), MemOut(p).latch);
  }

  lemma ZeroDest()
    ensures SafeDest(0, 0)
  {
  }

  /** For every program and every number of ticks: $zero stays 0, write-back never
      reaches the PC slot, MTC0 never reaches the unused CP0 slot 0, every register
      number is in range, and the load-use interlock holds. */
  lemma AlwaysSafe(p: State, t: nat)
    requires Initial(p)
    ensures Safe(Ticks(p, t)) && Ticks(p, t).cp0[0] == p.cp0[0]
    ensures var q := Ticks(p, t);
            Retire(q).regs[0] == 0 && (!Flushes(q) ==> Retire(q).regs[REG_PC] == q.Pc())
  {
    hide Tick, WriteBack, DecodedLatch, SafeDest, Interlocked;
    if t > 0 {
      AlwaysSafe(p, t - 1);
      SafeTick(Ticks(p, t - 1));
    } else {
      InitialSafe(p);
    }
    WriteBackSafe(Ticks(p, t).memWb, Ticks(p, t).regs, Ticks(p, t).cp0);
  }

  lemma InitialSafe(p: State)
    requires Initial(p)
    ensures Safe(p)
  {
  }

  /** Hence no operand ever takes a load's address for its data: with a load in
      EX_MEM, an operand that the forwarding unit replaces comes from MEM_WB.
      JAL, which renames its rt to $ra after the interlock has looked, is apart. */
  lemma NeverForwardsLoadAddress(p: State)
    requires Safe(p) && ExOut(p).memRead && !IsJal(Decoded(p).inst)
    ensures var d, e, w := Decoded(p), ExOut(p), MemOut(p).latch;
            forall slot | slot in {d.rs, d.rt} && Select(slot, d.inst, e, w).Take? ::
              w.regWrite && w.regDst == slot && Select(slot, d.inst, e, w).value == WbData(w)
  {
    hide WriteBack, Access, Execute, DecodeFrom, ControlOf, Redirect, Resolve, WbData, Select, DecodedLatch, Rs, Rt;
    var d, e, w := Decoded(p), ExOut(p), MemOut(p).latch;
    DecodeSafe(Resolve(InId(p)), MarkedIf(p), Retire(p).regs, Retire(p).cp0);
    LoadInEx(p);
    DecodedDest(p.idEx.inst);
    assert d.inst == p.ifId.inst;
    forall slot | slot in {d.rs, d.rt} && Select(slot, d.inst, e, w).Take?
      ensures w.regWrite && w.regDst == slot && Select(slot, d.inst, e, w).value == WbData(w)
    {
      SelectPastLoad(slot, d, e, w);
    }
  }

  lemma SelectPastLoad(slot: Slot, d: IdEx, e: ExMem, w: MemWb)
    requires DecodedLatch(d) && !IsJal(d.inst) && slot in {d.rs, d.rt} && Opcode(e.inst) != OPCODE_CP0
    requires d.inst == 0 || (e.regDst != Rs(d.inst) && e.regDst != Rt(d.inst))
    ensures Select(slot, d.inst, e, w).Take? ==>
              w.regWrite && w.regDst == slot && Select(slot, d.inst, e, w).value == WbData(w)
  {
    hide ControlOf, RdOf, WbData;
    if d.inst == 0 { ZeroDecode(); }
  }

  lemma LoadInEx(p: State)
    requires Safe(p) && ExOut(p).memRead
    ensures !Flushes(p) && p.idEx.c.memRead && p.idEx.c == ControlOf(p.idEx.inst)
    ensures ExOut(p).regDst == p.idEx.rt && ExOut(p).inst == p.idEx.inst
  {
    hide WriteBack, AluResult, AluException, ControlOf;
    DecodedDest(p.idEx.inst);
  }

  // ----- Throughput -----

  /** A tick either fetches one word and advances the PC past it, or keeps the PC
      and puts a bubble into IF_ID. */
  lemma FetchOrBubble(p: State)
    ensures Tick(p).ifId.exception == NoException
    ensures if Stalls(p)
            then Tick(p).Pc() == FetchPc(p) && Tick(p).ifId.inst == 0
            else Tick(p).Pc() == Plus4(FetchPc(p)) && Tick(p).ifId.nextPc == Plus4(FetchPc(p)) &&
                 Tick(p).ifId.inst == FetchWord(MemOut(p).mem, FetchPc(p))
  {
    hide Retire, MemOut, ExOut, Decoded, Forward, FetchPc, Stalls, Plus4;
  }

  /** Two bubbles never follow each other. */
  lemma NoDoubleStall(p: State)
    requires Stalls(p)
    ensures !Stalls(Tick(p))
  {
    hide Retire, MemOut, ExOut, Decoded, Forward, FetchPc, NextPc, Flushes, InId, IfOut, Tick, Stalls;
    FetchOrBubble(p);
    BubbleNeverStalls(Tick(p));
  }

  lemma BubbleNeverStalls(p: State)
    requires MarkedIf(p).inst == 0 && MarkedIf(p).exception == NoException
    ensures !Stalls(p)
  {
    hide MarkedIf, Retire, InId, Fetched, Resolve, SourceA, SourceB, RdOf, FunctOf, ControlOf;
    ZeroDecode();
  }

  function Bubbles(p: State, t: nat): nat {
    if t == 0 then 0 else Bubbles(p, t - 1) + if Stalls(Ticks(p, t - 1)) then 1 else 0
  }

  function Fetches(p: State, t: nat): nat {
    if t == 0 then 0 else Fetches(p, t - 1) + if Stalls(Ticks(p, t - 1)) then 0 else 1
  }

  function LoadsDecoded(p: State, t: nat): nat {
    if t == 0 then 0 else LoadsDecoded(p, t - 1) + if Decoded(Ticks(p, t - 1)).c.memRead then 1 else 0
  }

  /** Conservation: ticks are fetches plus bubbles, bubbles never outnumber the
      loads decoded, and at most every second tick is one. */
  lemma {:induction false} Throughput(p: State, t: nat)
    ensures Fetches(p, t) + Bubbles(p, t) == t
    ensures Bubbles(p, t) <= LoadsDecoded(p, t)
    ensures 2 * Bubbles(p, t) <= t + if t > 0 && Stalls(Ticks(p, t - 1)) then 1 else 0
  {
    hide Tick, Stalls, Decoded;
    if t > 0 {
      Throughput(p, t - 1);
      if Stalls(Ticks(p, t - 1)) { StallIsLoad(Ticks(p, t - 1)); }
      if t > 1 && Stalls(Ticks(p, t - 2)) { NoDoubleStall(Ticks(p, t - 2)); }
    }
  }

  lemma StallIsLoad(p: State)
    requires Stalls(p)
    ensures Decoded(p).c.memRead
  {
    hide Decoded, Fetched;
  }
}
