/** The operand muxes of the forwarding unit, behind arbitrary latches: exactly
    when an operand is the register's newest value, by values and by words. */
module Muxes {
  import opened Words
  import opened Isa
  import opened Latches
  import opened Stages
  import opened Hazards

  /** The latch is about to write register n of CP0 (`cp`) or of the general file. */
  predicate Writes(w: MemWb, cp: bool, n: Slot) {
    w.regWrite && w.regDst == n && (IsMtc0(w.inst) <==> cp)
  }

  predicate WritesEx(e: ExMem, cp: bool, n: Slot) {
    e.regWrite && e.regDst == n && (IsMtc0(e.inst) <==> cp)
  }

  /** Register n's value once MEM_WB, or MEM_WB and then EX_MEM, has written. */
  function AfterWb(w: MemWb, cp: bool, n: Slot, file: Word): Word {
    if n != 0 && Writes(w, cp, n) then WbData(w) else file
  }

  function Newest(e: ExMem, w: MemWb, cp: bool, n: Slot, file: Word): Word {
    if n != 0 && WritesEx(e, cp, n) then e.aluRes else AfterWb(w, cp, n, file)
  }

  function Muxed(c: Choice, value: Word): Word {
    if c.Take? then c.value else value
  }

  /** The operands a word names: (file, number). */
  predicate Reads(reader: Word, cp: bool, n: Slot) {
    (n == SourceA(reader) && cp == IsMfc0(reader)) || (n == SourceB(reader) && !cp)
  }

  /** One operand, by values. A refused forward is right exactly when MEM_WB has
      nothing for the register, or just its old value; a forward is right exactly
      when it comes from the right file, or happens to agree. */
  lemma OperandExact(reader: Word, cp: bool, n: Slot, e: ExMem, w: MemWb, file: Word)
    requires Reads(reader, cp, n) && n != 0
    ensures Muxed(Select(n, reader, e, w), file) == Newest(e, w, cp, n, file) <==>
            if e.regWrite && e.regDst == n then
              if IllegalForward(e.inst, reader) then Writes(w, cp, n) ==> WbData(w) == file
              else WritesEx(e, cp, n) || e.aluRes == AfterWb(w, cp, n, file)
            else
              w.regWrite && w.regDst == n && !IllegalForward(w.inst, reader) && !Writes(w, cp, n) ==> WbData(w) == file
  {
    IllegalIsForeign(e.inst, reader, cp, n);
    IllegalIsForeign(w.inst, reader, cp, n);
  }

  /** A refused forward would have come from the other register file. */
  lemma IllegalIsForeign(writer: Word, reader: Word, cp: bool, n: Slot)
    requires Reads(reader, cp, n) && n != 0
    ensures IllegalForward(writer, reader) ==> (IsMtc0(writer) <==> !cp)
  {
  }

  // ----- The whole forwarding unit -----

  /** What the unit does to operand A, and to operand B, which a refused operand A
      leaves as it was read. */
  lemma ForwardParts(d: IdEx, e: ExMem, w: MemWb)
    requires d.inst != INSTRUCTION_ERET
    ensures var a, b := Select(d.rs, d.inst, e, w), Select(d.rt, d.inst, e, w);
            var f := Forward(d, e, w);
            f.rsValue == Muxed(a, d.rsValue) && f.rtValue == (if a.Illegal? then d.rtValue else Muxed(b, d.rtValue)) &&
            f == d.(rsValue := f.rsValue, rtValue := f.rtValue)
  {
    hide Select;
  }

  /** The operands as they should be once both latches have written; JAL's first
      is its link. */
  function ProperA(f: IfId, e: ExMem, w: MemWb, regs: Regs, cp0: Cp0Regs): Word {
    var inst := f.inst;
    if IsJal(inst) then Plus4(f.nextPc)
    else if IsMfc0(inst) then Newest(e, w, true, SourceA(inst), cp0[SourceA(inst)])
    else Newest(e, w, false, SourceA(inst), regs[SourceA(inst)])
  }

  function ProperB(f: IfId, e: ExMem, w: MemWb, regs: Regs): Word {
    if IsMfc0(f.inst) || IsMtc0(f.inst) then 0 else Newest(e, w, false, Rt(f.inst), regs[Rt(f.inst)])
  }

  /** A refused operand A, by values: A is right exactly when MEM_WB has nothing new
      for its register, and B exactly when neither latch has anything new for its
      own, since a proper forward of it is dropped as well. */
  lemma RefusedExact(prev: IdEx, f: IfId, e: ExMem, w: MemWb, regs: Regs, cp0: Cp0Regs)
    requires f.exception == NoException && f.inst != INSTRUCTION_ERET && !IsJal(f.inst)
    requires Select(SourceA(f.inst), f.inst, e, w).Illegal?
    ensures var d := Forward(DecodeFrom(prev, f, regs, cp0), e, w);
            var cp, n, m := IsMfc0(f.inst), SourceA(f.inst), SourceB(f.inst);
            var fileA, fileB := if cp then cp0[n] else regs[n], regs[m];
            (d.rsValue == ProperA(f, e, w, regs, cp0) <==> (Writes(w, cp, n) ==> WbData(w) == fileA)) &&
            (d.rtValue == ProperB(f, e, w, regs) <==>
               m == 0 || (if WritesEx(e, false, m) then e.aluRes == fileB
                          else Writes(w, false, m) ==> WbData(w) == fileB))
  {
    hide WbData, IllegalForward, DecodeFrom, Forward, SourceA, SourceB, Plus4, IsMtc0, IsMfc0, Rt, Select, Newest,
         Writes, WritesEx;
    var inst := f.inst;
    DecodeParts(prev, f, regs, cp0);
    ForwardParts(DecodeFrom(prev, f, regs, cp0), e, w);
    SourceKinds(inst);
    IllegalSelect(SourceA(inst), inst, IsMfc0(inst), e, w);
    NewestParts(e, w, IsMfc0(inst), SourceA(inst), DecodeFrom(prev, f, regs, cp0).rsValue);
    NewestParts(e, w, false, SourceB(inst), regs[SourceB(inst)]);
  }

  lemma IllegalSelect(n: Slot, reader: Word, cp: bool, e: ExMem, w: MemWb)
    requires Select(n, reader, e, w).Illegal? && n == SourceA(reader) && cp == IsMfc0(reader)
    ensures n != 0 && !WritesEx(e, cp, n)
  {
    hide IllegalForward, WbData, SourceA, IsMtc0;
    IllegalIsForeign(e.inst, reader, cp, n);
    IllegalIsForeign(w.inst, reader, cp, n);
  }

  lemma NewestParts(e: ExMem, w: MemWb, cp: bool, n: Slot, file: Word)
    ensures Newest(e, w, cp, n, file) ==
              if n == 0 then file else if WritesEx(e, cp, n) then e.aluRes
              else if Writes(w, cp, n) then WbData(w) else file
  {
    hide WbData, IsMtc0;
  }

  /** ID and the forwarding unit deliver both. */
  predicate Delivers(prev: IdEx, f: IfId, e: ExMem, w: MemWb, regs: Regs, cp0: Cp0Regs) {
    var d := Forward(DecodeFrom(prev, f, regs, cp0), e, w);
    d.rsValue == ProperA(f, e, w, regs, cp0) && d.rtValue == ProperB(f, e, w, regs)
  }

  // ----- By words -----

  /** The latch carries a word's numbers, or a bubble. */
  predicate WbWord(w: MemWb, older: Option<Word>) {
    match older
    case None => w.regWrite ==> w.regDst == 0
    case Some(x) => w.inst == x && w.regWrite == ControlOf(x).regWrite && (w.regWrite ==> w.regDst == DestOf(x))
  }

  predicate ExWord(e: ExMem, older: Option<Word>) {
    match older
    case None => e.regWrite ==> e.regDst == 0
    case Some(x) => e.inst == x && e.regWrite == ControlOf(x).regWrite && (e.regWrite ==> e.regDst == DestOf(x))
  }

  lemma WordsWrite(wb: Option<Word>, ex: Option<Word>, e: ExMem, w: MemWb, n: Slot)
    requires WbWord(w, wb) && ExWord(e, ex) && n != 0
    ensures w.regWrite && w.regDst == n <==> Names(wb, n)
    ensures e.regWrite && e.regDst == n <==> Names(ex, n)
    ensures Names(wb, n) ==> w.inst == wb.value
    ensures Names(ex, n) ==> e.inst == ex.value
  {
    hide ControlOf, RdOf, SourceB;
  }

  lemma WordsSelect(wb: Option<Word>, ex: Option<Word>, e: ExMem, w: MemWb, n: Slot, reader: Word)
    requires WbWord(w, wb) && ExWord(e, ex)
    ensures Select(n, reader, e, w).Illegal? <==> Refused(wb, ex, n, reader)
    ensures Select(n, reader, e, w).Take? <==> Taken(wb, ex, n, reader)
    ensures Taken(wb, ex, n, reader) ==>
              Select(n, reader, e, w).value == if Names(ex, n) then e.aluRes else WbData(w)
  {
    hide IllegalForward, WbData, DestOf, WbWord, ExWord;
    if n != 0 { WordsWrite(wb, ex, e, w, n); }
  }

  lemma WordsNewest(wb: Option<Word>, ex: Option<Word>, e: ExMem, w: MemWb, cp: bool, n: Slot, file: Word)
    requires WbWord(w, wb) && ExWord(e, ex)
    ensures Newest(e, w, cp, n, file) ==
              if Gives(ex, cp, n) then e.aluRes else if Gives(wb, cp, n) then WbData(w) else file
  {
    hide WbData, DestOf, WbWord, ExWord, IsMtc0;
    if n != 0 { WordsWrite(wb, ex, e, w, n); }
  }

  /** One operand, by words. */
  lemma FreshMux(wb: Option<Word>, ex: Option<Word>, e: ExMem, w: MemWb, reader: Word, cp: bool, n: Slot, file: Word)
    requires WbWord(w, wb) && ExWord(e, ex) && Reads(reader, cp, n)
    requires Fresh(wb, ex, cp, n, reader)
    ensures Muxed(Select(n, reader, e, w), file) == Newest(e, w, cp, n, file)
  {
    hide WbData, DestOf, WbWord, ExWord, IsMtc0, Select, Newest, IllegalForward, Reads;
    WordsSelect(wb, ex, e, w, n, reader);
    WordsNewest(wb, ex, e, w, cp, n, file);
    if n != 0 {
      if wb.Some? { IllegalIsForeign(wb.value, reader, cp, n); }
      if ex.Some? { IllegalIsForeign(ex.value, reader, cp, n); }
    }
  }

  lemma DecodeParts(prev: IdEx, f: IfId, regs: Regs, cp0: Cp0Regs)
    requires f.exception == NoException
    ensures var d, inst := DecodeFrom(prev, f, regs, cp0), f.inst;
            d.inst == inst && d.rs == SourceA(inst) && d.rt == SourceB(inst) &&
            d.rsValue == (if IsJal(inst) then Plus4(f.nextPc) else if IsMfc0(inst) then cp0[SourceA(inst)]
                          else regs[SourceA(inst)]) &&
            d.rtValue == if IsMfc0(inst) || IsMtc0(inst) then 0 else regs[Rt(inst)]
  {
    hide ControlOf, FunctOf, RdOf, JumpTarget, Plus4;
  }

  lemma SourceKinds(inst: Word)
    ensures SourceB(inst) == if IsMfc0(inst) || IsMtc0(inst) then 0 else if IsJal(inst) then REG_RA else Rt(inst)
    ensures IsJal(inst) ==> SourceA(inst) == Rs(inst) && !IsMfc0(inst) && !IsMtc0(inst)
    ensures !IsMfc0(inst) ==> SourceA(inst) < 32
  {
  }

  lemma ZeroFresh(wb: Option<Word>, ex: Option<Word>, e: ExMem, w: MemWb, reader: Word, cp: bool, file: Word)
    ensures Newest(e, w, cp, 0, file) == file && Select(0, reader, e, w).Keep?
  {
  }

  /** Behind harmless words the unit delivers, whatever the latches and registers
      hold. */
  lemma HarmlessSuffices(wb: Option<Word>, ex: Option<Word>, prev: IdEx, f: IfId, e: ExMem, w: MemWb, regs: Regs,
                         cp0: Cp0Regs)
    requires WbWord(w, wb) && ExWord(e, ex) && f.exception == NoException
    requires f.inst != INSTRUCTION_ERET && Harmless(wb, ex, f.inst)
    ensures Delivers(prev, f, e, w, regs, cp0)
  {
    hide WbData, DestOf, WbWord, ExWord, IsMtc0, IsMfc0, IsJal, Select, Newest, IllegalForward, Forward, DecodeFrom,
         SourceA, SourceB, Plus4, Rt, Refused, Fresh, Taken, Settled, Gives;
    var inst := f.inst;
    var d := DecodeFrom(prev, f, regs, cp0);
    DecodeParts(prev, f, regs, cp0);
    ForwardParts(d, e, w);
    SourceKinds(inst);
    WordsSelect(wb, ex, e, w, SourceA(inst), inst);
    WordsSelect(wb, ex, e, w, SourceB(inst), inst);
    if !IsJal(inst) {
      FreshMux(wb, ex, e, w, inst, IsMfc0(inst), SourceA(inst), d.rsValue);
    }
    HarmlessB(wb, ex, e, w, inst, d.rtValue);
    ZeroFresh(wb, ex, e, w, inst, false, 0);
  }

  lemma HarmlessB(wb: Option<Word>, ex: Option<Word>, e: ExMem, w: MemWb, inst: Word, file: Word)
    requires WbWord(w, wb) && ExWord(e, ex) && FreshB(wb, ex, inst)
    requires IsMfc0(inst) || IsMtc0(inst) ==> file == 0
    ensures var rt := if IsJal(inst) then Rt(inst) else SourceB(inst);
            (if Select(SourceA(inst), inst, e, w).Illegal? then file
             else Muxed(Select(SourceB(inst), inst, e, w), file)) == Newest(e, w, false, rt, file)
  {
    hide WbData, DestOf, WbWord, ExWord, IsMtc0, IsMfc0, Select, Newest, IllegalForward, SourceA, SourceB, Rt,
         Refused, Fresh, Taken;
    var rt := if IsJal(inst) then Rt(inst) else SourceB(inst);
    WordsSelect(wb, ex, e, w, SourceA(inst), inst);
    WordsSelect(wb, ex, e, w, SourceB(inst), inst);
    WordsNewest(wb, ex, e, w, false, rt, file);
    if rt == SourceB(inst) && Fresh(wb, ex, false, rt, inst) { FreshMux(wb, ex, e, w, inst, false, rt, file); }
  }

  /** With three different values at hand, a mux that is not fresh yields a wrong
      one. */
  lemma StaleMux(wb: Option<Word>, ex: Option<Word>, e: ExMem, w: MemWb, reader: Word, cp: bool, n: Slot, file: Word)
    requires WbWord(w, wb) && ExWord(e, ex) && Reads(reader, cp, n)
    requires e.aluRes != WbData(w) && e.aluRes != file && WbData(w) != file
    requires !Fresh(wb, ex, cp, n, reader)
    ensures Muxed(Select(n, reader, e, w), file) != Newest(e, w, cp, n, file)
  {
    hide WbData, DestOf, WbWord, ExWord, IsMtc0, Select, Newest, IllegalForward, Reads;
    WordsSelect(wb, ex, e, w, n, reader);
    WordsNewest(wb, ex, e, w, cp, n, file);
    if wb.Some? { IllegalIsForeign(wb.value, reader, cp, n); }
    if ex.Some? { IllegalIsForeign(ex.value, reader, cp, n); }
  }

  lemma StaleB(wb: Option<Word>, ex: Option<Word>, e: ExMem, w: MemWb, inst: Word, file: Word)
    requires WbWord(w, wb) && ExWord(e, ex) && !FreshB(wb, ex, inst)
    requires e.aluRes != WbData(w) && e.aluRes != file && WbData(w) != file
    ensures var rt := if IsJal(inst) then Rt(inst) else SourceB(inst);
            (if Select(SourceA(inst), inst, e, w).Illegal? then file
             else Muxed(Select(SourceB(inst), inst, e, w), file)) != Newest(e, w, false, rt, file)
  {
    hide WbData, DestOf, WbWord, ExWord, IsMtc0, IsMfc0, Select, Newest, IllegalForward, SourceA, SourceB, Rt,
         Refused, Fresh;
    var rt := if IsJal(inst) then Rt(inst) else SourceB(inst);
    WordsSelect(wb, ex, e, w, SourceA(inst), inst);
    WordsSelect(wb, ex, e, w, SourceB(inst), inst);
    WordsNewest(wb, ex, e, w, false, rt, file);
    if rt == SourceB(inst) && !Fresh(wb, ex, false, rt, inst) { StaleMux(wb, ex, e, w, inst, false, rt, file); }
  }

  /** Behind words that are not harmless there are latch and register contents for
      which an operand comes out wrong. */
  lemma HarmlessNeeded(wb: Option<Word>, ex: Option<Word>, inst: Word)
    returns (f: IfId, e: ExMem, w: MemWb, regs: Regs, cp0: Cp0Regs)
    requires inst != INSTRUCTION_ERET && !Harmless(wb, ex, inst)
    ensures f.inst == inst && f.exception == NoException && WbWord(w, wb) && ExWord(e, ex) && regs[0] == 0
    ensures !Delivers(ZERO_ID_EX, f, e, w, regs, cp0)
  {
    hide DestOf, WbData, WbWord, ExWord, IsMtc0, IsMfc0, IsJal, Select, Newest, IllegalForward, Forward, DecodeFrom,
         SourceA, SourceB, Plus4, Rt, Refused, Fresh, Taken, Settled, Gives, ControlOf;
    f := ZERO_IF_ID.(inst := inst);
    e := ExFor(ex);
    w := WbFor(wb);
    regs := seq(NUM_REGISTERS, i => if i == 0 then 0 else 3);
    cp0 := seq(CP0_SLOTS, _ => 3);
    var d := DecodeFrom(ZERO_ID_EX, f, regs, cp0);
    DecodeParts(ZERO_ID_EX, f, regs, cp0);
    assert Plus4(f.nextPc) == 4 by { LinkOfZero(); }
    ForwardParts(d, e, w);
    SourceKinds(inst);
    WordsSelect(wb, ex, e, w, SourceA(inst), inst);
    if !IsJal(inst) && !Fresh(wb, ex, IsMfc0(inst), SourceA(inst), inst) {
      StaleMux(wb, ex, e, w, inst, IsMfc0(inst), SourceA(inst), d.rsValue);
    } else if !FreshB(wb, ex, inst) {
      if IsMfc0(inst) || IsMtc0(inst) { UnusedB(wb, ex, inst); }
      StaleB(wb, ex, e, w, inst, d.rtValue);
    }
  }

  lemma LinkOfZero()
    ensures Plus4(ZERO_IF_ID.nextPc) == 4
  {
  }

  lemma UnusedB(wb: Option<Word>, ex: Option<Word>, inst: Word)
    requires IsMfc0(inst) || IsMtc0(inst)
    ensures FreshB(wb, ex, inst)
  {
  }

  function ExFor(older: Option<Word>): (e: ExMem)
    ensures ExWord(e, older) && e.aluRes == 1
  {
    hide DestOf, ControlOf;
    match older
    case None => ZERO_EX_MEM.(aluRes := 1)
    case Some(x) => ZERO_EX_MEM.(inst := x, regWrite := ControlOf(x).regWrite, regDst := DestOf(x), aluRes := 1)
  }

  function WbFor(older: Option<Word>): (w: MemWb)
    ensures WbWord(w, older) && WbData(w) == 2
  {
    hide DestOf, ControlOf;
    match older
    case None => ZERO_MEM_WB.(aluRes := 2)
    case Some(x) => ZERO_MEM_WB.(inst := x, regWrite := ControlOf(x).regWrite, regDst := DestOf(x), aluRes := 2)
  }
}
