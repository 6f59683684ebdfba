/** The five stages and the forwarding unit of src/sim.c as functions on values.
    `Machine` proves its in-place methods against them; the sequential machine
    of `Sequential` is built from the same decode, ALU, memory and commit blocks. */
module Stages {
  import opened Words
  import opened Isa
  import opened Latches
  import opened Memory

  // ----- ID: the control unit -----

  /** `interpret_id_control`: the control bits of an instruction word. */
  function ControlOf(inst: Word): Control {
    var op := Opcode(inst);
    if op == OPCODE_R then
      if Funct(inst) == FUNCT_JR then NO_CONTROL.(jump := true)
      else NO_CONTROL.(regDst := true, aluOp := 2, regWrite := true)
    else if op in {OPCODE_LWL, OPCODE_LWR, OPCODE_LBU, OPCODE_LHU, OPCODE_LW} then
      NO_CONTROL.(aluSrc := true, memRead := true, regWrite := true, memToReg := true)
    else if op in {OPCODE_LL, OPCODE_LUI, OPCODE_SLTI, OPCODE_SLTIU, OPCODE_ORI, OPCODE_ANDI,
                   OPCODE_ADDI, OPCODE_ADDIU} then
      NO_CONTROL.(aluOp := 3, aluSrc := true, regWrite := true)
    else if op in {OPCODE_SC, OPCODE_SWR, OPCODE_SWL, OPCODE_SB, OPCODE_SH, OPCODE_SW} then
      NO_CONTROL.(aluSrc := true, memWrite := true)
    else if op == OPCODE_BEQ then NO_CONTROL.(beq := true)
    else if op == OPCODE_BNE then NO_CONTROL.(bne := true)
    else if op == OPCODE_J then NO_CONTROL.(jump := true)
    else if op == OPCODE_JAL then NO_CONTROL.(jump := true, regWrite := true)
    else if IsMfc0(inst) || IsMtc0(inst) then
      NO_CONTROL.(regDst := true, aluOp := 2, regWrite := true)
    else NO_CONTROL
  }

  /** The numbers ID_EX.rs, ID_EX.rt and ID_EX.rd end up with. */
  function SourceA(inst: Word): Slot {
    if IsMfc0(inst) then Rd(inst) + 1
    else if IsMtc0(inst) then Rt(inst)
    else Rs(inst)
  }

  function SourceB(inst: Word): Slot {
    if IsMfc0(inst) || IsMtc0(inst) then 0
    else if IsJal(inst) then REG_RA
    else Rt(inst)
  }

  function RdOf(inst: Word): Slot {
    if IsMfc0(inst) then Rt(inst)
    else if IsMtc0(inst) then Rd(inst) + 1
    else Rd(inst)
  }

  function FunctOf(inst: Word): nat {
    if IsMfc0(inst) || IsMtc0(inst) then FUNCT_ADD else Funct(inst)
  }

  function JumpTarget(inst: Word, nextPc: Word): Word {
    nextPc / 0x1000_0000 * 0x1000_0000 + Address(inst) * 4
  }

  /** `interpret_id`. `rsNow`, `rtNow` and `cpNow` are what the register files
      hold under the word's rs, rt and rd (+1, for CP0) fields. */
  function Decode(prev: IdEx, f: IfId, rsNow: Word, rtNow: Word, cpNow: Word): IdEx {
    var inst := f.inst;
    if f.exception != NoException then
      IdEx(prev.c, Shamt(inst), Funct(inst), f.nextPc, rsNow, rtNow, prev.jumpAddr, SignExtend(Imm(inst)),
           Rs(inst), Rt(inst), Rd(inst), inst, f.isBranchDelay, f.exception, f.badVAddr)
    else
      IdEx(ControlOf(inst), Shamt(inst), FunctOf(inst), f.nextPc,
           if IsJal(inst) then Plus4(f.nextPc)
           else if IsMfc0(inst) then cpNow
           else if IsMtc0(inst) then rtNow
           else rsNow,
           if IsMfc0(inst) || IsMtc0(inst) then 0 else rtNow,
           if Opcode(inst) in {OPCODE_J, OPCODE_JAL} then JumpTarget(inst, f.nextPc) else prev.jumpAddr,
           SignExtend(Imm(inst)), SourceA(inst), SourceB(inst), RdOf(inst),
           inst, f.isBranchDelay, NoException, f.badVAddr)
  }

  // ----- EX -----

  /** The value `interpret_ex_alu` stores, or None where no case of it assigns
      `alu_res`, so that the old value stays. SUB adds. */
  function AluResult(aluOp: nat, funct: nat, op: nat, shamt: RegField, a: Word, b: Word): Option<Word> {
    if aluOp == 0 then Some(Wrap(a + b))
    else if aluOp == 2 then
      if funct == FUNCT_ADD then Some(Wrap(a + b))
      else if funct == FUNCT_ADDU then Some(Wrap(a + b))
      else if funct == FUNCT_SUB then Some(Wrap(a + b))
      else if funct == FUNCT_SUBU then Some(Wrap(a - b))
      else if funct == FUNCT_AND then Some(And(a, b))
      else if funct == FUNCT_OR then Some(Or(a, b))
      else if funct == FUNCT_NOR then Some(Nor(a, b))
      else if funct == FUNCT_SLT then Some(if Signed(a) < Signed(b) then 1 else 0)
      else if funct == FUNCT_SLTU then Some(if a < b then 1 else 0)
      else if funct == FUNCT_SLL then Some(Shl(b, shamt))
      else if funct == FUNCT_SRL then Some(Shr(b, shamt))
      else None
    else if aluOp == 3 then
      if op == OPCODE_ADDI then Some(Wrap(a + b))
      else if op == OPCODE_ADDIU then Some(Wrap(a + b))
      else if op == OPCODE_SLTI then Some(if Signed(a) < Signed(b) then 1 else 0)
      else if op == OPCODE_SLTIU then Some(if a < b then 1 else 0)
      else if op == OPCODE_ANDI then Some(And(a, And(b, 0xFFFF)))
      else if op == OPCODE_ORI then Some(Or(a, And(b, 0xFFFF)))
      else if op == OPCODE_LUI then Some(Shl(b, 16))
      else None
    else None
  }

  /** The exception the ALU raises: overflow for ALU operation 0 (loads, stores,
      branches, jumps) and ADDI, and SYSCALL. */
  function AluException(aluOp: nat, funct: nat, op: nat, a: Word, b: Word): Exception {
    if aluOp == 0 && Overflows(a, b) then ArithmeticOverflow
    else if aluOp == 2 && funct == FUNCT_SYSCALL then Syscall
    else if aluOp == 3 && op == OPCODE_ADDI && Overflows(a, b) then ArithmeticOverflow
    else NoException
  }

  function OperandB(d: IdEx): Word {
    if d.c.aluSrc then d.signExtImm else d.rtValue
  }

  /** The EX_MEM latch that `interpret_ex` leaves. */
  function Execute(prev: ExMem, d: IdEx): ExMem {
    if d.exception != NoException then
      ExMem(d.c.regWrite, d.c.memRead, d.c.memWrite, d.c.memToReg, prev.aluRes, d.rtValue, prev.regDst,
            d.nextPc, d.isBranchDelay, d.inst, d.exception, d.badVAddr)
    else
      var result := AluResult(d.c.aluOp, d.funct, Opcode(d.inst), d.shamt, d.rsValue, OperandB(d));
      ExMem(d.c.regWrite, d.c.memRead, d.c.memWrite, d.c.memToReg,
            if result.Some? then result.value else prev.aluRes,
            d.rtValue, if d.c.regDst then d.rd else d.rt,
            d.nextPc, d.isBranchDelay, d.inst,
            AluException(d.c.aluOp, d.funct, Opcode(d.inst), d.rsValue, OperandB(d)), prev.badVAddr)
  }

  predicate JumpsToRegister(d: IdEx) {
    (Opcode(d.inst) == OPCODE_R && Funct(d.inst) == FUNCT_JR) || d.inst == INSTRUCTION_ERET
  }

  /** What `interpret_ex` does to its own input latch. */
  function Resolve(d: IdEx): IdEx {
    if d.exception == NoException && d.c.jump && JumpsToRegister(d) then d.(jumpAddr := d.rsValue) else d
  }

  function BranchTarget(d: IdEx): Word {
    Wrap(d.nextPc + d.signExtImm * 4)
  }

  /** The new PC when `interpret_ex` takes a jump or branch. */
  function Redirect(d: IdEx): Option<Word> {
    if d.exception != NoException then None
    else if d.c.bne && d.rsValue != d.rtValue then Some(BranchTarget(d))
    else if d.c.beq && d.rsValue == d.rtValue then Some(BranchTarget(d))
    else if d.c.jump then Some(Resolve(d).jumpAddr)
    else None
  }

  // ----- MEM -----

  const ALL_ONES: Word := 0xFFFF_FFFF

  /** The register value LWL builds from the old value and the aligned word. */
  function MergeLeft(dst: Word, word: Word, k: nat): Word
    requires k < 4
  {
    var shift := 32 - 8 * k;
    var mask := if shift >= 32 then 0 else Shr(ALL_ONES, shift);
    Or(And(dst, mask), Shl(word, 8 * k))
  }

  /** The register value LWR builds. */
  function MergeRight(dst: Word, word: Word, k: nat): Word
    requires k < 4
  {
    var shift := 8 + 8 * k;
    var mask := if shift >= 32 then 0 else Shl(ALL_ONES, shift);
    Or(And(dst, mask), Shr(word, 24 - 8 * k))
  }

  /** The memory word SWR stores. */
  function StoreRight(word: Word, rt: Word, k: nat): Word
    requires k < 4
  {
    var shift := 8 + 8 * k;
    var mask := if shift >= 32 then 0 else Shr(ALL_ONES, shift);
    Or(And(word, mask), Shl(rt, 24 - 8 * k))
  }

  /** The memory word SWL stores; the merged word is shifted once more. */
  function StoreLeft(word: Word, rt: Word, k: nat): Word
    requires k < 4
  {
    var shift := 32 - 8 * k;
    var mask := if shift >= 32 then 0 else Shl(ALL_ONES, shift);
    Shr(Or(And(word, mask), Shr(rt, 8 * k)), 24 - 8 * k)
  }

  /** `a & 0xfffffffc` */
  function AlignDown(a: Word): Word { a - a % 4 }

  /** The read half of `interpret_mem`; `dstNow` is the destination register's
      present value, read straight from the register file. */
  function Load(op: nat, a: Word, dstNow: Word, oldData: Word, mem: seq<Byte>): ReadResult {
    if op == OPCODE_LW then Read(mem, a, OpWord)
    else if op == OPCODE_LBU then Read(mem, a, OpByte)
    else if op == OPCODE_LHU then Read(mem, a, OpHalf)
    else if op == OPCODE_LWL then
      var r := Read(mem, AlignDown(a), OpWord);
      ReadResult(r.exception, MergeLeft(dstNow, r.data, a % 4), r.outside)
    else if op == OPCODE_LWR then
      var r := Read(mem, AlignDown(a), OpWord);
      ReadResult(r.exception, MergeRight(dstNow, r.data, a % 4), r.outside)
    else ReadResult(NoException, oldData, false)
  }

  /** The write half. `value` is the piped rt value, `rtNow` the register read
      directly by SWL and SWR. SC stores nothing. */
  function Store(op: nat, a: Word, value: Word, rtNow: Word, mem: seq<Byte>): (w: WriteResult)
    ensures |w.mem| == |mem|
    ensures w.exception != NoException ==> w.mem == mem
  {
    if op == OPCODE_SW then Write(mem, a, value, OpWord)
    else if op == OPCODE_SB then Write(mem, a, value, OpByte)
    else if op == OPCODE_SH then Write(mem, a, value, OpHalf)
    else if op == OPCODE_SWL then
      var r := Read(mem, AlignDown(a), OpWord);
      var w := Write(mem, AlignDown(a), StoreLeft(r.data, rtNow, a % 4), OpWord);
      w.(outside := w.outside || r.outside)
    else if op == OPCODE_SWR then
      var r := Read(mem, AlignDown(a), OpWord);
      var w := Write(mem, AlignDown(a), StoreRight(r.data, rtNow, a % 4), OpWord);
      w.(outside := w.outside || r.outside)
    else WriteResult(NoException, mem, false)
  }

  datatype MemResult = MemResult(latch: MemWb, mem: seq<Byte>, outside: bool)

  /** `interpret_mem`. */
  function Access(prev: MemWb, e: ExMem, dstNow: Word, rtNow: Word, mem: seq<Byte>): (r: MemResult)
    ensures |r.mem| == |mem|
  {
    var piped := MemWb(e.regWrite, e.memToReg, e.aluRes, prev.readData, e.regDst, e.nextPc, e.inst,
                       e.isBranchDelay, e.exception, if e.exception != NoException then e.badVAddr else prev.badVAddr);
    if e.exception != NoException then MemResult(piped, mem, false)
    else if e.memRead then
      var l := Load(Opcode(e.inst), e.aluRes, dstNow, prev.readData, mem);
      MemResult(piped.(readData := l.data, exception := l.exception), mem, l.outside)
    else if e.memWrite then
      var w := Store(Opcode(e.inst), e.aluRes, e.rtValue, rtNow, mem);
      MemResult(piped.(exception := w.exception), w.mem, w.outside)
    else MemResult(piped, mem, false)
  }

  // ----- WB -----

  type Regs = s: seq<Word> | |s| == NUM_REGISTERS witness seq(NUM_REGISTERS, _ => 0)
  type Cp0Regs = s: seq<Word> | |s| == CP0_SLOTS witness seq(CP0_SLOTS, _ => 0)

  /** How `interpret_wb` leaves: having written back, having emptied the
      pipeline (exception or ERET), or with the program finished. */
  datatype Outcome = Retired | Flushed | Finished

  datatype Commit = Commit(outcome: Outcome, regs: Regs, cp0: Cp0Regs)

  function WbData(w: MemWb): Word {
    if w.memToReg then w.readData else w.aluRes
  }

  /** The CP0 writes of `handle_exception`. */
  function RecordException(cp0: Cp0Regs, w: MemWb): Cp0Regs {
    var s := cp0[REG_EPC := w.nextPc][REG_CAUSE := GetCause(w.exception, w.isBranchDelay)];
    var s' := if w.exception == AddressErrorLoad then s[REG_BADVADDR := w.badVAddr] else s;
    s'[REG_SR := SetExl(s'[REG_SR])]
  }

  function HandlerPc(cp0: Cp0Regs): Word {
    if Bev(cp0[REG_SR]) then cp0[REG_EBASE] else EXCEPTION_VECTOR
  }

  /** `interpret_wb` with `handle_exception`, on the register files. */
  function WriteBack(w: MemWb, regs: Regs, cp0: Cp0Regs): Commit {
    if w.inst == INSTRUCTION_ERET then
      Commit(Flushed, regs[REG_PC := cp0[REG_EPC]], cp0[REG_SR := ClearExl(cp0[REG_SR])])
    else if w.exception != NoException then
      if w.exception == Syscall && regs[REG_V0] == 10 then Commit(Finished, regs, cp0)
      else
        var cp0' := RecordException(cp0, w);
        Commit(Flushed, regs[REG_PC := HandlerPc(cp0')], cp0')
    else if w.regWrite then
      if IsMtc0(w.inst) then Commit(Retired, regs, cp0[w.regDst := WbData(w)])
      else Commit(Retired, regs[w.regDst := if w.regDst == 0 then 0 else WbData(w)], cp0)
    else Commit(Retired, regs, cp0)
  }

  // ----- Forwarding -----

  datatype Choice = Keep | Take(value: Word) | Illegal

  /** The "illegal forward" test between a writer and the instruction in ID_EX. */
  predicate IllegalForward(writer: Word, reader: Word) {
    (IsMtc0(writer) && Opcode(reader) != OPCODE_CP0) || (Opcode(writer) != OPCODE_CP0 && IsMfc0(reader))
  }

  /** One operand mux of the forwarding unit. */
  function Select(slot: Slot, reader: Word, e: ExMem, w: MemWb): Choice {
    if e.regWrite && e.regDst != 0 && e.regDst == slot then
      if IllegalForward(e.inst, reader) then Illegal else Take(e.aluRes)
    else if w.regWrite && w.regDst != 0 && w.regDst == slot then
      if IllegalForward(w.inst, reader) then Illegal else Take(WbData(w))
    else Keep
  }

  /** `forwarding_unit`; an illegal operand A also gives up on operand B. */
  function Forward(d: IdEx, e: ExMem, w: MemWb): IdEx {
    if d.inst == INSTRUCTION_ERET then d
    else
      var a := Select(d.rs, d.inst, e, w);
      if a.Illegal? then d
      else
        var d' := if a.Take? then d.(rsValue := a.value) else d;
        var b := Select(d.rt, d.inst, e, w);
        if b.Take? then d'.(rtValue := b.value) else d'
  }

  /** The load-use test of `interpret_if` against the word just read. */
  predicate LoadUse(d: IdEx, inst: Word) {
    d.c.memRead && (d.rt == Rs(inst) || d.rt == Rt(inst))
  }

  // ----- The whole machine -----

  /** The simulator's state with one core. Register slot 32 is the PC.
      `outside` records that some access left the plain memory. */
  datatype State = State(
    regs: Regs,
    cp0: Cp0Regs,
    ifId: IfId,
    idEx: IdEx,
    exMem: ExMem,
    memWb: MemWb,
    mem: seq<Byte>,
    finished: bool,
    outside: bool)
  {
    function Pc(): Word { regs[REG_PC] }
  }

  function WbStage(p: State): State {
    var c := WriteBack(p.memWb, p.regs, p.cp0);
    var p' := p.(regs := c.regs, cp0 := c.cp0, finished := p.finished || c.outcome.Finished?);
    if c.outcome.Flushed?
    then p'.(ifId := ZERO_IF_ID, idEx := ZERO_ID_EX, exMem := ZERO_EX_MEM, memWb := ZERO_MEM_WB)
    else p'
  }

  function MemStage(p: State): State {
    var r := Access(p.memWb, p.exMem, p.regs[p.exMem.regDst], p.regs[Rt(p.exMem.inst)], p.mem);
    p.(memWb := r.latch, mem := r.mem, outside := p.outside || r.outside)
  }

  function ExStage(p: State): State {
    var target := Redirect(p.idEx);
    p.(exMem := Execute(p.exMem, p.idEx),
       idEx := Resolve(p.idEx),
       ifId := if target.Some? then p.ifId.(isBranchDelay := true) else p.ifId,
       regs := if target.Some? then p.regs[REG_PC := target.value] else p.regs)
  }

  function IdStage(p: State): State {
    p.(idEx := DecodeFrom(p.idEx, p.ifId, p.regs, p.cp0))
  }

  function DecodeFrom(prev: IdEx, f: IfId, regs: Regs, cp0: Cp0Regs): IdEx {
    Decode(prev, f, regs[Rs(f.inst)], regs[Rt(f.inst)], cp0[Rd(f.inst) + 1])
  }

  function IfStage(p: State): State {
    var r := Read(p.mem, p.Pc(), OpWord);
    var p' := p.(outside := p.outside || r.outside);
    if LoadUse(p.idEx, r.data) then
      p'.(ifId := p.ifId.(exception := r.exception, inst := 0))
    else
      var next := Plus4(p.Pc());
      p'.(ifId := IfId(r.data, next, r.exception, 0, false), regs := p.regs[REG_PC := next])
  }

  function FwdStage(p: State): State {
    p.(idEx := Forward(p.idEx, p.exMem, p.memWb))
  }

  /** `tick`, in the order the stages are called. */
  function TickInOrder(p: State): State {
    FwdStage(IfStage(IdStage(ExStage(MemStage(WbStage(p))))))
  }
}
