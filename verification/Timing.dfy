/** The clock: after every tick of a run the pipeline stands in the invariant,
    and each latch holds the instruction that the schedule puts there. */
module Timing {
  import opened Words
  import opened Stages
  import opened Pipeline
  import opened Sequential
  import opened Schedule
  import opened Hazards
  import opened Forwarding
  import opened Refinement

  /** The specification state a freshly loaded machine stands for. */
  function StartOf(p: State): Arch {
    Arch(p.regs, Plus4(p.Pc()), false, p.cp0, p.mem)
  }

  // After t ticks: instruction n commits in the tick its latch implies.

  ghost predicate TimedWb(t: nat, a: Arch, n: nat, v: Occupancy) {
    (v.wb && WordKept(a, n) ==> Due(a, n) == t + 1) && (Clear(a, n, v.wb) ==> TimedEx(t, a, Count(n, v.wb), v))
  }

  ghost predicate TimedEx(t: nat, a: Arch, n: nat, v: Occupancy) {
    (v.ex && WordKept(a, n) ==> Due(a, n) == t + 2) && (Clear(a, n, v.ex) ==> TimedId(t, a, Count(n, v.ex), v))
  }

  ghost predicate TimedId(t: nat, a: Arch, n: nat, v: Occupancy) {
    (v.id && WordKept(a, n) ==> Due(a, n) == t + 3) && (Clear(a, n, v.id) ==> TimedIf(t, a, Count(n, v.id), v))
  }

  ghost predicate TimedIf(t: nat, a: Arch, n: nat, v: Occupancy) {
    WordKept(a, n) ==> Due(a, n) == if v.fe then t + 4 else t + 5
  }

  /** `Due` does not lag behind the occupied latches. */
  lemma NotYetDue(t: nat, a: Arch, n: nat, v: Occupancy)
    requires TimedWb(t, a, n, v) && WordKept(a, n)
    ensures v.wb || Due(a, n) > t + 1
  {
    hide Seq, Due, Ok, LetsThrough, WordKept;
  }

  /** So the two latches ahead of the instruction being decoded hold the ones that
      commit one and two ticks before it. */
  lemma LatchesAhead(t: nat, a: Arch, n: nat, v: Occupancy)
    requires TimedWb(t, a, n, v) && Clear(a, n, v.wb) && (n > 0 ==> Due(a, n - 1) <= t)
    requires var n1 := Count(n, v.wb);
             var n2 := Count(n1, v.ex);
             Clear(a, n1, v.ex) && Clear(a, n2, v.id) && v.fe && WordKept(a, Count(n2, v.id))
    ensures var n1 := Count(n, v.wb);
            OnSchedule(a, n1, v.ex, Count(n1, v.ex), v.id)
  {
    hide Seq, Due, Ok, LetsThrough, WordKept, InstOf;
    var n1 := Count(n, v.wb);
    var n2 := Count(n1, v.ex);
    var n3 := Count(n2, v.id);
    if v.wb { OkKept(a, n); }
    if v.ex { OkKept(a, n1); }
    if v.id { OkKept(a, n2); }
    if n3 > 1 { DueMonotone(a, n3 - 2, n3 - 1); }
  }

  lemma TimedStep(t: nat, a: Arch, n: nat, p: State, v: Occupancy)
    requires TimedWb(t, a, n, v) && Clear(a, n, v.wb) && !Flushes(p)
    requires var n1 := Count(n, v.wb);
             var n2 := Count(n1, v.ex);
             var n3 := Count(n2, v.id);
             Clear(a, n1, v.ex) && Clear(a, n2, v.id) && Clear(a, n3, v.fe) && WordKept(a, Count(n3, v.fe)) ==>
               (Stalls(p) <==> v.fe && UsesLoad(Seq(a, n3)))
    ensures TimedWb(t + 1, a, Count(n, v.wb), Shift(p, v))
  {
    hide Ok, Seq, Flushes, Stalls, UsesLoad, Exits, Traps, WordKept, Due, DestOf;
    var n3 := Count(Count(Count(n, v.wb), v.ex), v.id);
    if Clear(a, n3, v.fe) {
      if v.fe { OkKept(a, n3); }
      DueSucc(a, n3);
    }
  }

  /** A flush: the next instruction is fetched in this tick. */
  lemma FlushTimed(t: nat, a: Arch, n: nat, p: State, v: Occupancy)
    requires TimedWb(t, a, n, v) && v.wb && WordKept(a, n) && Traps(Seq(a, n)) && Flushes(p)
    ensures TimedWb(t + 1, a, n + 1, Shift(p, v))
  {
    hide Ok, Seq, Flushes, Stalls, Traps, Exits, Due, WordKept;
    FlushGap(a, n);
  }

  /** After every tick before instruction `k` commits, the pipeline stands in the
      invariant at some instruction up to `k`, on schedule. */
  lemma Track(p: State, k: nat, t: nat) returns (c: nat, v: Occupancy)
    requires Initial(p) && Runs(StartOf(p), k) && t < Due(StartOf(p), k)
    ensures c <= k && Since(StartOf(p), c) <= t < Due(StartOf(p), c)
    ensures Inv(Ticks(p, t), StartOf(p), c, v) && TimedWb(t, StartOf(p), c, v)
  {
    hide Ok, Exits, Tick, InvWb, TimedWb, Step, Gap, Runs;
    var a := StartOf(p);
    if t == 0 {
      c, v := 0, Occupancy(false, false, false, false);
      Begin(p);
    } else {
      c, v := Track(p, k, t - 1);
      c, v := AdvanceClock(p, k, t - 1, c, v);
    }
  }

  lemma Begin(p: State)
    requires Initial(p)
    ensures var v := Occupancy(false, false, false, false);
            Inv(p, StartOf(p), 0, v) && TimedWb(0, StartOf(p), 0, v) && Due(StartOf(p), 0) == 5
  {
    hide Ok;
  }

  lemma KeptAt(a: Arch, k: nat, c: nat)
    requires Runs(a, k) && c <= k
    ensures WordKept(a, c)
  {
    hide WordKept, Exits, Seq, Ok;
    if c < k { OkKept(a, c); }
  }

  /** The instruction in MEM_WB, before the k-th commits. */
  lemma InWriteBack(a: Arch, k: nat, c: nat, v: Occupancy)
    requires Runs(a, k) && c <= k && (v.wb ==> c < k)
    ensures v.wb ==> Ok(a, c) && (Retires(Seq(a, c)) || Traps(Seq(a, c)))
    ensures (v.wb && Traps(Seq(a, c))) || (Clear(a, c, v.wb) && (v.wb ==> Retires(Seq(a, c))))
  {
    hide Ok, Seq, CommitOf, WordKept;
    if v.wb { RunsAt(a, k, c); ThreeOutcomes(Seq(a, c)); }
  }

  lemma AdvanceClock(p: State, k: nat, t: nat, c: nat, v: Occupancy) returns (c': nat, v': Occupancy)
    requires Initial(p) && Runs(StartOf(p), k) && t + 1 < Due(StartOf(p), k)
    requires c <= k && Since(StartOf(p), c) <= t < Due(StartOf(p), c)
    requires Inv(Ticks(p, t), StartOf(p), c, v) && TimedWb(t, StartOf(p), c, v)
    ensures c' <= k && Since(StartOf(p), c') <= t + 1 < Due(StartOf(p), c')
    ensures Inv(Ticks(p, t + 1), StartOf(p), c', v') && TimedWb(t + 1, StartOf(p), c', v')
  {
    hide *;
    var a, q := StartOf(p), Ticks(p, t);
    c', v' := Count(c, v.wb), Shift(q, v);
    KeptAt(a, k, c);
    NotYetDue(t, a, c, v);
    TicksSucc(p, t);
    WbDue(t, a, k, c, v);
    InWriteBack(a, k, c, v);
    if v.wb && Traps(Seq(a, c)) {
      FlushStep(q, a, c, v);
      FlushTimed(t, a, c, q, v);
    } else {
      RunTick(q, t, a, c, v);
      TimedStep(t, a, c, q, v);
    }
  }

  /** If MEM_WB holds instruction c, it is due now and c < k; the base moves on. */
  lemma WbDue(t: nat, a: Arch, k: nat, c: nat, v: Occupancy)
    requires TimedWb(t, a, c, v) && WordKept(a, c) && c <= k && Since(a, c) <= t && t + 1 < Due(a, k)
    requires v.wb || Due(a, c) > t + 1
    ensures v.wb ==> c < k
    ensures var c' := Count(c, v.wb); c' <= k && Since(a, c') <= t + 1 < Due(a, c')
    ensures v.wb ==> Count(c, v.wb) == c + 1
  {
    hide Ok, Seq, LetsThrough, WordKept, Gap;
    if v.wb { DueMonotone(a, c, k); SinceBeforeDue(a, c + 1); SinceSucc(a, c); }
  }

  lemma TicksSucc(p: State, t: nat)
    ensures Ticks(p, t + 1) == Tick(Ticks(p, t))
  {
    hide Tick;
  }

  /** A tick without flush, on schedule. */
  lemma RunTick(q: State, t: nat, a: Arch, c: nat, v: Occupancy)
    requires Inv(q, a, c, v) && TimedWb(t, a, c, v) && Since(a, c) <= t
    requires Clear(a, c, v.wb) && (v.wb ==> Retires(Seq(a, c)))
    ensures Retire(q).outcome.Retired? && !Flushes(q)
    ensures Inv(Tick(q), a, Count(c, v.wb), Shift(q, v))
    ensures var n1 := Count(c, v.wb);
            var n2 := Count(n1, v.ex);
            var n3 := Count(n2, v.id);
            Clear(a, n1, v.ex) && Clear(a, n2, v.id) && Clear(a, n3, v.fe) && WordKept(a, Count(n3, v.fe)) ==>
              (Stalls(q) <==> v.fe && UsesLoad(Seq(a, n3)))
  {
    hide Inv, TimedWb, Due, Clear, Retires, Seq, Retire, Flushes, Tick, Shift, WordKept, Stalls, UsesLoad, OnSchedule,
         Count;
    var n1 := Count(c, v.wb);
    var n2 := Count(n1, v.ex);
    if Clear(a, n1, v.ex) && Clear(a, n2, v.id) && v.fe && WordKept(a, Count(n2, v.id)) { LatchesAhead(t, a, c, v); }
    RunStep(q, a, c, v);
  }
}
