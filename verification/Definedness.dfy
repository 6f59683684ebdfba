/** When the run stays inside plain memory, so that the C program it models never
    follows a NULL translation and never reaches a device. */
module Definedness {
  import opened Memory
  import opened Stages
  import opened Pipeline
  import opened Sequential
  import opened Schedule
  import opened Hazards
  import opened Forwarding
  import opened Refinement
  import opened Timing

  /** The fetch of tick i + 1, on the right path or not, leaves plain memory. */
  ghost predicate FetchStrays(p: State, i: nat) {
    !Plain(|p.mem|, FetchPc(Ticks(p, i)), OpWord)
  }

  /** Instruction m passes MEM within t ticks and leaves plain memory there. */
  ghost predicate AccessStrays(a: Arch, m: nat, t: nat) {
    Due(a, m) <= t + 1 && AccessOf(Seq(a, m)).outside
  }

  ghost predicate SomeFetchStrays(p: State, t: nat) {
    exists i: nat | i < t :: FetchStrays(p, i)
  }

  ghost predicate SomeAccessStrays(a: Arch, k: nat, t: nat) {
    exists m: nat | m <= k :: AccessStrays(a, m, t)
  }

  /** Exactly when the pipelined core has left plain memory after t ticks of a run:
      one of its fetches did, or the access of an instruction of the run that has
      passed MEM. No other access is ever made, in particular none by the
      instructions fetched behind an exception. */
  lemma OutsideIff(p: State, k: nat, t: nat)
    requires Initial(p) && Runs(StartOf(p), k) && Ok(StartOf(p), k) && t < Due(StartOf(p), k)
    ensures Ticks(p, t).outside <==> 
              p.outside || SomeFetchStrays(p, t) || SomeAccessStrays(StartOf(p), k, t)
  {
    hide *;
    if t == 0 {
      NothingYet(p, k);
    } else {
      OutsideIff(p, k, t - 1);
      TicksSucc(p, t - 1);
      MemorySize(p, t - 1);
      TickOutside(Ticks(p, t - 1));
      AccessTick(p, k, t - 1);
      FetchNext(p, t - 1);
      AccessNext(StartOf(p), k, t - 1);
    }
  }

  lemma NothingYet(p: State, k: nat)
    ensures Ticks(p, 0) == p && !SomeFetchStrays(p, 0) && !SomeAccessStrays(StartOf(p), k, 0)
  {
    hide Seq, Due, AccessOf;
  }

  lemma MemorySize(p: State, t: nat)
    ensures |Ticks(p, t).mem| == |p.mem|
  {
    hide Retire, ExOut, Decoded, Forward, IfOut, NextPc, Fetched, Access;
    if t > 0 { MemorySize(p, t - 1); }
  }

  lemma TickOutside(q: State)
    ensures Tick(q).outside <==>
              q.outside || MemOut(q).outside || !Plain(|q.mem|, FetchPc(q), OpWord)
  {
    hide Retire, ExOut, Decoded, Forward, IfOut, NextPc, FetchPc, Access, Plain, GetBig;
  }

  lemma FetchNext(p: State, t: nat)
    requires |Ticks(p, t).mem| == |p.mem|
    ensures SomeFetchStrays(p, t + 1) <==>
              SomeFetchStrays(p, t) || !Plain(|Ticks(p, t).mem|, FetchPc(Ticks(p, t)), OpWord)
  {
    hide Ticks, FetchPc, Plain;
    if SomeFetchStrays(p, t) {
      var i: nat :| i < t && FetchStrays(p, i);
      assert i < t + 1;
    }
    assert FetchStrays(p, t) ==> SomeFetchStrays(p, t + 1);
  }

  lemma AccessNext(a: Arch, k: nat, t: nat)
    ensures SomeAccessStrays(a, k, t + 1) <==> SomeAccessStrays(a, k, t) || SomeAccessNow(a, k, t)
  {
    hide Seq, Due, AccessOf;
    forall m: nat | m <= k
      ensures AccessStrays(a, m, t + 1) <==> AccessStrays(a, m, t) || AccessNow(a, m, t)
    {
    }
    if SomeAccessStrays(a, k, t) {
      var m: nat :| m <= k && AccessStrays(a, m, t);
      assert AccessStrays(a, m, t + 1);
    }
    if SomeAccessNow(a, k, t) {
      var m: nat :| m <= k && AccessNow(a, m, t);
      assert AccessStrays(a, m, t + 1);
    }
    if SomeAccessStrays(a, k, t + 1) {
      var m: nat :| m <= k && AccessStrays(a, m, t + 1);
      assert AccessStrays(a, m, t) || AccessNow(a, m, t);
    }
  }

  /** Instruction m passes MEM in tick t + 1 and leaves plain memory. */
  ghost predicate AccessNow(a: Arch, m: nat, t: nat) {
    Due(a, m) == t + 2 && AccessOf(Seq(a, m)).outside
  }

  ghost predicate SomeAccessNow(a: Arch, k: nat, t: nat) {
    exists m: nat | m <= k :: AccessNow(a, m, t)
  }

  /** The access of one tick is that of the instruction due in the next one. */
  lemma AccessTick(p: State, k: nat, t: nat)
    requires Initial(p) && Runs(StartOf(p), k) && Ok(StartOf(p), k) && t + 1 < Due(StartOf(p), k)
    ensures MemOut(Ticks(p, t)).outside <==> SomeAccessNow(StartOf(p), k, t)
  {
    hide *;
    var a, q := StartOf(p), Ticks(p, t);
    var c, v := Track(p, k, t);
    KeptAt(a, k, c);
    NotYetDue(t, a, c, v);
    WbDue(t, a, k, c, v);
    InWriteBack(a, k, c, v);
    if v.wb && Traps(Seq(a, c)) {
      FlushStep(q, a, c, v);
      FlushEmpties(q);
      NoneDue(a, k, c, t, v);
    } else {
      var n1 := Count(c, v.wb);
      CountSeq(a, c, v.wb);
      FitAt(a, k, n1, v.ex);
      PassesMem(q, a, c, v);
      OneDue(a, k, c, t, v);
    }
  }

  lemma FitAt(a: Arch, k: nat, n: nat, valid: bool)
    requires Runs(a, k) && Ok(a, k) && n <= k
    ensures Fit(a, n, valid)
  {
    hide Ok, Runs;
    if n < k { RunsAt(a, k, n); }
  }

  lemma PassesMem(q: State, a: Arch, c: nat, v: Occupancy)
    requires Inv(q, a, c, v) && Clear(a, c, v.wb) && (v.wb ==> Retires(Seq(a, c)))
    requires Fit(a, Count(c, v.wb), v.ex)
    ensures MemOut(q).outside == (v.ex && AccessOf(Seq(a, Count(c, v.wb))).outside)
  {
    hide Seq, Step, Ok, Retire, MemOut, AccessOf, WbHolds, ExHolds, LetsThrough, InvId, Flushes, Retires;
    CommitStep(q, Seq(a, c), v.wb);
    RetiredFlushes(q);
    CountSeq(a, c, v.wb);
    MemStep(q, Seq(a, Count(c, v.wb)), v.ex);
  }

  /** Around a flush nothing is due. */
  lemma NoneDue(a: Arch, k: nat, c: nat, t: nat, v: Occupancy)
    requires TimedWb(t, a, c, v) && v.wb && WordKept(a, c) && Traps(Seq(a, c))
    ensures !SomeAccessNow(a, k, t)
  {
    hide Seq, Due, Ok, WordKept, AccessOf, Traps, Exits;
    FlushGap(a, c);
    forall m: nat | m <= k ensures !AccessNow(a, m, t) {
      if m <= c { DueMonotone(a, m, c); } else { DueMonotone(a, c + 1, m); }
    }
  }

  /** Otherwise it is the instruction in EX_MEM that is due next, or none. */
  lemma OneDue(a: Arch, k: nat, c: nat, t: nat, v: Occupancy)
    requires TimedWb(t, a, c, v) && Clear(a, c, v.wb) && Since(a, c) <= t && Runs(a, k) && Count(c, v.wb) <= k
    ensures SomeAccessNow(a, k, t) <==>
              v.ex && AccessOf(Seq(a, Count(c, v.wb))).outside
  {
    hide Seq, Due, Ok, WordKept, AccessOf, LetsThrough, Runs;
    var n1 := Count(c, v.wb);
    KeptAt(a, k, n1);
    if v.wb { KeptAt(a, k, c); }
    ExDue(a, c, t, v);
    forall m: nat | m <= k && Due(a, m) == t + 2 ensures v.ex && m == n1 {
      if m < n1 { DueMonotone(a, m, n1 - 1); } else if m > n1 { DueMonotone(a, n1, m); }
    }
    if v.ex && AccessOf(Seq(a, n1)).outside { assert AccessNow(a, n1, t); }
  }

  lemma ExDue(a: Arch, c: nat, t: nat, v: Occupancy)
    requires TimedWb(t, a, c, v) && Clear(a, c, v.wb) && Since(a, c) <= t
    requires WordKept(a, Count(c, v.wb)) && (v.wb ==> WordKept(a, c))
    ensures var n1 := Count(c, v.wb);
            (if v.ex then Due(a, n1) == t + 2 else Due(a, n1) > t + 2) && (n1 > 0 ==> Due(a, n1 - 1) <= t + 1)
  {
    hide Seq, Due, Ok, WordKept, LetsThrough;
  }
}
