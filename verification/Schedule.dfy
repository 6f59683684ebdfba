/** When each instruction of the specification machine's run commits in the
    pipeline, counted on the specification machine alone. */
module Schedule {
  import opened Words
  import opened Stages
  import opened Sequential

  /** The instruction behind `a`'s names the register that `a`'s loads. */
  predicate UsesLoad(a: Arch) {
    LoadUse(DecodeOf(a), InstOf(Step(a)))
  }

  /** Ticks between the commits of `a`'s instruction and the next one: 4 after a
      flush, 2 across a load-use stall, otherwise 1. */
  function Gap(a: Arch): (ticks: nat)
    ensures ticks >= 1
  {
    if Traps(a) then 4 else if UsesLoad(a) then 2 else 1
  }

  /** The tick (counting from 1) in which instruction `k` commits. */
  function Due(a: Arch, k: nat): (tick: nat)
    ensures tick >= 5
  {
    if k == 0 then 5 else Due(a, k - 1) + Gap(Seq(a, k - 1))
  }

  /** From this many ticks on, `Seq(a, k)` is the architectural state. */
  function Since(a: Arch, k: nat): nat {
    if k == 0 then 0 else Due(a, k - 1)
  }

  lemma DueSucc(a: Arch, k: nat)
    ensures Due(a, k + 1) == Due(a, k) + Gap(Seq(a, k))
  {
    hide Gap, Seq;
  }

  lemma DueMonotone(a: Arch, i: nat, j: nat)
    requires i <= j
    ensures Due(a, i) <= Due(a, j) && (i < j ==> Due(a, i) < Due(a, j))
    decreases j
  {
    hide Gap, Seq;
    if i < j { DueMonotone(a, i, j - 1); }
  }

  lemma DueBeforeSince(a: Arch, i: nat, j: nat)
    ensures i < j ==> Due(a, i) <= Since(a, j)
  {
    hide Due;
    if i < j { DueMonotone(a, i, j - 1); }
  }

  lemma SinceBeforeDue(a: Arch, k: nat)
    ensures Since(a, k) <= Due(a, k) - 1
  {
    hide Gap, Seq;
  }

  lemma SinceSucc(a: Arch, k: nat)
    ensures Since(a, k + 1) == Due(a, k)
  {
    hide Due;
  }

  lemma FlushGap(a: Arch, n: nat)
    requires Traps(Seq(a, n))
    ensures Due(a, n + 1) == Due(a, n) + 4
  {
    hide Traps, Seq;
  }

  /** Every tick count falls between two consecutive commits. */
  lemma Committed(a: Arch, n: nat, t: nat) returns (k: nat)
    requires t < Due(a, n)
    ensures k <= n && Since(a, k) <= t < Due(a, k)
  {
    hide Gap, Seq;
    if n == 0 || t >= Due(a, n - 1) { k := n; } else { k := Committed(a, n - 1, t); }
  }

  lemma SameInstruction(a: Arch, t: nat, i: nat, k: nat)
    requires Since(a, i) <= t < Due(a, i) && Since(a, k) <= t < Due(a, k)
    ensures i == k
  {
    hide Due, Since;
    DueBeforeSince(a, i, k);
    DueBeforeSince(a, k, i);
  }

  /** The load-use stalls and the flushes among the first n instructions. */
  function Stalled(a: Arch, n: nat): nat {
    if n == 0 then 0
    else Stalled(a, n - 1) + if !Traps(Seq(a, n - 1)) && UsesLoad(Seq(a, n - 1)) then 1 else 0
  }

  function Flushed(a: Arch, n: nat): nat {
    if n == 0 then 0 else Flushed(a, n - 1) + if Traps(Seq(a, n - 1)) then 1 else 0
  }

  /** The commit tick in closed form: four ticks to fill the pipeline, one per
      instruction, one per stall, three more per flush. */
  lemma {:induction false} CycleCount(a: Arch, n: nat)
    ensures Due(a, n) == (n + 1) + 4 + Stalled(a, n) + 3 * Flushed(a, n)
  {
    hide Traps, UsesLoad, Seq;
    if n > 0 { CycleCount(a, n - 1); }
  }

  /** The instruction that commits `d` ticks ahead of instruction n, if there is
      one: with d = 1 it is the one in EX_MEM when n's operands are forwarded, with
      d = 2 the one in MEM_WB. */
  function AheadAt(a: Arch, n: nat, d: nat): (i: Option<nat>)
    ensures i.Some? ==> i.value < n
  {
    if n > 0 && Due(a, n - 1) + d == Due(a, n) then Some(n - 1)
    else if n > 1 && Due(a, n - 2) + d == Due(a, n) then Some(n - 2)
    else None
  }

  function Ahead(a: Arch, n: nat, d: nat): Option<Word> {
    match AheadAt(a, n, d)
    case Some(i) => Some(InstOf(Seq(a, i)))
    case None => None
  }
}
