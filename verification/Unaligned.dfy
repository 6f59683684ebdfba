/** The unaligned accesses of the MEM stage, LWL with LWR and SWR with LWR. */
module Unaligned {
  import opened Words
  import opened Isa
  import opened Memory
  import opened MemoryModel
  import opened Stages
  import opened Bits

  lemma PowBytes(k: nat)
    requires k <= 4
    ensures Pow2(8 * k) == BytePow(k)
  {
    Pow2Values();
  }

  /** A word shifted left by whole bytes has zeros below. */
  lemma ShiftedBytes(word: Word, k: nat)
    requires k < 4
    ensures Shl(word, 8 * k) == Wrap(word * BytePow(k)) && Wrap(word * BytePow(k)) % BytePow(k) == 0
  {
    hide Shl, Pow2, BytePow, Wrap;
    PowBytes(k);
    ShiftLeft(word, 8 * k);
    ZerosBelow(word, k);
  }

  lemma ZerosBelow(word: Word, k: nat)
    requires k < 4
    ensures Wrap(word * BytePow(k)) % BytePow(k) == 0
  {
    if k == 1 { MultipleOf(word * 0x100, 0x100); }
    if k == 2 { MultipleOf(word * 0x1_0000, 0x1_0000); }
    if k == 3 { MultipleOf(word * 0x100_0000, 0x100_0000); }
  }

  lemma MultipleOf(x: nat, d: nat)
    requires d in {0x100, 0x1_0000, 0x100_0000, 1} && x % d == 0
    ensures Wrap(x) % d == 0
  {
  }

  lemma ShiftedDown(word: Word, k: nat)
    requires k < 4
    ensures Shr(word, 24 - 8 * k) == word / BytePow(3 - k) < BytePow(k + 1)
  {
    hide Shr, Pow2;
    PowBytes(3 - k);
    ShiftRight(word, 24 - 8 * k);
    if k == 0 { assert word / 0x100_0000 < 0x100; }
    if k == 1 { assert word / 0x1_0000 < 0x1_0000; }
    if k == 2 { assert word / 0x100 < 0x100_0000; }
  }

  /** The masks: k bytes of ones at the bottom, or everything above k + 1 bytes. */
  lemma LowMask(x: Word, k: nat)
    requires k < 4
    ensures (if k == 0 then 0 else Shr(ALL_ONES, 32 - 8 * k)) == BytePow(k) - 1
    ensures And(x, BytePow(k) - 1) == x % BytePow(k)
  {
    hide And, Shr, Pow2;
    PowBytes(k);
    PowBytes(4 - k);
    if k > 0 { ShiftRight(ALL_ONES, 32 - 8 * k); }
    AndOnes(x, 8 * k);
  }

  lemma HighMask(x: Word, k: nat)
    requires k < 4
    ensures (if k == 3 then 0 else Shl(ALL_ONES, 8 + 8 * k)) == WORD_SIZE - BytePow(k + 1)
    ensures And(x, WORD_SIZE - BytePow(k + 1)) == x - x % BytePow(k + 1)
  {
    hide And, Shl, Pow2;
    PowBytes(k + 1);
    PowBytes(4);
    if k < 3 { ShiftLeft(ALL_ONES, 8 + 8 * k); }
    AndHigh(x, 8 + 8 * k, 32);
  }

  /** Disjoint bytes are joined by adding. */
  lemma JoinBytes(high: Word, low: Word, k: nat)
    requires k <= 4 && high % BytePow(k) == 0 && low < BytePow(k)
    ensures Or(low, high) == low + high == Or(high, low)
  {
    hide OrNat, Pow2, BytePow;
    PowBytes(k);
    OrDisjoint(high, low, 8 * k);
  }

  /** LWL keeps the k low bytes of the register and puts the word above them. */
  lemma MergeLeftValue(dst: Word, word: Word, k: nat)
    requires k < 4
    ensures MergeLeft(dst, word, k) == dst % BytePow(k) + Wrap(word * BytePow(k))
  {
    hide And, Or, Shl, Shr, BytePow, Wrap;
    BytePowers();
    LowMask(dst, k);
    ShiftedBytes(word, k);
    JoinBytes(Wrap(word * BytePow(k)), dst % BytePow(k), k);
  }

  /** LWR keeps the register above the k+1 bytes it loads. */
  lemma MergeRightValue(dst: Word, word: Word, k: nat)
    requires k < 4
    ensures MergeRight(dst, word, k) == dst - dst % BytePow(k + 1) + word / BytePow(3 - k)
  {
    hide And, Or, Shl, Shr, BytePow;
    BytePowers();
    HighMask(dst, k);
    ShiftedDown(word, k);
    TopBytes(dst, k);
    JoinBytes(dst - dst % BytePow(k + 1), word / BytePow(3 - k), k + 1);
  }

  lemma TopBytes(dst: Word, k: nat)
    requires k < 4
    ensures (dst - dst % BytePow(k + 1)) % BytePow(k + 1) == 0
  {
    var d := BytePow(k + 1);
    DivUnique(dst - dst % d, d, dst / d, 0);
  }

  /** SWR keeps the low bytes of the word in memory. */
  lemma StoreRightValue(word: Word, rt: Word, k: nat)
    requires k < 4
    ensures StoreRight(word, rt, k) == word % BytePow(3 - k) + Wrap(rt * BytePow(3 - k))
  {
    hide And, Or, Shl, Shr, BytePow, Wrap;
    BytePowers();
    LowMask(word, 3 - k);
    ShiftedBytes(rt, 3 - k);
    JoinBytes(Wrap(rt * BytePow(3 - k)), word % BytePow(3 - k), 3 - k);
  }

  /** SWL, with its second shift, stores the word's high bytes and the register's. */
  lemma StoreLeftValue(word: Word, rt: Word, k: nat)
    requires k < 4
    ensures StoreLeft(word, rt, k) == (word - word % BytePow(4 - k) + rt / BytePow(k)) / BytePow(3 - k)
  {
    hide And, Or, Shl, Shr, Pow2, BytePow;
    BytePowers();
    var mask := if k == 0 then 0 else Shl(ALL_ONES, 32 - 8 * k);
    if k == 0 { AndNothing(word); SmallMod(word, WORD_SIZE); } else { HighMask(word, 3 - k); }
    PowBytes(k);
    ShiftRight(rt, 8 * k);
    UpperBytes(rt, k);
    if k > 0 { TopBytes(word, 3 - k); }
    JoinBytes(word - word % BytePow(4 - k), rt / BytePow(k), 4 - k);
    PowBytes(3 - k);
    ShiftRight(Or(And(word, mask), Shr(rt, 8 * k)), 24 - 8 * k);
  }

  lemma UpperBytes(rt: Word, k: nat)
    requires k < 4
    ensures rt / BytePow(k) < BytePow(4 - k)
  {
  }

  /** Both aligned words around the four bytes at `a` are plain memory, and
      adjacent there as they are in the address space. */
  predicate PlainPair(size: nat, a: Word) {
    a + 3 < WORD_SIZE &&
    Plain(size, AlignDown(a), OpWord) && Plain(size, AlignDown(a + 3), OpWord) &&
    Index(size, AlignDown(a + 3)).value - Index(size, AlignDown(a)).value == AlignDown(a + 3) - AlignDown(a)
  }

  /** LWL at `a` followed by LWR at `a + 3` into the same register yields the
      big-endian word at `a`, whatever the register held before. */
  lemma UnalignedLoad(mem: seq<Byte>, a: Word, reg: Word, prev: Word, prev': Word)
    requires PlainPair(|mem|, a)
    ensures var left := Load(OPCODE_LWL, a, reg, prev, mem);
            var right := Load(OPCODE_LWR, a + 3, left.data, prev', mem);
            !left.outside && !right.outside &&
            Index(|mem|, AlignDown(a)).value + a % 4 + 4 <= |mem| &&
            right.data == GetBig(mem, Index(|mem|, AlignDown(a)).value + a % 4, OpWord)
  {
    hide MergeLeft, MergeRight, Index, GetBig, BytePow, Wrap;
    var i, k := Index(|mem|, AlignDown(a)).value, a % 4;
    var w0 := GetBig(mem, i, OpWord);
    var x := MergeLeft(reg, w0, k);
    if k == 0 {
      assert AlignDown(a + 3) == AlignDown(a) && (a + 3) % 4 == 3;
      WholeWord(x, w0);
    } else {
      assert AlignDown(a + 3) == AlignDown(a) + 4 && (a + 3) % 4 == k - 1;
      MergeLeftValue(reg, w0, k);
      MergeRightValue(x, GetBig(mem, i + 4, OpWord), k - 1);
      Rejoin(mem, i, k, reg);
    }
  }

  /** LWR of a word's last byte loads all of it. */
  lemma WholeWord(x: Word, word: Word)
    ensures MergeRight(x, word, 3) == word
  {
    hide MergeRight;
    MergeRightValue(x, word, 3);
  }

  function Join(b0: int, b1: int, b2: int, b3: int): int {
    b0 * 0x100_0000 + b1 * 0x1_0000 + b2 * 0x100 + b3
  }

  lemma Rejoin(mem: seq<Byte>, i: nat, k: nat, reg: Word)
    requires 0 < k < 4 && i + 8 <= |mem|
    ensures var w0, w1 := GetBig(mem, i, OpWord), GetBig(mem, i + 4, OpWord);
            var x := reg % BytePow(k) + Wrap(w0 * BytePow(k));
            x - x % BytePow(k) + w1 / BytePow(4 - k) == GetBig(mem, i + k, OpWord)
  {
    hide GetBig, Join, Wrap, ByteAt, BytePow;
    var b0, b1, b2, b3 := ByteAt(mem, i), ByteAt(mem, i + 1), ByteAt(mem, i + 2), ByteAt(mem, i + 3);
    var c0, c1, c2, c3 := ByteAt(mem, i + 4), ByteAt(mem, i + 5), ByteAt(mem, i + 6), ByteAt(mem, i + 7);
    GetJoin(mem, i);
    GetJoin(mem, i + 4);
    GetJoin(mem, i + k);
    BytePowers();
    if k == 1 {
      Rejoin1(reg % BytePow(1), b0, b1, b2, b3, c0, c1, c2, c3);
    } else if k == 2 {
      Rejoin2(reg % BytePow(2), b0, b1, b2, b3, c0, c1, c2, c3);
    } else {
      Rejoin3(reg % BytePow(3), b0, b1, b2, b3, c0, c1, c2, c3);
    }
  }

  lemma BytePowers()
    ensures BytePow(0) == 1 && BytePow(1) == 0x100 && BytePow(2) == 0x1_0000 && BytePow(3) == 0x100_0000
    ensures BytePow(4) == WORD_SIZE
  {
  }

  predicate IsByte(b: int) { 0 <= b < 0x100 }

  lemma Rejoin1(low: nat, b0: int, b1: int, b2: int, b3: int, c0: int, c1: int, c2: int, c3: int)
    requires low < 0x100 && IsByte(b0) && IsByte(b1) && IsByte(b2) && IsByte(b3)
    requires IsByte(c0) && IsByte(c1) && IsByte(c2) && IsByte(c3)
    ensures var x := low + Wrap(Join(b0, b1, b2, b3) * 0x100);
            x - x % 0x100 + Join(c0, c1, c2, c3) / 0x100_0000 == Join(b1, b2, b3, c0)
  {
    hide Wrap;
    Kept(low, 0x100, 0x100_0000, Join(0, b1, b2, b3), b0, Join(b0, b1, b2, b3) * 0x100);
    DivUnique(Join(c0, c1, c2, c3), 0x100_0000, c0, Join(0, c1, c2, c3));
  }

  lemma Rejoin2(low: nat, b0: int, b1: int, b2: int, b3: int, c0: int, c1: int, c2: int, c3: int)
    requires low < 0x1_0000 && IsByte(b0) && IsByte(b1) && IsByte(b2) && IsByte(b3)
    requires IsByte(c0) && IsByte(c1) && IsByte(c2) && IsByte(c3)
    ensures var x := low + Wrap(Join(b0, b1, b2, b3) * 0x1_0000);
            x - x % 0x1_0000 + Join(c0, c1, c2, c3) / 0x1_0000 == Join(b2, b3, c0, c1)
  {
    hide Wrap;
    Kept(low, 0x1_0000, 0x1_0000, Join(0, 0, b2, b3), Join(0, 0, b0, b1), Join(b0, b1, b2, b3) * 0x1_0000);
    DivUnique(Join(c0, c1, c2, c3), 0x1_0000, Join(0, 0, c0, c1), Join(0, 0, c2, c3));
  }

  lemma Rejoin3(low: nat, b0: int, b1: int, b2: int, b3: int, c0: int, c1: int, c2: int, c3: int)
    requires low < 0x100_0000 && IsByte(b0) && IsByte(b1) && IsByte(b2) && IsByte(b3)
    requires IsByte(c0) && IsByte(c1) && IsByte(c2) && IsByte(c3)
    ensures var x := low + Wrap(Join(b0, b1, b2, b3) * 0x100_0000);
            x - x % 0x100_0000 + Join(c0, c1, c2, c3) / 0x100 == Join(b3, c0, c1, c2)
  {
    hide Wrap;
    Kept(low, 0x100_0000, 0x100, b3, Join(0, b0, b1, b2), Join(b0, b1, b2, b3) * 0x100_0000);
    DivUnique(Join(c0, c1, c2, c3), 0x100, Join(0, c0, c1, c2), c3);
  }

  /** A word shifted up, joined with `low`, and cleared below again. */
  lemma Kept(low: nat, d: nat, m: nat, rest: nat, over: nat, shifted: nat)
    requires 0 < d && m * d == WORD_SIZE && low < d && rest * d < WORD_SIZE
    requires shifted == rest * d + over * WORD_SIZE
    ensures var x := low + Wrap(shifted); x - x % d == rest * d
  {
    hide Wrap;
    assert (over * m + rest) * d == rest * d + over * (m * d);
    HighBytes(low, d, m, rest, over);
  }

  lemma GetJoin(mem: seq<Byte>, i: nat)
    requires i + 4 <= |mem|
    ensures GetBig(mem, i, OpWord) == Join(ByteAt(mem, i), ByteAt(mem, i + 1), ByteAt(mem, i + 2), ByteAt(mem, i + 3))
  {
  }

  lemma SmallWrap(x: nat)
    requires x < WORD_SIZE
    ensures Wrap(x) == x
  {
  }

  /** Shifting a word left by whole bytes drops its top bytes `over`; below the
      rest there is room for `low`. */
  lemma HighBytes(low: nat, d: nat, m: nat, rest: nat, over: nat)
    requires 0 < d && m * d == WORD_SIZE && low < d && rest * d < WORD_SIZE
    ensures Wrap((over * m + rest) * d) == rest * d
    ensures (low + rest * d) % d == low && (low + rest * d) / d == rest
  {
    hide Wrap;
    assert (over * m + rest) * d == rest * d + over * (m * d);
    WrapAdd(rest * d, over);
    SmallWrap(rest * d);
    DivUnique(low + rest * d, d, rest, low);
  }

  /** SWR followed by LWR at the same address: the low bytes come back as stored,
      the register's other bytes and every other byte of memory are as before. */
  lemma StoreThenLoad(mem: seq<Byte>, a: Word, value: Word, rt: Word, reg: Word, prev: Word, x: nat)
    requires Plain(|mem|, AlignDown(a), OpWord) && x < |mem|
    ensures var w := Store(OPCODE_SWR, a, value, rt, mem);
            var low, i := BytePow(a % 4 + 1), Index(|mem|, AlignDown(a)).value;
            w.exception == NoException && !w.outside && |w.mem| == |mem| &&
            Load(OPCODE_LWR, a, reg, prev, w.mem).data == reg - reg % low + rt % low &&
            (!(i <= x <= i + a % 4) ==> w.mem[x] == mem[x])
  {
    hide *;
    var k := a % 4;
    SwrWrites(mem, a, value, rt);
    LwrReads(mem, a, rt, reg, prev);
    SwrKeeps(mem, a, rt, x);
    assert k < 4;
  }

  /** The word that SWR puts back. */
  function SwrWord(mem: seq<Byte>, a: Word, rt: Word): Word {
    StoreRight(Read(mem, AlignDown(a), OpWord).data, rt, a % 4)
  }

  lemma SwrWrites(mem: seq<Byte>, a: Word, value: Word, rt: Word)
    requires Plain(|mem|, AlignDown(a), OpWord)
    ensures var w := Store(OPCODE_SWR, a, value, rt, mem);
            w.mem == Write(mem, AlignDown(a), SwrWord(mem, a, rt), OpWord).mem && |w.mem| == |mem| &&
            w.exception == NoException && !w.outside
  {
    hide Index, GetBig, SetBig, StoreRight;
  }

  lemma LwrReads(mem: seq<Byte>, a: Word, rt: Word, reg: Word, prev: Word)
    requires Plain(|mem|, AlignDown(a), OpWord)
    ensures var mem' := Write(mem, AlignDown(a), SwrWord(mem, a, rt), OpWord).mem;
            var low := BytePow(a % 4 + 1);
            Load(OPCODE_LWR, a, reg, prev, mem').data == reg - reg % low + rt % low
  {
    hide Plain, Read, Write, StoreRight, MergeRight, BytePow, AlignDown, Wrap;
    BytePowers();
    var k := a % 4;
    var word := Read(mem, AlignDown(a), OpWord).data;
    var s := StoreRight(word, rt, k);
    StoreRightValue(word, rt, k);
    ReadBack(mem, AlignDown(a), s, OpWord);
    MergeRightValue(reg, s, k);
    LowBytes(word, rt, k);
  }

  lemma SwrKeeps(mem: seq<Byte>, a: Word, rt: Word, x: nat)
    requires Plain(|mem|, AlignDown(a), OpWord) && x < |mem|
    ensures var mem' := Write(mem, AlignDown(a), SwrWord(mem, a, rt), OpWord).mem;
            var i := Index(|mem|, AlignDown(a)).value;
            !(i <= x <= i + a % 4) ==> mem'[x] == mem[x]
  {
    hide StoreRight, Index, GetBig, SetBig, BigBytes;
    var i, k := Index(|mem|, AlignDown(a)).value, a % 4;
    SetBigByte(mem, i, SwrWord(mem, a, rt), OpWord, x);
    if i + k < x < i + 4 { KeptBytes(mem, i, rt, k, x - i); }
  }

  lemma LowBytes(word: Word, rt: Word, k: nat)
    requires k < 4
    ensures (word % BytePow(3 - k) + Wrap(rt * BytePow(3 - k))) / BytePow(3 - k) == rt % BytePow(k + 1)
  {
    hide Wrap;
    if k == 0 {
      LowPart(word % 0x100_0000, 0x100_0000, 0x100, rt);
    } else if k == 1 {
      LowPart(word % 0x1_0000, 0x1_0000, 0x1_0000, rt);
    } else if k == 2 {
      LowPart(word % 0x100, 0x100, 0x100_0000, rt);
    } else {
      SmallWrap(rt);
    }
  }

  lemma LowPart(low: nat, d: nat, m: nat, rt: Word)
    requires 0 < d && 0 < m && m * d == WORD_SIZE && low < d
    ensures (low + Wrap(rt * d)) / d == rt % m
  {
    hide Wrap;
    var over, rest := rt / m, rt % m;
    assert rt == over * m + rest;
    assert rest * d < m * d by { MulAtLeast(m - rest, d); assert (m - rest) * d == m * d - rest * d; }
    HighBytes(low, d, m, rest, over);
  }

  lemma KeptBytes(mem: seq<Byte>, i: nat, rt: Word, k: nat, j: nat)
    requires k < j < 4 && i + 4 <= |mem|
    ensures var s := StoreRight(GetBig(mem, i, OpWord), rt, k);
            BigBytes(s, OpWord)[j] == mem[i + j]
  {
    hide StoreRight, GetBig, BytePow, Wrap, BigBytes;
    var w := GetBig(mem, i, OpWord);
    BytePowers();
    StoreRightValue(w, rt, k);
    ShiftedBytes(rt, 3 - k);
    ModPlusMultiple(w, Wrap(rt * BytePow(3 - k)), BytePow(3 - k));
    SameLowByte(StoreRight(w, rt, k), w, k, j);
    GetBigBytes(mem, i, OpWord);
  }

  lemma ModPlusMultiple(w: nat, h: nat, d: nat)
    requires d > 0 && h % d == 0
    ensures (w % d + h) % d == w % d
  {
    DivUnique(w % d + h, d, h / d, w % d);
  }

  /** Words that agree in their low bytes agree in each of them. */
  lemma SameLowByte(s: Word, w: Word, k: nat, j: nat)
    requires k < j < 4 && s % BytePow(3 - k) == w % BytePow(3 - k)
    ensures BigBytes(s, OpWord)[j] == BigBytes(w, OpWord)[j]
  {
    if j == 1 {
      ByteOfRest(s, 0x100_0000, 0x1_0000);
      ByteOfRest(w, 0x100_0000, 0x1_0000);
    } else if j == 2 {
      if k == 0 { ModMod(s, 0x100, 0x1_0000); ModMod(w, 0x100, 0x1_0000); }
      ByteOfRest(s, 0x1_0000, 0x100);
      ByteOfRest(w, 0x1_0000, 0x100);
    } else if k == 1 {
      ModMod(s, 0x100, 0x100); ModMod(w, 0x100, 0x100);
    } else if k == 0 {
      ModMod(s, 0x1_0000, 0x100); ModMod(w, 0x1_0000, 0x100);
    }
  }

  lemma ModMod(x: nat, m: nat, d: nat)
    requires m in {0x100, 0x1_0000} && d in {0x100, 0x1_0000}
    ensures x % (m * d) % d == x % d
  {
    var n := m * d;
    var q, r := x / n, x % n;
    assert x == q * n + r && r == r / d * d + r % d;
    assert q * n == (q * m) * d;
    DivUnique(x, d, q * m + r / d, r % d);
  }

  lemma ByteOfRest(x: nat, d: nat, e: nat)
    requires d == 0x100 * e && e in {0x100, 0x1_0000}
    ensures x / e % 0x100 == x % d / e
  {
    var q, r := x / d, x % d;
    var s, u := r / e, r % e;
    assert x == q * d + r && r == s * e + u;
    assert x == (q * 0x100 + s) * e + u;
    DivUnique(x, e, q * 0x100 + s, u);
    assert s < 0x100;
    DivUnique(q * 0x100 + s, 0x100, q, s);
  }
}
