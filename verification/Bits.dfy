/** The masks and shifts of the unaligned accesses, in arithmetic terms. */
module Bits {
  import opened Words

  lemma MulAtLeast(n: nat, d: nat)
    requires n > 0
    ensures n * d >= d
  {
  }

  lemma DivLe(x: nat, d: nat)
    requires d > 0
    ensures 0 <= x / d <= x
  {
    MulAtLeastSelf(x / d, d);
  }

  lemma MulAtLeastSelf(q: nat, d: nat)
    requires d > 0
    ensures q * d >= q
  {
  }

  lemma DivUnique(x: nat, d: nat, q: nat, r: nat)
    requires d > 0 && r < d && x == q * d + r
    ensures x / d == q && x % d == r
  {
    var q', r' := x / d, x % d;
    assert x == q' * d + r';
    assert (q - q') * d == r' - r;
    if q > q' { MulAtLeast(q - q', d); }
    assert (q' - q) * d == r - r';
    if q < q' { MulAtLeast(q' - q, d); }
  }

  /** Splitting off the lowest bit of a remainder. */
  lemma ModHalf(x: nat, d: nat)
    requires d > 0
    ensures x % (2 * d) == 2 * (x / 2 % d) + x % 2
    ensures x / (2 * d) == x / 2 / d
  {
    var q, r := x / 2 / d, x / 2 % d;
    assert x / 2 == q * d + r;
    assert x == q * (2 * d) + (2 * r + x % 2);
    DivUnique(x, 2 * d, q, 2 * r + x % 2);
  }

  /** Masking with the m low ones keeps the remainder. */
  lemma {:induction false} AndOnes(x: nat, m: nat)
    ensures And(x, Pow2(m) - 1) == x % Pow2(m)
  {
    hide And, Pow2;
    Pow2Zero();
    if m == 0 {
      AndNothing(x);
    } else {
      var d := Pow2(m - 1);
      Pow2Step(m);
      ModHalf(x, d);
      AndOnes(x / 2, m - 1);
      assert (2 * d - 1) / 2 == d - 1 && (2 * d - 1) % 2 == 1;
      AndUnfold(x, 2 * d - 1);
    }
  }

  lemma AndNothing(x: nat)
    ensures And(x, 0) == 0
  {
  }

  lemma AndUnfold(a: nat, b: nat)
    ensures And(a, b) == 2 * And(a / 2, b / 2) + if a % 2 == 1 && b % 2 == 1 then 1 else 0
  {
    if a == 0 || b == 0 { assert And(a / 2, b / 2) == 0; }
  }

  /** Masking with ones from bit m to bit n - 1 keeps those. */
  lemma {:induction false} AndBand(x: nat, m: nat, n: nat)
    requires m <= n
    ensures Pow2(m) <= Pow2(n) && And(x, Pow2(n) - Pow2(m)) == x % Pow2(n) - x % Pow2(m)
  {
    hide And, Pow2;
    if m == 0 {
      AndOnes(x, n);
      Pow2Zero();
    } else {
      Pow2Step(m);
      Pow2Step(n);
      AndBand(x / 2, m - 1, n - 1);
      ModHalf(x, Pow2(m - 1));
      ModHalf(x, Pow2(n - 1));
      AndUnfold(x, Pow2(n) - Pow2(m));
      assert (Pow2(n) - Pow2(m)) / 2 == Pow2(n - 1) - Pow2(m - 1) && (Pow2(n) - Pow2(m)) % 2 == 0;
    }
  }

  lemma AndHigh(x: nat, m: nat, n: nat)
    requires m <= n && x < Pow2(n)
    ensures Pow2(m) <= Pow2(n) && And(x, Pow2(n) - Pow2(m)) == x - x % Pow2(m)
  {
    hide And, Pow2;
    AndBand(x, m, n);
    SmallMod(x, Pow2(n));
  }

  lemma Pow2Zero()
    ensures Pow2(0) == 1
  {
  }

  lemma Pow2Step(n: nat)
    requires n > 0
    ensures Pow2(n) == 2 * Pow2(n - 1)
  {
  }

  lemma SmallMod(x: nat, d: nat)
    requires x < d
    ensures x % d == x
  {
    DivUnique(x, d, 0, x);
  }

  /** A disjunction of values without a common bit is their sum. */
  lemma {:induction false} OrDisjoint(a: nat, b: nat, m: nat)
    requires a % Pow2(m) == 0 && b < Pow2(m)
    ensures OrNat(a, b) == a + b == OrNat(b, a)
  {
    if m > 0 {
      ModHalf(a, Pow2(m - 1));
      OrDisjoint(a / 2, b / 2, m - 1);
      OrUnfold(a, b);
      OrUnfold(b, a);
    }
  }

  lemma OrUnfold(a: nat, b: nat)
    ensures OrNat(a, b) == 2 * OrNat(a / 2, b / 2) + if a % 2 == 1 || b % 2 == 1 then 1 else 0
  {
    if a == 0 || b == 0 { OrZero(a / 2); OrZero(b / 2); }
  }

  lemma OrZero(a: nat)
    ensures OrNat(a, 0) == a == OrNat(0, a)
  {
  }

  lemma WrapAdd(a: int, k: int)
    ensures Wrap(a + k * WORD_SIZE) == Wrap(a)
  {
  }

  lemma WrapMul(x: nat, m: nat)
    ensures Wrap(Wrap(x) * m) == Wrap(x * m)
  {
    var q, r := x / WORD_SIZE, Wrap(x);
    assert x * m == (q * WORD_SIZE + r) * m == r * m + (q * m) * WORD_SIZE;
    WrapAdd(r * m, q * m);
  }

  lemma {:induction false} OrSwap(a: nat, b: nat, c: nat)
    ensures OrNat(OrNat(a, b), c) == OrNat(b, OrNat(a, c))
    decreases a + b + c
  {
    hide OrNat;
    if a + b + c == 0 {
      OrZero(0);
    } else {
      OrSwap(a / 2, b / 2, c / 2);
      OrUnfold(a, b);
      OrUnfold(a, c);
      OrUnfold(OrNat(a, b), c);
      OrUnfold(b, OrNat(a, c));
    }
  }

  /** Shifting is multiplying and dividing by powers of two. */
  lemma {:induction false} ShiftLeft(w: Word, s: nat)
    ensures Shl(w, s) == Wrap(w * Pow2(s))
    decreases s
  {
    if s > 0 {
      ShiftLeft(Wrap(2 * w), s - 1);
      WrapMul(2 * w, Pow2(s - 1));
      assert 2 * w * Pow2(s - 1) == w * Pow2(s);
    }
  }

  lemma {:induction false} ShiftRight(w: Word, s: nat)
    ensures Shr(w, s) == w / Pow2(s)
    decreases s
  {
    if s > 0 {
      ShiftRight(w / 2, s - 1);
      ModHalf(w, Pow2(s - 1));
    }
  }

  /** The four bytes of a word. */
  lemma BytesOfWord(x: Word)
    ensures x == x / 0x100_0000 * 0x100_0000 + x / 0x1_0000 % 0x100 * 0x1_0000 + x / 0x100 % 0x100 * 0x100 + x % 0x100
    ensures x / 0x100_0000 < 0x100
  {
    var q1 := x / 0x100;
    var q2 := q1 / 0x100;
    var q3 := q2 / 0x100;
    DivUnique(x, 0x1_0000, q2, q1 % 0x100 * 0x100 + x % 0x100);
    DivUnique(x, 0x100_0000, q3, q2 % 0x100 * 0x1_0000 + q1 % 0x100 * 0x100 + x % 0x100);
  }

  lemma WordOfBytes(b3: nat, b2: nat, b1: nat, b0: nat)
    requires b3 < 0x100 && b2 < 0x100 && b1 < 0x100 && b0 < 0x100
    ensures var r := b3 * 0x100_0000 + b2 * 0x1_0000 + b1 * 0x100 + b0;
            r / 0x100_0000 == b3 && r / 0x1_0000 % 0x100 == b2 && r / 0x100 % 0x100 == b1 && r % 0x100 == b0
  {
    var r := b3 * 0x100_0000 + b2 * 0x1_0000 + b1 * 0x100 + b0;
    DivUnique(r, 0x100_0000, b3, b2 * 0x1_0000 + b1 * 0x100 + b0);
    DivUnique(r, 0x1_0000, b3 * 0x100 + b2, b1 * 0x100 + b0);
    DivUnique(r, 0x100, b3 * 0x1_0000 + b2 * 0x100 + b1, b0);
    DivUnique(b3 * 0x100 + b2, 0x100, b3, b2);
    DivUnique(b3 * 0x1_0000 + b2 * 0x100 + b1, 0x100, b3 * 0x100 + b2, b1);
  }

  // ----- Bit by bit -----

  /** Bit k of a number. */
  predicate Bit(x: nat, k: nat) {
    x / Pow2(k) % 2 == 1
  }

  lemma BitZero(x: nat)
    ensures Bit(x, 0) <==> x % 2 == 1
  {
  }

  lemma BitStep(x: nat, k: nat)
    requires k > 0
    ensures Bit(x, k) == Bit(x / 2, k - 1)
  {
    ModHalf(x, Pow2(k - 1));
  }

  lemma {:induction false} AndBit(a: nat, b: nat, k: nat)
    ensures Bit(And(a, b), k) <==> Bit(a, k) && Bit(b, k)
  {
    hide And, Bit;
    AndUnfold(a, b);
    if k == 0 {
      BitZero(a);
      BitZero(b);
      BitZero(And(a, b));
    } else {
      BitStep(a, k);
      BitStep(b, k);
      BitStep(And(a, b), k);
      AndBit(a / 2, b / 2, k - 1);
    }
  }

  lemma {:induction false} OrBit(a: nat, b: nat, k: nat)
    ensures Bit(OrNat(a, b), k) <==> Bit(a, k) || Bit(b, k)
  {
    hide OrNat, Bit;
    OrUnfold(a, b);
    if k == 0 {
      BitZero(a);
      BitZero(b);
      BitZero(OrNat(a, b));
    } else {
      BitStep(a, k);
      BitStep(b, k);
      BitStep(OrNat(a, b), k);
      OrBit(a / 2, b / 2, k - 1);
    }
  }

  /** Subtracting from n ones flips the n low bits. */
  lemma {:induction false} FlipBit(x: nat, n: nat, k: nat)
    requires x < Pow2(n) && k < n
    ensures Bit(Pow2(n) - 1 - x, k) <==> !Bit(x, k)
  {
    hide Bit;
    var y := Pow2(n) - 1 - x;
    if k == 0 {
      BitZero(x);
      BitZero(y);
    } else {
      assert y / 2 == Pow2(n - 1) - 1 - x / 2;
      BitStep(x, k);
      BitStep(y, k);
      FlipBit(x / 2, n - 1, k - 1);
    }
  }

  /** The three logical operations on words, bit by bit. */
  lemma LogicBits(a: Word, b: Word, k: nat)
    requires k < 32
    ensures Bit(And(a, b), k) <==> Bit(a, k) && Bit(b, k)
    ensures Bit(Or(a, b), k) <==> Bit(a, k) || Bit(b, k)
    ensures Bit(Nor(a, b), k) <==> !(Bit(a, k) || Bit(b, k))
  {
    hide And, OrNat, Bit, Pow2;
    Pow2Values();
    AndBit(a, b, k);
    OrBit(a, b, k);
    FlipBit(Or(a, b), 32, k);
  }

  /** And the bits below 32 are all there is to a word. */
  lemma {:induction false} SameBits(x: nat, y: nat, n: nat)
    requires x < Pow2(n) && y < Pow2(n) && forall k | 0 <= k < n :: Bit(x, k) == Bit(y, k)
    ensures x == y
  {
    hide Bit;
    if n > 0 {
      BitZero(x);
      BitZero(y);
      assert Bit(x, 0) == Bit(y, 0);
      forall k | 0 <= k < n - 1 ensures Bit(x / 2, k) == Bit(y / 2, k) {
        BitStep(x, k + 1);
        BitStep(y, k + 1);
      }
      SameBits(x / 2, y / 2, n - 1);
    }
  }

  // ----- Bytes -----

  /** 256 to the k. */
  function BytePow(k: nat): (r: nat)
    requires k <= 4
    ensures r > 0
  {
    if k == 0 then 1 else if k == 1 then 0x100 else if k == 2 then 0x1_0000 else if k == 3 then 0x100_0000
    else WORD_SIZE
  }
}
