/** 32-bit machine words as integers with explicit wrap-around, and the bit
    operations the simulator applies to them. */
module Words {

  const WORD_SIZE := 0x1_0000_0000

  type Word = x: int | 0 <= x < WORD_SIZE
  type Byte = x: int | 0 <= x < 0x100

  datatype Option<+T> = None | Some(value: T)

  /** Unsigned 32-bit truncation. */
  function Wrap(x: int): Word {
    x % WORD_SIZE
  }

  /** Addition and subtraction on `uint32_t`. */
  function Sum(x: int, y: int): Word {
    Wrap(x + y)
  }

  function Difference(x: int, y: int): Word {
    Wrap(x - y)
  }

  /** The address of the following instruction. */
  function Plus4(pc: Word): Word {
    Wrap(pc + 4)
  }

  /** The value of a word read as `int32_t`. */
  function Signed(w: Word): int {
    if w < 0x8000_0000 then w else w - WORD_SIZE
  }

  /** It is the value of that residue class that fits 32 bits with a sign. */
  lemma SignedIsTwosComplement(w: Word)
    ensures -0x8000_0000 <= Signed(w) <= 0x7FFF_FFFF && Wrap(Signed(w)) == w
  {
  }

  function Pow2(n: nat): (r: nat)
    ensures r > 0
  {
    if n == 0 then 1 else 2 * Pow2(n - 1)
  }

  /** Bitwise conjunction. */
  function And(a: nat, b: nat): (r: nat)
    ensures r <= a && r <= b
  {
    if a == 0 || b == 0 then 0
    else 2 * And(a / 2, b / 2) + (if a % 2 == 1 && b % 2 == 1 then 1 else 0)
  }

  /** Bitwise disjunction. */
  function OrNat(a: nat, b: nat): nat {
    if a == 0 then b
    else if b == 0 then a
    else 2 * OrNat(a / 2, b / 2) + (if a % 2 == 1 || b % 2 == 1 then 1 else 0)
  }

  lemma OrBound(n: nat, a: nat, b: nat)
    requires a < Pow2(n) && b < Pow2(n)
    ensures OrNat(a, b) < Pow2(n)
  {
    if n > 0 && a > 0 && b > 0 {
      OrBound(n - 1, a / 2, b / 2);
    }
  }

  lemma Pow2Values()
    ensures Pow2(0) == 1 && Pow2(8) == 0x100 && Pow2(16) == 0x1_0000 && Pow2(24) == 0x100_0000
    ensures Pow2(32) == WORD_SIZE
  {
    assert Pow2(4) == 16;
    assert Pow2(12) == 16 * Pow2(8);
    assert Pow2(20) == 16 * Pow2(16);
    assert Pow2(28) == 16 * Pow2(24);
  }

  function Or(a: Word, b: Word): Word {
    Pow2Values();
    OrBound(32, a, b);
    OrNat(a, b)
  }

  /** `w << s` and `w >> s` on `uint32_t`, one bit at a time. */
  function Shl(w: Word, s: nat): Word
    decreases s
  {
    if s == 0 then w else Shl(Wrap(2 * w), s - 1)
  }

  function Shr(w: Word, s: nat): Word
    decreases s
  {
    if s == 0 then w else Shr(w / 2, s - 1)
  }

  /** `~(a | b)` */
  function Nor(a: Word, b: Word): Word {
    WORD_SIZE - 1 - Or(a, b)
  }
}
