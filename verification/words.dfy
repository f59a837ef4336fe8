/** Register words and the bit-level operations the controller applies to them.

    Python's `&`, `|`, `<<` and `>>` on non-negative integers are modelled
    bit by bit (`BitAnd`, `BitOr`) and by powers of two (`ShiftLeft`,
    `ShiftRight`); the lemmas here connect them to plain arithmetic so that
    the codecs can be reasoned about with division and remainder. */
module Words {

  /** Number of distinct values of one 16-bit Modbus register. */
  const WordLimit: nat := 0x1_0000

  /** A value a register read can return. */
  type Word16 = w: nat | w < WordLimit

  function Pow2(n: nat): (p: nat)
    ensures p >= 1
  {
    if n == 0 then 1 else 2 * Pow2(n - 1)
  }

  /** `a << n` */
  function ShiftLeft(a: nat, n: nat): nat {
    a * Pow2(n)
  }

  /** `a >> n` */
  function ShiftRight(a: nat, n: nat): nat {
    var p := Pow2(n);
    assert p > 0 && a / p >= 0 by { DivOfNat(a, p); }
    a / p
  }

  /** Division of naturals stays natural. Stated apart so that the solver
      meets the non-linear fact in a small context. */
  lemma DivOfNat(a: nat, p: nat)
    requires p > 0
    ensures a / p >= 0
  {
  }

  /** `a & b`, one bit at a time from the least significant end. */
  function BitAnd(a: nat, b: nat): nat
    decreases a
  {
    if a == 0 || b == 0 then 0
    else 2 * BitAnd(a / 2, b / 2) + (if a % 2 == 1 && b % 2 == 1 then 1 else 0)
  }

  /** `a | b`, one bit at a time from the least significant end. */
  function BitOr(a: nat, b: nat): nat
    decreases a + b
  {
    if a == 0 then b
    else if b == 0 then a
    else 2 * BitOr(a / 2, b / 2) + (if a % 2 == 1 || b % 2 == 1 then 1 else 0)
  }

  /** Bit `k` of `w`, stated with arithmetic only: the reference the bit
      tests of the codecs are checked against. */
  predicate Bit(w: nat, k: nat) {
    (w / Pow2(k)) % 2 == 1
  }

  // ---------------------------------------------------------------------
  // Arithmetic helpers

  lemma DivModUnique(w: nat, d: nat, q: nat, r: nat)
    requires d > 0 && w == d * q + r && r < d
    ensures w / d == q && w % d == r
  {
    var q' := w / d;
    if q' < q {
      MulStep(d, q', q);
      assert false;
    } else if q' > q {
      MulStep(d, q, q');
      assert false;
    }
  }

  lemma MulStep(d: nat, a: nat, b: nat)
    requires a < b
    ensures d * a + d <= d * b
  {
    var k := b - a - 1;
    assert b == a + 1 + k;
    assert d * b == d * a + d + d * k;
  }

  /** Halving then dividing by 2^k is dividing by 2^(k+1). */
  lemma HalfThenDiv(w: nat, k: nat)
    ensures (w / 2) / Pow2(k) == w / Pow2(k + 1)
    ensures (w / 2) % Pow2(k) * 2 + w % 2 == w % Pow2(k + 1)
  {
    var p := Pow2(k);
    var q := (w / 2) / p;
    var t := (w / 2) % p;
    assert w / 2 == p * q + t;
    assert w == 2 * (w / 2) + w % 2;
    assert w == (2 * p) * q + (2 * t + w % 2);
    DivModUnique(w, 2 * p, q, 2 * t + w % 2);
  }

  // ---------------------------------------------------------------------
  // Bit operations against arithmetic

  /** `w & (2^k - 1)` keeps the low k bits: it is `w % 2^k`. */
  lemma {:induction false} AndLowMask(w: nat, k: nat)
    ensures BitAnd(w, Pow2(k) - 1) == w % Pow2(k)
  {
    if k == 0 {
    } else if w == 0 {
    } else {
      var h := Pow2(k - 1);
      var m := Pow2(k) - 1;
      assert m == 2 * (h - 1) + 1;
      DivModUnique(m, 2, h - 1, 1);
      assert BitAnd(w, m) == 2 * BitAnd(w / 2, h - 1) + w % 2;
      AndLowMask(w / 2, k - 1);
      HalfThenDiv(w, k - 1);
    }
  }

  /** `w & 2^k` is non-zero exactly when bit k of w is set. */
  lemma {:induction false} AndSingleBit(w: nat, k: nat)
    ensures (BitAnd(w, Pow2(k)) > 0) == Bit(w, k)
  {
    if w == 0 {
    } else if k == 0 {
      assert BitAnd(w, 1) == 2 * BitAnd(w / 2, 0) + (if w % 2 == 1 then 1 else 0);
    } else {
      assert Pow2(k) % 2 == 0 && Pow2(k) / 2 == Pow2(k - 1);
      AndSingleBit(w / 2, k - 1);
      HalfThenDiv(w, k - 1);
    }
  }

  /** `(a << n) | b` is an addition when b fits below bit n. */
  lemma {:induction false} OrDisjoint(a: nat, b: nat, n: nat)
    requires b < Pow2(n)
    ensures BitOr(a * Pow2(n), b) == a * Pow2(n) + b
  {
    if n == 0 {
    } else if a == 0 || b == 0 {
    } else {
      var hi := a * Pow2(n);
      assert hi == 2 * (a * Pow2(n - 1));
      assert hi / 2 == a * Pow2(n - 1) && hi % 2 == 0;
      OrDisjoint(a, b / 2, n - 1);
    }
  }

  /** Doubling both operands doubles their `|`. */
  lemma OrDouble(a: nat, b: nat)
    ensures BitOr(2 * a, 2 * b) == 2 * BitOr(a, b)
  {
    if a != 0 && b != 0 {
      assert (2 * a) / 2 == a && (2 * a) % 2 == 0;
      assert (2 * b) / 2 == b && (2 * b) % 2 == 0;
    }
  }

  lemma MulDouble(a: nat, p: nat)
    ensures a * (2 * p) == 2 * (a * p)
  {
  }

  /** `(a << m) | (b << m)` is `(a | b) << m`. */
  lemma {:induction false} OrShifted(a: nat, b: nat, m: nat)
    ensures BitOr(a * Pow2(m), b * Pow2(m)) == BitOr(a, b) * Pow2(m)
  {
    if m > 0 {
      var p := Pow2(m - 1);
      assert Pow2(m) == 2 * p;
      calc {
        BitOr(a * Pow2(m), b * Pow2(m));
        == { MulDouble(a, p); MulDouble(b, p); }
        BitOr(2 * (a * p), 2 * (b * p));
        == { OrDouble(a * p, b * p); }
        2 * BitOr(a * p, b * p);
        == { OrShifted(a, b, m - 1); }
        2 * (BitOr(a, b) * p);
        == { MulDouble(BitOr(a, b), p); }
        BitOr(a, b) * Pow2(m);
      }
    }
  }

  // ---------------------------------------------------------------------
  // Two-word join and its inverse (common.py `read_float_register`)

  /** `first << 16 | second`: the first register of a float slot is the
      high half of the 32-bit pattern. */
  function JoinWords(first: nat, second: nat): nat {
    BitOr(ShiftLeft(first, 16), second)
  }

  /** `(w >> 16, w & 0xFFFF)` */
  function SplitWords(w: nat): (nat, nat) {
    (ShiftRight(w, 16), BitAnd(w, 0xFFFF))
  }

  lemma Pow2Sixteen()
    ensures Pow2(16) == WordLimit
  {
    assert Pow2(4) == 16;
    assert Pow2(8) == 256;
    assert Pow2(12) == 4096;
  }

  /** For two register words the join lies in [0, 0xFFFFFFFF] (so the
      range assertion of the source never fires) and is the plain
      base-65536 number the two words spell. */
  lemma JoinInRange(first: Word16, second: Word16)
    ensures JoinWords(first, second) == first * WordLimit + second
    ensures 0 <= JoinWords(first, second) <= 0xFFFF_FFFF
  {
    Pow2Sixteen();
    OrDisjoint(first, second, 16);
  }

  /** Splitting a joined pattern recovers both register words. */
  lemma SplitJoin(first: Word16, second: Word16)
    ensures SplitWords(JoinWords(first, second)) == (first, second)
  {
    JoinInRange(first, second);
    var w := JoinWords(first, second);
    Pow2Sixteen();
    AndLowMask(w, 16);
    DivModUnique(w, WordLimit, first, second);
    assert ShiftRight(w, 16) == first;
    assert BitAnd(w, 0xFFFF) == second;
  }

  /** Joining the halves of any 32-bit pattern gives the pattern back. */
  lemma JoinSplit(w: nat)
    requires w <= 0xFFFF_FFFF
    ensures SplitWords(w).0 < WordLimit && SplitWords(w).1 < WordLimit
    ensures JoinWords(SplitWords(w).0, SplitWords(w).1) == w
  {
    Pow2Sixteen();
    AndLowMask(w, 16);
    var (hi, lo) := SplitWords(w);
    assert hi == w / WordLimit && lo == w % WordLimit;
    JoinInRange(hi, lo);
  }

  // ---------------------------------------------------------------------
  // Bits of a number, and numbers from bits

  /** Bit k of w is bit k-1 of w shifted right once. */
  lemma BitShift(w: nat, k: nat)
    requires k > 0
    ensures Bit(w, k) == Bit(w / 2, k - 1)
  {
    HalfThenDiv(w, k - 1);
  }

  /** The low n bits of w (`w % 2^n`) carry the same bits 0..n-1 as w. */
  lemma {:induction false} BitOfLowPart(w: nat, k: nat, n: nat)
    requires k < n
    ensures Bit(w % Pow2(n), k) == Bit(w, k)
  {
    var p := Pow2(n - 1);
    var low := w % Pow2(n);
    HalfThenDiv(w, n - 1);
    assert low == (w / 2) % p * 2 + w % 2;
    DivModUnique(low, 2, (w / 2) % p, w % 2);
    if k == 0 {
      assert Pow2(0) == 1;
    } else {
      BitShift(low, k);
      BitShift(w, k);
      BitOfLowPart(w / 2, k - 1, n - 1);
    }
  }

  /** The number whose bit k is `bits[k]` (least significant first). */
  function FromBits(bits: seq<bool>): (w: nat)
    ensures w < Pow2(|bits|)
  {
    if bits == [] then 0
    else (if bits[0] then 1 else 0) + 2 * FromBits(bits[1..])
  }

  /** Reading bit k of `FromBits(bits)` gives `bits[k]` back. */
  lemma {:induction false} BitOfFromBits(bits: seq<bool>, k: nat)
    requires k < |bits|
    ensures Bit(FromBits(bits), k) == bits[k]
  {
    var w := FromBits(bits);
    DivModUnique(w, 2, FromBits(bits[1..]), if bits[0] then 1 else 0);
    if k > 0 {
      BitShift(w, k);
      BitOfFromBits(bits[1..], k - 1);
    }
  }
}
