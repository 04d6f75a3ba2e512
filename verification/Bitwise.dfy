/** The bitwise operators on 32-bit words, and what they do to the set of a word's one-bits. */
module Bitwise {
  import opened Words

  predicate Bit(a: nat, i: nat) { if i == 0 then a % 2 == 1 else Bit(a / 2, i - 1) }

  function Digit(b: bool): nat { if b then 1 else 0 }

  function And(a: nat, b: nat): (r: nat)
    ensures r <= a
  {
    if a == 0 then 0 else 2 * And(a / 2, b / 2) + Digit(a % 2 == 1 && b % 2 == 1)
  }

  function Or(a: nat, b: nat): (r: nat)
    ensures r >= a && r >= b
    decreases a + b
  {
    if a == 0 && b == 0 then 0 else 2 * Or(a / 2, b / 2) + Digit(a % 2 == 1 || b % 2 == 1)
  }

  function Not(a: Word): Word { 0xFFFF_FFFF - a }

  function Pow2(k: nat): (p: nat)
    ensures p > 0
  {
    if k == 0 then 1 else 2 * Pow2(k - 1)
  }

  /** The bits that are one. */
  function Ones(a: nat): set<nat> { set i | 0 <= i < 32 && Bit(a, i) }

  // ---------------------------------------------------------------------------
  // Bit by bit
  // ---------------------------------------------------------------------------

  lemma {:induction false} BitZero(i: nat)
    ensures !Bit(0, i)
  {
    if i > 0 { BitZero(i - 1); }
  }

  lemma {:induction false} BitAnd(a: nat, b: nat, i: nat)
    ensures Bit(And(a, b), i) == (Bit(a, i) && Bit(b, i))
    decreases i
  {
    AndStep(a, b);
    if a == 0 {
      BitZero(i);
    } else if i > 0 {
      BitAnd(a / 2, b / 2, i - 1);
    }
  }

  lemma AndStep(a: nat, b: nat)
    ensures And(a, b) / 2 == And(a / 2, b / 2) && (And(a, b) % 2 == 1 <==> a % 2 == 1 && b % 2 == 1)
  {
    Doubled(And(a / 2, b / 2), a % 2 == 1 && b % 2 == 1);
  }

  lemma {:induction false} BitOr(a: nat, b: nat, i: nat)
    ensures Bit(Or(a, b), i) == (Bit(a, i) || Bit(b, i))
    decreases i
  {
    OrStep(a, b);
    if i > 0 { BitOr(a / 2, b / 2, i - 1); }
  }

  lemma OrStep(a: nat, b: nat)
    ensures Or(a, b) / 2 == Or(a / 2, b / 2) && (Or(a, b) % 2 == 1 <==> a % 2 == 1 || b % 2 == 1)
  {
    Doubled(Or(a / 2, b / 2), a % 2 == 1 || b % 2 == 1);
  }

  lemma Doubled(h: nat, d: bool)
    ensures (2 * h + Digit(d)) / 2 == h && ((2 * h + Digit(d)) % 2 == 1 <==> d)
  {}

  /** Counting down from all ones flips every bit. */
  lemma {:induction false} BitFlipped(a: nat, n: nat, i: nat)
    requires i < n && a < Pow2(n)
    ensures Bit(Pow2(n) - 1 - a, i) == !Bit(a, i)
    decreases n
  {
    var f := Pow2(n) - 1 - a;
    assert f % 2 == 1 - a % 2 && f / 2 == Pow2(n - 1) - 1 - a / 2;
    if i > 0 { BitFlipped(a / 2, n - 1, i - 1); }
  }

  lemma {:induction false} BitPow2(k: nat, i: nat)
    ensures Bit(Pow2(k), i) == (i == k)
    decreases k
  {
    if k == 0 {
      if i > 0 { BitZero(i - 1); }
    } else {
      assert Pow2(k) / 2 == Pow2(k - 1) && Pow2(k) % 2 == 0;
      if i > 0 { BitPow2(k - 1, i - 1); }
    }
  }

  lemma Pow32()
    ensures Pow2(32) == 0x1_0000_0000
  {
    assert Pow2(8) == 256;
    assert Pow2(16) == 0x1_0000;
    assert Pow2(24) == 0x100_0000;
  }

  lemma Powers()
    ensures Pow2(15) == 0x8000 && Pow2(17) == 0x2_0000 && Pow2(31) == 0x8000_0000
  {
    assert Pow2(8) == 256;
    assert Pow2(16) == 0x1_0000;
    assert Pow2(24) == 0x100_0000;
  }

  lemma {:induction false} OrFits(a: nat, b: nat, n: nat)
    requires a < Pow2(n) && b < Pow2(n)
    ensures Or(a, b) < Pow2(n)
    decreases n
  {
    if n > 0 { OrFits(a / 2, b / 2, n - 1); }
  }

  /** A number below 2^n is its bits below n. */
  lemma {:induction false} SameBits(a: nat, b: nat, n: nat)
    requires a < Pow2(n) && b < Pow2(n) && forall i: nat | i < n :: Bit(a, i) == Bit(b, i)
    ensures a == b
    decreases n
  {
    if n > 0 {
      assert Bit(a, 0) == Bit(b, 0);
      forall i: nat | i < n - 1 ensures Bit(a / 2, i) == Bit(b / 2, i) {
        assert Bit(a, i + 1) == Bit(b, i + 1);
      }
      SameBits(a / 2, b / 2, n - 1);
    }
  }

  // ---------------------------------------------------------------------------
  // Sets of bits
  // ---------------------------------------------------------------------------

  function AndWord(a: Word, b: Word): Word { And(a, b) }

  function OrWord(a: Word, b: Word): Word
  {
    Pow32();
    OrFits(a, b, 32);
    Or(a, b)
  }

  lemma OnesAnd(a: Word, b: Word)
    ensures Ones(AndWord(a, b)) == Ones(a) * Ones(b)
  {
    forall i: nat ensures Bit(And(a, b), i) == (Bit(a, i) && Bit(b, i)) { BitAnd(a, b, i); }
  }

  lemma OnesOr(a: Word, b: Word)
    ensures Ones(OrWord(a, b)) == Ones(a) + Ones(b)
  {
    forall i: nat ensures Bit(Or(a, b), i) == (Bit(a, i) || Bit(b, i)) { BitOr(a, b, i); }
  }

  lemma OnesNot(a: Word, b: Word)
    ensures Ones(AndWord(a, Not(b))) == Ones(a) - Ones(b)
  {
    Pow32();
    forall i: nat | i < 32 ensures Bit(And(a, Not(b)), i) == (Bit(a, i) && !Bit(b, i)) {
      BitAnd(a, Not(b), i);
      BitFlipped(b, 32, i);
    }
  }

  lemma OnesPow2(k: nat)
    requires k < 32
    ensures Ones(Pow2(k)) == {k}
  {
    forall i: nat ensures Bit(Pow2(k), i) == (i == k) { BitPow2(k, i); }
  }

  lemma OnesZero()
    ensures Ones(0) == {}
  {
    forall i: nat ensures !Bit(0, i) { BitZero(i); }
  }

  lemma OnesUnique(a: Word, b: Word)
    requires Ones(a) == Ones(b)
    ensures a == b
  {
    Pow32();
    forall i: nat | i < 32 ensures Bit(a, i) == Bit(b, i) {
      assert i in Ones(a) <==> i in Ones(b);
    }
    SameBits(a, b, 32);
  }

  lemma {:induction false} Pow2Fits(k: nat)
    requires k < 32
    ensures Pow2(k) < 0x1_0000_0000
  {
    Pow32();
    Pow2Grows(k, 32);
  }

  lemma {:induction false} Pow2Grows(k: nat, n: nat)
    requires k < n
    ensures Pow2(k) < Pow2(n)
  {
    if k + 1 < n { Pow2Grows(k, n - 1); }
  }

  // ---------------------------------------------------------------------------
  // One bit at a time
  // ---------------------------------------------------------------------------

  lemma {:induction false} AndZero(a: nat)
    ensures And(a, 0) == 0
  {
    if a > 0 { AndZero(a / 2); }
  }

  /** Masking one bit out. */
  lemma {:induction false} AndPow2(a: nat, k: nat)
    ensures And(a, Pow2(k)) == if Bit(a, k) then Pow2(k) else 0
    decreases k
  {
    if a == 0 {
      BitZero(k);
    } else if k == 0 {
      AndZero(a / 2);
    } else {
      assert Pow2(k) / 2 == Pow2(k - 1) && Pow2(k) % 2 == 0;
      AndPow2(a / 2, k - 1);
    }
  }

  lemma {:induction false} OrZero(a: nat)
    ensures Or(a, 0) == a
  {
    if a > 0 { OrZero(a / 2); }
  }

  /** Setting one bit. */
  lemma {:induction false} OrPow2(a: nat, k: nat)
    ensures Or(a, Pow2(k)) == if Bit(a, k) then a else a + Pow2(k)
    decreases k
  {
    if k == 0 {
      OrZero(a / 2);
    } else {
      assert Pow2(k) / 2 == Pow2(k - 1) && Pow2(k) % 2 == 0;
      OrPow2(a / 2, k - 1);
    }
  }

  lemma {:induction false} AndOnes(a: nat, n: nat)
    requires a < Pow2(n)
    ensures And(a, Pow2(n) - 1) == a
    decreases n
  {
    if a > 0 {
      OnesHalf(n);
      AndOnes(a / 2, n - 1);
    }
  }

  lemma OnesHalf(n: nat)
    requires n > 0
    ensures (Pow2(n) - 1) / 2 == Pow2(n - 1) - 1 && (Pow2(n) - 1) % 2 == 1
  {}

  /** Clearing one bit. */
  lemma {:induction false} AndNotPow2(a: nat, n: nat, k: nat, mask: nat)
    requires k < n && a < Pow2(n) && mask == Pow2(n) - 1 - Pow2(k)
    ensures And(a, mask) == if Bit(a, k) then a - Pow2(k) else a
    decreases k
  {
    if a == 0 {
      BitZero(k);
    } else if k == 0 {
      assert mask / 2 == Pow2(n - 1) - 1 && mask % 2 == 0;
      AndOnes(a / 2, n - 1);
    } else {
      assert mask / 2 == Pow2(n - 1) - 1 - Pow2(k - 1) && mask % 2 == 1;
      AndNotPow2(a / 2, n - 1, k - 1, mask / 2);
    }
  }

  lemma {:induction false} BitDiv(a: nat, k: nat)
    ensures Bit(a, k) <==> a / Pow2(k) % 2 == 1
    decreases k
  {
    if k > 0 {
      BitDiv(a / 2, k - 1);
      HalfDiv(a, Pow2(k - 1));
    }
  }

  lemma HalfDiv(a: nat, p: nat)
    requires p > 0
    ensures a / 2 / p == a / (2 * p)
  {
    var q, r := a / (2 * p), a % (2 * p);
    assert a == 2 * (q * p) + r;
    assert a / 2 == q * p + r / 2 && r / 2 < p;
    DivMod(a / 2, p, q, r / 2);
  }

  // ---------------------------------------------------------------------------
  // Fields
  // ---------------------------------------------------------------------------

  /** Masking the low bits out is a remainder. */
  lemma {:induction false} AndLow(a: nat, n: nat)
    ensures And(a, Pow2(n) - 1) == a % Pow2(n)
    decreases n
  {
    if n == 0 {
      AndZero(a);
    } else {
      OnesHalf(n);
      AndStep(a, Pow2(n) - 1);
      AndLow(a / 2, n - 1);
      HalfMod(a, Pow2(n - 1));
    }
  }

  lemma HalfMod(a: nat, p: nat)
    requires p > 0
    ensures a % (2 * p) == 2 * (a / 2 % p) + a % 2
  {
    var q, t := a / 2 / p, a / 2 % p;
    Twice(a, p, q, t);
    DivMod(a, 2 * p, q, 2 * t + a % 2);
  }

  lemma Twice(a: nat, p: nat, q: nat, t: nat)
    requires a / 2 == q * p + t
    ensures a == q * (2 * p) + (2 * t + a % 2)
  {
    assert q * (2 * p) == 2 * (q * p);
  }

  /** Masking off the low bits rounds down. */
  lemma {:induction false} RoundDown(a: nat, n: nat, k: nat, mask: nat)
    requires k <= n && a < Pow2(n) && mask == Pow2(n) - Pow2(k)
    ensures And(a, mask) == a / Pow2(k) * Pow2(k)
    decreases k
  {
    if k == 0 {
      AndOnes(a, n);
    } else {
      assert mask % 2 == 0 && mask / 2 == Pow2(n - 1) - Pow2(k - 1);
      RoundDown(a / 2, n - 1, k - 1, mask / 2);
      HalvedDown(a, Pow2(k - 1));
    }
  }

  lemma HalvedDown(a: nat, p: nat)
    requires p > 0
    ensures 2 * (a / 2 / p * p) == a / (2 * p) * (2 * p)
  {
    HalfDiv(a, p);
  }

  /** Fields that do not overlap are joined by addition. */
  lemma {:induction false} OrFields(a: nat, b: nat, k: nat)
    requires a < Pow2(k)
    ensures Or(a, b * Pow2(k)) == a + b * Pow2(k) && Or(b * Pow2(k), a) == a + b * Pow2(k)
    decreases k
  {
    if k == 0 {
      OrZero(b);
      ZeroOr(b);
    } else {
      var p := Pow2(k - 1);
      assert b * Pow2(k) == 2 * (b * p);
      OrFields(a / 2, b, k - 1);
      OrDoubled(a, b * p);
    }
  }

  /** Replacing the bits from k up. */
  lemma JoinFields(w: nat, n: nat, k: nat, mask: nat, unit: nat)
    requires unit == Pow2(k) && mask == unit - 1
    ensures Or(And(w, mask), n * unit) == w % unit + n * unit
  {
    AndLow(w, k);
    OrFields(w % unit, n, k);
  }

  lemma OrDoubled(a: nat, c: nat)
    ensures Or(a, 2 * c) == 2 * Or(a / 2, c) + a % 2 && Or(2 * c, a) == 2 * Or(c, a / 2) + a % 2
  {
    var d := 2 * c;
    assert d / 2 == c && d % 2 == 0;
    OrStep(a, d);
    OrStep(d, a);
    Rebuilt(Or(a, d));
    Rebuilt(Or(d, a));
  }

  lemma Rebuilt(n: nat)
    ensures n == 2 * (n / 2) + n % 2
  {}

  lemma {:induction false} ZeroOr(a: nat)
    ensures Or(0, a) == a
  {
    if a > 0 { ZeroOr(a / 2); }
  }
}
