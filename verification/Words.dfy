/** 32-bit words as numbers, and division with remainder. */
module Words {
  type Word = w: nat | w < 0x1_0000_0000

  const MINUS_ONE: Word := 0xFFFF_FFFF

  function Wrap(n: int): Word { n % 0x1_0000_0000 }

  /** a + n modulo 2^32. */
  function Plus(a: Word, n: int): Word { Wrap(a as int + n) }

  lemma PlusPlus(a: Word, m: int, n: int)
    ensures Plus(Plus(a, m), n) == Plus(a, m + n)
  {}

  /** Quotient and remainder are unique. */
  lemma DivMod(n: nat, d: nat, q: nat, r: nat)
    requires r < d && n == q * d + r
    ensures n / d == q && n % d == r
  {
    var e := n / d - q;
    assert e * d == r - n % d;
    assert e >= 1 ==> e * d >= d;
    assert e <= -1 ==> e * d <= -1 * d;
  }
}
