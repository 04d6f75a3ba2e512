/** Little-endian words in a byte memory, and IOP guest memory built on them. */
module Memory {
  import opened Words

  type Byte = b: nat | b < 256

  type Bytes = seq<Byte>

  function Assemble(b0: Byte, b1: Byte, b2: Byte, b3: Byte): Word {
    var n0: int, n1: int, n2: int, n3: int := b0, b1, b2, b3;
    n0 + 0x100 * (n1 + 0x100 * (n2 + 0x100 * n3))
  }

  function Read32(m: Bytes, p: nat): Word
    requires p + 4 <= |m|
  {
    Assemble(m[p], m[p + 1], m[p + 2], m[p + 3])
  }

  function Write32(m: Bytes, p: nat, w: Word): (r: Bytes)
    requires p + 4 <= |m|
    ensures |r| == |m|
  {
    var n1 := w / 0x100;
    var n2 := n1 / 0x100;
    m[p := w % 0x100][p + 1 := n1 % 0x100][p + 2 := n2 % 0x100][p + 3 := n2 / 0x100]
  }

  lemma ReadBack(m: Bytes, p: nat, w: Word)
    requires p + 4 <= |m|
    ensures Read32(Write32(m, p, w), p) == w
  {}

  /** A write changes no word that does not overlap it. */
  lemma ReadElsewhere(m: Bytes, p: nat, w: Word, q: nat)
    requires p + 4 <= |m| && q + 4 <= |m| && (q + 4 <= p || p + 4 <= q)
    ensures Read32(Write32(m, p, w), q) == Read32(m, q)
  {}

  /** Writing a word back changes nothing. */
  lemma WriteBack(m: Bytes, p: nat)
    requires p + 4 <= |m|
    ensures Write32(m, p, Read32(m, p)) == m
  {
    var w := Read32(m, p);
    assert w / 0x100 == m[p + 1] as int + 0x100 * (m[p + 2] as int + 0x100 * m[p + 3] as int);
    assert w / 0x100 / 0x100 == m[p + 2] as int + 0x100 * m[p + 3] as int;
  }

  lemma WriteTwice(m: Bytes, p: nat, v: Word, w: Word)
    requires p + 4 <= |m|
    ensures Write32(Write32(m, p, v), p, w) == Write32(m, p, w)
  {}

  // ---------------------------------------------------------------------------
  // IOP memory
  // ---------------------------------------------------------------------------

  const ROM: Word := 0xBFC0_0000

  /** RAM is mirrored in every segment below the boot ROM. */
  function Place(a: Word): nat { a % 0x2000_0000 }

  predicate InRam(ram: Bytes, a: Word) { a < ROM && Place(a) + 4 <= |ram| }

  function Load(ram: Bytes, a: Word): Word { if InRam(ram, a) then Read32(ram, Place(a)) else 0 }

  function Store(ram: Bytes, a: Word, w: Word): (r: Bytes)
    ensures |r| == |ram|
  {
    if InRam(ram, a) then Write32(ram, Place(a), w) else ram
  }

  /** The words at a and b share no byte. */
  predicate Apart(a: Word, b: Word) { Place(a) + 4 <= Place(b) || Place(b) + 4 <= Place(a) }

  lemma LoadStored(ram: Bytes, a: Word, w: Word)
    requires InRam(ram, a)
    ensures Load(Store(ram, a, w), a) == w
  {
    ReadBack(ram, Place(a), w);
  }

  lemma LoadOther(ram: Bytes, a: Word, w: Word, b: Word)
    requires Apart(a, b)
    ensures Load(Store(ram, a, w), b) == Load(ram, b)
  {
    if InRam(ram, a) && InRam(ram, b) { ReadElsewhere(ram, Place(a), w, Place(b)); }
  }
}
