/** The three-level stack of interrupt-enable and mode bits in the low six bits of the processor's
    Status register: pushed on exception entry, popped by a return from exception. */
module StatusStack {
  import opened Words
  import opened Bitwise

  /** Exception entry: the two newer levels move up and the newest is cleared. */
  function Pushed(status: Word): Word { status - status % 64 + status % 16 * 4 }

  /** Return from exception: the two older levels move down. */
  function Popped(status: Word): Word { status - status % 16 + status / 4 % 16 }

  /** Where an exception goes; bit 22 selects the boot vectors. */
  function Vector(status: Word): Word { if status / 0x40_0000 % 2 == 1 then 0xBFC0_0180 else 0x8000_0080 }

  // ---------------------------------------------------------------------------
  // Bits
  // ---------------------------------------------------------------------------

  lemma {:induction false} BitShifted(a: nat, b: nat, k: nat, i: nat)
    requires b == a / Pow2(k)
    ensures Bit(b, i) == Bit(a, i + k)
    decreases k
  {
    if k > 0 {
      HalfDiv(a, Pow2(k - 1));
      BitShifted(a / 2, b, k - 1, i);
    }
  }

  lemma {:induction false} BitLow(a: nat, n: nat, i: nat)
    requires i < n
    ensures Bit(a % Pow2(n), i) == Bit(a, i)
    decreases n
  {
    HalfMod(a, Pow2(n - 1));
    Doubled(a / 2 % Pow2(n - 1), a % 2 == 1);
    if i > 0 { BitLow(a / 2, n - 1, i - 1); }
  }

  lemma SmallPowers()
    ensures Pow2(2) == 4 && Pow2(4) == 16 && Pow2(6) == 64 && Pow2(22) == 0x40_0000
  {
    assert Pow2(4) == 16 && Pow2(8) == 256 && Pow2(12) == 4096 && Pow2(16) == 0x1_0000 && Pow2(20) == 0x10_0000;
  }

  /** A pop moves bits 2 to 5 down to 0 to 3 and leaves bits 4 to 31 alone. */
  lemma PoppedBits(status: Word, i: nat)
    requires i < 32
    ensures Bit(Popped(status), i) == Bit(status, if i < 4 then i + 2 else i)
  {
    SmallPowers();
    var r := Popped(status);
    DivMod(r, 16, status / 16, status / 4 % 16);
    if i < 4 {
      BitLow(r, 4, i);
      BitLow(status / 4, 4, i);
      BitShifted(status, status / 4, 2, i);
    } else {
      BitShifted(r, r / 16, 4, i - 4);
      BitShifted(status, status / 16, 4, i - 4);
    }
  }

  /** A push moves bits 0 to 3 up to 2 to 5, clears bits 0 and 1 and leaves bits 6 to 31 alone. */
  lemma PushedBits(status: Word, i: nat)
    requires i < 32
    ensures Bit(Pushed(status), i) == if i < 2 then false else Bit(status, if i < 6 then i - 2 else i)
  {
    SmallPowers();
    var r, low := Pushed(status), status % 16;
    DivMod(r, 64, status / 64, low * 4);
    if i < 6 {
      BitLow(r, 6, i);
      PushedLow(low, i);
      if i >= 2 { BitLow(status, 4, i - 2); }
    } else {
      BitShifted(r, r / 64, 6, i - 6);
      BitShifted(status, status / 64, 6, i - 6);
    }
  }

  lemma PushedLow(low: nat, i: nat)
    requires low < 16 && i < 6
    ensures Bit(low * 4, i) == (i >= 2 && Bit(low, i - 2))
  {
    SmallPowers();
    if i >= 2 {
      BitShifted(low * 4, low, 2, i - 2);
    } else {
      assert low * 4 / 2 == low * 2;
    }
  }

  /** The masks of the code. */
  lemma PopMask(status: Word)
    ensures OrWord(AndWord(status, Not(0xF)), AndWord(status / 4, 0xF)) == Popped(status)
  {
    Pow32();
    SmallPowers();
    RoundDown(status, 32, 4, Not(0xF));
    AndLow(status / 4, 4);
    OrFields(status / 4 % 16, status / 16, 4);
  }

  method PopStatus(status: Word) returns (r: Word)
    ensures r == Popped(status)
  {
    PopMask(status);
    r := OrWord(AndWord(status, Not(0xF)), AndWord(status / 4, 0xF));
  }

  lemma VectorBit(status: Word)
    ensures Vector(status) == if Bit(status, 22) then 0xBFC0_0180 else 0x8000_0080
  {
    SmallPowers();
    BitDiv(status, 22);
  }

  method DefaultVector(status: Word) returns (vector: Word)
    ensures vector == Vector(status)
  {
    SmallPowers();
    AndPow2(status, 22);
    VectorBit(status);
    vector := if AndWord(status, 0x40_0000) != 0 then 0xBFC0_0180 else 0x8000_0080;
  }

  // ---------------------------------------------------------------------------
  // Entry and return
  // ---------------------------------------------------------------------------

  /** The status of a program that was interrupted with `before` and resumes with `after`: both newer
      levels of the stack as they were. */
  ghost predicate Restored(before: Word, after: Word) {
    forall i: nat | i < 4 :: Bit(after, i) == Bit(before, i)
  }

  /** Every bit of a status after a pop. */
  ghost predicate MovedDown(status: Word, r: Word) {
    forall i: nat | i < 32 :: Bit(r, i) == Bit(status, if i < 4 then i + 2 else i)
  }

  lemma PopMovesDown(status: Word)
    ensures MovedDown(status, Popped(status))
  {
    forall i: nat | i < 32 ensures Bit(Popped(status), i) == Bit(status, if i < 4 then i + 2 else i) {
      PoppedBits(status, i);
    }
  }

  /** The stack as an exception entry from `before` left it. */
  ghost predicate Untouched(before: Word, status: Word) {
    forall i: nat | i < 6 :: Bit(status, i) == (i >= 2 && Bit(before, i - 2))
  }

  lemma PushLeaves(before: Word)
    ensures Untouched(before, Pushed(before))
  {
    forall i: nat | i < 6 ensures Bit(Pushed(before), i) == (i >= 2 && Bit(before, i - 2)) { PushedBits(before, i); }
  }

  /** A pop undoes the push of an exception entry, as long as the handler leaves the stack alone. */
  lemma PopUndoesPush(status: Word)
    ensures forall before: Word | Untouched(before, status) :: Restored(before, Popped(status))
  {
    forall before: Word | Untouched(before, status) ensures Restored(before, Popped(status)) {
      forall i: nat | i < 4 ensures Bit(Popped(status), i) == Bit(before, i) {
        PoppedBits(status, i);
        assert Bit(status, i + 2) == Bit(before, i + 2 - 2);
      }
    }
  }
}
