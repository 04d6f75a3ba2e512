/** EnableIntr and DisableIntr: one interrupt number drives the interrupt mask and two packed DMA
    control registers. What the calls do is stated on sets of bit numbers; the controller holds the
    32-bit registers and works with shifts and masks. */
module InterruptControl {
  import opened Words
  import opened Bitwise

  /** The interrupt mask, its mirror for the DMA channels, and the two DMA interrupt registers. */
  datatype Masks = Masks(low: set<nat>, high: set<nat>, icr: set<nat>, icr2: set<nat>)

  const MASTER := 23
  const DMA_LINE := 3
  const ILLEGAL := -101
  const DISABLED := -103

  /** Plain lines, and the two groups of DMA channels. */
  predicate Plain(i: nat) { i < 32 }

  predicate FirstGroup(i: nat) { 0x20 <= i <= 0x26 }

  predicate SecondGroup(i: nat) { 0x28 <= i <= 0x2D }

  predicate Legal(i: nat) { Plain(i) || FirstGroup(i) || SecondGroup(i) }

  function Below(r: set<nat>, n: nat): set<nat> { set b | b in r && b < n }

  function With(r: set<nat>, b: nat, on: bool): set<nat> { if on then r + {b} else r - {b} }

  /** The two transfer mode flags that ride in bits 8 and 9 of the interrupt number. */
  datatype Modes = Modes(one: bool, two: bool)

  function LineOf(irq: Word): nat { irq % 0x100 }

  function ModesIn(irq: Word): Modes { Modes(irq / 0x100 % 2 == 1, irq / 0x200 % 2 == 1) }

  function Number(i: nat, f: Modes): Word
    requires i < 0x100
  {
    i + (if f.one then 0x100 else 0) + if f.two then 0x200 else 0
  }

  lemma NumberRead(i: nat, f: Modes)
    requires i < 0x100
    ensures LineOf(Number(i, f)) == i && ModesIn(Number(i, f)) == f
  {}

  function Enable(m: Masks, i: nat, f: Modes): Masks {
    if Plain(i) then m.(low := m.low + {i})
    else if FirstGroup(i) then
      var k := i - 32;
      Masks(m.low + {DMA_LINE}, m.high + {k},
            With(Below(m.icr, 24), k, f.one) + {k + 16} + {MASTER}, With(Below(m.icr2, 24), k, f.two))
    else if SecondGroup(i) then
      var k := i - 40;
      Masks(m.low + {DMA_LINE}, m.high + {k + 8},
            Below(m.icr, MASTER) + {MASTER}, With(Below(m.icr2, 24), k + 7, f.two) + {k + 16})
    else m
  }

  predicate Enabled(m: Masks, i: nat) {
    if Plain(i) then i in m.low
    else if FirstGroup(i) then i - 16 in m.icr
    else SecondGroup(i) && i - 24 in m.icr2
  }

  function ModesOf(m: Masks, i: nat): Modes {
    if FirstGroup(i) then Modes(i - 32 in m.icr, i - 32 in m.icr2)
    else if SecondGroup(i) then Modes(false, i - 33 in m.icr2)
    else Modes(false, false)
  }

  function Disable(m: Masks, i: nat): Masks {
    if !Enabled(m, i) then m
    else if Plain(i) then m.(low := m.low - {i})
    else if FirstGroup(i) then m.(icr := Below(m.icr, 24) - {i - 16}, high := m.high - {i - 32})
    else m.(icr2 := Below(m.icr2, 24) - {i - 24}, high := m.high - {i - 32})
  }

  // ---------------------------------------------------------------------------
  // One call
  // ---------------------------------------------------------------------------

  /** The modes of a line that it can have. */
  function Own(i: nat, f: Modes): Modes { Modes(FirstGroup(i) && f.one, (FirstGroup(i) || SecondGroup(i)) && f.two) }

  /** What enabling leaves behind, whatever the state before: the line is on with its modes. */
  lemma EnableEnables(m: Masks, i: nat, f: Modes)
    requires Legal(i)
    ensures Enabled(Enable(m, i, f), i) && ModesOf(Enable(m, i, f), i) == Own(i, f)
  {}

  lemma DisableDisables(m: Masks, i: nat)
    ensures !Enabled(Disable(m, i), i) && ModesOf(Disable(m, i), i) == ModesOf(m, i)
  {}

  /** No other line is switched, and none has its modes changed, but the shared DMA line of the
      interrupt mask goes on with any DMA channel. */
  lemma EnableSpares(m: Masks, i: nat, f: Modes, j: nat)
    requires Legal(j) && j != i
    ensures Enabled(Enable(m, i, f), j) == (Enabled(m, j) || (j == DMA_LINE && Legal(i) && !Plain(i)))
    ensures ModesOf(Enable(m, i, f), j) == ModesOf(m, j)
  {}

  lemma DisableSpares(m: Masks, i: nat, j: nat)
    requires Legal(j) && j != i
    ensures Enabled(Disable(m, i), j) == Enabled(m, j) && ModesOf(Disable(m, i), j) == ModesOf(m, j)
  {}

  /** As enabling leaves the registers around a line. */
  predicate Settled(m: Masks, i: nat) {
    && Below(m.icr, 24) == m.icr && Below(m.icr2, 24) == m.icr2
    && DMA_LINE in m.low && MASTER in m.icr && i >= 32 && i - 32 in m.high
  }

  /** Enabling a line again with the number that disabling reports restores every register exactly
      if the line is a plain one, or the registers are as enabling leaves them. */
  lemma DisableThenEnableIff(m: Masks, i: nat)
    requires Enabled(m, i)
    ensures var irq := Number(i, ModesOf(m, i));
            Enable(Disable(m, i), LineOf(irq), ModesIn(irq)) == m <==> Plain(i) || Settled(m, i)
  {
    NumberRead(i, ModesOf(m, i));
    var e := Enable(Disable(m, i), i, ModesOf(m, i));
    if Plain(i) {
      assert e.low == m.low;
    } else {
      assert DMA_LINE in e.low && MASTER in e.icr && i - 32 in e.high;
      assert Below(e.icr, 24) == e.icr && Below(e.icr2, 24) == e.icr2;
      if Settled(m, i) { assert e.low == m.low && e.high == m.high && e.icr == m.icr && e.icr2 == m.icr2; }
    }
  }

  // ---------------------------------------------------------------------------
  // Any sequence of calls
  // ---------------------------------------------------------------------------

  datatype Call = On(irq: Word) | Off(irq: Word)

  function Apply(m: Masks, c: Call): Masks {
    match c
    case On(irq) => Enable(m, LineOf(irq), ModesIn(irq))
    case Off(irq) => Disable(m, LineOf(irq))
  }

  function After(m: Masks, cs: seq<Call>): Masks {
    if cs == [] then m else Apply(After(m, cs[..|cs| - 1]), cs[|cs| - 1])
  }

  /** A line is on if the last call for it was an enabling one. The shared DMA line is also switched
      on by every call that enables a DMA channel. */
  predicate Decided(was: bool, cs: seq<Call>, j: nat) {
    if cs == [] then was else
    var c := cs[|cs| - 1];
    var i := LineOf(c.irq);
    if i == j then c.On?
    else Decided(was, cs[..|cs| - 1], j) || (c.On? && j == DMA_LINE && Legal(i) && !Plain(i))
  }

  /** A line has the modes of the last call that enabled it, also while it is off. */
  function LastModes(were: Modes, cs: seq<Call>, j: nat): Modes {
    if cs == [] then were else
    var c := cs[|cs| - 1];
    if c.On? && LineOf(c.irq) == j then Own(j, ModesIn(c.irq)) else LastModes(were, cs[..|cs| - 1], j)
  }

  /** After any calls, from any registers, every line is as the calls for it say. */
  lemma {:induction false} LastCallDecides(m: Masks, cs: seq<Call>, j: nat)
    requires Legal(j)
    ensures Enabled(After(m, cs), j) == Decided(Enabled(m, j), cs, j)
    ensures ModesOf(After(m, cs), j) == LastModes(ModesOf(m, j), cs, j)
  {
    if cs != [] {
      var c, rest := cs[|cs| - 1], cs[..|cs| - 1];
      LastCallDecides(m, rest, j);
      ApplyDecides(After(m, rest), c, j);
    }
  }

  lemma ApplyDecides(m: Masks, c: Call, j: nat)
    requires Legal(j)
    ensures Enabled(Apply(m, c), j) == Decided(Enabled(m, j), [c], j)
    ensures ModesOf(Apply(m, c), j) == LastModes(ModesOf(m, j), [c], j)
  {
    var i, f := LineOf(c.irq), ModesIn(c.irq);
    assert [c][..0] == [];
    match c {
      case On(_) => if i == j { EnableEnables(m, i, f); } else { EnableSpares(m, i, f, j); }
      case Off(_) => if i == j { DisableDisables(m, i); } else { DisableSpares(m, i, j); }
    }
  }

  /** The registers hold nothing above bit 23, the mirror shows exactly the DMA channels that are on, and with
      any of them the master bit is on. */
  predicate Clean(m: Masks) {
    && Below(m.icr, 24) == m.icr && Below(m.icr2, 24) == m.icr2
    && forall i | 32 <= i < 64 :: (Enabled(m, i) <==> i - 32 in m.high) && (Enabled(m, i) ==> MASTER in m.icr)
  }

  lemma ApplyClean(m: Masks, c: Call)
    requires Clean(m)
    ensures Clean(Apply(m, c))
  {
    var r, i, f := Apply(m, c), LineOf(c.irq), ModesIn(c.irq);
    assert Below(r.icr, 24) == r.icr && Below(r.icr2, 24) == r.icr2;
    forall j | 32 <= j < 64
      ensures (Enabled(r, j) <==> j - 32 in r.high) && (Enabled(r, j) ==> MASTER in r.icr)
    {
      if i != j && Legal(j) {
        match c {
          case On(_) => EnableSpares(m, i, f, j);
          case Off(_) => DisableSpares(m, i, j);
        }
      }
      assert Enabled(m, j) <==> j - 32 in m.high;
    }
  }

  const RESET := Masks({}, {}, {}, {})

  lemma {:induction false} RunClean(m: Masks, cs: seq<Call>)
    requires Clean(m)
    ensures Clean(After(m, cs))
  {
    if cs != [] {
      RunClean(m, cs[..|cs| - 1]);
      ApplyClean(After(m, cs[..|cs| - 1]), cs[|cs| - 1]);
    }
  }

  /** After any calls from reset the mirror shows exactly the DMA channels that are on. */
  lemma MirrorShows(cs: seq<Call>, i: nat)
    requires 32 <= i < 64
    ensures var m := After(RESET, cs);
            && (i - 32 in m.high <==> (FirstGroup(i) || SecondGroup(i)) && Decided(false, cs, i))
            && (i - 32 in m.high ==> MASTER in m.icr)
  {
    RunClean(RESET, cs);
    if Legal(i) { LastCallDecides(RESET, cs, i); }
    assert Enabled(After(RESET, cs), i) <==> i - 32 in After(RESET, cs).high;
  }

  /** From reset on, disabling and enabling again restores every register exactly if the line is a
      plain one or nobody has switched the shared DMA line off. */
  lemma RestoredIff(cs: seq<Call>, i: nat)
    requires Enabled(After(RESET, cs), i)
    ensures var m := After(RESET, cs);
            var irq := Number(i, ModesOf(m, i));
            Apply(Apply(m, Off(irq)), On(irq)) == m <==> Plain(i) || Decided(false, cs, DMA_LINE)
  {
    var m := After(RESET, cs);
    RunClean(RESET, cs);
    LastCallDecides(RESET, cs, DMA_LINE);
    NumberRead(i, ModesOf(m, i));
    DisableThenEnableIff(m, i);
  }

  // ---------------------------------------------------------------------------
  // Shifts and masks
  // ---------------------------------------------------------------------------

  const LOW_8: Word := 0xFF
  const HIGH_8: Word := 0xFF00
  const LOW_24: Word := 0xFF_FFFF
  const LOW_23: Word := 0x7F_FFFF
  const MASTER_BIT: Word := 0x80_0000

  /** 1u << k. */
  function Shl(k: nat): Word
    requires k < 32
  {
    Pow2Fits(k);
    Pow2(k)
  }

  lemma SetBit(w: Word, k: nat)
    requires k < 32
    ensures Ones(OrWord(w, Shl(k))) == Ones(w) + {k}
  {
    OnesPow2(k);
    OnesOr(w, Shl(k));
  }

  lemma ClearBit(w: Word, k: nat)
    requires k < 32
    ensures Ones(AndWord(w, Not(Shl(k)))) == Ones(w) - {k}
  {
    OnesPow2(k);
    OnesNot(w, Shl(k));
  }

  lemma TestBit(w: Word, k: nat)
    requires k < 32
    ensures AndWord(w, Shl(k)) != 0 <==> k in Ones(w)
  {
    AndPow2(w, k);
  }

  /** w >> k. */
  function Shr(w: nat, k: nat): (r: nat)
    ensures r <= w
  {
    if k == 0 then w else Shr(w / 2, k - 1)
  }

  lemma {:induction false} BitShift(a: nat, k: nat, i: nat)
    ensures Bit(Shr(a, k), i) == Bit(a, i + k)
    decreases k
  {
    if k > 0 { BitShift(a / 2, k - 1, i); }
  }

  /** (w >> k) & 1. */
  lemma ShiftedBit(w: Word, k: nat)
    requires k < 32
    ensures AndWord(Shr(w, k), 1) != 0 <==> k in Ones(w)
  {
    BitShift(w, k, 0);
    AndPow2(Shr(w, k), 0);
  }

  lemma {:induction false} BitLow(n: nat, i: nat)
    ensures Bit(Pow2(n) - 1, i) == (i < n)
    decreases n
  {
    if n == 0 {
      BitZero(i);
    } else {
      OnesHalf(n);
      if i > 0 { BitLow(n - 1, i - 1); }
    }
  }

  /** A mask of the low n bits. */
  lemma LowBits(w: Word, n: nat, mask: Word)
    requires n <= 32 && mask == Pow2(n) - 1
    ensures Ones(AndWord(w, mask)) == Below(Ones(w), n)
  {
    OnesAnd(w, mask);
    forall i: nat ensures Bit(mask, i) == (i < n) { BitLow(n, i); }
  }

  lemma Masks24(w: Word)
    ensures Ones(AndWord(w, LOW_24)) == Below(Ones(w), 24) && Ones(AndWord(w, LOW_23)) == Below(Ones(w), 23)
  {
    assert Pow2(12) == 0x1000 && Pow2(24) == 0x100_0000 && Pow2(23) == 0x80_0000;
    LowBits(w, 24, LOW_24);
    LowBits(w, 23, LOW_23);
  }

  lemma SetMaster(w: Word)
    ensures Ones(OrWord(w, MASTER_BIT)) == Ones(w) + {MASTER}
  {
    assert Pow2(12) == 0x1000 && Pow2(23) == 0x80_0000;
    SetBit(w, MASTER);
  }

  /** (w & ~(1u << k) & 0xFFFFFF) | (on ? 1u << k : 0). */
  function Driven(w: Word, k: nat, on: bool): Word
    requires k < 24
  {
    OrWord(AndWord(AndWord(w, Not(Shl(k))), LOW_24), if on then Shl(k) else 0)
  }

  lemma DrivenBit(w: Word, k: nat, on: bool)
    requires k < 24
    ensures Ones(Driven(w, k, on)) == With(Below(Ones(w), 24), k, on)
  {
    ClearBit(w, k);
    var c := AndWord(w, Not(Shl(k)));
    Masks24(c);
    OnesZero();
    OnesOr(AndWord(c, LOW_24), 0);
    SetBit(AndWord(c, LOW_24), k);
  }

  function Index(irq: Word): Word { AndWord(irq, LOW_8) }

  /** (irq & 0xFF00) >> 8. */
  function Upper(irq: Word): Word { Shr(AndWord(irq, HIGH_8), 8) }

  lemma IndexIs(irq: Word)
    ensures Index(irq) == LineOf(irq)
  {
    assert Pow2(8) == 0x100;
    AndLow(irq, 8);
  }

  lemma UpperBit(irq: Word, i: nat)
    requires i < 2
    ensures Bit(Upper(irq), i) == Bit(irq, i + 8)
  {
    BitShift(AndWord(irq, HIGH_8), 8, i);
    BitAnd(irq, HIGH_8, i + 8);
    assert Bit(HIGH_8, 8) && Bit(HIGH_8, 9);
  }

  lemma UpperIs(irq: Word)
    ensures AndWord(Upper(irq), 1) != 0 <==> ModesIn(irq).one
    ensures AndWord(Upper(irq), 2) != 0 <==> ModesIn(irq).two
  {
    assert Pow2(1) == 2 && Pow2(8) == 0x100 && Pow2(9) == 0x200;
    AndPow2(Upper(irq), 0);
    AndPow2(Upper(irq), 1);
    UpperBit(irq, 0);
    UpperBit(irq, 1);
    BitDiv(irq, 8);
    BitDiv(irq, 9);
  }

  /** res |= 0x100 and res |= 0x200 on a line number. */
  function Flagged(i: Word, one: bool, two: bool): Word {
    var r := if one then OrWord(i, 0x100) else i;
    if two then OrWord(r, 0x200) else r
  }

  lemma FlaggedIs(i: Word, f: Modes)
    requires i < 0x100
    ensures Flagged(i, f.one, f.two) == Number(i, f)
  {
    assert Pow2(8) == 0x100 && Pow2(9) == 0x200;
    OrPow2(i, 8);
    BitDiv(i, 8);
    var r := if f.one then OrWord(i, 0x100) else i;
    OrPow2(r, 9);
    BitDiv(r, 9);
  }

  // ---------------------------------------------------------------------------
  // The controller
  // ---------------------------------------------------------------------------

  class Controller {
    var imask: Word
    var imaskHi: Word
    var icr: Word
    var icr2: Word

    constructor ()
      ensures Snapshot() == RESET
    {
      imask, imaskHi, icr, icr2 := 0, 0, 0, 0;
      OnesZero();
    }

    ghost function Snapshot(): Masks
      reads this
    {
      Masks(Ones(imask), Ones(imaskHi), Ones(icr), Ones(icr2))
    }

    method EnableIntr(irq: Word) returns (result: int)
      modifies this
      ensures Snapshot() == Apply(old(Snapshot()), On(irq))
      ensures result == if Legal(LineOf(irq)) then 0 else ILLEGAL
    {
      IndexIs(irq);
      UpperIs(irq);
      var i, upper := Index(irq), Upper(irq);
      var one, two := AndWord(upper, 1) != 0, AndWord(upper, 2) != 0;
      if i < 32 {
        SetBit(imask, i);
        imask := OrWord(imask, Shl(i));
      } else if 0x20 <= i <= 0x26 {
        EnableFirst(i, one, two);
      } else if 0x28 <= i <= 0x2D {
        EnableSecond(i, two);
      } else {
        return ILLEGAL;
      }
      return 0;
    }

    method EnableFirst(i: Word, one: bool, two: bool)
      requires FirstGroup(i)
      modifies this
      ensures Snapshot() == Enable(old(Snapshot()), i, Modes(one, two))
    {
      DrivenBit(icr, i - 32, one);
      SetBit(Driven(icr, i - 32, one), i - 32 + 16);
      SetMaster(OrWord(Driven(icr, i - 32, one), Shl(i - 32 + 16)));
      icr := OrWord(OrWord(Driven(icr, i - 32, one), Shl(i - 32 + 16)), MASTER_BIT);
      DrivenBit(icr2, i - 32, two);
      icr2 := Driven(icr2, i - 32, two);
      SwitchLine(i - 32);
    }

    method EnableSecond(i: Word, two: bool)
      requires SecondGroup(i)
      modifies this
      ensures forall one :: Snapshot() == Enable(old(Snapshot()), i, Modes(one, two))
    {
      DrivenBit(icr2, i - 40 + 7, two);
      SetBit(Driven(icr2, i - 40 + 7, two), i - 40 + 16);
      icr2 := OrWord(Driven(icr2, i - 40 + 7, two), Shl(i - 40 + 16));
      Masks24(icr);
      SetMaster(AndWord(icr, LOW_23));
      icr := OrWord(AndWord(icr, LOW_23), MASTER_BIT);
      SwitchLine(i - 32);
    }

    /** The shared DMA line and the channel's own mirror bit. */
    method SwitchLine(k: Word)
      requires k < 32
      modifies this`imask, this`imaskHi
      ensures Ones(imask) == old(Ones(imask)) + {DMA_LINE} && Ones(imaskHi) == old(Ones(imaskHi)) + {k}
    {
      assert Pow2(3) == 8;
      SetBit(imask, DMA_LINE);
      SetBit(imaskHi, k);
      imask := OrWord(imask, 8);
      imaskHi := OrWord(imaskHi, Shl(k));
    }

    /** Also reports the number that enables the line again, if it was on. */
    method DisableIntr(irq: Word) returns (result: int, report: int)
      modifies this
      ensures Snapshot() == Apply(old(Snapshot()), Off(irq))
      ensures var i, m := LineOf(irq), old(Snapshot());
              && result == (if !Legal(i) then ILLEGAL else if Enabled(m, i) then 0 else DISABLED)
              && report == if Enabled(m, i) then Number(i, ModesOf(m, i)) else DISABLED
    {
      IndexIs(irq);
      var i := Index(irq);
      if i < 32 {
        result, report := DisablePlain(i);
      } else if 0x20 <= i <= 0x26 {
        result, report := DisableFirst(i);
      } else if 0x28 <= i <= 0x2D {
        result, report := DisableSecond(i);
      } else {
        result, report := ILLEGAL, DISABLED;
      }
    }

    method DisablePlain(i: Word) returns (result: int, report: int)
      requires Plain(i)
      modifies this
      ensures Snapshot() == Disable(old(Snapshot()), i)
      ensures if Enabled(old(Snapshot()), i) then result == 0 && report == Number(i, Modes(false, false))
              else result == DISABLED && report == DISABLED
    {
      var was := imask;
      TestBit(was, i);
      ClearBit(was, i);
      imask := AndWord(was, Not(Shl(i)));
      if AndWord(was, Shl(i)) != 0 {
        result, report := 0, i;
      } else {
        result, report := DISABLED, DISABLED;
      }
    }

    method DisableFirst(i: Word) returns (result: int, report: int)
      requires FirstGroup(i)
      modifies this
      ensures Snapshot() == Disable(old(Snapshot()), i)
      ensures var m := old(Snapshot());
              if Enabled(m, i) then result == 0 && report == Number(i, ModesOf(m, i))
              else result == DISABLED && report == DISABLED
    {
      var d := AndWord(icr, LOW_24);
      Masks24(icr);
      TestBit(d, i - 16);
      if AndWord(d, Shl(i - 16)) != 0 {
        ShiftedBit(d, i - 32);
        TestBit(icr2, i - 32);
        FlaggedIs(i, ModesOf(Snapshot(), i));
        report := Flagged(i, AndWord(Shr(d, i - 32), 1) != 0, AndWord(icr2, Shl(i - 32)) != 0);
        ClearBit(d, i - 16);
        ClearBit(imaskHi, i - 32);
        icr, imaskHi := AndWord(d, Not(Shl(i - 16))), AndWord(imaskHi, Not(Shl(i - 32)));
        result := 0;
      } else {
        result, report := DISABLED, DISABLED;
      }
    }

    method DisableSecond(i: Word) returns (result: int, report: int)
      requires SecondGroup(i)
      modifies this
      ensures Snapshot() == Disable(old(Snapshot()), i)
      ensures var m := old(Snapshot());
              if Enabled(m, i) then result == 0 && report == Number(i, ModesOf(m, i))
              else result == DISABLED && report == DISABLED
    {
      var d := AndWord(icr2, LOW_24);
      Masks24(icr2);
      TestBit(d, i - 24);
      if AndWord(d, Shl(i - 24)) != 0 {
        ShiftedBit(d, i - 33);
        FlaggedIs(i, ModesOf(Snapshot(), i));
        report := Flagged(i, false, AndWord(Shr(d, i - 33), 1) != 0);
        ClearBit(d, i - 24);
        ClearBit(imaskHi, i - 32);
        icr2, imaskHi := AndWord(d, Not(Shl(i - 24))), AndWord(imaskHi, Not(Shl(i - 32)));
        result := 0;
      } else {
        result, report := DISABLED, DISABLED;
      }
    }

    /** Any sequence of calls leaves the registers as the calls say. */
    method Perform(cs: seq<Call>)
      modifies this
      ensures Snapshot() == After(old(Snapshot()), cs)
    {
      for n := 0 to |cs|
        invariant Snapshot() == After(old(Snapshot()), cs[..n])
      {
        assert cs[..n + 1][..n] == cs[..n];
        match cs[n] {
          case On(irq) => var _ := EnableIntr(irq);
          case Off(irq) => var _, _ := DisableIntr(irq);
        }
      }
      assert cs[..|cs|] == cs;
    }
  }
}
