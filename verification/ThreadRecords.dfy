/** The thread kernel's records as the code keeps them: a status word with one bit per state, numbered
    wait types, and 32-bit flag patterns; and what they stand for in ThreadState. */
module ThreadRecords {
  import opened Words
  import opened Bitwise
  import T = ThreadState

  // ---------------------------------------------------------------------------
  // Status words
  // ---------------------------------------------------------------------------

  const RUN: Word := 1
  const READY: Word := 2
  const WAIT: Word := 4
  const SUSPEND: Word := 8
  const DORMANT: Word := 16

  /** Exactly one phase bit, with SUSPEND beside any of them but DORMANT. */
  predicate ValidStatus(w: Word) { w == 1 || w == 2 || w == 4 || w == 9 || w == 10 || w == 12 || w == 16 }

  function PhaseOf(w: Word): T.Phase {
    if w == 1 || w == 9 then T.Run else if w == 2 || w == 10 then T.Ready else if w == 4 || w == 12 then T.Wait else T.Dormant
  }

  predicate Suspended(w: Word) { w == 9 || w == 10 || w == 12 }

  /** A test of the word against a mask. */
  predicate Has(w: Word, mask: Word) { AndWord(w, mask) != 0 }

  lemma HasBit(w: Word, k: nat, mask: Word)
    requires mask == Pow2(k)
    ensures Has(w, mask) <==> w / mask % 2 == 1
  {
    AndPow2(w, k);
    BitDiv(w, k);
  }

  lemma RunBit(w: Word)
    requires ValidStatus(w)
    ensures Has(w, RUN) <==> PhaseOf(w) == T.Run
  {
    HasBit(w, 0, RUN);
  }

  lemma ReadyBit(w: Word)
    requires ValidStatus(w)
    ensures Has(w, READY) <==> PhaseOf(w) == T.Ready
  {
    assert Pow2(1) == 2;
    HasBit(w, 1, READY);
  }

  lemma WaitBit(w: Word)
    requires ValidStatus(w)
    ensures Has(w, WAIT) <==> PhaseOf(w) == T.Wait
  {
    assert Pow2(2) == 4;
    HasBit(w, 2, WAIT);
  }

  lemma DormantBit(w: Word)
    requires ValidStatus(w)
    ensures Has(w, DORMANT) <==> PhaseOf(w) == T.Dormant
  {
    assert Pow2(4) == 16;
    HasBit(w, 4, DORMANT);
  }

  /** Each phase is a single bit of the word. */
  lemma PhaseBits(w: Word)
    requires ValidStatus(w)
    ensures Has(w, RUN) <==> PhaseOf(w) == T.Run
    ensures Has(w, READY) <==> PhaseOf(w) == T.Ready
    ensures Has(w, WAIT) <==> PhaseOf(w) == T.Wait
    ensures Has(w, DORMANT) <==> PhaseOf(w) == T.Dormant
  {
    RunBit(w);
    ReadyBit(w);
    WaitBit(w);
    DormantBit(w);
  }

  lemma SuspendedIff(w: Word)
    requires ValidStatus(w)
    ensures Has(w, SUSPEND) <==> Suspended(w)
  {
    assert Pow2(3) == 8;
    HasBit(w, 3, SUSPEND);
  }

  /** status |= SUSPEND. */
  lemma StatusSuspend(w: Word)
    requires ValidStatus(w) && w != DORMANT
    ensures var r := OrWord(w, SUSPEND);
            ValidStatus(r) && PhaseOf(r) == PhaseOf(w) && Suspended(r)
  {
    assert Pow2(3) == 8;
    OrPow2(w, 3);
    BitDiv(w, 3);
  }

  /** status &= ~SUSPEND never gives 0, so the branch for it is dead. */
  lemma StatusResume(w: Word)
    requires ValidStatus(w) && Suspended(w)
    ensures var r := AndWord(w, Not(SUSPEND));
            && ValidStatus(r) && r != 0 && PhaseOf(r) == PhaseOf(w) && !Suspended(r)
            && (r == READY <==> PhaseOf(w) == T.Ready)
  {
    Pow32();
    assert Pow2(3) == 8;
    AndNotPow2(w, 32, 3, Not(SUSPEND));
    BitDiv(w, 3);
  }

  // ---------------------------------------------------------------------------
  // Event-flag words
  // ---------------------------------------------------------------------------

  const WEF_OR: Word := 1
  const WEF_CLEAR: Word := 0x10

  function ModeOf(mode: Word): T.Mode { T.Mode(mode % 2 == 1, mode / 16 % 2 == 1) }

  lemma ModeBits(mode: Word)
    ensures Has(mode, WEF_OR) <==> ModeOf(mode).any
    ensures Has(mode, WEF_CLEAR) <==> ModeOf(mode).clear
  {
    assert Pow2(4) == 16;
    HasBit(mode, 0, WEF_OR);
    HasBit(mode, 4, WEF_CLEAR);
  }

  /** The match rule as the code computes it. */
  predicate Shared(bits: Word, want: Word, mode: Word) {
    if Has(mode, WEF_OR) then AndWord(bits, want) != 0 else AndWord(bits, want) == want
  }

  lemma OnesEmpty(w: Word)
    ensures Ones(w) == {} <==> w == 0
  {
    OnesZero();
    if Ones(w) == {} { OnesUnique(w, 0); }
  }

  lemma SharedIff(bits: Word, want: Word, mode: Word)
    ensures Shared(bits, want, mode) == T.Satisfied(Ones(bits), Ones(want), ModeOf(mode))
  {
    ModeBits(mode);
    OnesAnd(bits, want);
    OnesEmpty(AndWord(bits, want));
    if Ones(want) <= Ones(bits) {
      assert Ones(bits) * Ones(want) == Ones(want);
      OnesUnique(AndWord(bits, want), want);
    }
  }

  // ---------------------------------------------------------------------------
  // Other masks
  // ---------------------------------------------------------------------------

  lemma AlignMask(a: Word)
    ensures AndWord(a, Not(15)) == a / 16 * 16 && AndWord(a, Not(7)) == a / 8 * 8
  {
    Pow32();
    assert Pow2(4) == 16 && Pow2(3) == 8;
    RoundDown(a, 32, 4, Not(15));
    RoundDown(a, 32, 3, Not(7));
  }

  // ---------------------------------------------------------------------------
  // Records
  // ---------------------------------------------------------------------------

  const TSW_SLEEP := 1
  const TSW_DELAY := 2
  const TSW_SEMA := 3
  const TSW_EVENTFLAG := 4

  datatype Thread = Thread(
    inUse: bool, status: Word, priority: Word, seqNo: Word, waitType: nat, waitId: int,
    waitBits: Word, waitMode: Word, waitPtr: Word, wakeups: Word, deadline: nat, stack: T.Stack, regs: T.Regs)
  {
    predicate Valid() { ValidStatus(status) || (status == 0 && !inUse) }
  }

  const BLANK := Thread(false, 0, 0, 0, 0, 0, 0, 0, 0, 0, 0, T.Stack(0, 0, 0), T.ZERO_REGS)

  function KindOf(waitType: nat): T.WaitKind {
    if waitType == TSW_SLEEP then T.OnSleep
    else if waitType == TSW_DELAY then T.OnDelay
    else if waitType == TSW_SEMA then T.OnSema
    else if waitType == TSW_EVENTFLAG then T.OnFlag
    else T.NoWait
  }

  ghost function Tcb(t: Thread): T.Tcb {
    T.Tcb(t.inUse, PhaseOf(t.status), Suspended(t.status), t.priority, t.seqNo, KindOf(t.waitType), t.waitId,
          T.Want(Ones(t.waitBits), ModeOf(t.waitMode), t.waitPtr), t.wakeups, t.deadline, t.stack, t.regs)
  }

  datatype Flag = Flag(inUse: bool, attr: Word, bits: Word, waiters: int)

  ghost function FlagOf(f: Flag): T.Flag { T.Flag(f.inUse, f.attr, Ones(f.bits), f.waiters) }

  type Threads = t: seq<Thread> | |t| == T.MAX_THREADS witness seq(T.MAX_THREADS, _ => BLANK)
  type Flags = t: seq<Flag> | |t| == T.MAX_FLAGS witness seq(T.MAX_FLAGS, _ => Flag(false, 0, 0, 0))

  ghost function Tcbs(ts: Threads): (r: T.Threads)
    ensures forall i | 0 <= i < T.MAX_THREADS :: r[i] == Tcb(ts[i])
  {
    seq(T.MAX_THREADS, i requires 0 <= i < T.MAX_THREADS => Tcb(ts[i]))
  }

  ghost function FlagsOf(fs: Flags): (r: T.Flags)
    ensures forall i | 0 <= i < T.MAX_FLAGS :: r[i] == FlagOf(fs[i])
  {
    seq(T.MAX_FLAGS, i requires 0 <= i < T.MAX_FLAGS => FlagOf(fs[i]))
  }

  ghost function ResultsOf(rs: seq<(Word, Word)>): (r: seq<(Word, T.Bits)>)
    ensures |r| == |rs| && forall i | 0 <= i < |rs| :: r[i] == (rs[i].0, Ones(rs[i].1))
  {
    seq(|rs|, i requires 0 <= i < |rs| => (rs[i].0, Ones(rs[i].1)))
  }

  lemma TcbsPut(ts: Threads, i: nat, t: Thread)
    requires i < T.MAX_THREADS
    ensures Tcbs(ts[i := t]) == Tcbs(ts)[i := Tcb(t)]
  {}

  lemma FlagsPut(fs: Flags, i: nat, f: Flag)
    requires i < T.MAX_FLAGS
    ensures FlagsOf(fs[i := f]) == FlagsOf(fs)[i := FlagOf(f)]
  {}

  lemma ResultsSnoc(rs: seq<(Word, Word)>, p: Word, bits: Word)
    ensures ResultsOf(rs + [(p, bits)]) == ResultsOf(rs) + [(p, Ones(bits))]
  {}
}
