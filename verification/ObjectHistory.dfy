/** What semaphores and event flags remember over a run: what they were created with. */
module ObjectHistory {
  import opened Words
  import opened ThreadState
  import opened ThreadSafety
  import FlagLaws

  // ---------------------------------------------------------------------------
  // One gate
  // ---------------------------------------------------------------------------

  /** A new semaphore starts as it is told, without waiters; an old one keeps what it was told. */
  ghost predicate SemaKept(m: Sema, c: Call, m': Sema) {
    m'.inUse ==>
      if c.NewSema? && !m.inUse then m' == Sema(true, c.attr, c.initial, c.max, c.initial, 0)
      else m.inUse && m'.attr == m.attr && m'.initial == m.initial && m'.max == m.max
  }

  ghost predicate FlagKept(f: Flag, c: Call, f': Flag) {
    f'.inUse ==> if c.NewFlag? && !f.inUse then f' == Flag(true, c.attr, c.bits, 0) else f.inUse && f'.attr == f.attr
  }

  lemma SemaGate(s: State, c: Call, k: nat)
    requires k < MAX_SEMAS && (OnSemas(c) || c.Release?)
    ensures SemaKept(s.semas[k], c, Effect(s, c).state.semas[k])
  {
    match c {
      case Signal(id, _) => PostSema(s, id, k);
      case Acquire(id) => AcquireSema(s, id, k);
      case _ =>
    }
  }

  lemma PostSema(s: State, id: int, k: nat)
    requires k < MAX_SEMAS
    ensures SemaKept(s.semas[k], Sleep, Post(s, id).semas[k])
  {}

  lemma AcquireSema(s: State, id: int, k: nat)
    requires k < MAX_SEMAS
    ensures SemaKept(s.semas[k], Sleep, WaitSema(s, id).state.semas[k])
  {}

  ghost predicate OnlyFlags(s: State, c: Call, k: nat, m: State)
    requires k < MAX_FLAGS
  {
    FlagKept(s.flags[k], c, m.flags[k]) && m.semas == s.semas && m.threadCount == s.threadCount
  }

  lemma NewFlagGate(s: State, c: Call, k: nat)
    requires k < MAX_FLAGS && c.NewFlag?
    ensures OnlyFlags(s, c, k, Effect(s, c).state)
  {
    FlagLaws.NewServes(s, c.attr, c.bits, k + 1);
  }

  lemma DropFlagGate(s: State, c: Call, k: nat)
    requires k < MAX_FLAGS && c.DropFlag?
    ensures OnlyFlags(s, c, k, Effect(s, c).state)
  {
    if s.HasFlag(c.id) {
      FlagLaws.DropServes(s, c.id, 0);
      FlagLaws.ReleaseServes(s, c.id, MAX_THREADS, 0);
    }
  }

  lemma RaiseGate(s: State, c: Call, k: nat)
    requires k < MAX_FLAGS && c.Raise?
    ensures OnlyFlags(s, c, k, Effect(s, c).state)
  {
    assert Effect(s, c).state == SetBits(s, c.id, c.bits);
    if s.HasFlag(c.id) && c.bits != {} { FlagLaws.SetServes(s, c.id, c.bits); } else { FlagLaws.SetIdle(s, c.id, c.bits); }
  }

  lemma KeepGate(s: State, c: Call, k: nat)
    requires k < MAX_FLAGS && (c.Keep? || c.Test?)
    ensures OnlyFlags(s, c, k, Effect(s, c).state)
  {}

  lemma AwaitGate(s: State, c: Call, k: nat)
    requires k < MAX_FLAGS && c.Await?
    ensures OnlyFlags(s, c, k, Effect(s, c).state)
  {
    assert Effect(s, c) == WaitFlag(s, c.id, c.bits, c.mode, c.ptr);
    AwaitFlag(s, c.id, c.bits, c.mode, c.ptr);
  }

  lemma FlagGate(s: State, c: Call, k: nat)
    requires k < MAX_FLAGS && !OnThreads(c) && !OnBlocking(c) && !OnSemas(c)
    ensures OnlyFlags(s, c, k, Effect(s, c).state)
  {
    match c {
      case NewFlag(_, _) => NewFlagGate(s, c, k);
      case DropFlag(_) => DropFlagGate(s, c, k);
      case Raise(_, _, _) => RaiseGate(s, c, k);
      case Keep(_, _) => KeepGate(s, c, k);
      case Test(_, _, _, _) => KeepGate(s, c, k);
      case Await(_, _, _, _) => AwaitGate(s, c, k);
    }
  }

  lemma AwaitFlag(s: State, id: int, bits: Bits, mode: Mode, ptr: Word)
    ensures WaitFlag(s, id, bits, mode, ptr).state.semas == s.semas && WaitFlag(s, id, bits, mode, ptr).state.threadCount == s.threadCount
    ensures forall k | 0 <= k < MAX_FLAGS :: FlagKept(s.flags[k], Sleep, WaitFlag(s, id, bits, mode, ptr).state.flags[k])
  {}

  lemma ThreadGate(s: State, c: Call)
    requires OnThreads(c) || OnBlocking(c) || OnSemas(c)
    ensures Effect(s, c).state.flags == s.flags
    ensures !OnSemas(c) && !c.Release? ==> Effect(s, c).state.semas == s.semas
    ensures !c.Create? ==> Effect(s, c).state.threadCount == s.threadCount
  {}

  lemma {:induction false} DelayedLeaves(s: State, now: nat, n: nat)
    requires n <= MAX_THREADS
    ensures WakeDelayed(s, now, n).semas == s.semas && WakeDelayed(s, now, n).flags == s.flags
    ensures WakeDelayed(s, now, n).threadCount == s.threadCount
  {
    if n > 0 { DelayedLeaves(s, now, n - 1); }
  }

  lemma StepLeaves(s: State, e: Event)
    requires !e.Enter?
    ensures Step(s, e).semas == s.semas && Step(s, e).flags == s.flags && Step(s, e).threadCount == s.threadCount
  {
    if e.Clock? {
      DelayedLeaves(s, e.now, MAX_THREADS);
      RescheduleSwitches(Tick(s, e.now).state);
    }
  }

  lemma StepSema(s: State, c: Call, k: nat)
    requires k < MAX_SEMAS
    ensures SemaKept(s.semas[k], c, Step(s, Enter(c)).semas[k])
  {
    var s0 := EnsureRoot(s);
    RescheduleSwitches(Effect(s0, c).state);
    if OnSemas(c) || c.Release? {
      SemaGate(s0, c, k);
    } else if OnThreads(c) || OnBlocking(c) {
      ThreadGate(s0, c);
    } else {
      FlagGate(s0, c, 0);
    }
  }

  lemma StepFlag(s: State, c: Call, k: nat)
    requires k < MAX_FLAGS
    ensures FlagKept(s.flags[k], c, Step(s, Enter(c)).flags[k])
  {
    var s0 := EnsureRoot(s);
    RescheduleSwitches(Effect(s0, c).state);
    if OnThreads(c) || OnBlocking(c) || OnSemas(c) { ThreadGate(s0, c); } else { FlagGate(s0, c, k); }
  }

  // ---------------------------------------------------------------------------
  // Runs
  // ---------------------------------------------------------------------------

  /** The call that made semaphore id, as far as it exists. */
  ghost function SemaMade(s0: State, es: seq<Event>, id: int): (Word, int, int)
    requires 1 <= id <= MAX_SEMAS
  {
    if es == [] then (0, 0, 0) else
    var n := |es| - 1;
    if es[n].Enter? && es[n].call.NewSema? && !After(s0, es[..n]).semas[id - 1].inUse
    then (es[n].call.attr, es[n].call.initial, es[n].call.max)
    else SemaMade(s0, es[..n], id)
  }

  ghost function FlagMade(s0: State, es: seq<Event>, id: int): Word
    requires 1 <= id <= MAX_FLAGS
  {
    if es == [] then 0 else
    var n := |es| - 1;
    if es[n].Enter? && es[n].call.NewFlag? && !After(s0, es[..n]).flags[id - 1].inUse then es[n].call.attr
    else FlagMade(s0, es[..n], id)
  }

  /** In every run a semaphore has the attribute, initial count and maximum of the call that made it. */
  lemma {:induction false} SemaAsMade(es: seq<Event>, id: int)
    requires 1 <= id <= MAX_SEMAS && After(INITIAL, es).semas[id - 1].inUse
    ensures var m := After(INITIAL, es).semas[id - 1]; SemaMade(INITIAL, es, id) == (m.attr, m.initial, m.max)
  {
    if es != [] {
      var n := |es| - 1;
      var s := After(INITIAL, es[..n]);
      if es[n].Enter? { StepSema(s, es[n].call, id - 1); } else { StepLeaves(s, es[n]); }
      if s.semas[id - 1].inUse { SemaAsMade(es[..n], id); }
    }
  }

  /** And a flag the attribute it was made with. */
  lemma {:induction false} FlagAsMade(es: seq<Event>, id: int)
    requires 1 <= id <= MAX_FLAGS && After(INITIAL, es).flags[id - 1].inUse
    ensures FlagMade(INITIAL, es, id) == After(INITIAL, es).flags[id - 1].attr
  {
    if es != [] {
      var n := |es| - 1;
      var s := After(INITIAL, es[..n]);
      if es[n].Enter? { StepFlag(s, es[n].call, id - 1); } else { StepLeaves(s, es[n]); }
      if s.flags[id - 1].inUse { FlagAsMade(es[..n], id); }
    }
  }

  // ---------------------------------------------------------------------------
  // The thread count
  // ---------------------------------------------------------------------------

  function Larger(a: nat, b: nat): nat { if a < b then b else a }

  /** The highest number that a thread has had: 1 for the first caller of a gate, and the answers of CreateThread. */
  ghost function Highest(s0: State, es: seq<Event>): nat {
    if es == [] then 0 else
    var n := |es| - 1;
    var before := Highest(s0, es[..n]);
    if !es[n].Enter? then before
    else if es[n].call.Create? && After(s0, es).cpu.gpr[2] != MINUS_ONE then Larger(Larger(before, 1), After(s0, es).cpu.gpr[2])
    else Larger(before, 1)
  }

  lemma CreateCounts(s: State, c: Call)
    requires c.Create?
    ensures var r := Settle(Effect(s, c));
            r.threadCount == if r.cpu.gpr[2] != MINUS_ONE then Larger(s.threadCount, r.cpu.gpr[2]) else s.threadCount
  {}

  lemma GateCounts(s: State, c: Call)
    requires !c.Create?
    ensures Settle(Effect(s, c)).threadCount == s.threadCount
  {
    RescheduleSwitches(Effect(s, c).state);
    if OnThreads(c) || OnBlocking(c) || OnSemas(c) { ThreadGate(s, c); } else { FlagGate(s, c, 0); }
  }

  /** In every run the thread count is the highest number that a thread has had. */
  lemma {:induction false} CountIsHighest(es: seq<Event>)
    ensures After(INITIAL, es).threadCount == Highest(INITIAL, es)
  {
    if es != [] {
      var n := |es| - 1;
      var s := After(INITIAL, es[..n]);
      CountIsHighest(es[..n]);
      match es[n] {
        case Enter(c) => if c.Create? { CreateCounts(EnsureRoot(s), c); } else { GateCounts(EnsureRoot(s), c); }
        case Clock(_) => StepLeaves(s, es[n]);
        case Execute(_) => StepLeaves(s, es[n]);
      }
    }
  }
}
