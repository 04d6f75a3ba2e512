/** Thread stacks: CreateThread hands out disjoint parts of its arena in every run, exactly unless an
    accepted request wraps around 32 bits. */
module ThreadStacks {
  import opened Words
  import opened ThreadState
  import opened ThreadSafety

  /** The stack lies in the arena, at or above the bump pointer. */
  ghost predicate Placed(t: Tcb, low: nat) {
    t.inUse && t.stack.size > 0 ==> low <= t.stack.base && t.stack.base + t.stack.size <= ARENA_TOP
  }

  ghost predicate StacksDisjoint(s: State) {
    && s.stackNext % 16 == 0 && ARENA_BOTTOM <= s.stackNext <= ARENA_TOP
    && (forall i | 0 <= i < MAX_THREADS :: Placed(s.threads[i], s.stackNext))
    && (forall i, j | 0 <= i < j < MAX_THREADS && s.threads[i].inUse && s.threads[j].inUse
          && s.threads[i].stack.size > 0 && s.threads[j].stack.size > 0 ::
          Apart(s.threads[i].stack, s.threads[j].stack))
  }

  ghost predicate Apart(a: Stack, b: Stack) { a.base + a.size <= b.base || b.base + b.size <= a.base }

  ghost predicate Accepted(s: State, size: Word) {
    FirstFree(s.threads) != 0 && s.stackNext >= Plus(ARENA_BOTTOM, StackRequest(size))
  }

  /** A new stack of at least the requested size, below every earlier one. */
  ghost predicate StackGranted(s: State, r: State, size: Word) {
    var slot := FirstFree(s.threads);
    slot != 0 && var k := r.threads[slot - 1].stack;
      && k.size >= size
      && ARENA_BOTTOM <= k.base && k.base + k.size == s.stackNext
  }

  /** CreateThread's bound is right exactly while the requested size does not wrap around. */
  lemma StackGrantedIff(s: State, entry: Word, size: Word, priority: Word)
    requires s.stackNext % 16 == 0 && ARENA_BOTTOM <= s.stackNext <= ARENA_TOP && Accepted(s, size)
    ensures StackGranted(s, CreateThread(s, entry, size, priority).state, size)
            <==> ARENA_BOTTOM + StackRequest(size) < 0x1_0000_0000
  {
    var n := StackRequest(size);
    if ARENA_BOTTOM + n < 0x1_0000_0000 { AlignsUp(n); } else { WrapsAway(n); }
  }

  lemma AlignsUp(n: Word)
    requires ARENA_BOTTOM + n < 0x1_0000_0000
    ensures n <= Align16(n) < n + 16 && Align16(n) % 16 == 0
  {}

  lemma WrapsAway(n: Word)
    requires ARENA_BOTTOM + n >= 0x1_0000_0000
    ensures Align16(n) == 0 || Align16(n) > ARENA_TOP
  {}

  /** Stacks never overlap while no request wraps. */
  lemma CreateKeepsStacks(s: State, entry: Word, size: Word, priority: Word)
    requires StacksDisjoint(s) && (Accepted(s, size) ==> ARENA_BOTTOM + StackRequest(size) < 0x1_0000_0000)
    ensures StacksDisjoint(CreateThread(s, entry, size, priority).state)
  {
    if Accepted(s, size) {
      var r, slot := CreateThread(s, entry, size, priority).state, FirstFree(s.threads);
      AlignsUp(StackRequest(size));
      var k := r.threads[slot - 1].stack;
      assert r.stackNext == k.base && k.base + k.size == s.stackNext && ARENA_BOTTOM <= k.base && k.base % 16 == 0;
      forall i | 0 <= i < MAX_THREADS ensures Placed(r.threads[i], r.stackNext) {
        assert Placed(s.threads[i], s.stackNext);
      }
    }
  }

  // ---------------------------------------------------------------------------
  // The other gates
  // ---------------------------------------------------------------------------

  /** No thread comes into use, and none gets another stack. */
  ghost predicate StacksKept(s: State, r: State) {
    && r.stackNext == s.stackNext
    && forall i | 0 <= i < MAX_THREADS :: StackKept(s.threads[i], r.threads[i])
  }

  ghost predicate StackKept(t: Tcb, t': Tcb) { t'.inUse ==> t.inUse && t'.stack == t.stack }

  lemma ThreadsStack(s: State, c: Call, i: nat)
    requires OnThreads(c) && !c.Create? && i < MAX_THREADS
    ensures var r := Effect(s, c).state; r.stackNext == s.stackNext && StackKept(s.threads[i], r.threads[i])
  {}

  lemma DelayStack(s: State, usec: Word, now: nat, i: nat)
    requires i < MAX_THREADS
    ensures var r := DelayThread(s, usec, now).state; r.stackNext == s.stackNext && StackKept(s.threads[i], r.threads[i])
  {}

  lemma WakeStack(s: State, id: int, i: nat)
    requires i < MAX_THREADS
    ensures var r := ReleaseWait(s, id).state; r.stackNext == s.stackNext && StackKept(s.threads[i], r.threads[i])
    ensures var r := WakeupThread(s, id).state; r.stackNext == s.stackNext && StackKept(s.threads[i], r.threads[i])
  {}

  lemma BlockingStack(s: State, c: Call, i: nat)
    requires OnBlocking(c) && i < MAX_THREADS
    ensures var r := Effect(s, c).state; r.stackNext == s.stackNext && StackKept(s.threads[i], r.threads[i])
  {
    match c {
      case Delay(usec, now) => DelayStack(s, usec, now, i);
      case Release(id) => WakeStack(s, id, i);
      case Wakeup(id) => WakeStack(s, id, i);
      case _ =>
    }
  }

  lemma SignalStack(s: State, id: int, fromInterrupt: bool, i: nat)
    requires i < MAX_THREADS
    ensures var r := SignalSema(s, id, fromInterrupt).state;
            r.stackNext == s.stackNext && StackKept(s.threads[i], r.threads[i])
  {}

  lemma SemaStack(s: State, c: Call, i: nat)
    requires OnSemas(c) && i < MAX_THREADS
    ensures var r := Effect(s, c).state; r.stackNext == s.stackNext && StackKept(s.threads[i], r.threads[i])
  {
    if c.Signal? { SignalStack(s, c.id, c.fromInterrupt, i); }
  }

  lemma {:induction false} WakeFlagStacks(s: State, m: State, id: int, n: nat)
    requires 1 <= id <= MAX_FLAGS && n <= MAX_THREADS && StacksKept(s, m)
    ensures StacksKept(s, WakeFlag(m, id, n))
  {
    if n > 0 { WakeFlagStacks(s, m, id, n - 1); }
  }

  lemma {:induction false} ReleaseStacks(s: State, id: int, n: nat)
    requires n <= MAX_THREADS
    ensures StacksKept(s, ReleaseAll(s, id, n))
  {
    if n > 0 { ReleaseStacks(s, id, n - 1); }
  }

  lemma {:induction false} DelayedStacks(s: State, now: nat, n: nat)
    requires n <= MAX_THREADS
    ensures StacksKept(s, WakeDelayed(s, now, n))
  {
    if n > 0 { DelayedStacks(s, now, n - 1); }
  }

  lemma FlagStacks(s: State, c: Call)
    requires !OnThreads(c) && !OnBlocking(c) && !OnSemas(c)
    ensures StacksKept(s, Effect(s, c).state)
  {
    match c {
      case Raise(k, bits, _) => if s.HasFlag(k) { WakeFlagStacks(s, Raised(s, k, bits), k, MAX_THREADS); }
      case DropFlag(k) => ReleaseStacks(s, k, MAX_THREADS);
      case Await(k, bits, mode, ptr) => AwaitStacks(s, k, bits, mode, ptr);
      case _ =>
    }
  }

  lemma AwaitStacks(s: State, id: int, bits: Bits, mode: Mode, ptr: Word)
    ensures StacksKept(s, WaitFlag(s, id, bits, mode, ptr).state)
  {}

  lemma EffectStacks(s: State, c: Call)
    requires !c.Create?
    ensures StacksKept(s, Effect(s, c).state)
  {
    if !OnThreads(c) && !OnBlocking(c) && !OnSemas(c) {
      FlagStacks(s, c);
    } else {
      var r := Effect(s, c).state;
      forall i | 0 <= i < MAX_THREADS ensures r.stackNext == s.stackNext && StackKept(s.threads[i], r.threads[i]) {
        if OnThreads(c) { ThreadsStack(s, c, i); } else if OnBlocking(c) { BlockingStack(s, c, i); } else { SemaStack(s, c, i); }
      }
    }
  }

  // ---------------------------------------------------------------------------
  // Runs
  // ---------------------------------------------------------------------------

  lemma KeptDisjoint(s: State, r: State)
    requires StacksDisjoint(s) && StacksKept(s, r)
    ensures StacksDisjoint(r)
  {
    forall i | 0 <= i < MAX_THREADS ensures Placed(r.threads[i], r.stackNext) {
      assert Placed(s.threads[i], s.stackNext) && StackKept(s.threads[i], r.threads[i]);
    }
    forall i, j | 0 <= i < j < MAX_THREADS && r.threads[i].inUse && r.threads[j].inUse
                  && r.threads[i].stack.size > 0 && r.threads[j].stack.size > 0
      ensures Apart(r.threads[i].stack, r.threads[j].stack)
    {
      assert StackKept(s.threads[i], r.threads[i]) && StackKept(s.threads[j], r.threads[j]);
    }
  }

  lemma SettleStacks(o: Outcome)
    ensures StacksKept(o.state, Settle(o))
  {
    if o.Switch? {
      RescheduleSwitches(o.state);
      var r := Reschedule(o.state);
      forall i | 0 <= i < MAX_THREADS ensures StackKept(o.state.threads[i], r.threads[i]) {
        assert ThreadSwitched(o.state, i, o.state.threads[i], r.threads[i], r.current);
      }
    }
  }

  lemma RootDisjoint(s: State)
    requires StacksDisjoint(s)
    ensures StacksDisjoint(EnsureRoot(s))
  {
    var r := EnsureRoot(s);
    forall i | 0 <= i < MAX_THREADS ensures Placed(r.threads[i], r.stackNext) {
      assert Placed(s.threads[i], s.stackNext);
    }
  }

  /** A CreateThread that is accepted although its bound has wrapped around. */
  ghost predicate WrapsBound(s: State, e: Event) {
    && e.Enter? && e.call.Create? && Accepted(EnsureRoot(s), e.call.stackSize)
    && ARENA_BOTTOM + StackRequest(e.call.stackSize) >= 0x1_0000_0000
  }

  /** An accepted CreateThread gets the stack it asked for. */
  ghost predicate Grants(s: State, e: Event) {
    e.Enter? && e.call.Create? && Accepted(EnsureRoot(s), e.call.stackSize) ==>
      StackGranted(EnsureRoot(s), Step(s, e), e.call.stackSize)
  }

  lemma StepStacksIff(s: State, e: Event)
    requires StacksDisjoint(s)
    ensures StacksDisjoint(Step(s, e)) && Grants(s, e) <==> !WrapsBound(s, e)
  {
    match e {
      case Enter(c) =>
        var s0 := EnsureRoot(s);
        RootDisjoint(s);
        if c.Create? {
          CreateStacksIff(s0, c);
        } else {
          EffectStacks(s0, c);
          KeptDisjoint(s0, Effect(s0, c).state);
          SettleStacks(Effect(s0, c));
          KeptDisjoint(Effect(s0, c).state, Step(s, e));
        }
      case Clock(now) =>
        DelayedStacks(s, now, MAX_THREADS);
        if Tick(s, now).Switch? { KeptDisjoint(s, Tick(s, now).state); }
        SettleStacks(Tick(s, now));
        KeptDisjoint(Tick(s, now).state, Step(s, e));
      case Execute(regs) =>
        KeptDisjoint(s, Step(s, e));
    }
  }

  lemma CreateStacksIff(s: State, c: Call)
    requires StacksDisjoint(s) && c.Create?
    ensures var r := Settle(Effect(s, c));
            StacksDisjoint(r) && (Accepted(s, c.stackSize) ==> StackGranted(s, r, c.stackSize))
            <==> !(Accepted(s, c.stackSize) && ARENA_BOTTOM + StackRequest(c.stackSize) >= 0x1_0000_0000)
  {
    assert Settle(Effect(s, c)) == CreateThread(s, c.entry, c.stackSize, c.priority).state;
    if Accepted(s, c.stackSize) { StackGrantedIff(s, c.entry, c.stackSize, c.priority); }
    if Accepted(s, c.stackSize) ==> ARENA_BOTTOM + StackRequest(c.stackSize) < 0x1_0000_0000 {
      CreateKeepsStacks(s, c.entry, c.stackSize, c.priority);
    }
  }

  /** At all times the stacks of threads in use are disjoint parts of the arena, and every CreateThread
      accepted so far was given what it asked for. */
  ghost predicate AlwaysStacked(s: State, es: seq<Event>) {
    && StacksDisjoint(After(s, es))
    && (es != [] ==>
          var n := |es| - 1;
          AlwaysStacked(s, es[..n]) && Grants(After(s, es[..n]), es[n]))
  }

  ghost predicate NeverWrapsBound(s: State, es: seq<Event>) {
    es != [] ==>
      var n := |es| - 1;
      NeverWrapsBound(s, es[..n]) && !WrapsBound(After(s, es[..n]), es[n])
  }

  /** In a run from reset that is so if and only if no CreateThread with a wrapped bound is accepted. */
  lemma {:induction false} StacksIff(es: seq<Event>)
    ensures AlwaysStacked(INITIAL, es) <==> NeverWrapsBound(INITIAL, es)
  {
    if es == [] {
      FreshStacks(INITIAL);
    } else {
      var n := |es| - 1;
      var s := After(INITIAL, es[..n]);
      StacksIff(es[..n]);
      if StacksDisjoint(s) { StepStacksIff(s, es[n]); }
    }
  }

  lemma FreshStacks(s: State)
    requires s.stackNext == ARENA_TOP && forall i | 0 <= i < MAX_THREADS :: !s.threads[i].inUse
    ensures StacksDisjoint(s)
  {}
}
