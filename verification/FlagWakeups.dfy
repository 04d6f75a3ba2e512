/** Event flags never lose a wakeup: no thread that the wake scan can see keeps waiting for
    bits that are there, exactly unless a suspended waiter is resumed onto them. */
module FlagWakeups {
  import opened Words
  import opened ThreadState
  import opened ThreadSafety

  predicate Pending(t: Tcb) { t.inUse && t.phase == Wait && t.waitKind == OnFlag }

  /** A flag waiter asks for some bits of a flag; its flag exists and its condition is false,
      unless it is suspended. */
  ghost predicate WaitsRightly(flags: Flags, t: Tcb) {
    Pending(t) ==>
      && 1 <= t.waitId <= MAX_FLAGS
      && t.want.bits != {}
      && (t.suspended || !Granted(flags, t))
  }

  /** The wait is over: the flag is gone or the condition holds. */
  ghost predicate Granted(flags: Flags, t: Tcb)
    requires 1 <= t.waitId <= MAX_FLAGS
  {
    !flags[t.waitId - 1].inUse || Satisfied(flags[t.waitId - 1].bits, t.want.bits, t.want.mode)
  }

  ghost predicate NoLostWakeup(s: State) {
    forall i | 0 <= i < MAX_THREADS :: WaitsRightly(s.flags, s.threads[i])
  }

  /** A suspended flag waiter is resumed although its wait is over. */
  ghost predicate ResumesGranted(s: State, e: Event) {
    && e.Enter? && e.call.Resume? && s.HasThread(e.call.id)
    && var t := s.threads[e.call.id - 1];
       Pending(t) && t.suspended && 1 <= t.waitId <= MAX_FLAGS && Granted(s.flags, t)
  }

  /** Nobody suspends a thread that waits for a flag. */
  ghost predicate SparesWaiters(s: State, e: Event) {
    e.Enter? && e.call.Suspend? && 1 <= e.call.id <= MAX_THREADS ==> !Pending(s.threads[e.call.id - 1])
  }

  ghost predicate NoneSuspended(s: State) {
    forall i | 0 <= i < MAX_THREADS :: Pending(s.threads[i]) ==> !s.threads[i].suspended
  }

  // ---------------------------------------------------------------------------
  // Bits
  // ---------------------------------------------------------------------------

  lemma FewerBits(few: Bits, bits: Bits, want: Bits, mode: Mode)
    requires few <= bits && !Satisfied(bits, want, mode)
    ensures !Satisfied(few, want, mode)
  {
    assert few * want <= bits * want;
  }

  // ---------------------------------------------------------------------------
  // Steps
  // ---------------------------------------------------------------------------

  ghost predicate Lowered(f: Flag, f': Flag) { f.inUse ==> f'.inUse && f'.bits <= f.bits }

  /** Flags that only lost bits satisfy no thread that was waiting before. */
  lemma StillRightly(flags: Flags, flags': Flags, t: Tcb, t': Tcb)
    requires WaitsRightly(flags, t) && StillWaits(t, t') && (t.suspended ==> t'.suspended)
    requires Pending(t) ==> Lowered(flags[t.waitId - 1], flags'[t.waitId - 1])
    ensures WaitsRightly(flags', t')
  {
    if Pending(t) && !t'.suspended {
      FewerBits(flags'[t.waitId - 1].bits, flags[t.waitId - 1].bits, t.want.bits, t.want.mode);
    }
  }

  /** Changes that lower at most flag id, or take an unused one, and touch at most thread j. */
  lemma LoweredRightly(s: State, r: State, id: int, j: nat)
    requires NoLostWakeup(s) && j < MAX_THREADS
    requires r.threads == s.threads[j := r.threads[j]] && (r.threads[j] == s.threads[j] || WaitsRightly(r.flags, r.threads[j]))
    requires if 1 <= id <= MAX_FLAGS then r.flags == s.flags[id - 1 := r.flags[id - 1]] && Lowered(s.flags[id - 1], r.flags[id - 1])
             else r.flags == s.flags
    ensures NoLostWakeup(r)
  {
    forall i | 0 <= i < MAX_THREADS ensures WaitsRightly(r.flags, r.threads[i]) {
      assert WaitsRightly(s.flags, s.threads[i]);
      if r.threads[i] == s.threads[i] && Pending(s.threads[i]) {
        StillRightly(s.flags, r.flags, s.threads[i], r.threads[i]);
      }
    }
  }

  /** The wake scan over the first n threads only wakes, and only clears the one flag. */
  ghost predicate Scanned(s: State, r: State, id: int, n: nat)
    requires 1 <= id <= MAX_FLAGS
  {
    && (forall i | 0 <= i < MAX_THREADS :: r.threads[i] == s.threads[i] || (i < n && r.threads[i].phase == Ready))
    && r.flags == s.flags[id - 1 := r.flags[id - 1]]
    && (r.flags[id - 1].bits == s.flags[id - 1].bits || r.flags[id - 1].bits == {})
    && r.flags[id - 1].inUse == s.flags[id - 1].inUse
  }

  lemma {:induction false} WakeFlagScans(s: State, id: int, n: nat)
    requires 1 <= id <= MAX_FLAGS && n <= MAX_THREADS
    ensures Scanned(s, WakeFlag(s, id, n), id, n)
  {
    if n > 0 { WakeFlagScans(s, id, n - 1); }
  }

  /** No thread among the first n is left waiting for what the scan found or left. */
  lemma {:induction false} WakeFlagComplete(s: State, id: int, n: nat, i: nat)
    requires 1 <= id <= MAX_FLAGS && i < n <= MAX_THREADS
    requires var r := WakeFlag(s, id, n);
             r.threads[i].Waits(OnFlag, id) && r.threads[i].want.bits != {}
    ensures var r := WakeFlag(s, id, n);
            !Satisfied(r.flags[id - 1].bits, r.threads[i].want.bits, r.threads[i].want.mode)
  {
    WakeFlagScans(s, id, n - 1);
    if i < n - 1 { WakeFlagComplete(s, id, n - 1, i); }
  }

  /** Setting bits wakes every waiter they satisfy, even when one of them clears the flag midway. */
  lemma RaiseRightly(s: State, id: int, bits: Bits)
    requires NoLostWakeup(s)
    ensures NoLostWakeup(SetBits(s, id, bits))
  {
    if s.HasFlag(id) && bits != {} {
      var s0 := Raised(s, id, bits);
      var r := WakeFlag(s0, id, MAX_THREADS);
      WakeFlagScans(s0, id, MAX_THREADS);
      forall i | 0 <= i < MAX_THREADS ensures WaitsRightly(r.flags, r.threads[i]) {
        assert WaitsRightly(s.flags, s.threads[i]);
        if r.threads[i].Waits(OnFlag, id) { WakeFlagComplete(s0, id, MAX_THREADS, i); }
      }
    }
  }

  lemma {:induction false} ReleaseAllComplete(s: State, id: int, n: nat)
    requires n <= MAX_THREADS
    ensures var r := ReleaseAll(s, id, n);
            && r.flags == s.flags
            && (forall i | 0 <= i < MAX_THREADS :: r.threads[i] == s.threads[i] || r.threads[i].phase == Ready)
            && (forall i | n <= i < MAX_THREADS :: r.threads[i] == s.threads[i])
            && (forall i | 0 <= i < n :: !r.threads[i].Waits(OnFlag, id))
  {
    if n > 0 { ReleaseAllComplete(s, id, n - 1); }
  }

  lemma DropRightly(s: State, id: int)
    requires NoLostWakeup(s)
    ensures NoLostWakeup(DeleteFlag(s, id).state)
  {
    if s.HasFlag(id) {
      ReleaseAllComplete(s, id, MAX_THREADS);
      var r := DeleteFlag(s, id).state;
      forall i | 0 <= i < MAX_THREADS ensures WaitsRightly(r.flags, r.threads[i]) {
        assert WaitsRightly(s.flags, s.threads[i]);
        assert !r.threads[i].Waits(OnFlag, id);
      }
    }
  }

  lemma AwaitRightly(s: State, id: int, bits: Bits, mode: Mode, ptr: Word)
    requires NoLostWakeup(s)
    ensures NoLostWakeup(WaitFlag(s, id, bits, mode, ptr).state)
  {
    LoweredRightly(s, WaitFlag(s, id, bits, mode, ptr).state, id, if s.current == 0 then 0 else s.current - 1);
  }

  lemma NewFlagRightly(s: State, attr: Word, bits: Bits)
    requires NoLostWakeup(s)
    ensures NoLostWakeup(CreateFlag(s, attr, bits).state)
  {
    LoweredRightly(s, CreateFlag(s, attr, bits).state, FreeFlag(s.flags), 0);
  }

  lemma KeepRightly(s: State, id: int, mask: Bits)
    requires NoLostWakeup(s)
    ensures NoLostWakeup(ClearFlag(s, id, mask).state)
  {
    LoweredRightly(s, ClearFlag(s, id, mask).state, id, 0);
  }

  lemma TestRightly(s: State, id: int, bits: Bits, mode: Mode, ptr: Word)
    requires NoLostWakeup(s)
    ensures NoLostWakeup(PollFlag(s, id, bits, mode, ptr).state)
  {
    LoweredRightly(s, PollFlag(s, id, bits, mode, ptr).state, id, 0);
  }

  lemma OthersLeaveFlags(s: State, c: Call)
    requires OnThreads(c) || OnBlocking(c) || OnSemas(c)
    ensures Effect(s, c).state.flags == s.flags
  {}

  lemma FlagsRightly(s: State, c: Call)
    requires NoLostWakeup(s) && !OnThreads(c) && !OnBlocking(c) && !OnSemas(c)
    ensures NoLostWakeup(Effect(s, c).state)
  {
    match c {
      case NewFlag(attr, bits) => NewFlagRightly(s, attr, bits);
      case DropFlag(id) => DropRightly(s, id);
      case Raise(id, bits, i) => RaiseRightly(s, id, bits);
      case Keep(id, mask) => KeepRightly(s, id, mask);
      case Await(id, bits, mode, ptr) => AwaitRightly(s, id, bits, mode, ptr);
      case Test(id, bits, mode, ptr) => TestRightly(s, id, bits, mode, ptr);
    }
  }

  lemma EffectRightly(s: State, c: Call)
    requires NoLostWakeup(s) && Steady(s) && !ResumesGranted(s, Enter(c))
    ensures NoLostWakeup(Effect(s, c).state)
  {
    if OnThreads(c) || OnBlocking(c) || OnSemas(c) {
      OthersLeaveFlags(s, c);
      EffectGood(s, c);
      OtherRightly(s, Effect(s, c).state, c);
    } else {
      FlagsRightly(s, c);
    }
  }

  /** Gates that leave the flags alone. */
  lemma OtherRightly(s: State, r: State, c: Call)
    requires NoLostWakeup(s) && Kept(s, r, c) && !ResumesGranted(s, Enter(c)) && r.flags == s.flags && !c.Await?
    ensures NoLostWakeup(r)
  {
    forall i | 0 <= i < MAX_THREADS ensures WaitsRightly(r.flags, r.threads[i]) {
      assert ThreadKept(s, i, r.threads[i], c);
      assert WaitsRightly(s.flags, s.threads[i]);
    }
  }

  /** A switch neither starts nor ends a wait. */
  lemma SwitchedPending(s: State, i: nat)
    requires i < MAX_THREADS
    ensures var t, t' := s.threads[i], Reschedule(s).threads[i];
            Pending(t') == Pending(t) && (Pending(t) ==> t' == t.(regs := t'.regs))
  {
    RescheduleThread(s, i);
    PickRuns(s);
  }

  lemma SwitchRightly(s: State, r: State)
    requires r == Reschedule(s)
    ensures NoLostWakeup(r) <==> NoLostWakeup(s)
  {
    RescheduleSwitches(s);
    forall i | 0 <= i < MAX_THREADS ensures WaitsRightly(r.flags, r.threads[i]) == WaitsRightly(s.flags, s.threads[i]) {
      SwitchedPending(s, i);
    }
  }

  /** The resumed thread now waits, in sight, for what is there. */
  lemma ResumeStrands(s: State, id: int)
    requires ResumesGranted(s, Enter(Resume(id)))
    ensures !NoLostWakeup(Settle(ResumeThread(s, id)))
  {
    var r := ResumeThread(s, id).state;
    assert !WaitsRightly(r.flags, r.threads[id - 1]);
    SwitchRightly(r, Reschedule(r));
  }

  lemma RootRightly(s: State)
    requires NoLostWakeup(s)
    ensures NoLostWakeup(EnsureRoot(s))
  {
    var r := EnsureRoot(s);
    forall i | 0 <= i < MAX_THREADS ensures WaitsRightly(r.flags, r.threads[i]) {
      assert WaitsRightly(s.flags, s.threads[i]);
    }
  }

  lemma SettleRightly(o: Outcome)
    ensures NoLostWakeup(Settle(o)) <==> NoLostWakeup(o.state)
  {
    if o.Switch? { SwitchRightly(o.state, Reschedule(o.state)); }
  }

  lemma GateRightlyIff(s: State, c: Call)
    requires Steady(s) && NoLostWakeup(s)
    ensures NoLostWakeup(Settle(Effect(s, c))) <==> !ResumesGranted(s, Enter(c))
  {
    if ResumesGranted(s, Enter(c)) {
      ResumeStrands(s, c.id);
    } else {
      EffectRightly(s, c);
      SettleRightly(Effect(s, c));
    }
  }

  /** One event keeps every visible wait open exactly unless it resumes a thread whose wait is over. */
  lemma StepRightlyIff(s: State, e: Event)
    requires Sane(s) && NoLostWakeup(s)
    ensures NoLostWakeup(Step(s, e)) <==> !ResumesGranted(EnsureRoot(s), e)
  {
    match e {
      case Enter(c) =>
        RootSteady(s);
        RootRightly(s);
        GateRightlyIff(EnsureRoot(s), c);
      case Clock(now) =>
        if s.threadCount > 0 { TickRightly(s, now); }
        SettleRightly(Tick(s, now));
      case Execute(regs) =>
    }
  }

  lemma {:induction false} DelayedLeavesFlags(s: State, now: nat, n: nat)
    requires n <= MAX_THREADS
    ensures WakeDelayed(s, now, n).flags == s.flags
  {
    if n > 0 { DelayedLeavesFlags(s, now, n - 1); }
  }

  lemma TickRightly(s: State, now: nat)
    requires Steady(s) && NoLostWakeup(s)
    ensures NoLostWakeup(Tick(s, now).state)
  {
    TickKept(s, now);
    DelayedLeavesFlags(s, now, MAX_THREADS);
    OtherRightly(s, WakeDelayed(s, now, MAX_THREADS), Sleep);
  }

  // ---------------------------------------------------------------------------
  // Runs
  // ---------------------------------------------------------------------------

  /** No visible wait is over, now or at any time before. */
  ghost predicate NeverLost(s: State, es: seq<Event>) {
    NoLostWakeup(After(s, es)) && (es != [] ==> NeverLost(s, es[..|es| - 1]))
  }

  ghost predicate NeverResumesGranted(s: State, es: seq<Event>) {
    es != [] ==>
      var n := |es| - 1;
      NeverResumesGranted(s, es[..n]) && !ResumesGranted(EnsureRoot(After(s, es[..n])), es[n])
  }

  /** In a run, no thread in sight of the wake scan ever waits for a condition that holds or a flag
      that is gone, if and only if no suspended flag waiter is ever resumed with its wait over. */
  lemma {:induction false} NoLostWakeupsIff(es: seq<Event>)
    ensures NeverLost(INITIAL, es) <==> NeverResumesGranted(INITIAL, es)
  {
    if es != [] {
      var n := |es| - 1;
      var s := After(INITIAL, es[..n]);
      NoLostWakeupsIff(es[..n]);
      RunSane(es[..n]);
      if NoLostWakeup(s) { StepRightlyIff(s, es[n]); }
    }
  }

  lemma StepNoneSuspended(s: State, e: Event)
    requires Sane(s) && NoneSuspended(s) && SparesWaiters(EnsureRoot(s), e)
    ensures NoneSuspended(Step(s, e))
  {
    match e {
      case Enter(c) =>
        var s0 := EnsureRoot(s);
        RootSteady(s);
        EffectGood(s0, c);
        KeptNoneSuspended(s0, Effect(s0, c).state, c);
        if Effect(s0, c).Switch? { SwitchNoneSuspended(Effect(s0, c).state); }
      case Clock(now) =>
        if s.threadCount > 0 {
          TickKept(s, now);
          KeptNoneSuspended(s, WakeDelayed(s, now, MAX_THREADS), Sleep);
          if Tick(s, now).Switch? { SwitchNoneSuspended(Tick(s, now).state); }
        }
      case Execute(regs) =>
    }
  }

  lemma KeptNoneSuspended(s: State, r: State, c: Call)
    requires NoneSuspended(s) && Kept(s, r, c) && SparesWaiters(s, Enter(c))
    ensures NoneSuspended(r)
  {
    forall i | 0 <= i < MAX_THREADS ensures Pending(r.threads[i]) ==> !r.threads[i].suspended {
      assert ThreadKept(s, i, r.threads[i], c);
    }
  }

  lemma SwitchNoneSuspended(s: State)
    requires NoneSuspended(s)
    ensures NoneSuspended(Reschedule(s))
  {
    RescheduleSwitches(s);
    var r := Reschedule(s);
    forall i | 0 <= i < MAX_THREADS ensures Pending(r.threads[i]) ==> !r.threads[i].suspended {
      assert ThreadSwitched(s, i, s.threads[i], r.threads[i], r.current);
    }
  }

  /** In every run that suspends no flag waiter, no thread waits for a condition that already holds. */
  lemma {:induction false} NoLostWakeups(es: seq<Event>)
    requires forall k | 0 <= k < |es| :: SparesWaiters(EnsureRoot(After(INITIAL, es[..k])), es[k])
    ensures NoLostWakeup(After(INITIAL, es)) && NoneSuspended(After(INITIAL, es))
  {
    if es != [] {
      var n := |es| - 1;
      var s := After(INITIAL, es[..n]);
      assert forall k | 0 <= k < n :: es[..n][..k] == es[..k];
      NoLostWakeups(es[..n]);
      RunSane(es[..n]);
      StepRightlyIff(s, es[n]);
      StepNoneSuspended(s, es[n]);
      RootNoneSuspended(s);
    }
  }

  lemma RootNoneSuspended(s: State)
    requires NoneSuspended(s)
    ensures NoneSuspended(EnsureRoot(s))
  {}
}
