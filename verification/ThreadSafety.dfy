/** Scheduler safety: one running thread, the best one, and no register context
    ever lost or mixed up. */
module ThreadSafety {
  import opened Words
  import opened ThreadState

  // ---------------------------------------------------------------------------
  // Which thread runs
  // ---------------------------------------------------------------------------

  /** Between events the current thread, if any, is in RUN; and there is no thread before the
      first gate. This holds in every run at all. */
  ghost predicate Sane(s: State) {
    && (s.current != 0 ==> s.threads[s.current - 1].Is(Run))
    && (s.threadCount == 0 ==> s.current == 0 && forall i | 0 <= i < MAX_THREADS :: !s.threads[i].inUse)
  }

  /** A RUN thread is the current one. */
  ghost predicate ThreadFine(t: Tcb, i: nat, current: nat) {
    t.inUse && t.phase == Run ==> i + 1 == current && !t.suspended
  }

  ghost predicate OneRunner(s: State) {
    forall i | 0 <= i < MAX_THREADS :: ThreadFine(s.threads[i], i, s.current)
  }

  /** No thread has the priority that the scan starts from. */
  ghost predicate Ranked(s: State) {
    forall i | 0 <= i < MAX_THREADS && s.threads[i].inUse :: s.threads[i].priority != MINUS_ONE
  }

  ghost predicate Scheduled(s: State) { Sane(s) && OneRunner(s) && Ranked(s) }

  /** A caller that neither suspends itself nor hands out priority 0xFFFFFFFF. */
  ghost predicate Tame(s: State, e: Event) {
    e.Enter? ==>
      && (e.call.Suspend? ==> e.call.id != EnsureRoot(s).current)
      && ((e.call.Create? || e.call.SetPriority?) ==> e.call.priority != MINUS_ONE)
  }

  ghost predicate TameRun(s: State, es: seq<Event>) {
    forall k | 0 <= k < |es| :: Tame(After(s, es[..k]), es[k])
  }

  /** Thread i + 1 goes before thread j + 1: priority, then queue number, then table order. */
  ghost predicate Precedes(ts: seq<Tcb>, i: nat, j: nat)
    requires i < |ts| && j < |ts|
  {
    || ts[i].priority < ts[j].priority
    || (ts[i].priority == ts[j].priority && ts[i].seqNo < ts[j].seqNo)
    || (ts[i].priority == ts[j].priority && ts[i].seqNo == ts[j].seqNo && i < j)
  }

  /** The one thread that the scan cannot see. */
  ghost predicate Unseen(t: Tcb) { t.priority == MINUS_ONE && t.seqNo == MINUS_ONE }

  /** `next` is the best runnable thread, or 0 and there is none. */
  ghost predicate Picked(ts: Threads, next: nat) {
    && next <= MAX_THREADS
    && (next == 0 ==> forall i | 0 <= i < MAX_THREADS :: !ts[i].Runnable())
    && (next > 0 ==> ts[next - 1].Runnable())
    && (next > 0 ==> forall i | 0 <= i < MAX_THREADS && i != next - 1 && ts[i].Runnable() :: Precedes(ts, next - 1, i))
  }

  /** pick_next_ready finds the first runnable thread of all it can see. */
  lemma {:induction false} PickIsBest(ts: seq<Tcb>)
    ensures Pick(ts) == 0 ==> forall i | 0 <= i < |ts| && ts[i].Runnable() :: Unseen(ts[i])
    ensures Pick(ts) > 0 ==> !Unseen(ts[Pick(ts) - 1])
    ensures Pick(ts) > 0 ==> forall i | 0 <= i < |ts| && i != Pick(ts) - 1 && ts[i].Runnable() ::
                               Precedes(ts, Pick(ts) - 1, i)
  {
    if ts != [] {
      var n := |ts| - 1;
      PickIsBest(ts[..n]);
      assert forall i | 0 <= i < n :: ts[..n][i] == ts[i];
      var best := Pick(ts[..n]);
      if best > 0 {
        forall i | 0 <= i < n && i != best - 1 && ts[i].Runnable() ensures Precedes(ts, best - 1, i) {
          assert Precedes(ts[..n], best - 1, i);
        }
      }
    }
  }

  /** s -> r moves threads between RUN and READY, saves and loads registers, and nothing else. */
  ghost predicate Switched(s: State, r: State) {
    && r == s.(threads := r.threads, cpu := r.cpu, current := r.current, idle := r.idle)
    && r.current == Pick(s.threads)
    && forall i | 0 <= i < MAX_THREADS :: ThreadSwitched(s, i, s.threads[i], r.threads[i], r.current)
  }

  ghost predicate ThreadSwitched(s: State, i: nat, t: Tcb, t': Tcb, next: nat) {
    && t' == t.(phase := t'.phase, regs := t'.regs)
    && t'.phase == (if i + 1 == next then Run
                    else if i + 1 == s.current && t.phase == Run && !t.suspended && next != 0 then Ready
                    else t.phase)
  }

  lemma RescheduleSwitches(s: State)
    ensures Switched(s, Reschedule(s))
  {
    forall i | 0 <= i < MAX_THREADS
      ensures ThreadSwitched(s, i, s.threads[i], Reschedule(s).threads[i], Reschedule(s).current)
    {
      RescheduleThread(s, i);
    }
  }

  lemma RescheduleThread(s: State, i: nat)
    requires i < MAX_THREADS
    ensures ThreadSwitched(s, i, s.threads[i], Reschedule(s).threads[i], Pick(s.threads))
  {}

  lemma PickPicks(s: State)
    requires Ranked(s)
    ensures Picked(s.threads, Pick(s.threads))
  {
    PickIsBest(s.threads);
    forall i | 0 <= i < MAX_THREADS && s.threads[i].Runnable() ensures !Unseen(s.threads[i]) {
      assert s.threads[i].inUse;
    }
  }

  /** A switch leaves a sane state whatever came before. */
  lemma SwitchSane(s: State, r: State)
    requires Switched(s, r) && s.threadCount > 0
    ensures Sane(r)
  {
    if r.current != 0 {
      assert ThreadSwitched(s, r.current - 1, s.threads[r.current - 1], r.threads[r.current - 1], r.current);
    }
  }

  lemma SwitchedPicked(s: State, r: State, next: nat)
    requires Switched(s, r) && r.current == next && Picked(s.threads, next)
    ensures Picked(r.threads, next)
  {
    forall i | 0 <= i < MAX_THREADS
      ensures r.threads[i].seqNo == s.threads[i].seqNo && r.threads[i].priority == s.threads[i].priority
      ensures r.threads[i].Runnable() == s.threads[i].Runnable() || i + 1 == next
    {
      assert ThreadSwitched(s, i, s.threads[i], r.threads[i], r.current);
    }
    if next > 0 {
      assert ThreadSwitched(s, next - 1, s.threads[next - 1], r.threads[next - 1], next);
      forall i | 0 <= i < MAX_THREADS && i != next - 1 && r.threads[i].Runnable() ensures Precedes(r.threads, next - 1, i) {
        assert Precedes(s.threads, next - 1, i);
      }
    }
  }

  lemma SwitchedRunner(s: State, r: State)
    requires Switched(s, r) && OneRunner(s) && Picked(s.threads, r.current)
    ensures OneRunner(r)
  {
    forall i | 0 <= i < MAX_THREADS ensures ThreadFine(r.threads[i], i, r.current) {
      assert ThreadSwitched(s, i, s.threads[i], r.threads[i], r.current);
      assert ThreadFine(s.threads[i], i, s.current);
    }
  }

  /** After every switch there is one runner at most, and it is the best thread there is. */
  lemma SwitchSound(s: State, r: State)
    requires OneRunner(s) && Ranked(s) && s.threadCount > 0 && Switched(s, r)
    ensures Scheduled(r) && Picked(r.threads, r.current)
  {
    PickPicks(s);
    SwitchSane(s, r);
    SwitchedPicked(s, r, r.current);
    SwitchedRunner(s, r);
    forall i | 0 <= i < MAX_THREADS && r.threads[i].inUse ensures r.threads[i].priority != MINUS_ONE {
      assert ThreadSwitched(s, i, s.threads[i], r.threads[i], r.current);
    }
  }

  // ---------------------------------------------------------------------------
  // What the gates do before the switch
  // ---------------------------------------------------------------------------

  /** A state from which gates are called. */
  ghost predicate Steady(s: State) { Sane(s) && s.threadCount > 0 }

  /** t' waits for the same thing as t, in the same place. */
  ghost predicate StillWaits(t: Tcb, t': Tcb) {
    && t.inUse && t.phase == Wait
    && t'.waitKind == t.waitKind && t'.waitId == t.waitId && t'.want == t.want && t'.seqNo == t.seqNo
  }

  /** The call blocks its caller in this way. */
  ghost predicate WaitsFor(c: Call, t: Tcb) {
    match c
    case Sleep => t.waitKind == OnSleep
    case Delay(_, _) => t.waitKind == OnDelay
    case Acquire(id) => t.waitKind == OnSema && t.waitId == id
    case Await(id, bits, mode, ptr) => t.waitKind == OnFlag && t.waitId == id && t.want == Want(bits, mode, ptr)
    case _ => false
  }

  /** The only ways the wait t of thread i + 1 ends. */
  ghost predicate EndsWait(c: Call, i: nat, t: Tcb) {
    || c == Release(i + 1)
    || c == Terminate(i + 1)
    || match t.waitKind
       case OnSleep => c == Wakeup(i + 1)
       case OnSema => c.Signal? && c.id == t.waitId
       case OnFlag => (c.Raise? || c.DropFlag?) && c.id == t.waitId
       case OnDelay => true   // the clock
       case NoWait => true
  }

  /** What a gate may make of a thread other than its caller: it keeps its registers, never starts
      waiting or running, and is suspended or resumed only by name. */
  ghost predicate OtherKept(t: Tcb, i: nat, t': Tcb, c: Call) {
    && (t.Started() ==> t'.regs == t.regs)
    && (t'.inUse && t'.phase == Wait ==>
          && StillWaits(t, t')
          && (t'.suspended ==> t.suspended || c == Suspend(i + 1))
          && (!t'.suspended ==> !t.suspended || c == Resume(i + 1)))
    && (t.inUse && t.phase == Wait && !EndsWait(c, i, t) ==> t'.inUse && t'.phase == Wait)
    && (t'.inUse && t'.phase == Run ==> t.inUse && t.phase == Run)
    && (t'.Is(Run) ==> t.Is(Run) || c == Resume(i + 1))
  }

  /** What it may make of its caller, which ran: it runs on, ends, or waits with its return in place;
      only SuspendThread suspends it, and only DelayThread leaves the return out. */
  ghost predicate CallerKept(s: State, t: Tcb, i: nat, t': Tcb, c: Call) {
    || t'.Is(Run)
    || t'.phase == Dormant
    || (t'.Is(Wait) && WaitsFor(c, t') && (c.Delay? || t'.regs == s.cpu.Returned(0)))
    || (c == Suspend(i + 1) && t' == t.(suspended := true))
  }

  /** Threads come into use and get their priority only by the two gates for it. */
  ghost predicate RankKept(t: Tcb, t': Tcb, c: Call) {
    t'.inUse ==> (t.inUse && t'.priority == t.priority) || ((c.Create? || c.SetPriority?) && t'.priority == c.priority)
  }

  ghost predicate ThreadKept(s: State, i: nat, t': Tcb, c: Call)
    requires i < MAX_THREADS
  {
    && RankKept(s.threads[i], t', c)
    && if i + 1 == s.current then CallerKept(s, s.threads[i], i, t', c) else OtherKept(s.threads[i], i, t', c)
  }

  ghost predicate Kept(s: State, r: State, c: Call) {
    && r.current == s.current
    && r.threadCount > 0
    && forall i | 0 <= i < MAX_THREADS :: ThreadKept(s, i, r.threads[i], c)
  }

  lemma KeptRefl(s: State, c: Call)
    requires Steady(s)
    ensures Kept(s, s, c)
  {}

  /** Replacing one thread of a kept state. */
  lemma KeptPut(s: State, r: State, r': State, id: nat, c: Call)
    requires Kept(s, r, c) && 1 <= id <= MAX_THREADS
    requires r'.threads == r.threads[id - 1 := r'.threads[id - 1]]
    requires r'.current == r.current && r'.threadCount > 0
    requires ThreadKept(s, id - 1, r'.threads[id - 1], c)
    ensures Kept(s, r', c)
  {
    forall i | 0 <= i < MAX_THREADS ensures ThreadKept(s, i, r'.threads[i], c) {
      assert ThreadKept(s, i, r.threads[i], c);
    }
  }

  ghost predicate StillRuns(s: State, r: State) {
    s.current != 0 ==> r.threads[s.current - 1].Is(Run)
  }

  /** Making a blocked thread ready keeps everyone's registers. */
  lemma KeptWake(s: State, r: State, r': State, id: nat, c: Call)
    requires Kept(s, r, c) && StillRuns(s, r) && 1 <= id <= MAX_THREADS
    requires r.threads[id - 1].Is(Wait) && EndsWait(c, id - 1, r.threads[id - 1])
    requires r'.threads == r.threads[id - 1 := r'.threads[id - 1]]
    requires r'.current == r.current && r'.threadCount > 0
    requires var t, t' := r.threads[id - 1], r'.threads[id - 1];
             t'.Is(Ready) && t'.regs == t.regs && t'.priority == t.priority
    ensures Kept(s, r', c) && StillRuns(s, r')
  {
    assert ThreadKept(s, id - 1, r.threads[id - 1], c);
    KeptPut(s, r, r', id, c);
  }

  lemma {:induction false} WakeFlagKept(s: State, s0: State, id: int, n: nat, c: Call)
    requires Kept(s, s0, c) && StillRuns(s, s0)
    requires 1 <= id <= MAX_FLAGS && n <= MAX_THREADS && c.Raise? && c.id == id
    ensures var r := WakeFlag(s0, id, n);
            Kept(s, r, c) && StillRuns(s, r) && r.cpu == s0.cpu
  {
    if n > 0 {
      WakeFlagKept(s, s0, id, n - 1, c);
      var r, r' := WakeFlag(s0, id, n - 1), WakeFlag(s0, id, n);
      if r' != r { KeptWake(s, r, r', n, c); }
    }
  }

  lemma {:induction false} ReleaseAllKept(s: State, id: int, n: nat, c: Call)
    requires Kept(s, s, c) && StillRuns(s, s) && n <= MAX_THREADS && c == DropFlag(id)
    ensures var r := ReleaseAll(s, id, n);
            Kept(s, r, c) && StillRuns(s, r) && r.cpu == s.cpu
  {
    if n > 0 {
      ReleaseAllKept(s, id, n - 1, c);
      var r, r' := ReleaseAll(s, id, n - 1), ReleaseAll(s, id, n);
      if r' != r { KeptWake(s, r, r', n, c); }
    }
  }

  lemma {:induction false} WakeDelayedKept(s: State, now: nat, n: nat, c: Call)
    requires Kept(s, s, c) && StillRuns(s, s) && n <= MAX_THREADS
    ensures var r := WakeDelayed(s, now, n);
            Kept(s, r, c) && StillRuns(s, r) && r.cpu == s.cpu
  {
    if n > 0 {
      WakeDelayedKept(s, now, n - 1, c);
      var r := WakeDelayed(s, now, n - 1);
      if Due(r.threads[n - 1], now) { KeptWake(s, r, EndDelay(r, n), n, c); }
    }
  }

  /** The live registers after a gate are the caller's, returning some value; 0 if it blocked. */
  ghost predicate Returns(s: State, r: State) {
    s.current != 0 ==>
      && r.cpu == s.cpu.Returned(r.cpu.gpr[2])
      && (r.threads[s.current - 1].phase == Wait ==> r.cpu.gpr[2] == 0)
      && r.threads[s.current - 1].phase != Dormant
  }

  ghost predicate Good(s: State, o: Outcome, c: Call) {
    && Kept(s, o.state, c)
    && (o.Stay? ==> StillRuns(s, o.state))
    && Returns(s, o.state)
  }

  /** Effects that touch at most the thread id, or none if there is no such thread. */
  lemma GoodAt(s: State, o: Outcome, id: int, c: Call)
    requires Steady(s)
    requires o.state.current == s.current && o.state.threadCount > 0
    requires s.current != 0 ==> o.state.cpu == s.cpu.Returned(o.state.cpu.gpr[2])
    requires !(1 <= id <= MAX_THREADS) ==> o.state.threads == s.threads
    requires 1 <= id <= MAX_THREADS ==>
               var t' := o.state.threads[id - 1];
               && o.state.threads == s.threads[id - 1 := t']
               && ThreadKept(s, id - 1, t', c)
               && (id == s.current ==> t'.Is(Run) || (o.Switch? && t'.Is(Wait) && o.state.cpu.gpr[2] == 0)
                                       || (o.Switch? && t'.phase == Run))
    ensures Good(s, o, c)
  {
    KeptRefl(s, c);
    if 1 <= id <= MAX_THREADS {
      KeptPut(s, s, o.state, id, c);
    } else {
      KeptSame(s, o.state, c);
    }
  }

  lemma KeptSame(s: State, r: State, c: Call)
    requires Kept(s, s, c)
    requires r.current == s.current && r.threadCount > 0 && r.threads == s.threads
    ensures Kept(s, r, c)
  {
    forall i | 0 <= i < MAX_THREADS ensures ThreadKept(s, i, r.threads[i], c) {
      assert ThreadKept(s, i, s.threads[i], c);
    }
  }

  lemma DeleteGate(s: State, id: int)
    requires Steady(s)
    ensures Good(s, DeleteThread(s, id), Delete(id))
  {
    GoodAt(s, DeleteThread(s, id), id, Delete(id));
  }

  lemma TerminateGate(s: State, id: int)
    requires Steady(s)
    ensures Good(s, TerminateThread(s, id), Terminate(id))
  {
    GoodAt(s, TerminateThread(s, id), id, Terminate(id));
  }

  lemma PriorityGate(s: State, id: int, priority: Word)
    requires Steady(s)
    ensures Good(s, ChangePriority(s, id, priority), SetPriority(id, priority))
  {
    GoodAt(s, ChangePriority(s, id, priority), id, SetPriority(id, priority));
  }

  lemma CancelGate(s: State, id: int)
    requires Steady(s)
    ensures Good(s, CancelWakeup(s, id), Cancel(id))
  {
    GoodAt(s, CancelWakeup(s, id), id, Cancel(id));
  }

  lemma StartGate(s: State, id: int, a0: Word, a1: Word)
    requires Steady(s)
    ensures Good(s, StartThread(s, id, a0, a1), Start(id, a0, a1))
  {
    if s.HasThread(id) && s.threads[id - 1].Is(Dormant) {
      LaunchGate(s, id, StartRegs(s.threads[id - 1], s.cpu.gpr[28], a0, a1), Start(id, a0, a1));
    } else {
      GoodAt(s, StartThread(s, id, a0, a1), 0, Start(id, a0, a1));
    }
  }

  lemma LaunchGate(s: State, id: int, regs: Regs, c: Call)
    requires Steady(s) && s.HasThread(id) && s.threads[id - 1].Is(Dormant)
    ensures Good(s, Switch(Launch(s, id, regs)), c)
  {
    GoodAt(s, Switch(Launch(s, id, regs)), id, c);
  }

  lemma WakeupGate(s: State, id: int)
    requires Steady(s)
    ensures Good(s, WakeupThread(s, id), Wakeup(id))
  {
    GoodAt(s, WakeupThread(s, id), id, Wakeup(id));
  }

  lemma SuspendGate(s: State, id: int)
    requires Steady(s)
    ensures Good(s, SuspendThread(s, id), Suspend(id))
  {
    GoodAt(s, SuspendThread(s, id), id, Suspend(id));
  }

  lemma ResumeGate(s: State, id: int)
    requires Steady(s)
    ensures Good(s, ResumeThread(s, id), Resume(id))
  {
    GoodAt(s, ResumeThread(s, id), id, Resume(id));
  }

  lemma ReleaseGate(s: State, id: int)
    requires Steady(s)
    ensures Good(s, ReleaseWait(s, id), Release(id))
  {
    GoodAt(s, ReleaseWait(s, id), id, Release(id));
  }

  lemma CreateGate(s: State, entry: Word, size: Word, priority: Word)
    requires Steady(s)
    ensures Good(s, CreateThread(s, entry, size, priority), Create(entry, size, priority))
  {
    GoodAt(s, CreateThread(s, entry, size, priority), FirstFree(s.threads), Create(entry, size, priority));
  }

  lemma RotateGate(s: State, priority: Word)
    requires Steady(s)
    ensures Good(s, RotateReadyQueue(s, priority), Rotate(priority))
  {
    MoveToBack(s, QueueHead(s, priority), Rotate(priority));
  }

  lemma MoveToBack(s: State, e: nat, c: Call)
    requires Steady(s) && e <= MAX_THREADS && (e > 0 ==> s.threads[e - 1].Runnable())
    ensures Good(s, SentBack(s, e), c)
  {
    GoodAt(s, SentBack(s, e), e, c);
  }

  lemma SleepGate(s: State)
    requires Steady(s)
    ensures Good(s, SleepThread(s), Sleep)
  {
    if s.current == 0 { KeptRefl(s, Sleep); } else { GoodAt(s, SleepThread(s), s.current, Sleep); }
  }

  lemma DelayGate(s: State, usec: Word, now: nat)
    requires Steady(s)
    ensures Good(s, DelayThread(s, usec, now), Delay(usec, now))
  {
    if s.current == 0 { KeptRefl(s, Delay(usec, now)); }
    else { GoodAt(s, DelayThread(s, usec, now), s.current, Delay(usec, now)); }
  }

  lemma ExitGate(s: State, delete: bool)
    requires Steady(s)
    ensures var o := ExitThread(s, delete); o.Switch? && Kept(s, o.state, Exit(delete))
  {
    KeptRefl(s, Exit(delete));
    if s.current != 0 { KeptPut(s, s, ExitThread(s, delete).state, s.current, Exit(delete)); }
  }

  lemma SemaGates(s: State, c: Call)
    requires Steady(s) && (c.NewSema? || c.DropSema? || c.Poll?)
    ensures Good(s, Effect(s, c), c)
  {
    GoodAt(s, Effect(s, c), 0, c);
  }

  lemma FlagGates(s: State, c: Call)
    requires Steady(s) && (c.NewFlag? || c.Keep? || c.Test?)
    ensures Good(s, Effect(s, c), c)
  {
    GoodAt(s, Effect(s, c), 0, c);
  }

  lemma SignalGate(s: State, id: int, i: bool)
    requires Steady(s)
    ensures Good(s, SignalSema(s, id, i), Signal(id, i))
  {
    var w := if s.HasSema(id) then BestWaiter(s.threads, id, s.semas[id - 1].ByPriority()) else 0;
    GoodAt(s, SignalSema(s, id, i), w, Signal(id, i));
  }

  lemma AcquireGate(s: State, id: int)
    requires Steady(s)
    ensures Good(s, WaitSema(s, id), Acquire(id))
  {
    GoodAt(s, WaitSema(s, id), s.current, Acquire(id));
  }

  lemma AwaitGate(s: State, id: int, bits: Bits, mode: Mode, ptr: Word)
    requires Steady(s)
    ensures Good(s, WaitFlag(s, id, bits, mode, ptr), Await(id, bits, mode, ptr))
  {
    GoodAt(s, WaitFlag(s, id, bits, mode, ptr), s.current, Await(id, bits, mode, ptr));
  }

  lemma RaiseGate(s: State, id: int, bits: Bits, i: bool)
    requires Steady(s)
    ensures Good(s, SetFlag(s, id, bits, i), Raise(id, bits, i))
  {
    var c := Raise(id, bits, i);
    if s.HasFlag(id) && bits != {} {
      WakeGood(s, Raised(s, id, bits), id, c);
    } else {
      GoodAt(s, Stay(SetBits(s, id, bits)), 0, c);
    }
  }

  lemma WakeGood(s: State, s0: State, id: int, c: Call)
    requires Steady(s) && 1 <= id <= MAX_FLAGS && s0 == s.(flags := s0.flags) && c.Raise? && c.id == id
    ensures Good(s, Stay(WakeFlag(s0, id, MAX_THREADS).Return(0)), c)
  {
    KeptRefl(s, c);
    WakeFlagKept(s, s0, id, MAX_THREADS, c);
  }

  lemma DropFlagGate(s: State, id: int)
    requires Steady(s)
    ensures Good(s, DeleteFlag(s, id), DropFlag(id))
  {
    KeptRefl(s, DropFlag(id));
    ReleaseAllKept(s, id, MAX_THREADS, DropFlag(id));
  }

  lemma ThreadsGood(s: State, c: Call)
    requires Steady(s) && OnThreads(c)
    ensures Kept(s, Effect(s, c).state, c)
    ensures Effect(s, c).Stay? ==> StillRuns(s, Effect(s, c).state)
    ensures !c.Exit? ==> Returns(s, Effect(s, c).state)
  {
    match c {
      case Create(entry, size, priority) => CreateGate(s, entry, size, priority);
      case Delete(id) => DeleteGate(s, id);
      case Start(id, a0, a1) => StartGate(s, id, a0, a1);
      case Exit(delete) => ExitGate(s, delete);
      case Terminate(id) => TerminateGate(s, id);
      case SetPriority(id, priority) => PriorityGate(s, id, priority);
      case Rotate(priority) => RotateGate(s, priority);
    }
  }

  lemma BlockingGood(s: State, c: Call)
    requires Steady(s) && OnBlocking(c)
    ensures Kept(s, Effect(s, c).state, c)
    ensures Effect(s, c).Stay? ==> StillRuns(s, Effect(s, c).state)
    ensures !c.Exit? ==> Returns(s, Effect(s, c).state)
  {
    match c {
      case Release(id) => ReleaseGate(s, id);
      case Sleep => SleepGate(s);
      case Wakeup(id) => WakeupGate(s, id);
      case Cancel(id) => CancelGate(s, id);
      case Suspend(id) => SuspendGate(s, id);
      case Resume(id) => ResumeGate(s, id);
      case Delay(usec, now) => DelayGate(s, usec, now);
    }
  }

  lemma OthersGood(s: State, c: Call)
    requires Steady(s) && !OnThreads(c) && !OnBlocking(c)
    ensures Kept(s, Effect(s, c).state, c)
    ensures Effect(s, c).Stay? ==> StillRuns(s, Effect(s, c).state)
    ensures !c.Exit? ==> Returns(s, Effect(s, c).state)
  {
    match c {
      case Signal(id, i) => SignalGate(s, id, i);
      case Acquire(id) => AcquireGate(s, id);
      case NewSema(_, _, _) => SemaGates(s, c);
      case DropSema(_) => SemaGates(s, c);
      case Poll(_) => SemaGates(s, c);
      case DropFlag(id) => DropFlagGate(s, id);
      case Raise(id, bits, i) => RaiseGate(s, id, bits, i);
      case Await(id, bits, mode, ptr) => AwaitGate(s, id, bits, mode, ptr);
      case _ => FlagGates(s, c);
    }
  }

  /** Every gate, one statement, in every sane state. */
  lemma EffectGood(s: State, c: Call)
    requires Steady(s)
    ensures Kept(s, Effect(s, c).state, c)
    ensures Effect(s, c).Stay? ==> StillRuns(s, Effect(s, c).state)
    ensures !c.Exit? ==> Returns(s, Effect(s, c).state)
  {
    if OnThreads(c) { ThreadsGood(s, c); } else if OnBlocking(c) { BlockingGood(s, c); } else { OthersGood(s, c); }
  }

  // ---------------------------------------------------------------------------
  // Whole events
  // ---------------------------------------------------------------------------

  lemma RootSteady(s: State)
    requires Sane(s)
    ensures Steady(EnsureRoot(s))
    ensures s.current != 0 || s.threadCount > 0 ==> EnsureRoot(s) == s
  {}

  /** A tick wakes threads as no gate could be told from. */
  lemma TickKept(s: State, now: nat)
    requires Steady(s)
    ensures Kept(s, WakeDelayed(s, now, MAX_THREADS), Sleep) && StillRuns(s, WakeDelayed(s, now, MAX_THREADS))
    ensures WakeDelayed(s, now, MAX_THREADS).cpu == s.cpu
    ensures Tick(s, now).state == s || Tick(s, now) == Switch(WakeDelayed(s, now, MAX_THREADS))
  {
    KeptRefl(s, Sleep);
    WakeDelayedKept(s, now, MAX_THREADS, Sleep);
  }

  lemma SettleSane(s: State, o: Outcome, c: Call)
    requires Kept(s, o.state, c) && (o.Stay? ==> StillRuns(s, o.state))
    ensures Sane(Settle(o)) && Settle(o).threadCount > 0
  {
    if o.Switch? {
      RescheduleSwitches(o.state);
      SwitchSane(o.state, Reschedule(o.state));
    }
  }

  lemma StepSane(s: State, e: Event)
    requires Sane(s)
    ensures Sane(Step(s, e))
  {
    match e {
      case Enter(c) =>
        RootSteady(s);
        EffectGood(EnsureRoot(s), c);
        SettleSane(EnsureRoot(s), Effect(EnsureRoot(s), c), c);
      case Clock(now) =>
        if s.threadCount > 0 {
          TickKept(s, now);
          if Tick(s, now).Switch? { SettleSane(s, Tick(s, now), Sleep); }
        }
      case Execute(regs) =>
    }
  }

  /** In every run at all, the current thread is in RUN. */
  lemma {:induction false} RunSane(es: seq<Event>)
    ensures Sane(After(INITIAL, es))
  {
    if es != [] {
      RunSane(es[..|es| - 1]);
      StepSane(After(INITIAL, es[..|es| - 1]), es[|es| - 1]);
    }
  }

  lemma KeptOneRunner(s: State, r: State, c: Call)
    requires Kept(s, r, c) && OneRunner(s) && Ranked(s)
    requires (c.Suspend? ==> c.id != s.current) && (c.Create? || c.SetPriority? ==> c.priority != MINUS_ONE)
    ensures OneRunner(r) && Ranked(r)
  {
    forall i | 0 <= i < MAX_THREADS
      ensures ThreadFine(r.threads[i], i, r.current)
      ensures r.threads[i].inUse ==> r.threads[i].priority != MINUS_ONE
    {
      assert ThreadKept(s, i, r.threads[i], c);
      assert ThreadFine(s.threads[i], i, s.current);
    }
  }

  lemma SettleScheduled(s: State, o: Outcome, c: Call)
    requires Kept(s, o.state, c) && (o.Stay? ==> StillRuns(s, o.state)) && OneRunner(s) && Ranked(s)
    requires (c.Suspend? ==> c.id != s.current) && (c.Create? || c.SetPriority? ==> c.priority != MINUS_ONE)
    ensures Scheduled(Settle(o))
    ensures o.Switch? ==> Picked(Settle(o).threads, Settle(o).current)
  {
    KeptOneRunner(s, o.state, c);
    if o.Switch? {
      RescheduleSwitches(o.state);
      SwitchSound(o.state, Reschedule(o.state));
    }
  }

  /** The event ends in a reschedule. */
  ghost predicate Reschedules(s: State, e: Event) {
    match e
    case Enter(c) => Effect(EnsureRoot(s), c).Switch?
    case Clock(now) => Tick(s, now).Switch?
    case Execute(_) => false
  }

  lemma RootScheduled(s: State)
    requires Scheduled(s)
    ensures Scheduled(EnsureRoot(s))
  {
    if s.threadCount == 0 {
      var r := EnsureRoot(s);
      forall i | 0 <= i < MAX_THREADS
        ensures ThreadFine(r.threads[i], i, r.current)
        ensures r.threads[i].inUse ==> r.threads[i].priority != MINUS_ONE
      {
        assert i > 0 ==> r.threads[i] == s.threads[i];
      }
    }
  }

  /** Every event keeps the scheduler sound, and every reschedule leaves the best thread running. */
  lemma StepScheduled(s: State, e: Event)
    requires Scheduled(s) && Tame(s, e)
    ensures Scheduled(Step(s, e))
    ensures Reschedules(s, e) ==> Picked(Step(s, e).threads, Step(s, e).current)
  {
    match e {
      case Enter(c) =>
        RootSteady(s);
        RootScheduled(s);
        var s0 := EnsureRoot(s);
        EffectGood(s0, c);
        SettleScheduled(s0, Effect(s0, c), c);
      case Clock(now) =>
        if s.threadCount > 0 {
          TickKept(s, now);
          if Tick(s, now).Switch? { SettleScheduled(s, Tick(s, now), Sleep); }
        }
      case Execute(regs) =>
    }
  }

  /** In every run of callers that neither suspend themselves nor use priority 0xFFFFFFFF, at most
      one thread is in RUN and it is the current one. */
  lemma {:induction false} RunScheduled(es: seq<Event>)
    requires TameRun(INITIAL, es)
    ensures Scheduled(After(INITIAL, es))
  {
    if es != [] {
      var n := |es| - 1;
      assert forall k | 0 <= k < n :: es[..n][..k] == es[..k];
      RunScheduled(es[..n]);
      StepScheduled(After(INITIAL, es[..n]), es[n]);
    }
  }

  // ---------------------------------------------------------------------------
  // Register contexts
  // ---------------------------------------------------------------------------

  /** The registers thread i + 1 has, live or saved. */
  ghost function View(s: State, i: nat): Regs
    requires i < MAX_THREADS
  {
    if i + 1 == s.current then s.cpu else s.threads[i].regs
  }

  /** A switch changes no view, except that a thread which is no longer RUN
      falls back on what it saved itself. */
  lemma RescheduleViews(s: State, i: nat)
    requires i < MAX_THREADS
    ensures View(Reschedule(s), i) ==
            if i + 1 == s.current && !(s.threads[i].phase == Run && !s.threads[i].suspended)
               && Pick(s.threads) != s.current then s.threads[i].regs else View(s, i)
  {}

  /** r shows thread i + 1 what state s showed it, or to the caller s returning. */
  ghost predicate ContextKept(s: State, r: State, i: nat)
    requires i < MAX_THREADS
  {
    if i + 1 == s.current then
      && View(r, i) == s.cpu.Returned(View(r, i).gpr[2])
      && (r.threads[i].phase == Wait ==> View(r, i).gpr[2] == 0)
    else
      View(r, i) == View(s, i)
  }

  lemma SwitchViews(s: State, m: State, c: Call, i: nat)
    requires Steady(s) && Kept(s, m, c) && i < MAX_THREADS && s.threads[i].Started()
    requires i + 1 == s.current ==> !c.Delay? && c != Suspend(i + 1) && Returns(s, m)
    ensures ContextKept(s, Reschedule(m), i)
  {
    assert ThreadKept(s, i, m.threads[i], c);
    RescheduleViews(m, i);
    RescheduleThread(m, i);
    PickRuns(m);
  }

  lemma PickRuns(s: State)
    ensures Reschedule(s).current == Pick(s.threads)
    ensures Pick(s.threads) > 0 ==> s.threads[Pick(s.threads) - 1].Runnable()
  {}

  lemma SettleViews(s: State, o: Outcome, c: Call, i: nat)
    requires Steady(s) && Kept(s, o.state, c) && i < MAX_THREADS && s.threads[i].Started()
    requires i + 1 == s.current ==>
               !c.Delay? && c != Suspend(i + 1) && Returns(s, o.state) && (o.Stay? ==> StillRuns(s, o.state))
    ensures ContextKept(s, Settle(o), i)
  {
    if o.Switch? {
      SwitchViews(s, o.state, c, i);
    } else {
      assert ThreadKept(s, i, o.state.threads[i], c);
    }
  }

  /** No gate touches another thread's registers, whichever it makes run; and the caller's change
      only by returning: $v0 set, control at $ra, and $v0 = 0 if the call blocked. */
  lemma ContextsKept(s: State, c: Call, i: nat)
    requires Steady(s) && i < MAX_THREADS && s.threads[i].Started()
    requires i + 1 == s.current ==> !c.Exit? && !c.Delay? && c != Suspend(s.current)
    ensures ContextKept(s, Settle(Effect(s, c)), i)
  {
    EffectGood(s, c);
    SettleViews(s, Effect(s, c), c, i);
  }

  lemma StepKeepsOthers(s: State, e: Event, i: nat)
    requires Sane(s) && i < MAX_THREADS && s.threads[i].Started() && i + 1 != s.current
    ensures View(Step(s, e), i) == View(s, i)
  {
    match e {
      case Enter(c) =>
        RootSteady(s);
        ContextsKept(s, c, i);
      case Clock(now) =>
        TickKept(s, now);
        if Tick(s, now).Switch? { SettleViews(s, Tick(s, now), Sleep, i); }
      case Execute(regs) =>
    }
  }

  /** Thread i + 1 exists throughout and is nowhere current before the end. */
  ghost predicate Away(s: State, es: seq<Event>, i: nat)
    requires i < MAX_THREADS
  {
    forall k | 0 <= k < |es| :: After(s, es[..k]).threads[i].Started() && After(s, es[..k]).current != i + 1
  }

  /** A thread that lost the processor has, when it next runs, exactly the registers it left with,
      whatever the other threads did in between. */
  lemma {:induction false} ResumesWithOwnRegisters(s: State, es: seq<Event>, i: nat)
    requires Sane(s) && i < MAX_THREADS && Away(s, es, i)
    ensures Sane(After(s, es)) && View(After(s, es), i) == View(s, i)
  {
    if es != [] {
      var n := |es| - 1;
      assert forall k | 0 <= k < n :: es[..n][..k] == es[..k];
      ResumesWithOwnRegisters(s, es[..n], i);
      StepSane(After(s, es[..n]), es[n]);
      StepKeepsOthers(After(s, es[..n]), es[n], i);
    }
  }

  /** So it has them when it is current again. */
  lemma ReturnsTo(r: State, es: seq<Event>, i: nat)
    requires Sane(r) && i < MAX_THREADS && Away(r, es, i) && After(r, es).current == i + 1
    ensures After(r, es).cpu == View(r, i)
  {
    ResumesWithOwnRegisters(r, es, i);
  }

  /** A thread that blocks in SleepThread, WaitSema or WaitEventFlag and next gets the processor
      after any run resumes at its return address, with exactly its own registers and $v0 = 0. */
  lemma BlockedResumes(s: State, c: Call, r: State, es: seq<Event>)
    requires Sane(s) && s.current != 0 && (c.Sleep? || c.Acquire? || c.Await?) && r == Step(s, Enter(c))
    requires r.threads[s.current - 1].phase == Wait && Away(r, es, s.current - 1)
    requires After(r, es).current == s.current
    ensures After(r, es).cpu == s.cpu.Returned(0)
  {
    RootSteady(s);
    ContextsKept(s, c, s.current - 1);
    StepSane(s, Enter(c));
    ReturnsTo(r, es, s.current - 1);
  }

  /** The live registers a gate leaves its caller, and that the caller has after the switch. */
  lemma CallerView(s: State, m: State, c: Call, i: nat)
    requires Steady(s) && Kept(s, m, c) && i + 1 == s.current && Returns(s, m) && !c.Delay? && c != Suspend(i + 1)
    ensures View(Reschedule(m), i) == m.cpu
  {
    assert ThreadKept(s, i, m.threads[i], c);
    RescheduleViews(m, i);
  }

  /** A thread that loses the processor in a gate it called, by blocking there or to a better thread,
      resumes with exactly the registers the gate left it: its own, returning the gate's result. */
  lemma PreemptedResumes(s: State, c: Call, r: State, es: seq<Event>)
    requires Sane(s) && s.current != 0 && !c.Exit? && !c.Delay? && c != Suspend(s.current) && r == Step(s, Enter(c))
    requires Away(r, es, s.current - 1) && After(r, es).current == s.current
    ensures var v := Effect(s, c).state.cpu; After(r, es).cpu == v && v == s.cpu.Returned(v.gpr[2])
  {
    RootSteady(s);
    EffectGood(s, c);
    if Effect(s, c).Switch? { CallerView(s, Effect(s, c).state, c, s.current - 1); }
    StepSane(s, Enter(c));
    ReturnsTo(r, es, s.current - 1);
  }

  /** A switch leaves a thread that was in RUN its registers. */
  lemma RunnerView(m: State, i: nat)
    requires i < MAX_THREADS && i + 1 == m.current && m.threads[i].Is(Run)
    ensures View(Reschedule(m), i) == m.cpu
  {
    RescheduleViews(m, i);
  }

  lemma ClockView(s: State, o: Outcome, m: State)
    requires Sane(s) && s.current != 0 && m.current == s.current && StillRuns(s, m) && m.cpu == s.cpu
    requires o.state == s || o == Switch(m)
    ensures View(Settle(o), s.current - 1) == s.cpu
  {
    RunnerView(m, s.current - 1);
    RunnerView(s, s.current - 1);
  }

  /** A thread that loses the processor to the clock resumes with exactly the registers it had. */
  lemma InterruptedResumes(s: State, now: nat, r: State, es: seq<Event>)
    requires Sane(s) && s.current != 0 && r == Step(s, Clock(now))
    requires Away(r, es, s.current - 1) && After(r, es).current == s.current
    ensures After(r, es).cpu == s.cpu
  {
    TickKept(s, now);
    ClockView(s, Tick(s, now), WakeDelayed(s, now, MAX_THREADS));
    StepSane(s, Clock(now));
    ReturnsTo(r, es, s.current - 1);
  }
}
