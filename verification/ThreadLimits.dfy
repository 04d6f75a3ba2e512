/** Where the thread kernel's promises stop: what each hypothesis of the run theorems is worth,
    as the exact condition for the promise to be kept. */
module ThreadLimits {
  import opened Words
  import opened ThreadState
  import opened ThreadSafety

  // ---------------------------------------------------------------------------
  // The scan
  // ---------------------------------------------------------------------------

  lemma PickedUnique(ts: Threads, a: nat, b: nat)
    requires Picked(ts, a) && Picked(ts, b)
    ensures a == b
  {
    assert a > 0 ==> ts[a - 1].Runnable();
    assert b > 0 ==> ts[b - 1].Runnable();
  }

  ghost predicate AnyRunnable(ts: Threads) { exists i | 0 <= i < MAX_THREADS :: ts[i].Runnable() }

  ghost predicate AnySeen(ts: Threads) { exists i | 0 <= i < MAX_THREADS :: ts[i].Runnable() && !Unseen(ts[i]) }

  /** The scan finds the best thread exactly unless the only runnable threads have both priority and
      queue number 0xFFFFFFFF. */
  lemma PickedIff(ts: Threads)
    ensures Picked(ts, Pick(ts)) <==> AnySeen(ts) || !AnyRunnable(ts)
  {
    PickIsBest(ts);
    if AnySeen(ts) {
      var i :| 0 <= i < MAX_THREADS && ts[i].Runnable() && !Unseen(ts[i]);
      assert Pick(ts) > 0;
    }
  }

  /** Two threads queued one after the other keep their order exactly while the 32-bit ready
      counter does not wrap between them. */
  lemma QueueOrderKeptIff(s: State, a: int, b: int)
    requires 1 <= a <= MAX_THREADS && 1 <= b <= MAX_THREADS && a != b
    ensures var r := s.Awaken(a).Awaken(b);
            Before(r.threads[a - 1], r.threads[b - 1], false) <==> s.nextSeq != MINUS_ONE
  {}

  // ---------------------------------------------------------------------------
  // DelayThread
  // ---------------------------------------------------------------------------

  /** DelayThread saves its caller before the return is in place, so the thread keeps the registers
      of the call, which are those of the return exactly if they already looked like it. */
  lemma DelayKeepsReturnIff(s: State, usec: Word, now: nat)
    requires Steady(s) && s.current != 0
    ensures var i, r := s.current - 1, Settle(DelayThread(s, usec, now));
            && View(r, i) == s.cpu && r.threads[i].phase == Wait
            && (ContextKept(s, r, i) <==> s.cpu == s.cpu.Returned(0))
  {
    var o, i := DelayThread(s, usec, now), s.current - 1;
    assert o.state.threads[i].regs == s.cpu && o.state.threads[i].phase == Wait;
    RescheduleViews(o.state, i);
    RescheduleThread(o.state, i);
    PickRuns(o.state);
  }

  /** In every run a delayed thread that gets the processor back is put at its call again, with the
      registers it made the call with. */
  lemma DelayedResumesAtCall(s: State, usec: Word, now: nat, r: State, es: seq<Event>)
    requires Sane(s) && s.current != 0 && r == Step(s, Enter(Delay(usec, now)))
    requires Away(r, es, s.current - 1) && After(r, es).current == s.current
    ensures After(r, es).cpu == s.cpu
  {
    DelayLeaves(s, usec, now);
    ReturnsTo(r, es, s.current - 1);
  }

  lemma DelayLeaves(s: State, usec: Word, now: nat)
    requires Sane(s) && s.current != 0
    ensures var r := Step(s, Enter(Delay(usec, now))); Sane(r) && View(r, s.current - 1) == s.cpu
  {
    RootSteady(s);
    DelayKeepsReturnIff(s, usec, now);
    StepSane(s, Enter(Delay(usec, now)));
  }

  // ---------------------------------------------------------------------------
  // Suspending oneself
  // ---------------------------------------------------------------------------

  /** A thread that suspends itself keeps only the registers of its previous save. */
  lemma SelfSuspendKeepsReturnIff(s: State)
    requires Steady(s) && s.current != 0
    ensures var i, r := s.current - 1, Settle(SuspendThread(s, s.current));
            && View(r, i) == s.threads[i].regs
            && (ContextKept(s, r, i) <==> s.threads[i].regs == s.cpu.Returned(s.threads[i].regs.gpr[2]))
  {
    var o, i := SuspendThread(s, s.current), s.current - 1;
    assert o.state.threads[i] == s.threads[i].(suspended := true) && s.threads[i].Is(Run);
    RescheduleViews(o.state, i);
    RescheduleThread(o.state, i);
    PickRuns(o.state);
  }

  /** The state after a thread has suspended itself: it is still in RUN, and everyone else is fine. */
  ghost predicate LeftInRun(r: State, id: ThreadRef) {
    && id != 0 && r.current != id && r.threadCount > 0 && Ranked(r)
    && r.threads[id - 1].inUse && r.threads[id - 1].phase == Run && r.threads[id - 1].suspended
    && (forall i | 0 <= i < MAX_THREADS && i + 1 != id :: ThreadFine(r.threads[i], i, r.current))
    && Picked(r.threads, r.current)
  }

  lemma SelfSuspendLeaves(s: State)
    requires Scheduled(s) && s.threadCount > 0 && s.current != 0
    ensures LeftInRun(Settle(SuspendThread(s, s.current)), s.current)
  {
    var id, m := s.current, SuspendThread(s, s.current).state;
    assert m.threads == s.threads[id - 1 := s.threads[id - 1].(suspended := true)] && m.current == id;
    SuspendedLeaves(s, m, Reschedule(m), id);
  }

  lemma SuspendedLeaves(s: State, m: State, r: State, id: ThreadRef)
    requires id != 0 && s.current == id && OneRunner(s) && Ranked(s) && s.threads[id - 1].Is(Run)
    requires m.threads == s.threads[id - 1 := s.threads[id - 1].(suspended := true)] && m.current == id
    requires m.threadCount > 0 && r == Reschedule(m)
    ensures LeftInRun(r, id)
  {
    RescheduleSwitches(m);
    PickPicks(m);
    SwitchedPicked(m, r, r.current);
    PickRuns(m);
    forall i | 0 <= i < MAX_THREADS
      ensures i + 1 != id ==> ThreadFine(r.threads[i], i, r.current)
      ensures r.threads[i].inUse ==> r.threads[i].priority != MINUS_ONE
    {
      assert ThreadSwitched(m, i, m.threads[i], r.threads[i], r.current);
      assert ThreadFine(s.threads[i], i, s.current);
    }
    assert ThreadSwitched(m, id - 1, m.threads[id - 1], r.threads[id - 1], r.current);
  }

  /** Who is picked once the thread is runnable again. */
  lemma ResumePicks(r: State, id: ThreadRef)
    requires LeftInRun(r, id)
    ensures var ts := ResumeThread(r, id).state.threads;
            Pick(ts) == if r.current == 0 || Precedes(r.threads, id - 1, r.current - 1) then id else r.current
  {
    var m := ResumeThread(r, id).state;
    var ts := m.threads;
    var n: nat := if r.current == 0 || Precedes(r.threads, id - 1, r.current - 1) then id else r.current;
    forall i | 0 <= i < MAX_THREADS
      ensures ts[i].Runnable() <==> i + 1 == id || r.threads[i].Runnable()
      ensures ts[i].priority == r.threads[i].priority && ts[i].seqNo == r.threads[i].seqNo
    {}
    forall i | 0 <= i < MAX_THREADS && i != n - 1 && ts[i].Runnable() ensures Precedes(ts, n - 1, i) {
      if i + 1 != id && i + 1 != r.current { assert Precedes(r.threads, r.current - 1, i); }
    }
    assert Picked(ts, n);
    assert Ranked(m);
    PickPicks(m);
    PickedUnique(ts, n, Pick(ts));
  }

  /** Resuming a thread that suspended itself restores the scheduler exactly if that thread goes
      before the running one; otherwise it leaves two threads in RUN. */
  lemma SelfSuspendThenResumeIff(s: State)
    requires Scheduled(s) && s.threadCount > 0 && s.current != 0
    ensures var id, r := s.current, Settle(SuspendThread(s, s.current));
            Scheduled(Settle(ResumeThread(r, id))) <==> r.current == 0 || Precedes(r.threads, id - 1, r.current - 1)
  {
    SelfSuspendLeaves(s);
    LeftThenResumedIff(Settle(SuspendThread(s, s.current)), s.current);
  }

  lemma LeftThenResumedIff(r: State, id: ThreadRef)
    requires LeftInRun(r, id)
    ensures Scheduled(Settle(ResumeThread(r, id))) <==> r.current == 0 || Precedes(r.threads, id - 1, r.current - 1)
  {
    ResumePicks(r, id);
    ResumeScheduledIff(r, id);
  }

  lemma ResumeScheduledIff(r: State, id: ThreadRef)
    requires LeftInRun(r, id)
    ensures Scheduled(Settle(ResumeThread(r, id))) <==> Pick(ResumeThread(r, id).state.threads) == id
  {
    var m := ResumeThread(r, id).state;
    var r' := Reschedule(m);
    RescheduleSwitches(m);
    SwitchSane(m, r');
    forall i | 0 <= i < MAX_THREADS
      ensures i + 1 != id && r'.current == id ==> ThreadFine(r'.threads[i], i, r'.current)
      ensures r'.threads[i].inUse ==> r'.threads[i].priority != MINUS_ONE
    {
      assert ThreadSwitched(m, i, m.threads[i], r'.threads[i], r'.current);
      if i + 1 != id { assert ThreadFine(r.threads[i], i, r.current); }
    }
    assert ThreadSwitched(m, id - 1, m.threads[id - 1], r'.threads[id - 1], r'.current);
    assert ThreadFine(r'.threads[id - 1], id - 1, r'.current) == (r'.current == id);
  }

  /** In every run a thread that has suspended itself and gets the processor back has the registers
      it had saved before, wherever that was. */
  lemma SelfSuspendedResumes(s: State, t: Tcb, r: State, es: seq<Event>)
    requires Sane(s) && s.current != 0 && t == s.threads[s.current - 1] && r == Step(s, Enter(Suspend(s.current)))
    requires Away(r, es, s.current - 1) && After(r, es).current == s.current
    ensures After(r, es).cpu == t.regs
  {
    SelfSuspendShows(s, r);
    ComesBackWith(r, es, s.current - 1, t.regs);
  }

  lemma ComesBackWith(r: State, es: seq<Event>, i: nat, regs: Regs)
    requires i < MAX_THREADS && Sane(r) && View(r, i) == regs && Away(r, es, i) && After(r, es).current == i + 1
    ensures After(r, es).cpu == regs
  {
    ReturnsTo(r, es, i);
  }

  lemma SelfSuspendShows(s: State, r: State)
    requires Sane(s) && s.current != 0 && r == Step(s, Enter(Suspend(s.current)))
    ensures Sane(r) && View(r, s.current - 1) == s.threads[s.current - 1].regs
  {
    RootSteady(s);
    SelfSuspendKeepsReturnIff(s);
    StepSane(s, Enter(Suspend(s.current)));
  }
}
