/** Exactly when the current thread is the only one with status RUN. */
module ThreadRunners {
  import opened Words
  import opened ThreadState
  import opened ThreadSafety

  /** Whoever has status RUN is current. */
  ghost predicate OnlyCurrentRuns(s: State) {
    forall i | 0 <= i < MAX_THREADS && s.threads[i].Is(Run) :: i + 1 == s.current
  }

  /** A gate resumes a thread that suspended itself while running, and the scan that follows picks
      another. */
  ghost predicate ComesBackBeside(s: State, c: Call) {
    && c.Resume? && s.HasThread(c.id)
    && var t := s.threads[c.id - 1];
       t.phase == Run && t.suspended && Pick(s.threads[c.id - 1 := t.(suspended := false)]) != c.id
  }

  /** The scan passes a runnable thread over exactly if another goes before it, or it has both priority
      and ready number 0xFFFFFFFF. */
  lemma PassedOverIff(ts: Threads, id: ThreadRef)
    requires id != 0 && ts[id - 1].Runnable()
    ensures Pick(ts) != id <==>
            || Unseen(ts[id - 1])
            || exists j | 0 <= j < MAX_THREADS && j != id - 1 :: ts[j].Runnable() && Precedes(ts, j, id - 1)
  {
    PickIsBest(ts);
    if Pick(ts) != id && Pick(ts) > 0 {
      assert ts[Pick(ts) - 1].Runnable() && Precedes(ts, Pick(ts) - 1, id - 1);
    }
  }

  /** A reschedule of this state finds nobody, although the caller is still in RUN. */
  ghost predicate FindsNobody(m: State) {
    m.current != 0 && m.threads[m.current - 1].Is(Run) && Pick(m.threads) == 0
  }

  /** That is when the caller and all other runnable threads have both priority and ready number
      0xFFFFFFFF. */
  lemma FindsNobodyIff(m: State)
    ensures FindsNobody(m) <==>
            && m.current != 0 && m.threads[m.current - 1].Is(Run)
            && forall i | 0 <= i < MAX_THREADS && m.threads[i].Runnable() :: Unseen(m.threads[i])
  {
    PickIsBest(m.threads);
    PickRuns(m);
  }

  ghost predicate Splits(s: State, e: Event) {
    match e
    case Enter(c) =>
      var s0 := EnsureRoot(s);
      ComesBackBeside(s0, c) || (Effect(s0, c).Switch? && FindsNobody(Effect(s0, c).state))
    case Clock(now) => Tick(s, now).Switch? && FindsNobody(Tick(s, now).state)
    case Execute(_) => false
  }

  // ---------------------------------------------------------------------------
  // One event
  // ---------------------------------------------------------------------------

  /** A thread other than the caller is in RUN after a gate only if it was resumed there. */
  lemma OnlyResumed(s: State, m: State, c: Call, i: nat)
    requires OnlyCurrentRuns(s) && Kept(s, m, c) && i < MAX_THREADS && i + 1 != s.current && m.threads[i].Is(Run)
    ensures c == Resume(i + 1)
  {
    assert ThreadKept(s, i, m.threads[i], c);
  }

  /** Who else is in RUN before a switch stays there beside the one picked. */
  ghost predicate StaysBeside(m: State, id: int) {
    1 <= id <= MAX_THREADS && id != m.current && m.threads[id - 1].Is(Run) && Pick(m.threads) != id
  }

  /** A thread in RUN after a switch was picked, or was in RUN before and not the caller set aside. */
  lemma RunsAfterSwitch(m: State, r: State, i: nat)
    requires Switched(m, r) && i < MAX_THREADS && i + 1 != r.current
    ensures r.threads[i].Is(Run) <==> m.threads[i].Is(Run) && (i + 1 == m.current ==> r.current == 0)
  {
    assert ThreadSwitched(m, i, m.threads[i], r.threads[i], r.current);
  }

  lemma SwitchSplits(m: State, r: State, id: int)
    requires Switched(m, r) && (FindsNobody(m) || StaysBeside(m, id))
    ensures !OnlyCurrentRuns(r)
  {
    RunsAfterSwitch(m, r, if FindsNobody(m) then m.current - 1 else id - 1);
  }

  lemma SwitchUnites(s: State, m: State, r: State, c: Call)
    requires OnlyCurrentRuns(s) && Kept(s, m, c) && Switched(m, r)
    requires !FindsNobody(m) && !(c.Resume? && StaysBeside(m, c.id))
    ensures OnlyCurrentRuns(r)
  {
    forall i | 0 <= i < MAX_THREADS && r.threads[i].Is(Run) ensures i + 1 == r.current {
      if i + 1 != r.current {
        RunsAfterSwitch(m, r, i);
        if i + 1 != m.current { OnlyResumed(s, m, c, i); }
      }
    }
  }

  lemma ResumeBesideIff(s: State, id: int)
    requires Sane(s) && OnlyCurrentRuns(s)
    ensures StaysBeside(ResumeThread(s, id).state, id) <==> ComesBackBeside(s, Resume(id))
  {
    var m := ResumeThread(s, id).state;
    if s.HasThread(id) && s.threads[id - 1].suspended {
      assert s.threads[id - 1].phase == Run ==> m.threads == s.threads[id - 1 := s.threads[id - 1].(suspended := false)];
    } else if 1 <= id <= MAX_THREADS && id != s.current {
      assert !s.threads[id - 1].Is(Run);
    }
  }

  /** A gate that does not switch. */
  lemma StayUnites(s: State, m: State, c: Call)
    requires OnlyCurrentRuns(s) && Kept(s, m, c) && !c.Resume?
    ensures OnlyCurrentRuns(m)
  {
    forall i | 0 <= i < MAX_THREADS && m.threads[i].Is(Run) ensures i + 1 == m.current {
      if i + 1 != s.current { OnlyResumed(s, m, c, i); }
    }
  }

  lemma SettleSplitsIff(s: State, o: Outcome, c: Call)
    requires OnlyCurrentRuns(s) && Kept(s, o.state, c) && (c.Resume? ==> o.Switch?)
    ensures OnlyCurrentRuns(Settle(o)) <==>
            !(o.Switch? && (FindsNobody(o.state) || (c.Resume? && StaysBeside(o.state, c.id))))
  {
    match o {
      case Stay(m) => StayUnites(s, m, c);
      case Switch(m) =>
        RescheduleSwitches(m);
        if FindsNobody(m) || (c.Resume? && StaysBeside(m, c.id)) {
          SwitchSplits(m, Reschedule(m), if c.Resume? then c.id else 0);
        } else {
          SwitchUnites(s, m, Reschedule(m), c);
        }
    }
  }

  lemma GateSplitsIff(s: State, c: Call)
    requires Steady(s) && OnlyCurrentRuns(s)
    ensures OnlyCurrentRuns(Settle(Effect(s, c))) <==>
            !ComesBackBeside(s, c) && !(Effect(s, c).Switch? && FindsNobody(Effect(s, c).state))
  {
    EffectGood(s, c);
    if c.Resume? { ResumeBesideIff(s, c.id); }
    SettleSplitsIff(s, Effect(s, c), c);
  }

  lemma RootUnites(s: State)
    requires Sane(s) && OnlyCurrentRuns(s)
    ensures OnlyCurrentRuns(EnsureRoot(s))
  {
    var r := EnsureRoot(s);
    forall i | 0 <= i < MAX_THREADS && r.threads[i].Is(Run) ensures i + 1 == r.current {
      assert r.threads[i].inUse;
    }
  }

  lemma StepSplitsIff(s: State, e: Event)
    requires Sane(s) && OnlyCurrentRuns(s)
    ensures OnlyCurrentRuns(Step(s, e)) <==> !Splits(s, e)
  {
    match e {
      case Enter(c) =>
        RootSteady(s);
        RootUnites(s);
        GateSplitsIff(EnsureRoot(s), c);
      case Clock(now) =>
        if s.threadCount > 0 {
          TickKept(s, now);
          KeptRefl(s, Sleep);
          SettleSplitsIff(s, Tick(s, now), Sleep);
        }
      case Execute(regs) =>
    }
  }

  // ---------------------------------------------------------------------------
  // Runs
  // ---------------------------------------------------------------------------

  /** Whoever has status RUN is current, now and at all times before. */
  ghost predicate AlwaysOneRunner(s: State, es: seq<Event>) {
    OnlyCurrentRuns(After(s, es)) && (es != [] ==> AlwaysOneRunner(s, es[..|es| - 1]))
  }

  ghost predicate NeverSplits(s: State, es: seq<Event>) {
    es != [] ==>
      var n := |es| - 1;
      NeverSplits(s, es[..n]) && !Splits(After(s, es[..n]), es[n])
  }

  /** In a run from reset, every thread with status RUN is the current one throughout, if and only if
      no gate resumes a self-suspended thread that the scan then passes over, and no reschedule finds
      nobody while its caller is in RUN. */
  lemma {:induction false} OneRunnerIff(es: seq<Event>)
    ensures AlwaysOneRunner(INITIAL, es) <==> NeverSplits(INITIAL, es)
  {
    if es != [] {
      var n := |es| - 1;
      var s := After(INITIAL, es[..n]);
      OneRunnerIff(es[..n]);
      RunSane(es[..n]);
      if OnlyCurrentRuns(s) { StepSplitsIff(s, es[n]); }
    }
  }
}
