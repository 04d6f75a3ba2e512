/** What a thread record remembers over a run: whether its thread exists, lives and is suspended, the entry
    point it was created with, the priority it was last given, and the wakeups still owed to it. */
module ThreadHistory {
  import opened Words
  import opened ThreadState
  import opened ThreadSafety

  /** Waits in SleepThread, and is not suspended. */
  predicate Asleep(t: Tcb) { t.inUse && t.phase == Wait && !t.suspended && t.waitKind == OnSleep }

  /** The life of a thread: made dormant, alive from its start to its end, and then dormant again or
      gone. */
  datatype Life = Absent | Resting | Alive(suspended: bool)

  function LifeOf(t: Tcb): Life {
    if !t.inUse then Absent else if t.phase == Dormant then Resting else Alive(t.suspended)
  }

  /** A dormant thread is not suspended, and the current one runs. */
  predicate Proper(s: State, i: nat)
    requires i < MAX_THREADS
  {
    Calm(s.threads[i]) && (s.current == i + 1 ==> s.threads[i].Is(Run))
  }

  predicate Calm(t: Tcb) { t.inUse && t.phase == Dormant ==> !t.suspended }

  // ---------------------------------------------------------------------------
  // One gate
  // ---------------------------------------------------------------------------

  /** What a gate makes of the life t of thread i. */
  function Lives(t: Life, s: State, c: Call, i: nat): Life
    requires i < MAX_THREADS
  {
    match c
    case Create(_, size, _) => if Makes(s, size, i) then Resting else t
    case Delete(id) => if id == i + 1 && t == Resting then Absent else t
    case Start(id, _, _) => if id == i + 1 && t == Resting then Alive(false) else t
    case Exit(delete) => if s.current != i + 1 then t else if delete then Absent else Resting
    case Terminate(id) => if id == i + 1 && s.current != id && t != Absent then Resting else t
    case Suspend(id) => if id == i + 1 && t.Alive? then Alive(true) else t
    case Resume(id) => if id == i + 1 && t.Alive? then Alive(false) else t
    case _ => t
  }

  /** CreateThread has room for a stack of this size, and record i is the first free one. */
  predicate Makes(s: State, size: Word, i: nat)
    requires i < MAX_THREADS
  {
    && !s.threads[i].inUse && (forall j | 0 <= j < i :: s.threads[j].inUse)
    && s.stackNext >= Plus(ARENA_BOTTOM, if size < 0x100 then 0x100 else size)
  }

  /** The wakeups owed to thread i after a gate. */
  function Owed(s: State, c: Call, i: nat): Word
    requires i < MAX_THREADS
  {
    var t := s.threads[i];
    if c == Wakeup(i + 1) && !Asleep(t) then Plus(t.wakeups, 1)
    else if c == Sleep && s.current == i + 1 && t.wakeups > 0 then t.wakeups - 1
    else if c == Cancel(i + 1) then 0
    else t.wakeups
  }

  /** A gate changes these fields of thread i only if it is meant to. */
  ghost predicate FieldsKept(s: State, c: Call, i: nat, t': Tcb)
    requires i < MAX_THREADS
  {
    var t := s.threads[i];
    && LifeOf(t') == Lives(LifeOf(t), s, c, i) && Calm(t')
    && (t'.inUse ==>
      if c.Create? && !t.inUse then t'.priority == c.priority && t'.stack.entry == c.entry && t'.wakeups == 0
      else
        && t.inUse && t'.stack == t.stack && t'.wakeups == Owed(s, c, i)
        && t'.priority == (if c.SetPriority? && c.id == i + 1 then c.priority else t.priority)
        && (!(c.Delay? && s.current == i + 1) ==> t'.deadline == t.deadline)
        && (!(c.Await? && s.current == i + 1) ==> t'.want == t.want))
  }

  /** Nothing of it changes. */
  ghost predicate Same(t: Tcb, t': Tcb) {
    && LifeOf(t') == LifeOf(t) && Calm(t')
    && (t'.inUse ==>
      && t.inUse && t'.stack == t.stack && t'.wakeups == t.wakeups && t'.priority == t.priority
      && t'.deadline == t.deadline && t'.want == t.want)
  }

  lemma CreateFields(s: State, c: Call, i: nat)
    requires c.Create? && i < MAX_THREADS && Proper(s, i)
    ensures FieldsKept(s, c, i, Effect(s, c).state.threads[i])
  {
    assert FirstFree(s.threads) == i + 1 ==> !s.threads[i].inUse;
  }

  lemma StartFields(s: State, c: Call, i: nat)
    requires c.Start? && i < MAX_THREADS && Proper(s, i)
    ensures FieldsKept(s, c, i, Effect(s, c).state.threads[i])
  {}

  lemma RotateFields(s: State, c: Call, i: nat)
    requires c.Rotate? && i < MAX_THREADS && Proper(s, i)
    ensures FieldsKept(s, c, i, Effect(s, c).state.threads[i])
  {}

  lemma EndFields(s: State, c: Call, i: nat)
    requires (c.Delete? || c.Exit?) && i < MAX_THREADS && Proper(s, i)
    ensures FieldsKept(s, c, i, Effect(s, c).state.threads[i])
  {}

  lemma TellFields(s: State, c: Call, i: nat)
    requires (c.Terminate? || c.SetPriority?) && i < MAX_THREADS && Proper(s, i)
    ensures FieldsKept(s, c, i, Effect(s, c).state.threads[i])
  {}

  lemma DelayFields(s: State, c: Call, i: nat)
    requires c.Delay? && i < MAX_THREADS && Proper(s, i)
    ensures FieldsKept(s, c, i, Effect(s, c).state.threads[i])
  {}

  lemma ReleaseFields(s: State, c: Call, i: nat)
    requires c.Release? && i < MAX_THREADS && Proper(s, i)
    ensures FieldsKept(s, c, i, Effect(s, c).state.threads[i])
  {}

  lemma WakeupFields(s: State, c: Call, i: nat)
    requires c.Wakeup? && i < MAX_THREADS && Proper(s, i)
    ensures FieldsKept(s, c, i, Effect(s, c).state.threads[i])
  {}

  lemma SleepFields(s: State, c: Call, i: nat)
    requires c.Sleep? && i < MAX_THREADS && Proper(s, i)
    ensures FieldsKept(s, c, i, Effect(s, c).state.threads[i])
  {}

  lemma ResumeFields(s: State, c: Call, i: nat)
    requires c.Resume? && i < MAX_THREADS && Proper(s, i)
    ensures FieldsKept(s, c, i, Effect(s, c).state.threads[i])
  {}

  lemma CancelFields(s: State, c: Call, i: nat)
    requires (c.Cancel? || c.Suspend?) && i < MAX_THREADS && Proper(s, i)
    ensures FieldsKept(s, c, i, Effect(s, c).state.threads[i])
  {}

  lemma PostFields(s: State, id: int, w: nat, i: nat)
    requires 1 <= id <= MAX_SEMAS && w <= MAX_THREADS && i < MAX_THREADS && Calm(s.threads[i])
    requires w != 0 ==> s.threads[w - 1].Waits(OnSema, id)
    ensures Same(s.threads[i], PostTo(s, id, w).threads[i])
  {}

  lemma SignalFields(s: State, c: Call, i: nat)
    requires c.Signal? && i < MAX_THREADS && Proper(s, i)
    ensures FieldsKept(s, c, i, Effect(s, c).state.threads[i])
  {
    if s.HasSema(c.id) { PostFields(s, c.id, BestWaiter(s.threads, c.id, s.semas[c.id - 1].ByPriority()), i); }
    assert Effect(s, c).state == Post(s, c.id);
  }

  lemma JoinFields(s: State, id: int, i: nat)
    requires 1 <= id <= MAX_SEMAS && i < MAX_THREADS && Proper(s, i)
    ensures Same(s.threads[i], JoinSema(s, id).threads[i])
  {}

  lemma AcquireFields(s: State, c: Call, i: nat)
    requires c.Acquire? && i < MAX_THREADS && Proper(s, i)
    ensures FieldsKept(s, c, i, Effect(s, c).state.threads[i])
  {
    if s.HasSema(c.id) { JoinFields(s, c.id, i); }
  }

  lemma SemaFields(s: State, c: Call, i: nat)
    requires (c.NewSema? || c.DropSema? || c.Poll?) && i < MAX_THREADS && Proper(s, i)
    ensures FieldsKept(s, c, i, Effect(s, c).state.threads[i])
  {}

  lemma {:induction false} WakeFlagFields(s: State, id: int, n: nat, i: nat)
    requires 1 <= id <= MAX_FLAGS && n <= MAX_THREADS && i < MAX_THREADS && Calm(s.threads[i])
    ensures Same(s.threads[i], WakeFlag(s, id, n).threads[i])
  {
    if n > 0 { WakeFlagFields(s, id, n - 1, i); }
  }

  lemma {:induction false} ReleaseAllFields(s: State, id: int, n: nat, i: nat)
    requires n <= MAX_THREADS && i < MAX_THREADS && Calm(s.threads[i])
    ensures Same(s.threads[i], ReleaseAll(s, id, n).threads[i])
  {
    if n > 0 { ReleaseAllFields(s, id, n - 1, i); }
  }

  lemma {:induction false} DelayedFields(s: State, now: nat, n: nat, i: nat)
    requires n <= MAX_THREADS && i < MAX_THREADS && Calm(s.threads[i])
    ensures Same(s.threads[i], WakeDelayed(s, now, n).threads[i])
  {
    if n > 0 { DelayedFields(s, now, n - 1, i); }
  }

  lemma RaiseFields(s: State, c: Call, i: nat)
    requires c.Raise? && i < MAX_THREADS && Proper(s, i)
    ensures FieldsKept(s, c, i, Effect(s, c).state.threads[i])
  {
    if s.HasFlag(c.id) { WakeFlagFields(Raised(s, c.id, c.bits), c.id, MAX_THREADS, i); }
  }

  lemma DropFields(s: State, c: Call, i: nat)
    requires c.DropFlag? && i < MAX_THREADS && Proper(s, i)
    ensures FieldsKept(s, c, i, Effect(s, c).state.threads[i])
  {
    ReleaseAllFields(s, c.id, MAX_THREADS, i);
  }

  lemma AwaitFields(s: State, c: Call, i: nat)
    requires c.Await? && i < MAX_THREADS && Proper(s, i)
    ensures FieldsKept(s, c, i, Effect(s, c).state.threads[i])
  {}

  lemma FlagFields(s: State, c: Call, i: nat)
    requires (c.NewFlag? || c.Keep? || c.Test?) && i < MAX_THREADS && Proper(s, i)
    ensures FieldsKept(s, c, i, Effect(s, c).state.threads[i])
  {}

  lemma EffectFields(s: State, c: Call, i: nat)
    requires i < MAX_THREADS && Proper(s, i)
    ensures FieldsKept(s, c, i, Effect(s, c).state.threads[i])
  {
    match c {
      case Create(_, _, _) => CreateFields(s, c, i);
      case Start(_, _, _) => StartFields(s, c, i);
      case Rotate(_) => RotateFields(s, c, i);
      case Delete(_) => EndFields(s, c, i);
      case Exit(_) => EndFields(s, c, i);
      case Terminate(_) => TellFields(s, c, i);
      case SetPriority(_, _) => TellFields(s, c, i);
      case Delay(_, _) => DelayFields(s, c, i);
      case Release(_) => ReleaseFields(s, c, i);
      case Wakeup(_) => WakeupFields(s, c, i);
      case Sleep => SleepFields(s, c, i);
      case Resume(_) => ResumeFields(s, c, i);
      case Cancel(_) => CancelFields(s, c, i);
      case Suspend(_) => CancelFields(s, c, i);
      case Signal(_, _) => SignalFields(s, c, i);
      case Acquire(_) => AcquireFields(s, c, i);
      case NewSema(_, _, _) => SemaFields(s, c, i);
      case DropSema(_) => SemaFields(s, c, i);
      case Poll(_) => SemaFields(s, c, i);
      case Raise(_, _, _) => RaiseFields(s, c, i);
      case DropFlag(_) => DropFields(s, c, i);
      case Await(_, _, _, _) => AwaitFields(s, c, i);
      case NewFlag(_, _) => FlagFields(s, c, i);
      case Keep(_, _) => FlagFields(s, c, i);
      case Test(_, _, _, _) => FlagFields(s, c, i);
    }
  }

  lemma SettleFields(o: Outcome, i: nat)
    requires i < MAX_THREADS && Calm(o.state.threads[i])
    ensures var t, t' := o.state.threads[i], Settle(o).threads[i];
            Same(t, t') && t'.inUse == t.inUse
  {
    if o.Switch? {
      RescheduleSwitches(o.state);
      var r := Reschedule(o.state);
      assert ThreadSwitched(o.state, i, o.state.threads[i], r.threads[i], r.current);
      PickRuns(o.state);
    }
  }

  lemma RootProper(s: State, i: nat)
    requires i < MAX_THREADS && Sane(s) && Calm(s.threads[i])
    ensures Proper(EnsureRoot(s), i)
  {}

  lemma GateFields(s: State, c: Call, i: nat)
    requires i < MAX_THREADS && Sane(s) && Calm(s.threads[i])
    ensures FieldsKept(EnsureRoot(s), c, i, Step(s, Enter(c)).threads[i])
  {
    RootProper(s, i);
    SettledFields(EnsureRoot(s), c, i, Step(s, Enter(c)));
  }

  lemma SettledFields(s: State, c: Call, i: nat, r: State)
    requires i < MAX_THREADS && Proper(s, i) && r == Settle(Effect(s, c))
    ensures FieldsKept(s, c, i, r.threads[i])
  {
    EffectFields(s, c, i);
    SettleFields(Effect(s, c), i);
  }

  lemma ClockFields(s: State, now: nat, i: nat)
    requires i < MAX_THREADS && Calm(s.threads[i])
    ensures Same(s.threads[i], Step(s, Clock(now)).threads[i])
  {
    DelayedFields(s, now, MAX_THREADS, i);
    SettleFields(Tick(s, now), i);
  }

  /** In every run a dormant thread is not suspended. */
  lemma {:induction false} RunCalm(es: seq<Event>, i: nat)
    requires i < MAX_THREADS
    ensures Sane(After(INITIAL, es)) && Calm(After(INITIAL, es).threads[i])
  {
    RunSane(es);
    if es != [] {
      var n := |es| - 1;
      RunCalm(es[..n], i);
      var s := After(INITIAL, es[..n]);
      match es[n] {
        case Enter(c) => GateFields(s, c, i);
        case Clock(now) => ClockFields(s, now, i);
        case Execute(regs) =>
      }
    }
  }

  // ---------------------------------------------------------------------------
  // Lives
  // ---------------------------------------------------------------------------

  /** The life of thread id over a run, from the calls alone; thread 1 comes to life with the first. */
  ghost function LifeAfter(s0: State, es: seq<Event>, id: int): Life
    requires 1 <= id <= MAX_THREADS
  {
    if es == [] then Absent else
    var n := |es| - 1;
    var s, t := After(s0, es[..n]), LifeAfter(s0, es[..n], id);
    if !es[n].Enter? then t
    else Lives(if s.threadCount == 0 && id == 1 then Alive(false) else t, EnsureRoot(s), es[n].call, id - 1)
  }

  lemma RootLife(s: State, id: int)
    requires 1 <= id <= MAX_THREADS && Sane(s)
    ensures LifeOf(EnsureRoot(s).threads[id - 1]) ==
            if s.threadCount == 0 && id == 1 then Alive(false) else LifeOf(s.threads[id - 1])
  {}

  /** In every run a thread exists, lives and is suspended exactly as the calls so far say. */
  lemma {:induction false} RunLives(es: seq<Event>, id: int)
    requires 1 <= id <= MAX_THREADS
    ensures LifeOf(After(INITIAL, es).threads[id - 1]) == LifeAfter(INITIAL, es, id)
  {
    if es != [] {
      var n := |es| - 1;
      var s := After(INITIAL, es[..n]);
      RunLives(es[..n], id);
      RunCalm(es[..n], id - 1);
      match es[n] {
        case Enter(c) =>
          RootLife(s, id);
          GateFields(s, c, id - 1);
        case Clock(now) => ClockFields(s, now, id - 1);
        case Execute(regs) =>
      }
    }
  }

  // ---------------------------------------------------------------------------
  // The ledger of wakeups
  // ---------------------------------------------------------------------------

  /** WakeupThread calls that found a thread not asleep, SleepThread calls it came through at once, and
      what CancelWakeupThread has reported. */
  datatype Credits = Credits(stored: nat, passed: nat, cancelled: nat) {
    function Balance(): Word { Wrap(stored - passed - cancelled) }
  }

  const NONE := Credits(0, 0, 0)

  /** How a gate, called in s and leading to r, enters the ledger of thread id. */
  ghost function Entered(v: Credits, s: State, c: Call, r: State, id: int): Credits
    requires 1 <= id <= MAX_THREADS
  {
    var t := s.threads[id - 1];
    if c.Create? && !t.inUse && r.threads[id - 1].inUse then NONE
    else if c == Wakeup(id) && t.inUse && !Asleep(t) then v.(stored := v.stored + 1)
    else if c == Sleep && s.current == id && r.threads[id - 1].phase != Wait then v.(passed := v.passed + 1)
    else if c == Cancel(id) && t.inUse then v.(cancelled := v.cancelled + r.cpu.gpr[2])
    else v
  }

  /** The ledger of thread id over a run; the record of the first thread appears with the first gate. */
  ghost function LedgerAfter(s0: State, es: seq<Event>, id: int): Credits
    requires 1 <= id <= MAX_THREADS
  {
    if es == [] then NONE else
    var n := |es| - 1;
    var s, v, e := After(s0, es[..n]), LedgerAfter(s0, es[..n], id), es[n];
    if !e.Enter? then v
    else Entered(if s.threads[id - 1].inUse then v else NONE, EnsureRoot(s), e.call, Step(s, e), id)
  }

  /** A thread's count is what its ledger leaves. */
  ghost predicate Credited(s: State, v: Credits, id: int)
    requires 1 <= id <= MAX_THREADS
  {
    s.threads[id - 1].inUse ==> s.threads[id - 1].wakeups == v.Balance()
  }

  lemma StoredBalance(v: Credits)
    ensures v.(stored := v.stored + 1).Balance() == Plus(v.Balance(), 1)
  {
    PlusPlus(0, v.stored - v.passed - v.cancelled, 1);
  }

  lemma PassedBalance(v: Credits)
    requires v.Balance() > 0
    ensures v.(passed := v.passed + 1).Balance() == v.Balance() - 1
  {}

  lemma CancelledBalance(v: Credits, n: Word)
    requires n == v.Balance()
    ensures v.(cancelled := v.cancelled + n).Balance() == 0
  {}

  lemma SleepOutcome(s: State)
    requires Steady(s) && s.current != 0
    ensures var t := Settle(SleepThread(s)).threads[s.current - 1];
            if s.threads[s.current - 1].wakeups == 0 then Asleep(t) else t.phase == Run
    ensures s.threads[s.current - 1].wakeups > 0 ==>
              var r := Settle(SleepThread(s)); r.current == s.current && r.cpu == s.cpu.Returned(0)
  {
    var i, m := s.current - 1, SleepThread(s).state;
    if s.threads[i].wakeups == 0 {
      RescheduleSwitches(m);
      assert ThreadSwitched(m, i, m.threads[i], Reschedule(m).threads[i], Reschedule(m).current);
      PickRuns(m);
    }
  }

  lemma CancelOutcome(s: State, id: int)
    requires s.HasThread(id)
    ensures Settle(CancelWakeup(s, id)).cpu == s.cpu.Returned(s.threads[id - 1].wakeups)
  {}

  lemma GateCredited(s: State, c: Call, v: Credits, id: int, r: State)
    requires 1 <= id <= MAX_THREADS && Steady(s) && Calm(s.threads[id - 1])
    requires Credited(s, v, id) && r == Settle(Effect(s, c))
    ensures Credited(r, Entered(v, s, c, r, id), id)
  {
    SettledFields(s, c, id - 1, r);
    GateReports(s, c, id, r);
    EntryCredited(s, c, v, id, r);
  }

  lemma GateReports(s: State, c: Call, id: int, r: State)
    requires 1 <= id <= MAX_THREADS && Steady(s) && r == Settle(Effect(s, c))
    ensures c == Sleep && s.current == id ==> (r.threads[id - 1].phase == Wait <==> s.threads[id - 1].wakeups == 0)
    ensures c == Cancel(id) && s.threads[id - 1].inUse ==> r.cpu.gpr[2] == s.threads[id - 1].wakeups
  {
    if c == Sleep && s.current == id { SleepOutcome(s); }
    if c == Cancel(id) && s.HasThread(id) { CancelOutcome(s, id); }
  }

  lemma EntryCredited(s: State, c: Call, v: Credits, id: int, r: State)
    requires 1 <= id <= MAX_THREADS && Credited(s, v, id) && FieldsKept(s, c, id - 1, r.threads[id - 1])
    requires c == Sleep && s.current == id ==> (r.threads[id - 1].phase == Wait <==> s.threads[id - 1].wakeups == 0)
    requires c == Cancel(id) && s.threads[id - 1].inUse ==> r.cpu.gpr[2] == s.threads[id - 1].wakeups
    ensures Credited(r, Entered(v, s, c, r, id), id)
  {
    StoredBalance(v);
    if v.Balance() > 0 { PassedBalance(v); }
    CancelledBalance(v, v.Balance());
  }

  lemma RootCredited(s: State, v: Credits, id: int)
    requires 1 <= id <= MAX_THREADS && Sane(s) && Credited(s, v, id)
    ensures Credited(EnsureRoot(s), if s.threads[id - 1].inUse then v else NONE, id)
  {}

  lemma EnterCredited(s: State, s0: State, c: Call, v: Credits, id: int, r: State)
    requires 1 <= id <= MAX_THREADS && Sane(s) && Calm(s.threads[id - 1]) && Credited(s, v, id)
    requires s0 == EnsureRoot(s) && r == Settle(Effect(s0, c))
    ensures Credited(r, Entered(if s.threads[id - 1].inUse then v else NONE, s0, c, r, id), id)
  {
    RootSteady(s);
    RootCredited(s, v, id);
    GateCredited(s0, c, if s.threads[id - 1].inUse then v else NONE, id, r);
  }

  lemma StepCredited(s: State, e: Event, v: Credits, id: int)
    requires 1 <= id <= MAX_THREADS && Sane(s) && Calm(s.threads[id - 1]) && Credited(s, v, id)
    ensures Credited(Step(s, e),
              if !e.Enter? then v
              else Entered(if s.threads[id - 1].inUse then v else NONE, EnsureRoot(s), e.call, Step(s, e), id), id)
  {
    match e {
      case Enter(c) => EnterCredited(s, EnsureRoot(s), c, v, id, Step(s, e));
      case Clock(now) => ClockFields(s, now, id - 1);
      case Execute(regs) =>
    }
  }

  /** In every run from reset, the wakeups owed to a thread are those that found it not asleep since it was
      made, less the sleeps it came through, less what was cancelled, modulo 2^32. */
  lemma {:induction false} RunCredited(es: seq<Event>, id: int)
    requires 1 <= id <= MAX_THREADS
    ensures Credited(After(INITIAL, es), LedgerAfter(INITIAL, es, id), id)
  {
    if es != [] {
      var n := |es| - 1;
      RunCredited(es[..n], id);
      RunCalm(es[..n], id - 1);
      StepCredited(After(INITIAL, es[..n]), es[n], LedgerAfter(INITIAL, es[..n], id), id);
    }
  }

  // ---------------------------------------------------------------------------
  // What the ledger decides
  // ---------------------------------------------------------------------------

  /** The ledger as a gate that comes next finds it. */
  ghost function Found(s0: State, es: seq<Event>, id: int): Credits
    requires 1 <= id <= MAX_THREADS
  {
    if After(s0, es).threads[id - 1].inUse then LedgerAfter(s0, es, id) else NONE
  }

  lemma FoundCredited(es: seq<Event>, id: int)
    requires 1 <= id <= MAX_THREADS && EnsureRoot(After(INITIAL, es)).threads[id - 1].inUse
    ensures EnsureRoot(After(INITIAL, es)).threads[id - 1].wakeups == Found(INITIAL, es, id).Balance()
    ensures Steady(EnsureRoot(After(INITIAL, es)))
  {
    RunCredited(es, id);
    RunSane(es);
    RootFound(After(INITIAL, es), LedgerAfter(INITIAL, es, id), id);
  }

  lemma RootFound(s: State, v: Credits, id: int)
    requires 1 <= id <= MAX_THREADS && Sane(s) && Credited(s, v, id) && EnsureRoot(s).threads[id - 1].inUse
    ensures EnsureRoot(s).threads[id - 1].wakeups == (if s.threads[id - 1].inUse then v else NONE).Balance()
    ensures Steady(EnsureRoot(s))
  {
    RootCredited(s, v, id);
    RootSteady(s);
  }

  /** After any run, SleepThread blocks its caller exactly if no wakeup is owed to it, and otherwise
      returns to it at once. */
  lemma SleepBlocksIff(es: seq<Event>, id: int)
    requires 1 <= id <= MAX_THREADS && EnsureRoot(After(INITIAL, es)).current == id
    ensures var s, r := EnsureRoot(After(INITIAL, es)), After(INITIAL, es + [Enter(Sleep)]);
            && (Asleep(r.threads[id - 1]) <==> Found(INITIAL, es, id).Balance() == 0)
            && (Found(INITIAL, es, id).Balance() > 0 ==> r.current == id && r.cpu == s.cpu.Returned(0))
  {
    var s := EnsureRoot(After(INITIAL, es));
    RunSane(es);
    RootSteady(After(INITIAL, es));
    FoundCredited(es, id);
    LedgerSnoc(INITIAL, es, Enter(Sleep), id);
    SleepOutcome(s);
  }

  /** CancelWakeupThread reports exactly what is owed, and leaves nothing. */
  lemma CancelReports(es: seq<Event>, id: int)
    requires EnsureRoot(After(INITIAL, es)).HasThread(id)
    ensures After(INITIAL, es + [Enter(Cancel(id))]).cpu.gpr[2] == Found(INITIAL, es, id).Balance()
    ensures LedgerAfter(INITIAL, es + [Enter(Cancel(id))], id).Balance() == 0
  {
    FoundCredited(es, id);
    LedgerSnoc(INITIAL, es, Enter(Cancel(id)), id);
    CancelStep(After(INITIAL, es), id, Step(After(INITIAL, es), Enter(Cancel(id))), Found(INITIAL, es, id));
  }

  lemma CancelStep(s: State, id: int, r: State, v: Credits)
    requires EnsureRoot(s).HasThread(id) && r == Step(s, Enter(Cancel(id)))
    requires EnsureRoot(s).threads[id - 1].wakeups == v.Balance()
    ensures r.cpu.gpr[2] == v.Balance() && Entered(v, EnsureRoot(s), Cancel(id), r, id).Balance() == 0
  {
    CancelOutcome(EnsureRoot(s), id);
    CancelledBalance(v, v.Balance());
  }

  lemma LedgerSnoc(s0: State, es: seq<Event>, e: Event, id: int)
    requires 1 <= id <= MAX_THREADS && e.Enter?
    ensures var s := After(s0, es);
            && After(s0, es + [e]) == Step(s, e)
            && LedgerAfter(s0, es + [e], id) == Entered(Found(s0, es, id), EnsureRoot(s), e.call, Step(s, e), id)
  {
    assert (es + [e])[..|es|] == es;
  }

  /** WakeupThread readies a thread exactly if it is asleep in sight, and then owes it nothing more. */
  lemma WakeupReadiesIff(s: State, id: int)
    requires s.HasThread(id)
    ensures var t, t' := s.threads[id - 1], WakeupThread(s, id).state.threads[id - 1];
            && (Asleep(t) ==> t'.phase == Ready && t'.waitKind == NoWait && t'.seqNo == s.nextSeq && t'.wakeups == t.wakeups)
            && (!Asleep(t) ==> t' == t.(wakeups := Plus(t.wakeups, 1)))
  {}

  // ---------------------------------------------------------------------------
  // Entry point and priority
  // ---------------------------------------------------------------------------

  /** What CreateThread and the last ChangeThreadPriority said; thread 1 starts with priority 64. */
  datatype Said = Said(entry: Word, priority: Word)

  function Says(x: Said, s: State, e: Event, id: int): Said
    requires 1 <= id <= MAX_THREADS
  {
    if !e.Enter? then x else
    var before := if s.threads[id - 1].inUse then x else Said(0, 64);
    match e.call
    case Create(entry, _, priority) => if EnsureRoot(s).threads[id - 1].inUse then before else Said(entry, priority)
    case SetPriority(k, priority) => if k == id then before.(priority := priority) else before
    case _ => before
  }

  ghost function SaidAfter(s0: State, es: seq<Event>, id: int): Said
    requires 1 <= id <= MAX_THREADS
  {
    if es == [] then Said(0, 64) else
    var n := |es| - 1;
    Says(SaidAfter(s0, es[..n], id), After(s0, es[..n]), es[n], id)
  }

  ghost predicate AsSaid(t: Tcb, x: Said) { t.inUse ==> t.stack.entry == x.entry && t.priority == x.priority }

  lemma StepAsSaid(s: State, e: Event, x: Said, id: int)
    requires 1 <= id <= MAX_THREADS && Sane(s) && Calm(s.threads[id - 1]) && AsSaid(s.threads[id - 1], x)
    ensures AsSaid(Step(s, e).threads[id - 1], Says(x, s, e, id))
  {
    match e {
      case Enter(c) =>
        RootAsSaid(s, x, id);
        GateFields(s, c, id - 1);
      case Clock(now) => ClockFields(s, now, id - 1);
      case Execute(regs) =>
    }
  }

  lemma RootAsSaid(s: State, x: Said, id: int)
    requires 1 <= id <= MAX_THREADS && Sane(s) && AsSaid(s.threads[id - 1], x)
    ensures AsSaid(EnsureRoot(s).threads[id - 1], if s.threads[id - 1].inUse then x else Said(0, 64))
  {}

  /** In every run a thread has the entry point it was made with and the priority it was last given. */
  lemma {:induction false} RunAsSaid(es: seq<Event>, id: int)
    requires 1 <= id <= MAX_THREADS
    ensures AsSaid(After(INITIAL, es).threads[id - 1], SaidAfter(INITIAL, es, id))
  {
    if es != [] {
      var n := |es| - 1;
      RunAsSaid(es[..n], id);
      RunCalm(es[..n], id - 1);
      StepAsSaid(After(INITIAL, es[..n]), es[n], SaidAfter(INITIAL, es[..n], id), id);
    }
  }
}
