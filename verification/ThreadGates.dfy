/** What the callers of the gates see: the answer, when a gate refuses, when it gives the processor away,
    where a started thread begins, whom a rotation moves and when a delay ends. */
module ThreadGates {
  import opened Words
  import opened ThreadState
  import opened ThreadSafety
  import opened ThreadHistory
  import FlagLaws

  // ---------------------------------------------------------------------------
  // Answers
  // ---------------------------------------------------------------------------

  /** The object is missing or in no state for the call. */
  predicate Refuses(s: State, c: Call) {
    match c
    case Create(_, size, _) => forall i | 0 <= i < MAX_THREADS :: !Makes(s, size, i)
    case Delete(id) => !(s.HasThread(id) && s.threads[id - 1].phase == Dormant && !s.threads[id - 1].suspended)
    case Start(id, _, _) => !(s.HasThread(id) && s.threads[id - 1].phase == Dormant && !s.threads[id - 1].suspended)
    case Terminate(id) => !s.HasThread(id) || id == s.current
    case SetPriority(id, _) => !s.HasThread(id)
    case Release(id) => !(s.HasThread(id) && s.threads[id - 1].phase == Wait && !s.threads[id - 1].suspended)
    case Wakeup(id) => !s.HasThread(id)
    case Cancel(id) => !s.HasThread(id)
    case Suspend(id) => !(s.HasThread(id) && s.threads[id - 1].phase != Dormant)
    case Resume(id) => !(s.HasThread(id) && s.threads[id - 1].suspended)
    case NewSema(_, _, _) => forall i | 0 <= i < MAX_SEMAS :: s.semas[i].inUse
    case DropSema(id) => !s.HasSema(id)
    case Signal(id, _) => !s.HasSema(id)
    case Acquire(id) => !s.HasSema(id)
    case Poll(id) => !(s.HasSema(id) && s.semas[id - 1].count > 0)
    case NewFlag(_, _) => forall i | 0 <= i < MAX_FLAGS :: s.flags[i].inUse
    case DropFlag(id) => !s.HasFlag(id)
    case Raise(id, _, _) => !s.HasFlag(id)
    case Keep(id, _) => !s.HasFlag(id)
    case Await(id, bits, _, _) => FlagLaws.Refuses(s, id, bits)
    case Test(id, bits, mode, _) =>
      !(s.HasFlag(id) && bits != {} && FlagLaws.Holds(s.flags[id - 1].bits, bits, mode.any))
    case _ => false
  }

  /** v is what a gate that does not refuse answers: the number of the new object, the wakeups cancelled,
      and otherwise 0. */
  ghost predicate Right(s: State, c: Call, v: Word) {
    match c
    case Create(_, size, _) => 1 <= v <= MAX_THREADS && Makes(s, size, v - 1)
    case NewSema(_, _, _) => 1 <= v <= MAX_SEMAS && !s.semas[v - 1].inUse && forall i | 0 <= i < v - 1 :: s.semas[i].inUse
    case NewFlag(_, _) => 1 <= v <= MAX_FLAGS && !s.flags[v - 1].inUse && forall i | 0 <= i < v - 1 :: s.flags[i].inUse
    case Cancel(id) => s.HasThread(id) && v == s.threads[id - 1].wakeups
    case _ => v == 0
  }

  /** The caller's registers as it finds them: control at $ra, v in $v0, and all else untouched. */
  ghost predicate Answered(x: Regs, x': Regs, v: Word) {
    && x'.pc == x.gpr[31] && x'.nextPc == Plus(x.gpr[31], 4) && x'.hi == x.hi && x'.lo == x.lo
    && x'.gpr[2] == v && forall k | 0 <= k < 32 && k != 2 :: x'.gpr[k] == x.gpr[k]
  }

  /** A gate that its caller comes back from: not an exit, and somebody is there to wait. */
  predicate ComesBack(s: State, c: Call) { !c.Exit? && (c.Sleep? || c.Delay? ==> s.current != 0) }

  /** A refusing gate changes nothing and answers -1; any other answers what it should. */
  ghost predicate Replies(s: State, c: Call, m: State) {
    if Refuses(s, c) then Answered(s.cpu, m.cpu, MINUS_ONE) && m == s.(cpu := m.cpu)
    else Answered(s.cpu, m.cpu, m.cpu.gpr[2]) && Right(s, c, m.cpu.gpr[2])
  }

  lemma ReturnAnswers(x: Regs, v: Word)
    ensures Answered(x, x.Returned(v), v)
  {}

  /** The record that CreateThread takes is the first free one. */
  lemma MakesFirst(s: State, size: Word)
    ensures var slot, room := FirstFree(s.threads), s.stackNext >= Plus(ARENA_BOTTOM, StackRequest(size));
            && (slot > 0 && room ==> Makes(s, size, slot - 1))
            && (slot == 0 || !room ==> forall i | 0 <= i < MAX_THREADS :: !Makes(s, size, i))
  {
    if FirstFree(s.threads) == 0 {
      forall i | 0 <= i < MAX_THREADS ensures s.threads[i].inUse { assert s.threads[i] in s.threads; }
    }
  }

  lemma CreateReplies(s: State, c: Call)
    requires c.Create?
    ensures Replies(s, c, Effect(s, c).state)
  {
    MakesFirst(s, c.stackSize);
    var slot := FirstFree(s.threads);
    ReturnAnswers(s.cpu, MINUS_ONE);
    ReturnAnswers(s.cpu, slot);
    if slot > 0 && s.stackNext >= Plus(ARENA_BOTTOM, StackRequest(c.stackSize)) {
      assert Makes(s, c.stackSize, slot - 1) && !Refuses(s, c);
      assert Effect(s, c).state.cpu == s.cpu.Returned(slot);
    }
  }

  lemma ThreadReplies(s: State, c: Call)
    requires c.Delete? || c.Start? || c.Terminate?
    ensures Replies(s, c, Effect(s, c).state)
  {}

  lemma TellReplies(s: State, c: Call)
    requires c.SetPriority? || c.Rotate?
    ensures Replies(s, c, Effect(s, c).state)
  {}

  lemma ReleaseReplies(s: State, c: Call)
    requires c.Release? || c.Wakeup? || c.Cancel?
    ensures Replies(s, c, Effect(s, c).state)
  {}

  lemma SleepReplies(s: State, c: Call)
    requires c.Sleep? && s.current != 0
    ensures Replies(s, c, Effect(s, c).state)
  {}

  lemma HoldReplies(s: State, c: Call)
    requires c.Suspend? || c.Resume?
    ensures Replies(s, c, Effect(s, c).state)
  {}

  lemma NewSemaReplies(s: State, c: Call)
    requires c.NewSema?
    ensures Replies(s, c, Effect(s, c).state)
  {
    forall i | 0 <= i < MAX_SEMAS && FreeSema(s.semas) == 0 ensures s.semas[i].inUse { assert s.semas[i] in s.semas; }
  }

  lemma NewFlagReplies(s: State, c: Call)
    requires c.NewFlag?
    ensures Replies(s, c, Effect(s, c).state)
  {
    forall i | 0 <= i < MAX_FLAGS && FreeFlag(s.flags) == 0 ensures s.flags[i].inUse { assert s.flags[i] in s.flags; }
  }

  lemma SignalReplies(s: State, c: Call)
    requires c.Signal?
    ensures Replies(s, c, Effect(s, c).state)
  {}

  lemma AcquireReplies(s: State, c: Call)
    requires c.Acquire?
    ensures Replies(s, c, Effect(s, c).state)
  {}

  lemma SemaReplies(s: State, c: Call)
    requires c.DropSema? || c.Poll?
    ensures Replies(s, c, Effect(s, c).state)
  {}

  lemma DropReplies(s: State, c: Call)
    requires c.DropFlag?
    ensures Replies(s, c, Effect(s, c).state)
  {
    if s.HasFlag(c.id) { ReleaseLeavesCpu(s, c.id, MAX_THREADS); }
  }

  lemma RaiseReplies(s: State, c: Call)
    requires c.Raise?
    ensures Replies(s, c, Effect(s, c).state)
  {
    assert Effect(s, c).state == SetBits(s, c.id, c.bits);
    if s.HasFlag(c.id) && c.bits != {} { FlagLaws.SetServes(s, c.id, c.bits); } else { FlagLaws.SetIdle(s, c.id, c.bits); }
  }

  lemma KeepReplies(s: State, c: Call)
    requires c.Keep?
    ensures Replies(s, c, Effect(s, c).state)
  {}

  lemma AwaitReplies(s: State, c: Call)
    requires c.Await?
    ensures Replies(s, c, Effect(s, c).state)
  {}

  lemma TestReplies(s: State, c: Call)
    requires c.Test?
    ensures Replies(s, c, Effect(s, c).state)
  {
    assert Effect(s, c) == PollFlag(s, c.id, c.bits, c.mode, c.ptr);
    FlagLaws.PollServes(s, c.id, c.bits, c.mode, c.ptr);
  }

  lemma {:induction false} ReleaseLeavesCpu(s: State, id: int, n: nat)
    requires n <= MAX_THREADS
    ensures ReleaseAll(s, id, n).cpu == s.cpu
  {
    if n > 0 { ReleaseLeavesCpu(s, id, n - 1); }
  }

  /** Every gate: a refusal is -1 and changes nothing else, and otherwise the answer is the right one;
      either way the caller's registers are those of a plain return. */
  lemma GateReplies(s: State, c: Call)
    requires ComesBack(s, c) && !c.Delay?
    ensures Replies(s, c, Effect(s, c).state)
  {
    match c {
      case Create(_, _, _) => CreateReplies(s, c);
      case Delete(_) => ThreadReplies(s, c);
      case Start(_, _, _) => ThreadReplies(s, c);
      case Terminate(_) => ThreadReplies(s, c);
      case SetPriority(_, _) => TellReplies(s, c);
      case Rotate(_) => TellReplies(s, c);
      case Release(_) => ReleaseReplies(s, c);
      case Wakeup(_) => ReleaseReplies(s, c);
      case Cancel(_) => ReleaseReplies(s, c);
      case Sleep => SleepReplies(s, c);
      case Suspend(_) => HoldReplies(s, c);
      case Resume(_) => HoldReplies(s, c);
      case NewSema(_, _, _) => NewSemaReplies(s, c);
      case DropSema(_) => SemaReplies(s, c);
      case Signal(_, _) => SignalReplies(s, c);
      case Acquire(_) => AcquireReplies(s, c);
      case Poll(_) => SemaReplies(s, c);
      case NewFlag(_, _) => NewFlagReplies(s, c);
      case DropFlag(_) => DropReplies(s, c);
      case Raise(_, _, _) => RaiseReplies(s, c);
      case Keep(_, _) => KeepReplies(s, c);
      case Await(_, _, _, _) => AwaitReplies(s, c);
      case Test(_, _, _, _) => TestReplies(s, c);
    }
  }

  // ---------------------------------------------------------------------------
  // Giving the processor away
  // ---------------------------------------------------------------------------

  /** Gates that let the best thread run: those that may have made one ready or changed a priority, refused
      or not, unless an interrupt calls them; and those that block. */
  predicate Yields(s: State, c: Call) {
    match c
    case Start(_, _, _) => true
    case Exit(_) => true
    case SetPriority(_, _) => true
    case Rotate(_) => true
    case Release(_) => true
    case Wakeup(_) => true
    case Suspend(_) => true
    case Resume(_) => true
    case Delay(_, _) => s.current != 0
    case Sleep => s.current != 0 && s.threads[s.current - 1].wakeups == 0
    case Signal(_, fromInterrupt) => !fromInterrupt
    case Acquire(id) => s.HasSema(id) && s.semas[id - 1].count <= 0
    case DropFlag(_) => true
    case Raise(_, _, fromInterrupt) => !fromInterrupt
    case Await(id, bits, mode, _) =>
      !FlagLaws.Refuses(s, id, bits) && !FlagLaws.Holds(s.flags[id - 1].bits, bits, mode.any)
    case _ => false
  }

  lemma YieldsIff(s: State, c: Call)
    ensures Effect(s, c).Switch? <==> Yields(s, c)
  {
    if c.Await? { FlagLaws.WaitServes(s, c.id, c.bits, c.mode, c.ptr); }
  }

  /** In every run without self-suspension and without priority 0xFFFFFFFF, the best runnable thread has the
      processor after each of these, and the system is idle exactly if there is none. */
  lemma BestRuns(es: seq<Event>, c: Call)
    requires TameRun(INITIAL, es + [Enter(c)]) && Yields(EnsureRoot(After(INITIAL, es)), c)
    ensures var r := After(INITIAL, es + [Enter(c)]); Picked(r.threads, r.current) && (r.idle <==> r.current == 0)
  {
    var s, e := After(INITIAL, es), Enter(c);
    assert (es + [e])[..|es|] == es && (es + [e])[|es|] == e;
    assert TameRun(INITIAL, es) by {
      forall k | 0 <= k < |es| ensures Tame(After(INITIAL, es[..k]), es[k]) {
        assert (es + [e])[..k] == es[..k] && (es + [e])[k] == es[k];
      }
    }
    assert Tame(s, e);
    RunScheduled(es);
    YieldsIff(EnsureRoot(s), c);
    StepScheduled(s, e);
    IdleIff(Effect(EnsureRoot(s), c).state);
  }

  lemma IdleIff(s: State)
    ensures Reschedule(s).idle <==> Reschedule(s).current == 0
  {}

  // ---------------------------------------------------------------------------
  // The ready queue
  // ---------------------------------------------------------------------------

  /** A thread that a gate makes runnable becomes READY with the next number, and one that was runnable keeps
      its number. A thread that suspended itself while running comes back as it was, and rotation is
      treated below. */
  ghost predicate Queued(s: State, c: Call, i: nat, m: State)
    requires i < MAX_THREADS
  {
    var t, t' := s.threads[i], m.threads[i];
    t'.Runnable() ==>
      if t.Runnable() then t'.seqNo == t.seqNo || c.Rotate?
      else if c == Resume(i + 1) && t.phase == Run then t' == t.(suspended := false)
      else t'.phase == Ready && t'.seqNo == s.nextSeq && m.nextSeq == Plus(s.nextSeq, 1)
  }

  lemma ThreadQueued(s: State, c: Call, i: nat)
    requires (c.Create? || c.Delete? || c.Start?) && i < MAX_THREADS
    ensures Queued(s, c, i, Effect(s, c).state)
  {}

  lemma EndQueued(s: State, c: Call, i: nat)
    requires (c.Exit? || c.Terminate? || c.SetPriority?) && i < MAX_THREADS
    ensures Queued(s, c, i, Effect(s, c).state)
  {}

  lemma RotateQueued(s: State, c: Call, i: nat)
    requires c.Rotate? && i < MAX_THREADS
    ensures Queued(s, c, i, Effect(s, c).state)
  {}

  lemma ReleaseQueued(s: State, c: Call, i: nat)
    requires (c.Release? || c.Wakeup?) && i < MAX_THREADS
    ensures Queued(s, c, i, Effect(s, c).state)
  {}

  lemma SleepQueued(s: State, c: Call, i: nat)
    requires (c.Sleep? || c.Cancel?) && i < MAX_THREADS
    ensures Queued(s, c, i, Effect(s, c).state)
  {}

  lemma HoldQueued(s: State, c: Call, i: nat)
    requires (c.Suspend? || c.Resume?) && i < MAX_THREADS
    ensures Queued(s, c, i, Effect(s, c).state)
  {}

  lemma DelayQueued(s: State, c: Call, i: nat)
    requires c.Delay? && i < MAX_THREADS
    ensures Queued(s, c, i, Effect(s, c).state)
  {}

  lemma PostQueued(s: State, c: Call, i: nat)
    requires c.Signal? && i < MAX_THREADS
    ensures Queued(s, c, i, Effect(s, c).state)
  {}

  lemma AcquireQueued(s: State, c: Call, i: nat)
    requires c.Acquire? && i < MAX_THREADS
    ensures Queued(s, c, i, Effect(s, c).state)
  {}

  lemma SemaQueued(s: State, c: Call, i: nat)
    requires (c.NewSema? || c.DropSema? || c.Poll?) && i < MAX_THREADS
    ensures Queued(s, c, i, Effect(s, c).state)
  {}

  lemma FlagQueued(s: State, c: Call, i: nat)
    requires (c.NewFlag? || c.Keep? || c.Test?) && i < MAX_THREADS
    ensures Queued(s, c, i, Effect(s, c).state)
  {}

  lemma AwaitQueued(s: State, c: Call, i: nat)
    requires c.Await? && i < MAX_THREADS
    ensures Queued(s, c, i, Effect(s, c).state)
  {}

  /** The rule of the queue, for every gate but the two that may ready several threads at once, which
      `FlagLaws.SetServes` and `FlagLaws.DropServes` are about. */
  lemma GateQueues(s: State, c: Call, i: nat)
    requires i < MAX_THREADS && !c.Raise? && !c.DropFlag?
    ensures Queued(s, c, i, Effect(s, c).state)
  {
    match c {
      case Create(_, _, _) => ThreadQueued(s, c, i);
      case Delete(_) => ThreadQueued(s, c, i);
      case Start(_, _, _) => ThreadQueued(s, c, i);
      case Exit(_) => EndQueued(s, c, i);
      case Terminate(_) => EndQueued(s, c, i);
      case SetPriority(_, _) => EndQueued(s, c, i);
      case Rotate(_) => RotateQueued(s, c, i);
      case Release(_) => ReleaseQueued(s, c, i);
      case Wakeup(_) => ReleaseQueued(s, c, i);
      case Sleep => SleepQueued(s, c, i);
      case Cancel(_) => SleepQueued(s, c, i);
      case Suspend(_) => HoldQueued(s, c, i);
      case Resume(_) => HoldQueued(s, c, i);
      case Delay(_, _) => DelayQueued(s, c, i);
      case Signal(_, _) => PostQueued(s, c, i);
      case Acquire(_) => AcquireQueued(s, c, i);
      case NewSema(_, _, _) => SemaQueued(s, c, i);
      case DropSema(_) => SemaQueued(s, c, i);
      case Poll(_) => SemaQueued(s, c, i);
      case NewFlag(_, _) => FlagQueued(s, c, i);
      case Keep(_, _) => FlagQueued(s, c, i);
      case Test(_, _, _, _) => FlagQueued(s, c, i);
      case Await(_, _, _, _) => AwaitQueued(s, c, i);
    }
  }

  /** A thread that is started or released is ready at the end of the queue and waits for nothing; one that
      is resumed goes on as it was, at the end of the queue if it is ready. */
  lemma GateReadies(s: State, c: Call)
    requires (c.Start? || c.Release? || c.Resume?) && !Refuses(s, c)
    ensures var t, t' := s.threads[c.id - 1], Effect(s, c).state.threads[c.id - 1];
            match c
            case Start(_, _, _) => t' == t.(phase := Ready, seqNo := s.nextSeq, regs := t'.regs)
            case Release(_) => t' == t.(phase := Ready, seqNo := s.nextSeq, waitKind := NoWait, waitId := 0)
            case Resume(_) => t' == t.(suspended := false, seqNo := if t.phase == Ready then s.nextSeq else t.seqNo)
  {}

  // ---------------------------------------------------------------------------
  // Semaphores
  // ---------------------------------------------------------------------------

  /** i goes before j: by number and then by place in the table, and by urgency first if that counts. */
  predicate InFront(ts: seq<Tcb>, urgent: bool, i: nat, j: nat)
    requires i < |ts| && j < |ts|
  {
    if urgent && ts[i].priority != ts[j].priority then ts[i].priority < ts[j].priority
    else if ts[i].seqNo != ts[j].seqNo then ts[i].seqNo < ts[j].seqNo
    else i <= j
  }

  /** The waiter in sight that goes before all others. */
  predicate FirstInLine(ts: seq<Tcb>, urgent: bool, id: int, i: nat)
    requires i < |ts|
  {
    ts[i].Waits(OnSema, id) && forall j | 0 <= j < |ts| && ts[j].Waits(OnSema, id) :: InFront(ts, urgent, i, j)
  }

  ghost predicate Best(ts: seq<Tcb>, urgent: bool, id: int, w: nat) {
    if 0 < w <= |ts| then FirstInLine(ts, urgent, id, w - 1) else forall i | 0 <= i < |ts| :: !ts[i].Waits(OnSema, id)
  }

  lemma {:induction false} BestIsFirst(ts: seq<Tcb>, urgent: bool, id: int)
    ensures Best(ts, urgent, id, BestWaiter(ts, id, urgent))
  {
    if ts != [] {
      var n := |ts| - 1;
      BestIsFirst(ts[..n], urgent, id);
      BestNext(ts, urgent, id, n, BestWaiter(ts[..n], id, urgent));
    }
  }

  lemma BestNext(ts: seq<Tcb>, urgent: bool, id: int, n: nat, w: nat)
    requires n + 1 == |ts| && w <= n && Best(ts[..n], urgent, id, w)
    ensures Best(ts, urgent, id,
              if ts[n].Waits(OnSema, id) && (w == 0 || Before(ts[n], ts[w - 1], urgent)) then n + 1 else w)
  {
    if w > 0 {
      LineKept(ts, urgent, id, w - 1, n);
      BestStep(ts, urgent, id, w - 1, n);
    } else {
      AloneStep(ts, urgent, id, n);
    }
  }

  lemma LineKept(ts: seq<Tcb>, urgent: bool, id: int, b: nat, n: nat)
    requires b < n <= |ts| && FirstInLine(ts[..n], urgent, id, b)
    ensures ts[b].Waits(OnSema, id) && forall j | 0 <= j < n && ts[j].Waits(OnSema, id) :: InFront(ts, urgent, b, j)
  {
    forall j | 0 <= j < n && ts[j].Waits(OnSema, id) ensures InFront(ts, urgent, b, j) {
      assert ts[..n][j] == ts[j] && InFront(ts[..n], urgent, b, j);
    }
  }

  lemma AloneStep(ts: seq<Tcb>, urgent: bool, id: int, n: nat)
    requires n + 1 == |ts| && forall i | 0 <= i < n :: !ts[..n][i].Waits(OnSema, id)
    ensures ts[n].Waits(OnSema, id) ==> FirstInLine(ts, urgent, id, n)
    ensures !ts[n].Waits(OnSema, id) ==> forall i | 0 <= i < |ts| :: !ts[i].Waits(OnSema, id)
  {
    assert forall i | 0 <= i < n :: ts[..n][i] == ts[i];
  }

  lemma BestStep(ts: seq<Tcb>, urgent: bool, id: int, b: nat, n: nat)
    requires b < n && n + 1 == |ts| && ts[b].Waits(OnSema, id)
    requires forall j | 0 <= j < n && ts[j].Waits(OnSema, id) :: InFront(ts, urgent, b, j)
    ensures ts[n].Waits(OnSema, id) && Before(ts[n], ts[b], urgent) ==> FirstInLine(ts, urgent, id, n)
    ensures !(ts[n].Waits(OnSema, id) && Before(ts[n], ts[b], urgent)) ==> FirstInLine(ts, urgent, id, b)
  {}

  /** SignalSema readies exactly the first waiter in line, the most urgent one if bit 0 of the attribute is set,
      or counts up to the maximum if nobody waits. */
  lemma SignalServes(s: State, id: int, i: nat)
    requires s.HasSema(id) && i < MAX_THREADS
    ensures var m, r := s.semas[id - 1], Post(s, id);
            && (FirstInLine(s.threads, m.attr % 2 == 1, id, i) ==>
                  && r.threads == s.threads[i := s.threads[i].(phase := Ready, waitKind := NoWait, waitId := 0, seqNo := s.nextSeq)]
                  && r.semas == s.semas[id - 1 := m.(waiters := m.waiters - 1)])
            && ((forall j | 0 <= j < MAX_THREADS :: !s.threads[j].Waits(OnSema, id)) ==>
                  && r.threads == s.threads
                  && r.semas == s.semas[id - 1 := m.(count := if m.count < m.max then m.count + 1 else m.count)])
  {
    var urgent := s.semas[id - 1].attr % 2 == 1;
    BestIsFirst(s.threads, urgent, id);
    var w := BestWaiter(s.threads, id, urgent);
    assert s.semas[id - 1].ByPriority() == urgent;
    if w > 0 && FirstInLine(s.threads, urgent, id, i) { OneInLine(s.threads, urgent, id, w - 1, i); }
  }

  lemma OneInLine(ts: seq<Tcb>, urgent: bool, id: int, i: nat, j: nat)
    requires i < |ts| && j < |ts| && FirstInLine(ts, urgent, id, i) && FirstInLine(ts, urgent, id, j)
    ensures i == j
  {
    assert InFront(ts, urgent, i, j) && InFront(ts, urgent, j, i);
  }

  // ---------------------------------------------------------------------------
  // The first run of a thread
  // ---------------------------------------------------------------------------

  /** The registers a thread begins with: at its entry point, with its argument or arguments, the caller's
      $gp, $sp at the top of its stack, and a return to the gate that ends it; all else zero. */
  ghost predicate Begins(x: Regs, entry: Word, top: Word, gp: Word, a0: Word, a1: Word) {
    && x.pc == entry && x.nextPc == Plus(entry, 4)
    && x.gpr[4] == a0 && x.gpr[5] == a1 && x.gpr[28] == gp && x.gpr[31] == 0x1B0
    && x.gpr[29] % 8 == 0 && x.gpr[29] as int <= top as int < x.gpr[29] as int + 8
    && forall k | 0 <= k < 32 && k !in {4, 5, 28, 29, 31} :: x.gpr[k] == 0
  }

  lemma StartBegins(s: State, id: int, a0: Word, a1: Word)
    requires Steady(s) && !Refuses(s, Start(id, a0, a1))
    ensures var r, t := Settle(StartThread(s, id, a0, a1)), s.threads[id - 1];
            Begins(View(r, id - 1), t.stack.entry, Plus(t.stack.base, t.stack.size), s.cpu.gpr[28], a0, a1)
  {
    var t := s.threads[id - 1];
    RescheduleViews(StartThread(s, id, a0, a1).state, id - 1);
    RegsBegin(t, s.cpu.gpr[28], a0, a1);
  }

  lemma RegsBegin(t: Tcb, gp: Word, a0: Word, a1: Word)
    ensures Begins(StartRegs(t, gp, a0, a1), t.stack.entry, Plus(t.stack.base, t.stack.size), gp, a0, a1)
  {
    var top := Plus(t.stack.base, t.stack.size);
    assert top / 8 * 8 == top - top % 8;
  }

  /** In every run, a thread that is started and gets the processor for the first time, after whatever other
      threads do in between, begins at the entry point that CreateThread was given. */
  lemma FirstRun(before: seq<Event>, id: int, a0: Word, a1: Word, r: State, es: seq<Event>)
    requires var s := EnsureRoot(After(INITIAL, before)); !Refuses(s, Start(id, a0, a1))
    requires r == Step(After(INITIAL, before), Enter(Start(id, a0, a1)))
    requires Away(r, es, id - 1) && After(r, es).current == id
    ensures var s := EnsureRoot(After(INITIAL, before));
            var t := s.threads[id - 1];
            Begins(After(r, es).cpu, SaidAfter(INITIAL, before, id).entry, Plus(t.stack.base, t.stack.size), s.cpu.gpr[28], a0, a1)
  {
    var s := After(INITIAL, before);
    RunSane(before);
    RootSteady(s);
    RunAsSaid(before, id);
    StartBegins(EnsureRoot(s), id, a0, a1);
    StepSane(s, Enter(Start(id, a0, a1)));
    ReturnsTo(r, es, id - 1);
  }

  // ---------------------------------------------------------------------------
  // Rotation
  // ---------------------------------------------------------------------------

  /** The first runnable thread of a priority in its ready queue, of those whose number is not the last. */
  ghost predicate Foremost(ts: seq<Tcb>, priority: Word, i: nat)
    requires i < |ts|
  {
    && ts[i].Runnable() && ts[i].priority == priority && ts[i].seqNo != MINUS_ONE
    && forall j | 0 <= j < |ts| && ts[j].Runnable() && ts[j].priority == priority ::
         ts[i].seqNo < ts[j].seqNo || (ts[i].seqNo == ts[j].seqNo && i <= j)
  }

  lemma {:induction false} EarliestIsForemost(ts: seq<Tcb>, priority: Word)
    ensures var e := Earliest(ts, priority);
            if e > 0 then Foremost(ts, priority, e - 1)
            else forall i | 0 <= i < |ts| && ts[i].Runnable() && ts[i].priority == priority :: ts[i].seqNo == MINUS_ONE
  {
    if ts != [] {
      var n := |ts| - 1;
      EarliestIsForemost(ts[..n], priority);
      assert forall i | 0 <= i < n :: ts[..n][i] == ts[i];
    }
  }

  lemma OneForemost(ts: seq<Tcb>, priority: Word, i: nat, j: nat)
    requires i < |ts| && j < |ts| && Foremost(ts, priority, i) && Foremost(ts, priority, j)
    ensures i == j
  {}

  lemma ForemostIff(ts: seq<Tcb>, priority: Word, i: nat)
    requires i < |ts|
    ensures Foremost(ts, priority, i) <==> Earliest(ts, priority) == i + 1
  {
    EarliestIsForemost(ts, priority);
    var e := Earliest(ts, priority);
    if e > 0 && Foremost(ts, priority, i) { OneForemost(ts, priority, e - 1, i); }
  }

  /** RotateThreadReadyQueue sends the foremost thread of its priority, or of the caller's for priority 0, to
      the end of the queue, and moves nobody else. */
  lemma RotateMoves(s: State, priority: Word, i: nat)
    requires i < MAX_THREADS
    ensures var p := if priority == 0 && s.current != 0 then s.threads[s.current - 1].priority else priority;
            RotateReadyQueue(s, priority).state.threads[i] ==
            if Foremost(s.threads, p, i) then s.threads[i].(seqNo := s.nextSeq) else s.threads[i]
  {
    var p := if priority == 0 && s.current != 0 then s.threads[s.current - 1].priority else priority;
    ForemostIff(s.threads, p, i);
    SentBackMoves(s, QueueHead(s, priority), i);
  }

  lemma SentBackMoves(s: State, e: nat, i: nat)
    requires e <= MAX_THREADS && i < MAX_THREADS
    ensures SentBack(s, e).state.threads[i] == if i + 1 == e then s.threads[i].(seqNo := s.nextSeq) else s.threads[i]
  {}

  // ---------------------------------------------------------------------------
  // Delays
  // ---------------------------------------------------------------------------

  /** `end` is `usec` microseconds after `now`, at 33.8688 cycles each, in whole cycles. */
  ghost predicate Lasts(usec: Word, now: nat, end: nat) {
    now <= end && (end - now) * 1000000 <= usec * 33868800 < (end - now + 1) * 1000000
  }

  predicate Delayed(t: Tcb) { t.inUse && t.phase == Wait && t.waitKind == OnDelay }

  lemma DelayBegins(s: State, usec: Word, now: nat) returns (end: nat)
    requires Steady(s) && s.current != 0
    ensures Lasts(usec, now, end)
    ensures var t := Settle(DelayThread(s, usec, now)).threads[s.current - 1]; Delayed(t) && !t.suspended && t.deadline == end
  {
    end := now + usec * CLOCK_HZ / 1000000;
    var m := DelayThread(s, usec, now).state;
    RescheduleThread(m, s.current - 1);
    PickRuns(m);
  }

  /** Thread i goes on waiting out its delay, suspended or not, and others run. */
  ghost predicate StillDelayed(s: State, es: seq<Event>, i: nat)
    requires i < MAX_THREADS
  {
    forall k | 0 <= k <= |es| :: var r := After(s, es[..k]); Delayed(r.threads[i]) && r.current != i + 1
  }

  lemma {:induction false} DeadlineKept(s: State, es: seq<Event>, i: nat)
    requires i < MAX_THREADS && Sane(s) && StillDelayed(s, es, i)
    ensures Sane(After(s, es)) && After(s, es).threads[i].deadline == s.threads[i].deadline
  {
    assert es[..|es|] == es;
    if es != [] {
      var n := |es| - 1;
      assert forall k | 0 <= k <= n :: es[..n][..k] == es[..k];
      DeadlineKept(s, es[..n], i);
      var m := After(s, es[..n]);
      assert Delayed(m.threads[i]) && m.current != i + 1;
      StepSane(m, es[n]);
      match es[n] {
        case Enter(c) => GateFields(m, c, i);
        case Clock(now) => ClockFields(m, now, i);
        case Execute(regs) =>
      }
    }
  }

  /** How many threads before n are due. */
  function DueBefore(ts: Threads, now: nat, n: nat): nat
    requires n <= MAX_THREADS
  {
    if n == 0 then 0 else DueBefore(ts, now, n - 1) + if Ends(ts[n - 1], now) then 1 else 0
  }

  predicate Ends(t: Tcb, now: nat) { Delayed(t) && !t.suspended && now >= t.deadline }

  /** The first n threads have been looked at. */
  ghost predicate Ticked(s: State, r: State, now: nat, n: nat, i: nat)
    requires n <= MAX_THREADS && i < MAX_THREADS
  {
    && r.nextSeq == Plus(s.nextSeq, DueBefore(s.threads, now, n))
    && r.threads[i] == if i < n && Ends(s.threads[i], now)
                       then s.threads[i].(phase := Ready, waitKind := NoWait, seqNo := Plus(s.nextSeq, DueBefore(s.threads, now, i)))
                       else s.threads[i]
  }

  /** A tick readies every thread that is due and nobody else, numbered in table order. */
  lemma {:induction false} ScanEnds(s: State, now: nat, n: nat, i: nat)
    requires n <= MAX_THREADS && i < MAX_THREADS
    ensures Ticked(s, WakeDelayed(s, now, n), now, n, i)
  {
    if n > 0 {
      ScanEnds(s, now, n - 1, i);
      ScanEnds(s, now, n - 1, n - 1);
      ScanOne(s, WakeDelayed(s, now, n - 1), now, n - 1, i);
    }
  }

  lemma ScanOne(s: State, r: State, now: nat, n: nat, i: nat)
    requires n < MAX_THREADS && i < MAX_THREADS && Ticked(s, r, now, n, i) && Ticked(s, r, now, n, n)
    ensures Ticked(s, if Due(r.threads[n], now) then EndDelay(r, n + 1) else r, now, n + 1, i)
  {
    PlusPlus(s.nextSeq, DueBefore(s.threads, now, n), 1);
  }

  lemma TickEnds(s: State, now: nat, i: nat)
    requires i < MAX_THREADS && Delayed(s.threads[i]) && !s.threads[i].suspended && s.threadCount > 0
    ensures Delayed(Step(s, Clock(now)).threads[i]) <==> now < s.threads[i].deadline
    ensures now >= s.threads[i].deadline ==> Step(s, Clock(now)).threads[i].Runnable()
  {
    var m := WakeDelayed(s, now, MAX_THREADS);
    ScanEnds(s, now, MAX_THREADS, i);
    RescheduleThread(m, i);
    PickRuns(m);
  }

  /** DelayThread: a thread that is still waiting, in sight, after any run is woken by exactly those ticks that
      come no earlier than its time. */
  lemma DelayEndsIff(s: State, usec: Word, now: nat, r: State, es: seq<Event>, later: nat) returns (end: nat)
    requires Sane(s) && s.current != 0 && r == Step(s, Enter(Delay(usec, now)))
    requires StillDelayed(r, es, s.current - 1) && !After(r, es).threads[s.current - 1].suspended
    ensures Lasts(usec, now, end)
    ensures var t := Step(After(r, es), Clock(later)).threads[s.current - 1];
            if later < end then Delayed(t) else t.Runnable()
  {
    RootSteady(s);
    end := DelayBegins(s, usec, now);
    StepSane(s, Enter(Delay(usec, now)));
    DeadlineKept(r, es, s.current - 1);
    assert es[..|es|] == es;
    TickEnds(After(r, es), later, s.current - 1);
  }
}
