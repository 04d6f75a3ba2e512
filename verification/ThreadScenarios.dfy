/** Runs from reset that break each hypothesis of the run theorems, and what comes of them. */
module ThreadScenarios {
  import opened Words
  import opened ThreadState
  import opened ThreadSafety
  import opened ThreadLimits
  import opened ThreadStacks
  import opened FlagWakeups
  import opened SemaLedger

  lemma AfterSnoc(s: State, es: seq<Event>, e: Event)
    ensures After(s, es + [e]) == Step(After(s, es), e)
  {
    assert (es + [e])[..|es|] == es;
  }

  /** A run from reset and the state it leads to, one event longer. */
  lemma Then(es: seq<Event>, s: State, e: Event) returns (r: State)
    requires s == After(INITIAL, es)
    ensures r == After(INITIAL, es + [e]) && r == Step(s, e)
  {
    r := Step(s, e);
    AfterSnoc(INITIAL, es, e);
  }

  // ---------------------------------------------------------------------------
  // Two threads
  // ---------------------------------------------------------------------------

  ghost predicate Only(ts: Threads, n: nat) { forall i | n <= i < MAX_THREADS :: !ts[i].inUse }

  /** Threads 1 and 2, of priorities 64 and 32, and no other. */
  ghost predicate Pair(s: State) {
    && s.threadCount > 0 && Only(s.threads, 2)
    && s.threads[0].inUse && s.threads[0].priority == 64
    && s.threads[1].inUse && s.threads[1].priority == 32
  }

  ghost predicate FreshSemas(s: State) { forall i | 0 <= i < MAX_SEMAS :: !s.semas[i].inUse }

  ghost predicate FreshFlags(s: State) { forall i | 0 <= i < MAX_FLAGS :: !s.flags[i].inUse }

  lemma PickPair(s: State)
    requires Pair(s)
    ensures Pick(s.threads) == if s.threads[1].Runnable() then 2 else if s.threads[0].Runnable() then 1 else 0
  {
    PickIsBest(s.threads);
  }

  /** A switch between the two. */
  lemma PairSwitched(s: State, r: State)
    requires Pair(s) && r == Reschedule(s)
    ensures Pair(r) && r.semas == s.semas && r.flags == s.flags && r.nextSeq == s.nextSeq
    ensures r.current == if s.threads[1].Runnable() then 2 else if s.threads[0].Runnable() then 1 else 0
    ensures r.threads[1] == s.threads[1].(phase := r.threads[1].phase, regs := r.threads[1].regs)
    ensures r.threads[0] == s.threads[0].(phase := r.threads[0].phase, regs := r.threads[0].regs)
    ensures r.threads[1].phase == if r.current == 2 then Run else s.threads[1].phase
    ensures r.threads[0].phase == if r.current == 1 then Run
                                  else if s.current == 1 && s.threads[0].phase == Run && !s.threads[0].suspended && r.current == 2
                                  then Ready
                                  else s.threads[0].phase
  {
    PickPair(s);
    RescheduleSwitches(s);
    forall i | 0 <= i < MAX_THREADS ensures ThreadSwitched(s, i, s.threads[i], r.threads[i], r.current) {
      RescheduleThread(s, i);
    }
    assert ThreadSwitched(s, 0, s.threads[0], r.threads[0], r.current);
    assert ThreadSwitched(s, 1, s.threads[1], r.threads[1], r.current);
  }

  const CREATE := Enter(Create(0, 0x100, 32))
  const START := Enter(Start(2, 0, 0))

  lemma Created(r: State)
    requires r == Step(INITIAL, CREATE)
    ensures Pair(r) && r.current == 1 && r.threads[0].Is(Run) && r.threads[1].Is(Dormant)
    ensures r.threads[0].seqNo == 0 && r.nextSeq == 1
    ensures FreshSemas(r) && FreshFlags(r)
  {
    var s := EnsureRoot(INITIAL);
    assert s.threads[0].inUse && Only(s.threads, 1);
    assert !s.threads[1].inUse && s.threads[1] in s.threads;
    assert FirstFree(s.threads) == 2;
    assert Effect(s, CREATE.call) == CreateThread(s, 0, 0x100, 32);
  }

  lemma Started(s: State, r: State)
    requires Pair(s) && s.current == 1 && s.threads[0].Is(Run) && s.threads[1].Is(Dormant) && r == Step(s, START)
    ensures r.nextSeq == Plus(s.nextSeq, 1)
    ensures Pair(r) && r.current == 2 && r.threads[0].Is(Ready) && r.threads[1].Is(Run)
    ensures r.semas == s.semas && r.flags == s.flags
  {
    assert EnsureRoot(s) == s && Effect(s, START.call) == StartThread(s, 2, 0, 0);
    PairSwitched(StartThread(s, 2, 0, 0).state, r);
  }

  ghost predicate Running(s: State) {
    && Pair(s) && s.current == 2 && s.threads[0].Is(Ready) && s.threads[1].Is(Run)
    && FreshSemas(s) && FreshFlags(s)
  }

  /** The first event. */
  lemma First(e: Event) returns (r: State)
    ensures r == After(INITIAL, [e]) && r == Step(INITIAL, e)
  {
    r := Step(INITIAL, e);
    assert [e][..0] == [];
  }

  /** Thread 2 runs and thread 1 is ready. */
  lemma TwoThreads() returns (s: State)
    ensures s == After(INITIAL, [CREATE] + [START]) && Running(s)
  {
    var s1 := First(CREATE);
    Created(s1);
    s := Then([CREATE], s1, START);
    Started(s1, s);
  }

  // ---------------------------------------------------------------------------
  // Unfair to a semaphore
  // ---------------------------------------------------------------------------

  const NEW_SEMA := Enter(NewSema(0, 0, 1))
  const ACQUIRE := Enter(Acquire(1))

  lemma FirstSema(s: State)
    requires FreshSemas(s)
    ensures FreeSema(s.semas) == 1
  {
    assert !s.semas[0].inUse && s.semas[0] in s.semas;
  }

  lemma SemaMade(s: State, r: State)
    requires FreshSemas(s) && s.threadCount > 0 && r == Step(s, NEW_SEMA)
    ensures r == s.(semas := r.semas, cpu := r.cpu) && r.semas[0] == Sema(true, 0, 0, 1, 0, 0)
    ensures FairEvent(s, NEW_SEMA, 1)
  {
    FirstSema(s);
    assert EnsureRoot(s) == s && Effect(s, NEW_SEMA.call) == CreateSema(s, 0, 0, 1);
  }

  lemma SemaTaken(s: State, r: State)
    requires Pair(s) && s.current == 2 && s.threads[0].Is(Ready) && s.threads[1].Is(Run)
    requires s.semas[0] == Sema(true, 0, 0, 1, 0, 0) && r == Step(s, ACQUIRE)
    ensures Pair(r) && r.current == 1 && r.threads[0].Is(Run) && r.threads[1].Waits(OnSema, 1)
    ensures r.semas[0] == Sema(true, 0, 0, 1, 0, 1) && FairEvent(s, ACQUIRE, 1)
    ensures r.threads[1].seqNo == s.nextSeq && r.nextSeq == Plus(s.nextSeq, 1)
  {
    assert EnsureRoot(s) == s && Effect(s, ACQUIRE.call) == WaitSema(s, 1);
    PairSwitched(WaitSema(s, 1).state, r);
  }

  const BLOCKED := [CREATE] + [START] + [NEW_SEMA] + [ACQUIRE]

  ghost predicate Waiting(s: State) {
    && Pair(s) && s.current == 1 && s.threads[0].Is(Run) && s.threads[1].Waits(OnSema, 1)
    && s.semas[0] == Sema(true, 0, 0, 1, 0, 1)
  }

  /** Thread 2 waits on semaphore 1 and thread 1 runs. */
  lemma OneWaits() returns (s: State)
    ensures s == After(INITIAL, BLOCKED) && Waiting(s)
  {
    var s2 := TwoThreads();
    var s3 := Then([CREATE] + [START], s2, NEW_SEMA);
    SemaMade(s2, s3);
    s := Then([CREATE] + [START] + [NEW_SEMA], s3, ACQUIRE);
    SemaTaken(s3, s);
  }

  /** All of it fair to the semaphore. */
  lemma FairSoFar()
    ensures FairRun(INITIAL, BLOCKED, 1)
  {
    var s2 := TwoThreads();
    var s3 := Then([CREATE] + [START], s2, NEW_SEMA);
    SemaMade(s2, s3);
    FairSnoc([], CREATE);
    assert [] + [CREATE] == [CREATE];
    FairSnoc([CREATE], START);
    FairSnoc([CREATE] + [START], NEW_SEMA);
    FairSnoc([CREATE] + [START] + [NEW_SEMA], ACQUIRE);
    FairAcquire(s3);
  }

  lemma FairAcquire(s: State)
    requires s.threadCount > 0 && s.current != 0
    ensures FairEvent(s, ACQUIRE, 1)
  {}

  lemma FairSnoc(es: seq<Event>, e: Event)
    ensures FairRun(INITIAL, es + [e], 1) <==> FairRun(INITIAL, es, 1) && FairEvent(After(INITIAL, es), e, 1)
  {
    assert (es + [e])[..|es|] == es;
  }

  /** No ledger fits semaphore 1. */
  ghost predicate Unbalanced(s: State) { forall v :: !Balanced(s, 1, v) }

  lemma UnfairEnds(es: seq<Event>, e: Event)
    requires FairRun(INITIAL, es, 1) && !FairEvent(After(INITIAL, es), e, 1)
    ensures Unbalanced(After(INITIAL, es + [e]))
  {
    var s, v := After(INITIAL, es), LedgerAfter(INITIAL, es, 1);
    RunBalanced(es, 1);
    RunSane(es);
    AfterSnoc(INITIAL, es, e);
    forall v' ensures !Balanced(Step(s, e), 1, v') { StepBalancedIff(s, e, 1, v, v'); }
  }

  /** Suspending or terminating a waiter, or deleting a semaphore that has one, loses count of it. */
  lemma WaiterLost(c: Call)
    requires c == Suspend(2) || c == Terminate(2) || c == DropSema(1)
    ensures Unbalanced(After(INITIAL, BLOCKED + [Enter(c)]))
  {
    var s := OneWaits();
    FairSoFar();
    UnfairToWaiter(s, c);
    UnfairEnds(BLOCKED, Enter(c));
  }

  lemma UnfairToWaiter(s: State, c: Call)
    requires Waiting(s) && (c == Suspend(2) || c == Terminate(2) || c == DropSema(1))
    ensures !FairEvent(s, Enter(c), 1)
  {}

  /** A semaphore made with its count out of range. */
  lemma MadeOutOfRange()
    ensures Unbalanced(After(INITIAL, [Enter(NewSema(0, 2, 1))]))
  {
    FirstSema(EnsureRoot(INITIAL));
    UnfairEnds([], Enter(NewSema(0, 2, 1)));
    assert [] + [Enter(NewSema(0, 2, 1))] == [Enter(NewSema(0, 2, 1))];
  }

  const SLEEP := Enter(Sleep)

  lemma RootSleeps(s: State, r: State)
    requires s.threadCount > 0 && s.current == 1 && s.threads[0].Is(Run) && s.threads[0].wakeups == 0
    requires Only(s.threads, 1) && r == Step(s, SLEEP)
    ensures r.current == 0 && r.threadCount > 0 && r.semas == s.semas && FairEvent(s, SLEEP, 1)
  {
    var m := SleepThread(s).state;
    assert EnsureRoot(s) == s && Effect(s, Sleep) == SleepThread(s);
    assert SleepThread(s).Switch? && m.threads[0].phase == Wait;
    PickRuns(m);
    assert Pick(m.threads) > 0 ==> Pick(m.threads) == 1;
  }

  lemma RootMakesSema(s: State)
    requires s == Step(INITIAL, NEW_SEMA)
    ensures s.threadCount > 0 && s.current == 1 && s.threads[0].Is(Run) && s.threads[0].wakeups == 0
    ensures Only(s.threads, 1) && s.semas[0] == Sema(true, 0, 0, 1, 0, 0) && FairEvent(INITIAL, NEW_SEMA, 1)
  {
    var s0 := EnsureRoot(INITIAL);
    assert s0.threads[0].wakeups == 0 && Only(s0.threads, 1);
    assert s == Step(s0, NEW_SEMA);
    SemaMade(s0, s);
  }

  /** Semaphore 1 has nothing to give and no thread is current. */
  lemma EveryoneSleeps() returns (s: State)
    ensures s == After(INITIAL, [NEW_SEMA] + [SLEEP])
    ensures s.threadCount > 0 && s.current == 0 && s.semas[0] == Sema(true, 0, 0, 1, 0, 0)
    ensures FairRun(INITIAL, [NEW_SEMA] + [SLEEP], 1)
  {
    var s1 := First(NEW_SEMA);
    RootMakesSema(s1);
    s := Then([NEW_SEMA], s1, SLEEP);
    RootSleeps(s1, s);
    FairSnoc([], NEW_SEMA);
    assert [] + [NEW_SEMA] == [NEW_SEMA];
    FairSnoc([NEW_SEMA], SLEEP);
  }

  lemma UnfairAcquire(s: State)
    requires s.threadCount > 0 && s.current == 0 && s.semas[0] == Sema(true, 0, 0, 1, 0, 0)
    ensures !FairEvent(s, ACQUIRE, 1)
  {}

  /** A wait made while nothing runs counts a waiter that is not there. */
  lemma NobodyWaits()
    ensures Unbalanced(After(INITIAL, [NEW_SEMA] + [SLEEP] + [ACQUIRE]))
  {
    var s := EveryoneSleeps();
    UnfairAcquire(s);
    UnfairEnds([NEW_SEMA] + [SLEEP], ACQUIRE);
  }

  // ---------------------------------------------------------------------------
  // Suspending oneself
  // ---------------------------------------------------------------------------

  const POSTED := Enter(Signal(1, true))
  const SELF := Enter(Suspend(1))
  const BACK := Enter(Resume(1))

  /** A signal from an interrupt makes thread 2 ready but leaves thread 1 running. */
  lemma Posted2(s: State, r: State)
    requires Pair(s) && s.current == 1 && s.threads[0].Is(Run) && s.threads[1].Waits(OnSema, 1)
    requires s.semas[0].inUse && r == Step(s, POSTED)
    ensures Pair(r) && r.current == 1 && r.threads[0].Is(Run) && r.threads[1].Is(Ready)
  {
    var w := BestWaiter(s.threads, 1, s.semas[0].ByPriority());
    assert s.threads[1] in s.threads;
    assert w == 2;
    assert EnsureRoot(s) == s && Effect(s, POSTED.call) == Stay(PostTo(s, 1, 2));
  }

  lemma Suspended1(s: State, r: State)
    requires Pair(s) && s.current == 1 && s.threads[0].Is(Run) && s.threads[1].Is(Ready) && r == Step(s, SELF)
    ensures Pair(r) && r.current == 2 && r.threads[1].Is(Run)
    ensures r.threads[0].inUse && r.threads[0].phase == Run && r.threads[0].suspended
  {
    assert EnsureRoot(s) == s && Effect(s, SELF.call) == SuspendThread(s, 1);
    PairSwitched(SuspendThread(s, 1).state, r);
  }

  lemma Resumed1(s: State, r: State)
    requires Pair(s) && s.current == 2 && s.threads[1].Is(Run)
    requires s.threads[0].inUse && s.threads[0].phase == Run && s.threads[0].suspended && r == Step(s, BACK)
    ensures r.current == 2 && r.threads[0].Is(Run) && r.threads[1].Is(Run)
  {
    assert EnsureRoot(s) == s && Effect(s, BACK.call) == ResumeThread(s, 1);
    PairSwitched(ResumeThread(s, 1).state, r);
  }

  /** A thread that suspends itself can come back as a second one in RUN. */
  lemma TwoRunners() returns (r: State)
    ensures r == After(INITIAL, BLOCKED + [POSTED] + [SELF] + [BACK])
    ensures r.threads[0].Is(Run) && r.threads[1].Is(Run) && !Scheduled(r)
  {
    var s := OneWaits();
    var s1 := Then(BLOCKED, s, POSTED);
    Posted2(s, s1);
    var s2 := Then(BLOCKED + [POSTED], s1, SELF);
    Suspended1(s1, s2);
    r := Then(BLOCKED + [POSTED] + [SELF], s2, BACK);
    Resumed1(s2, r);
    assert !ThreadFine(r.threads[0], 0, r.current);
  }

  // ---------------------------------------------------------------------------
  // A suspended flag waiter
  // ---------------------------------------------------------------------------

  const NEW_FLAG := Enter(NewFlag(0, {}))
  const AWAIT := Enter(Await(1, {0}, Mode(false, false), 0))
  const HOLD := Enter(Suspend(2))
  const RAISE := Enter(Raise(1, {0}, false))
  const RESUME := Enter(Resume(2))

  lemma FlagMade(s: State, r: State)
    requires FreshFlags(s) && s.threadCount > 0 && r == Step(s, NEW_FLAG)
    ensures r == s.(flags := r.flags, cpu := r.cpu) && r.flags[0] == Flag(true, 0, {}, 0)
  {
    assert !s.flags[0].inUse && s.flags[0] in s.flags;
    assert FreeFlag(s.flags) == 1;
    assert EnsureRoot(s) == s && Effect(s, NEW_FLAG.call) == CreateFlag(s, 0, {});
  }

  lemma FlagAwaited(s: State, r: State)
    requires Pair(s) && s.current == 2 && s.threads[0].Is(Ready) && s.threads[1].Is(Run)
    requires s.flags[0] == Flag(true, 0, {}, 0) && r == Step(s, AWAIT)
    ensures Pair(r) && r.current == 1 && r.threads[0].Is(Run) && r.threads[1].Waits(OnFlag, 1)
    ensures r.threads[1].want == Want({0}, Mode(false, false), 0) && r.flags[0].inUse
  {
    assert 0 !in s.flags[0].bits && 0 in {0};
    assert EnsureRoot(s) == s && Effect(s, AWAIT.call) == WaitFlag(s, 1, {0}, Mode(false, false), 0);
    PairSwitched(WaitFlag(s, 1, {0}, Mode(false, false), 0).state, r);
  }

  lemma WaiterHeld(s: State, r: State)
    requires Pair(s) && s.current == 1 && s.threads[0].Is(Run) && s.threads[1].Waits(OnFlag, 1) && r == Step(s, HOLD)
    ensures Pair(r) && r.current == 1 && r.threads[0].Is(Run) && r.flags == s.flags
    ensures r.threads[1].Blocked(OnFlag, 1) && r.threads[1].suspended && r.threads[1].want == s.threads[1].want
  {
    assert EnsureRoot(s) == s && Effect(s, HOLD.call) == SuspendThread(s, 2);
    PairSwitched(SuspendThread(s, 2).state, r);
  }

  lemma {:induction false} NobodyWoken(s: State, id: int, n: nat)
    requires 1 <= id <= MAX_FLAGS && n <= MAX_THREADS
    requires forall i | 0 <= i < MAX_THREADS :: !s.threads[i].Waits(OnFlag, id)
    ensures WakeFlag(s, id, n) == s
  {
    if n > 0 { NobodyWoken(s, id, n - 1); }
  }

  lemma FlagRaised(s: State, r: State)
    requires Pair(s) && s.current == 1 && s.threads[0].Is(Run) && s.flags[0].inUse && r == Step(s, RAISE)
    requires s.threads[1].Blocked(OnFlag, 1) && s.threads[1].suspended
    ensures Pair(r) && r.flags[0].inUse && 0 in r.flags[0].bits
    ensures r.threads[1].Blocked(OnFlag, 1) && r.threads[1].suspended && r.threads[1].want == s.threads[1].want
  {
    var m := Raised(s, 1, {0});
    NobodyWoken(m, 1, MAX_THREADS);
    assert {0} != {} by { assert 0 in {0}; }
    assert EnsureRoot(s) == s && Effect(s, RAISE.call) == Switch(m.Return(0));
    PairSwitched(m.Return(0), r);
  }

  lemma LostAtResume(s: State)
    requires Pair(s) && s.flags[0].inUse && 0 in s.flags[0].bits
    requires s.threads[1].Blocked(OnFlag, 1) && s.threads[1].suspended
    requires s.threads[1].want == Want({0}, Mode(false, false), 0)
    ensures !NoLostWakeup(Step(s, RESUME))
  {
    assert {0} <= s.flags[0].bits;
    assert EnsureRoot(s) == s && ResumesGranted(s, RESUME);
    ResumeStrands(s, 2);
  }

  const AWAITED := [CREATE] + [START] + [NEW_FLAG] + [AWAIT]

  lemma OneAwaits() returns (s: State)
    ensures s == After(INITIAL, AWAITED)
    ensures Pair(s) && s.current == 1 && s.threads[0].Is(Run) && s.threads[1].Waits(OnFlag, 1)
    ensures s.threads[1].want == Want({0}, Mode(false, false), 0) && s.flags[0].inUse
  {
    var s2 := TwoThreads();
    var s3 := Then([CREATE] + [START], s2, NEW_FLAG);
    FlagMade(s2, s3);
    s := Then([CREATE] + [START] + [NEW_FLAG], s3, AWAIT);
    FlagAwaited(s3, s);
  }

  /** A flag raised while its waiter is suspended is lost to that waiter. */
  lemma WakeupLost() returns (r: State)
    ensures r == After(INITIAL, AWAITED + [HOLD] + [RAISE] + [RESUME]) && !NoLostWakeup(r)
  {
    var s := OneAwaits();
    var s1 := Then(AWAITED, s, HOLD);
    WaiterHeld(s, s1);
    var s2 := Then(AWAITED + [HOLD], s1, RAISE);
    FlagRaised(s1, s2);
    r := Then(AWAITED + [HOLD] + [RAISE], s2, RESUME);
    LostAtResume(s2);
  }

  // ---------------------------------------------------------------------------
  // The ready counter all the way round
  // ---------------------------------------------------------------------------

  const ROTATE := Enter(Rotate(0))

  /** Thread 1 runs and no other thread can. */
  ghost predicate Alone(s: State) {
    && s.threadCount > 0 && s.current == 1 && s.threads[0].Is(Run) && s.threads[0].priority == 64
    && forall i | 1 <= i < MAX_THREADS :: !s.threads[i].Runnable()
  }

  lemma {:induction false} EarliestAlone(ts: seq<Tcb>, priority: Word)
    requires ts != [] && ts[0].Runnable() && ts[0].priority == priority && ts[0].seqNo < MINUS_ONE
    requires forall i | 1 <= i < |ts| :: !ts[i].Runnable()
    ensures Earliest(ts, priority) == 1
  {
    if |ts| > 1 { EarliestAlone(ts[..|ts| - 1], priority); }
  }

  lemma AloneSwitched(s: State, r: State)
    requires Alone(s) && r == Reschedule(s)
    ensures Alone(r) && r == s.(idle := false)
  {
    PickIsBest(s.threads);
    assert Pick(s.threads) == 1;
  }

  /** Only thread 1's registers and number differ. */
  ghost predicate SameButTurn(s: State, r: State) {
    && r.threads == s.threads[0 := r.threads[0]] && r.threads[0] == s.threads[0].(seqNo := r.threads[0].seqNo)
    && r.semas == s.semas && r.flags == s.flags
  }

  lemma Rotated(s: State, r: State)
    requires Alone(s) && s.threads[0].seqNo < MINUS_ONE && r == Step(s, ROTATE)
    ensures Alone(r) && r.threads[0].seqNo == s.nextSeq && r.nextSeq == Plus(s.nextSeq, 1) && SameButTurn(s, r)
  {
    EarliestAlone(s.threads, 64);
    assert EnsureRoot(s) == s && Effect(s, ROTATE.call) == SentBack(s, 1);
    AloneSwitched(SentBack(s, 1).state, r);
  }

  function Turns(n: nat): seq<Event> { if n == 0 then [] else Turns(n - 1) + [ROTATE] }

  /** Thread 1 has moved to the back of its queue n times. */
  ghost predicate Turned(s: State, r: State, n: nat) {
    Alone(r) && r.threads[0].seqNo == n && r.nextSeq == Wrap(n + 1) && SameButTurn(s, r)
  }

  lemma TurnOnce(s: State, m: State, r: State, n: nat)
    requires n < 0xFFFF_FFFF && Turned(s, m, n) && r == Step(m, ROTATE)
    ensures Turned(s, r, n + 1)
  {
    Rotated(m, r);
  }

  /** Each call to RotateThreadReadyQueue takes one number. */
  lemma {:induction false} RotatedOften(s: State, n: nat)
    requires Alone(s) && s.threads[0].seqNo == 0 && s.nextSeq == 1 && n <= 0xFFFF_FFFF
    ensures Turned(s, After(s, Turns(n)), n)
  {
    if n > 0 {
      RotatedOften(s, n - 1);
      AfterSnoc(s, Turns(n - 1), ROTATE);
      TurnOnce(s, After(s, Turns(n - 1)), After(s, Turns(n)), n - 1);
    }
  }

  /** With its number at 0xFFFFFFFF a runnable thread given priority 0xFFFFFFFF is not seen at all. */
  lemma NobodyPicked(s: State, r: State)
    requires Alone(s) && s.threads[0].seqNo == MINUS_ONE && r == Step(s, Enter(SetPriority(1, MINUS_ONE)))
    ensures r.current == 0 && r.threads[0].Runnable()
  {
    var m := ChangePriority(s, 1, MINUS_ONE).state;
    assert EnsureRoot(s) == s && Effect(s, SetPriority(1, MINUS_ONE)) == Switch(m);
    assert forall i | 0 <= i < MAX_THREADS && m.threads[i].Runnable() :: Unseen(m.threads[i]);
    PickIsBest(m.threads);
    RescheduleThread(m, 0);
    PickRuns(m);
  }

  const FIRST := Enter(Delete(1))

  /** A run after which the only runnable thread is passed over. */
  lemma PassedOver(n: nat) returns (r: State)
    requires n == 0xFFFF_FFFF
    ensures r == After(INITIAL, [FIRST] + Turns(n) + [Enter(SetPriority(1, MINUS_ONE))])
    ensures r.current == 0 && r.threads[0].Runnable()
  {
    var s := First(FIRST);
    AloneFirst(s);
    RotatedOften(s, n);
    AfterConcat(INITIAL, [FIRST], Turns(n));
    r := Then([FIRST] + Turns(n), After(s, Turns(n)), Enter(SetPriority(1, MINUS_ONE)));
    NobodyPicked(After(s, Turns(n)), r);
  }

  lemma AloneFirst(s: State)
    requires s == Step(INITIAL, FIRST)
    ensures Alone(s) && s.threads[0].seqNo == 0 && s.nextSeq == 1
  {
    var s0 := EnsureRoot(INITIAL);
    assert Effect(s0, FIRST.call) == DeleteThread(s0, 1) == Stay(s0.Return(MINUS_ONE));
  }

  lemma {:induction false} AfterConcat(s: State, a: seq<Event>, b: seq<Event>)
    ensures After(s, a + b) == After(After(s, a), b)
  {
    if b == [] {
      assert a + b == a;
    } else {
      var n := |b| - 1;
      AfterConcat(s, a, b[..n]);
      assert (a + b)[..|a + b| - 1] == a + b[..n];
    }
  }

  lemma BothWait(s: State, r: State)
    requires Pair(s) && s.current == 1 && s.threads[0].Is(Run) && s.threads[1].Waits(OnSema, 1)
    requires s.semas[0] == Sema(true, 0, 0, 1, 0, 1) && r == Step(s, ACQUIRE)
    ensures r.threads[0].Waits(OnSema, 1) && r.threads[0].seqNo == s.nextSeq
    ensures r.threads[1].Waits(OnSema, 1) && r.threads[1].seqNo == s.threads[1].seqNo
  {
    assert EnsureRoot(s) == s && Effect(s, ACQUIRE.call) == WaitSema(s, 1);
    PairSwitched(WaitSema(s, 1).state, r);
  }

  lemma CounterAtEdge(n: nat) returns (s: State)
    requires n == 0xFFFF_FFFD
    ensures s == After(INITIAL, [CREATE] + [NEW_SEMA] + Turns(n))
    ensures Pair(s) && s.current == 1 && s.threads[0].Is(Run) && s.threads[1].Is(Dormant)
    ensures s.semas[0] == Sema(true, 0, 0, 1, 0, 0) && s.nextSeq == 0xFFFF_FFFE
  {
    var s1 := First(CREATE);
    Created(s1);
    var s2 := Then([CREATE], s1, NEW_SEMA);
    SemaMade(s1, s2);
    s := After(s2, Turns(n));
    RotatedOften(s2, n);
    AfterConcat(INITIAL, [CREATE] + [NEW_SEMA], Turns(n));
  }

  /** When the counter wraps between two waits, the later one comes first in the queue. */
  lemma OrderLost(n: nat) returns (r: State)
    requires n == 0xFFFF_FFFD
    ensures r == After(INITIAL, [CREATE] + [NEW_SEMA] + Turns(n) + [START] + [ACQUIRE] + [ACQUIRE])
    ensures r.threads[0].Waits(OnSema, 1) && r.threads[1].Waits(OnSema, 1)
    ensures Before(r.threads[0], r.threads[1], false)
  {
    var es := [CREATE] + [NEW_SEMA] + Turns(n);
    var s := CounterAtEdge(n);
    var s1 := Then(es, s, START);
    var s2 := Then(es + [START], s1, ACQUIRE);
    FirstWaits(s, s1, s2);
    r := Then(es + [START] + [ACQUIRE], s2, ACQUIRE);
    BothWait(s2, r);
  }

  lemma EdgeNumbers(n: Word)
    requires n == 0xFFFF_FFFE
    ensures Plus(n, 1) == MINUS_ONE && Plus(Plus(n, 1), 1) == 0
  {}

  /** Thread 2 blocks with the last number. */
  lemma FirstWaits(s: State, s1: State, s2: State)
    requires Pair(s) && s.current == 1 && s.threads[0].Is(Run) && s.threads[1].Is(Dormant)
    requires s.semas[0] == Sema(true, 0, 0, 1, 0, 0) && s.nextSeq == 0xFFFF_FFFE
    requires s1 == Step(s, START) && s2 == Step(s1, ACQUIRE)
    ensures Pair(s2) && s2.current == 1 && s2.threads[0].Is(Run) && s2.threads[1].Waits(OnSema, 1)
    ensures s2.semas[0] == Sema(true, 0, 0, 1, 0, 1)
    ensures s2.threads[1].seqNo == MINUS_ONE && s2.nextSeq == 0
  {
    EdgeNumbers(s.nextSeq);
    Started(s, s1);
    SemaTaken(s1, s2);
  }

  // ---------------------------------------------------------------------------
  // Registers that are not the caller's own
  // ---------------------------------------------------------------------------

  /** Thread 1 is the only one, and runs with registers x after it was saved with registers y. */
  ghost predicate Solo(s: State, x: Regs, y: Regs) {
    && s.threadCount > 0 && s.current == 1 && Only(s.threads, 1)
    && s.threads[0].Is(Run) && s.threads[0].priority == 64 && s.threads[0].seqNo == 0
    && s.cpu == x && s.threads[0].regs == y
  }

  lemma SoloStarts(x: Regs) returns (s: State)
    ensures s == After(INITIAL, [FIRST] + [Execute(x)]) && Solo(s, x, ZERO_REGS)
  {
    var s1 := First(FIRST);
    SoloFirst(s1);
    s := Then([FIRST], s1, Execute(x));
  }

  lemma SoloFirst(s: State)
    requires s == Step(INITIAL, FIRST)
    ensures Solo(s, s.cpu, ZERO_REGS)
  {
    assert Effect(EnsureRoot(INITIAL), FIRST.call) == DeleteThread(EnsureRoot(INITIAL), 1);
  }

  lemma PickSolo(ts: Threads)
    requires Only(ts, 1) && ts[0].priority == 64
    ensures Pick(ts) == if ts[0].Runnable() then 1 else 0
  {
    PickIsBest(ts);
  }

  lemma SoloSuspended(s: State, x: Regs, y: Regs, r: State)
    requires Solo(s, x, y) && r == Step(s, SELF)
    ensures r.threadCount > 0 && r.current == 0 && Only(r.threads, 1)
    ensures r.threads[0] == s.threads[0].(suspended := true)
  {
    var m := SuspendThread(s, 1).state;
    assert EnsureRoot(s) == s && Effect(s, SELF.call) == Switch(m);
    PickSolo(m.threads);
  }

  lemma SoloResumed(s: State, r: State)
    requires s.threadCount > 0 && s.current == 0 && Only(s.threads, 1) && r == Step(s, BACK)
    requires s.threads[0].inUse && s.threads[0].phase == Run && s.threads[0].suspended && s.threads[0].priority == 64
    ensures r.current == 1 && r.cpu == s.threads[0].regs
  {
    var m := ResumeThread(s, 1).state;
    assert EnsureRoot(s) == s && Effect(s, BACK.call) == Switch(m);
    assert m.threads == s.threads[0 := s.threads[0].(suspended := false)];
    PickSolo(m.threads);
  }

  /** A thread that suspends itself comes back with none of the registers it had. */
  lemma RegistersLost(x: Regs) returns (r: State)
    ensures r == After(INITIAL, [FIRST] + [Execute(x)] + [SELF] + [BACK])
    ensures r.current == 1 && r.cpu == ZERO_REGS
  {
    var s := SoloStarts(x);
    var s1 := Then([FIRST] + [Execute(x)], s, SELF);
    SoloSuspended(s, x, ZERO_REGS, s1);
    r := Then([FIRST] + [Execute(x)] + [SELF], s1, BACK);
    SoloResumed(s1, r);
  }

  lemma SoloDelays(s: State, x: Regs, y: Regs, usec: Word, now: nat, r: State)
    requires Solo(s, x, y) && r == Step(s, Enter(Delay(usec, now)))
    ensures r.threadCount > 0 && r.current == 0 && Only(r.threads, 1) && r.threads[0].priority == 64
    ensures r.threads[0].Is(Wait) && r.threads[0].waitKind == OnDelay && r.threads[0].regs == x
    ensures r.threads[0].deadline == now + usec * CLOCK_HZ / 1000000
  {
    var m := DelayThread(s, usec, now).state;
    assert EnsureRoot(s) == s && Effect(s, Delay(usec, now)) == Switch(m);
    PickSolo(m.threads);
  }

  lemma {:induction false} OnlyOneDue(s: State, now: nat, n: nat)
    requires Only(s.threads, 1) && 1 <= n <= MAX_THREADS && Due(s.threads[0], now)
    ensures WakeDelayed(s, now, n) == EndDelay(s, 1)
  {
    if n > 1 { OnlyOneDue(s, now, n - 1); } else { assert WakeDelayed(s, now, 0) == s; }
  }

  lemma SoloWakes(s: State, now: nat, r: State)
    requires s.threadCount > 0 && s.current == 0 && Only(s.threads, 1) && s.threads[0].priority == 64
    requires Due(s.threads[0], now) && r == Step(s, Clock(now))
    ensures r.current == 1 && r.cpu == s.threads[0].regs
  {
    var m := EndDelay(s, 1);
    OnlyOneDue(s, now, MAX_THREADS);
    assert m.threads[0] != s.threads[0];
    assert Tick(s, now) == Switch(m);
    PickSolo(m.threads);
  }

  /** A thread that delays itself is back at its call when the time is up. */
  lemma DelayRepeats(x: Regs, usec: Word, now: nat, later: nat) returns (r: State)
    requires later >= now + usec * CLOCK_HZ / 1000000
    ensures r == After(INITIAL, [FIRST] + [Execute(x)] + [Enter(Delay(usec, now))] + [Clock(later)])
    ensures r.current == 1 && r.cpu == x
  {
    var s := SoloStarts(x);
    var s1 := Then([FIRST] + [Execute(x)], s, Enter(Delay(usec, now)));
    SoloDelays(s, x, ZERO_REGS, usec, now, s1);
    r := Then([FIRST] + [Execute(x)] + [Enter(Delay(usec, now))], s1, Clock(later));
    SoloWakes(s1, later, r);
  }

  // ---------------------------------------------------------------------------
  // A stack of no size
  // ---------------------------------------------------------------------------

  const HUGE := Enter(Create(0, 0xFFFF_FFFF, 32))

  /** A request that wraps around is accepted and given no stack at all. */
  lemma NoStack() returns (r: State)
    ensures r == After(INITIAL, [HUGE]) && WrapsBound(INITIAL, HUGE)
    ensures r.threads[1].inUse && r.threads[1].stack.size == 0 && !Grants(INITIAL, HUGE)
  {
    r := First(HUGE);
    var s := EnsureRoot(INITIAL);
    assert !s.threads[1].inUse && s.threads[1] in s.threads;
    assert FirstFree(s.threads) == 2;
    assert Effect(s, HUGE.call) == CreateThread(s, 0, 0xFFFF_FFFF, 32);
  }
}
