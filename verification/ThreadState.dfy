/** The IOP thread kernel as a transition system: thread control blocks, semaphores
    and event flags, the live register file, and what each gate does to them. */
module ThreadState {
  import opened Words

  const MAX_THREADS: nat := 64
  const MAX_SEMAS: nat := 64
  const MAX_FLAGS: nat := 32
  const ARENA_TOP: nat := 0x1F_0000
  const ARENA_BOTTOM: nat := 0x18_0000
  const ENTRY_RETURN: Word := 0x1B0
  const CLOCK_HZ: nat := 33868800

  type Gprs = g: seq<Word> | |g| == 32 witness seq(32, _ => 0)

  datatype Regs = Regs(gpr: Gprs, pc: Word, nextPc: Word, hi: Word, lo: Word) {
    /** A call returning v: $v0 set and control at $ra. */
    function Returned(v: Word): Regs {
      Regs(gpr[2 := v], gpr[31], Plus(gpr[31], 4), hi, lo)
    }

    /** Control at $ra with $v0 left alone. */
    function Resumed(): Regs {
      Regs(gpr, gpr[31], Plus(gpr[31], 4), hi, lo)
    }
  }

  const ZERO_REGS := Regs([0, 0, 0, 0, 0, 0, 0, 0, 0, 0, 0, 0, 0, 0, 0, 0, 0, 0, 0, 0, 0, 0, 0, 0, 0, 0, 0, 0, 0, 0, 0, 0], 0, 0, 0, 0)

  // The status word: exactly one of the RUN, READY, WAIT and DORMANT bits, and the SUSPEND bit.
  datatype Phase = Run | Ready | Wait | Dormant

  datatype WaitKind = NoWait | OnSleep | OnDelay | OnSema | OnFlag

  // A 32-bit flag pattern as the set of its bit numbers: | is union, & is intersection.
  type Bits = set<nat>

  /** The wait-mode word: WEF_OR and WEF_CLEAR. */
  datatype Mode = Mode(any: bool, clear: bool)

  /** What an event-flag wait asks for, and where it wants the bits. */
  datatype Want = Want(bits: Bits, mode: Mode, ptr: Word)

  datatype Stack = Stack(entry: Word, base: Word, size: Word)

  datatype Tcb = Tcb(
    inUse: bool, phase: Phase, suspended: bool, priority: Word, seqNo: Word,
    waitKind: WaitKind, waitId: int, want: Want, wakeups: Word, deadline: nat,
    stack: Stack, regs: Regs)
  {
    predicate Is(p: Phase) { inUse && phase == p && !suspended }

    predicate Runnable() { Is(Run) || Is(Ready) }

    predicate Started() { inUse && phase != Dormant }

    /** Blocked on this object, whether or not also suspended. */
    predicate Blocked(kind: WaitKind, id: int) {
      inUse && phase == Wait && waitKind == kind && waitId == id
    }

    /** Blocked and visible to the wake loops, which skip suspended threads. */
    predicate Waits(kind: WaitKind, id: int) { Blocked(kind, id) && !suspended }

    function Woken(n: Word): Tcb { this.(phase := Ready, waitKind := NoWait, waitId := 0, seqNo := n) }
  }

  const BLANK := Tcb(false, Dormant, false, 0, 0, NoWait, 0, Want({}, Mode(false, false), 0), 0, 0, Stack(0, 0, 0), ZERO_REGS)

  datatype Sema = Sema(inUse: bool, attr: Word, initial: int, max: int, count: int, waiters: int) {
    predicate ByPriority() { attr % 2 == 1 }
  }

  datatype Flag = Flag(inUse: bool, attr: Word, bits: Bits, waiters: int) {
    predicate Multi() { attr / 2 % 2 == 1 }
  }

  type ThreadRef = n: nat | n <= MAX_THREADS   // 1-based, 0 for none
  type Threads = t: seq<Tcb> | |t| == MAX_THREADS witness seq(MAX_THREADS, _ => BLANK)
  type Semas = t: seq<Sema> | |t| == MAX_SEMAS witness seq(MAX_SEMAS, _ => Sema(false, 0, 0, 0, 0, 0))
  type Flags = t: seq<Flag> | |t| == MAX_FLAGS witness seq(MAX_FLAGS, _ => Flag(false, 0, {}, 0))

  datatype State = State(
    threads: Threads, threadCount: nat, current: ThreadRef, nextSeq: Word, stackNext: Word,
    semas: Semas, flags: Flags,
    cpu: Regs, idle: bool,
    results: seq<(Word, Bits)>)   // *resbits writes, oldest first
  {
    predicate HasThread(id: int) { 1 <= id <= MAX_THREADS && threads[id - 1].inUse }

    predicate HasSema(id: int) { 1 <= id <= MAX_SEMAS && semas[id - 1].inUse }

    predicate HasFlag(id: int) { 1 <= id <= MAX_FLAGS && flags[id - 1].inUse }

    function Return(v: Word): State { this.(cpu := cpu.Returned(v)) }

    function Put(id: int, t: Tcb): State
      requires 1 <= id <= MAX_THREADS
    {
      this.(threads := threads[id - 1 := t])
    }

    /** The thread becomes READY and takes the next place in the queue. */
    function Awaken(id: int): State
      requires 1 <= id <= MAX_THREADS
    {
      Put(id, threads[id - 1].Woken(nextSeq)).(nextSeq := Plus(nextSeq, 1))
    }
  }

  const INITIAL := State(
    seq(MAX_THREADS, _ => BLANK), 0, 0, 0, ARENA_TOP,
    seq(MAX_SEMAS, _ => Sema(false, 0, 0, 0, 0, 0)), seq(MAX_FLAGS, _ => Flag(false, 0, {}, 0)),
    ZERO_REGS, false, [])

  // ---------------------------------------------------------------------------
  // Scheduling
  // ---------------------------------------------------------------------------

  /** pick_next_ready over a prefix of the table: 1-based, 0 for none. */
  function Pick(ts: seq<Tcb>): (r: nat)
    ensures r <= |ts|
    ensures r > 0 ==> ts[r - 1].Runnable()
  {
    if ts == [] then 0 else
    var n := |ts| - 1;
    var best := Pick(ts[..n]);
    var prio := if best == 0 then MINUS_ONE else ts[best - 1].priority;
    var no := if best == 0 then MINUS_ONE else ts[best - 1].seqNo;
    if ts[n].Runnable() && (ts[n].priority < prio || (ts[n].priority == prio && ts[n].seqNo < no)) then |ts| else best
  }

  /** The live registers belong to the current thread only while its status is RUN. */
  predicate OwnsCpu(s: State) {
    s.current != 0 && s.threads[s.current - 1].phase == Run && !s.threads[s.current - 1].suspended
  }

  function Save(s: State): State
    requires s.current != 0
  {
    s.Put(s.current, s.threads[s.current - 1].(regs := s.cpu))
  }

  function SwitchOut(s: State): State {
    if OwnsCpu(s) then s.Put(s.current, s.threads[s.current - 1].(phase := Ready, regs := s.cpu)) else s
  }

  function SwitchIn(s: State, next: nat): State
    requires 1 <= next <= MAX_THREADS
  {
    s.Put(next, s.threads[next - 1].(phase := Run)).(cpu := s.threads[next - 1].regs, current := next, idle := false)
  }

  function Reschedule(s: State): State {
    var next := Pick(s.threads);
    if next == 0 then (if OwnsCpu(s) then Save(s) else s).(current := 0, idle := true)
    else if next != s.current then SwitchIn(SwitchOut(s), next)
    else s.Put(next, s.threads[next - 1].(phase := Run)).(idle := false)
  }

  /** The first thread primitive turns what was running into thread 1. */
  function EnsureRoot(s: State): State {
    if s.threadCount > 0 then s else
    s.Put(1, BLANK.(inUse := true, phase := Run, priority := 64, seqNo := s.nextSeq, regs := s.cpu))
     .(threadCount := 1, current := 1, nextSeq := Plus(s.nextSeq, 1))
  }

  /** Blocks the current thread with its return already in place. */
  function Block(s: State, kind: WaitKind, id: int): State
    requires s.current != 0
  {
    var s1 := s.Return(0);
    s1.Put(s.current, s.threads[s.current - 1]
      .(regs := s1.cpu, phase := Wait, suspended := false, waitKind := kind, waitId := id))
  }

  // ---------------------------------------------------------------------------
  // Thread gates: each says what it does to the state, and whether it then reschedules
  // ---------------------------------------------------------------------------

  datatype Outcome = Stay(state: State) | Switch(state: State)

  function FirstFree(ts: seq<Tcb>): (r: nat)
    ensures r <= |ts|
    ensures r > 0 ==> !ts[r - 1].inUse
    ensures r > 0 ==> forall i | 0 <= i < r - 1 :: ts[i].inUse
    ensures r == 0 ==> forall t | t in ts :: t.inUse
  {
    if ts == [] then 0 else
    var r := FirstFree(ts[..|ts| - 1]);
    if r > 0 then r else if ts[|ts| - 1].inUse then 0 else |ts|
  }

  function StackRequest(size: Word): Word { if size < 0x100 then 0x100 else size }

  function Align16(n: Word): Word { Plus(n, 15) / 16 * 16 }

  function CreateThread(s: State, entry: Word, stackSize: Word, priority: Word): Outcome {
    var size := StackRequest(stackSize);
    var slot := FirstFree(s.threads);
    if slot == 0 || s.stackNext < Plus(ARENA_BOTTOM, size) then Stay(s.Return(MINUS_ONE))
    else Stay(AddThread(s, slot, entry, Align16(size), priority).Return(slot))
  }

  /** Takes a stack off the arena for a new, dormant thread. */
  function AddThread(s: State, slot: int, entry: Word, size: Word, priority: Word): State
    requires 1 <= slot <= MAX_THREADS
  {
    var base := Plus(s.stackNext, -(size as int));
    s.Put(slot, BLANK.(inUse := true, stack := Stack(entry, base, size), priority := priority))
     .(stackNext := base, threadCount := if slot > s.threadCount then slot else s.threadCount)
  }

  function DeleteThread(s: State, id: int): Outcome {
    if s.HasThread(id) && s.threads[id - 1].Is(Dormant)
    then Stay(s.Put(id, s.threads[id - 1].(inUse := false)).Return(0))
    else Stay(s.Return(MINUS_ONE))
  }

  function StartRegs(t: Tcb, gp: Word, a0: Word, a1: Word): Regs {
    var top := Plus(t.stack.base, t.stack.size) / 8 * 8;
    Regs(ZERO_REGS.gpr[29 := top][28 := gp][31 := ENTRY_RETURN][4 := a0][5 := a1],
         t.stack.entry, Plus(t.stack.entry, 4), t.regs.hi, t.regs.lo)
  }

  /** StartThread passes its argument in $a0; StartThreadArgs passes both. */
  function StartThread(s: State, id: int, a0: Word, a1: Word): Outcome {
    if s.HasThread(id) && s.threads[id - 1].Is(Dormant)
    then Switch(Launch(s, id, StartRegs(s.threads[id - 1], s.cpu.gpr[28], a0, a1)))
    else Switch(s.Return(MINUS_ONE))
  }

  function Launch(s: State, id: int, regs: Regs): State
    requires 1 <= id <= MAX_THREADS
  {
    s.Put(id, s.threads[id - 1].(regs := regs, phase := Ready, seqNo := s.nextSeq))
     .(nextSeq := Plus(s.nextSeq, 1)).Return(0)
  }

  /** ExitThread, ExitDeleteThread and falling off the entry function. */
  function ExitThread(s: State, delete: bool): Outcome {
    if s.current == 0 then Switch(s) else
    var t := s.threads[s.current - 1];
    Switch(s.Put(s.current, t.(phase := Dormant, suspended := false, inUse := t.inUse && !delete)))
  }

  function TerminateThread(s: State, id: int): Outcome {
    if s.HasThread(id) && id != s.current then
      Stay(s.Put(id, s.threads[id - 1].(phase := Dormant, suspended := false, waitKind := NoWait, waitId := 0)).Return(0))
    else Stay(s.Return(MINUS_ONE))
  }

  function ChangePriority(s: State, id: int, priority: Word): Outcome {
    if s.HasThread(id) then Switch(s.Put(id, s.threads[id - 1].(priority := priority)).Return(0))
    else Switch(s.Return(MINUS_ONE))
  }

  /** The runnable thread of this priority that became ready first: 1-based, 0 for none. */
  function Earliest(ts: seq<Tcb>, priority: Word): (r: nat)
    ensures r <= |ts|
    ensures r > 0 ==> ts[r - 1].Runnable() && ts[r - 1].priority == priority
  {
    if ts == [] then 0 else
    var n := |ts| - 1;
    var best := Earliest(ts[..n], priority);
    var no := if best == 0 then MINUS_ONE else ts[best - 1].seqNo;
    if ts[n].Runnable() && ts[n].priority == priority && ts[n].seqNo < no then |ts| else best
  }

  /** The thread RotateThreadReadyQueue moves: priority 0 means the caller's own. */
  function QueueHead(s: State, priority: Word): (e: nat)
    ensures e <= MAX_THREADS
    ensures e > 0 ==> s.threads[e - 1].Runnable()
  {
    Earliest(s.threads, if priority == 0 && s.current != 0 then s.threads[s.current - 1].priority else priority)
  }

  function RotateReadyQueue(s: State, priority: Word): Outcome { SentBack(s, QueueHead(s, priority)) }

  function SentBack(s: State, e: nat): Outcome
    requires e <= MAX_THREADS
  {
    if e == 0 then Switch(s.Return(0)) else
    Switch(s.Put(e, s.threads[e - 1].(seqNo := s.nextSeq)).(nextSeq := Plus(s.nextSeq, 1)).Return(0))
  }

  function ReleaseWait(s: State, id: int): Outcome {
    if s.HasThread(id) && s.threads[id - 1].Is(Wait) then
      var t := s.threads[id - 1];
      var s1 := if t.waitKind == OnSema && 1 <= t.waitId <= MAX_SEMAS then LeaveSema(s, t.waitId) else s;
      Switch(s1.Awaken(id).Return(0))
    else Switch(s.Return(MINUS_ONE))
  }

  function LeaveSema(s: State, id: int): State
    requires 1 <= id <= MAX_SEMAS
  {
    var m := s.semas[id - 1];
    s.(semas := s.semas[id - 1 := m.(waiters := m.waiters - 1)])
  }

  function SleepThread(s: State): Outcome {
    if s.current == 0 then Stay(s.(cpu := s.cpu.Resumed())) else
    var t := s.threads[s.current - 1];
    if t.wakeups > 0 then Stay(s.Put(s.current, t.(wakeups := t.wakeups - 1)).Return(0))
    else Switch(Block(s, OnSleep, 0))
  }

  function WakeupThread(s: State, id: int): Outcome {
    if !s.HasThread(id) then Switch(s.Return(MINUS_ONE)) else
    var t := s.threads[id - 1];
    if t.Is(Wait) && t.waitKind == OnSleep then
      Switch(s.Put(id, t.Woken(s.nextSeq).(waitId := t.waitId)).(nextSeq := Plus(s.nextSeq, 1)).Return(0))
    else Switch(s.Put(id, t.(wakeups := Plus(t.wakeups, 1))).Return(0))
  }

  function CancelWakeup(s: State, id: int): Outcome {
    if s.HasThread(id)
    then Stay(s.Put(id, s.threads[id - 1].(wakeups := 0)).Return(s.threads[id - 1].wakeups))
    else Stay(s.Return(MINUS_ONE))
  }

  function SuspendThread(s: State, id: int): Outcome {
    if s.HasThread(id) && s.threads[id - 1].phase != Dormant
    then Switch(s.Put(id, s.threads[id - 1].(suspended := true)).Return(0))
    else Switch(s.Return(MINUS_ONE))
  }

  function ResumeThread(s: State, id: int): Outcome {
    if s.HasThread(id) && s.threads[id - 1].suspended then
      var t := s.threads[id - 1].(suspended := false);
      if t.phase == Ready
      then Switch(s.Put(id, t.(seqNo := s.nextSeq)).(nextSeq := Plus(s.nextSeq, 1)).Return(0))
      else Switch(s.Put(id, t).Return(0))
    else Switch(s.Return(MINUS_ONE))
  }

  /** DelayThread saves the registers before it sets the return value and address. */
  function DelayThread(s: State, usec: Word, now: nat): Outcome {
    if s.current == 0 then Stay(s.(cpu := s.cpu.Resumed())) else
    var t := s.threads[s.current - 1];
    Switch(s.Put(s.current, t.(deadline := now + usec * CLOCK_HZ / 1000000, regs := s.cpu,
      phase := Wait, suspended := false, waitKind := OnDelay, waitId := 0)).Return(0))
  }

  /** The wake scan of one tick over the first n threads. */
  function WakeDelayed(s: State, now: nat, n: nat): State
    requires n <= MAX_THREADS
  {
    if n == 0 then s else
    var s1 := WakeDelayed(s, now, n - 1);
    if Due(s1.threads[n - 1], now) then EndDelay(s1, n) else s1
  }

  predicate Due(t: Tcb, now: nat) { t.Is(Wait) && t.waitKind == OnDelay && now >= t.deadline }

  function EndDelay(s: State, n: nat): State
    requires 1 <= n <= MAX_THREADS
  {
    var t := s.threads[n - 1];
    s.Put(n, t.Woken(s.nextSeq).(waitId := t.waitId)).(nextSeq := Plus(s.nextSeq, 1))
  }

  /** iop_hle_thread_tick without the alarm dispatch. */
  function Tick(s: State, now: nat): Outcome {
    var s1 := WakeDelayed(s, now, MAX_THREADS);
    if s.threadCount == 0 || s1.threads == s.threads then Stay(s) else Switch(s1)
  }

  // ---------------------------------------------------------------------------
  // Semaphore gates
  // ---------------------------------------------------------------------------

  function FreeSema(ms: seq<Sema>): (r: nat)
    ensures r <= |ms|
    ensures r > 0 ==> !ms[r - 1].inUse && forall i | 0 <= i < r - 1 :: ms[i].inUse
    ensures r == 0 ==> forall m | m in ms :: m.inUse
  {
    if ms == [] then 0 else
    var r := FreeSema(ms[..|ms| - 1]);
    if r > 0 then r else if ms[|ms| - 1].inUse then 0 else |ms|
  }

  function CreateSema(s: State, attr: Word, initial: int, max: int): Outcome {
    var slot := FreeSema(s.semas);
    if slot == 0 then Stay(s.Return(MINUS_ONE)) else
    Stay(s.(semas := s.semas[slot - 1 := Sema(true, attr, initial, max, initial, 0)]).Return(slot))
  }

  function DeleteSema(s: State, id: int): Outcome {
    if s.HasSema(id)
    then Stay(s.(semas := s.semas[id - 1 := s.semas[id - 1].(inUse := false)]).Return(0))
    else Stay(s.Return(MINUS_ONE))
  }

  /** t goes before u in the wait order. */
  predicate Before(t: Tcb, u: Tcb, byPriority: bool) {
    if byPriority then t.priority < u.priority || (t.priority == u.priority && t.seqNo < u.seqNo)
    else t.seqNo < u.seqNo
  }

  /** The waiter that a signal releases: 1-based, 0 for none. */
  function BestWaiter(ts: seq<Tcb>, id: int, byPriority: bool): (r: nat)
    ensures r <= |ts|
    ensures r > 0 ==> ts[r - 1].Waits(OnSema, id)
    ensures r == 0 ==> forall t | t in ts :: !t.Waits(OnSema, id)
  {
    if ts == [] then 0 else
    var n := |ts| - 1;
    var best := BestWaiter(ts[..n], id, byPriority);
    if ts[n].Waits(OnSema, id) && (best == 0 || Before(ts[n], ts[best - 1], byPriority)) then |ts| else best
  }

  function Post(s: State, id: int): State {
    if !s.HasSema(id) then s.Return(MINUS_ONE) else
    PostTo(s, id, BestWaiter(s.threads, id, s.semas[id - 1].ByPriority()))
  }

  /** A post with thread w to release, or 0 for none. */
  function PostTo(s: State, id: int, w: nat): State
    requires 1 <= id <= MAX_SEMAS && w <= MAX_THREADS
  {
    var m := s.semas[id - 1];
    if w != 0 then LeaveSema(s.Awaken(w), id).Return(0)
    else if m.count < m.max then s.(semas := s.semas[id - 1 := m.(count := m.count + 1)]).Return(0)
    else s.Return(0)
  }

  /** SignalSema, and iSignalSema which leaves the switch for later. */
  function SignalSema(s: State, id: int, fromInterrupt: bool): Outcome {
    if fromInterrupt then Stay(Post(s, id)) else Switch(Post(s, id))
  }

  function TakeSema(s: State, id: int): State
    requires 1 <= id <= MAX_SEMAS
  {
    var m := s.semas[id - 1];
    s.(semas := s.semas[id - 1 := m.(count := m.count - 1)]).Return(0)
  }

  function WaitSema(s: State, id: int): Outcome {
    if !s.HasSema(id) then Stay(s.Return(MINUS_ONE)) else
    var m := s.semas[id - 1];
    if m.count > 0 then Stay(TakeSema(s, id)) else Switch(JoinSema(s, id))
  }

  /** The caller, if there is one, joins the semaphore's waiters, which are counted in any case. */
  function JoinSema(s: State, id: int): State
    requires 1 <= id <= MAX_SEMAS
  {
    BlockNumbered(EnterSema(s, id), id)
  }

  function EnterSema(s: State, id: int): State
    requires 1 <= id <= MAX_SEMAS
  {
    s.(semas := s.semas[id - 1 := s.semas[id - 1].(waiters := s.semas[id - 1].waiters + 1)])
  }

  function BlockNumbered(s: State, id: int): State {
    if s.current == 0 then s.Return(0) else
    var b := Block(s, OnSema, id);
    b.Put(s.current, b.threads[s.current - 1].(seqNo := s.nextSeq)).(nextSeq := Plus(s.nextSeq, 1))
  }

  function PollSema(s: State, id: int): Outcome {
    Stay(if s.HasSema(id) && s.semas[id - 1].count > 0 then TakeSema(s, id) else s.Return(MINUS_ONE))
  }

  // ---------------------------------------------------------------------------
  // Event-flag gates
  // ---------------------------------------------------------------------------

  predicate Satisfied(bits: Bits, want: Bits, mode: Mode) {
    if mode.any then bits * want != {} else want <= bits
  }

  function FreeFlag(fs: seq<Flag>): (r: nat)
    ensures r <= |fs|
    ensures r > 0 ==> !fs[r - 1].inUse && forall i | 0 <= i < r - 1 :: fs[i].inUse
    ensures r == 0 ==> forall f | f in fs :: f.inUse
  {
    if fs == [] then 0 else
    var r := FreeFlag(fs[..|fs| - 1]);
    if r > 0 then r else if fs[|fs| - 1].inUse then 0 else |fs|
  }

  function CreateFlag(s: State, attr: Word, bits: Bits): Outcome {
    var slot := FreeFlag(s.flags);
    if slot == 0 then Stay(s.Return(MINUS_ONE)) else
    Stay(s.(flags := s.flags[slot - 1 := Flag(true, attr, bits, 0)]).Return(slot))
  }

  /** Releases the waiters on a flag among the first n threads. */
  function ReleaseAll(s: State, id: int, n: nat): State
    requires n <= MAX_THREADS
  {
    if n == 0 then s else
    var s1 := ReleaseAll(s, id, n - 1);
    if s1.threads[n - 1].Waits(OnFlag, id) then s1.Awaken(n) else s1
  }

  function DeleteFlag(s: State, id: int): Outcome {
    if !s.HasFlag(id) then Switch(s.Return(MINUS_ONE)) else
    var s1 := ReleaseAll(s, id, MAX_THREADS);
    Switch(s1.(flags := s1.flags[id - 1 := s1.flags[id - 1].(inUse := false)]).Return(0))
  }

  /** Thread n gets the bits it waited for. */
  function GrantFlag(s: State, id: int, n: nat): State
    requires 1 <= id <= MAX_FLAGS && 1 <= n <= MAX_THREADS
  {
    var t, f := s.threads[n - 1], s.flags[id - 1];
    var f' := f.(bits := if t.want.mode.clear then {} else f.bits, waiters := f.waiters - 1);
    s.Awaken(n)
     .(flags := s.flags[id - 1 := f'],
       results := if t.want.ptr != 0 then s.results + [(t.want.ptr, f.bits)] else s.results)
  }

  /** wake_evf_waiters over the first n threads; it stops for good once the bits are zero. */
  function WakeFlag(s: State, id: int, n: nat): State
    requires 1 <= id <= MAX_FLAGS && n <= MAX_THREADS
  {
    if n == 0 then s else
    var s1 := WakeFlag(s, id, n - 1);
    var t, f := s1.threads[n - 1], s1.flags[id - 1];
    if f.bits != {} && t.Waits(OnFlag, id) && Satisfied(f.bits, t.want.bits, t.want.mode)
    then GrantFlag(s1, id, n) else s1
  }

  function SetBits(s: State, id: int, bits: Bits): State {
    if !s.HasFlag(id) then s.Return(MINUS_ONE)
    else if bits == {} then s.Return(0) else
    WakeFlag(Raised(s, id, bits), id, MAX_THREADS).Return(0)
  }

  function Raised(s: State, id: int, bits: Bits): State
    requires 1 <= id <= MAX_FLAGS
  {
    var f := s.flags[id - 1];
    s.(flags := s.flags[id - 1 := f.(bits := f.bits + bits)])
  }

  /** SetEventFlag, and iSetEventFlag which leaves the switch for later. */
  function SetFlag(s: State, id: int, bits: Bits, fromInterrupt: bool): Outcome {
    if fromInterrupt then Stay(SetBits(s, id, bits)) else Switch(SetBits(s, id, bits))
  }

  /** ClearEventFlag keeps the bits of its mask. */
  function ClearFlag(s: State, id: int, mask: Bits): Outcome {
    if !s.HasFlag(id) then Stay(s.Return(MINUS_ONE)) else
    var f := s.flags[id - 1];
    Stay(s.(flags := s.flags[id - 1 := f.(bits := f.bits * mask)]).Return(0))
  }

  /** The flag seen by a satisfied wait or poll. */
  function TakeFlag(s: State, id: int, mode: Mode, ptr: Word): State
    requires 1 <= id <= MAX_FLAGS
  {
    var f := s.flags[id - 1];
    s.(flags := s.flags[id - 1 := f.(bits := if mode.clear then {} else f.bits)],
       results := if ptr != 0 then s.results + [(ptr, f.bits)] else s.results).Return(0)
  }

  function WaitFlag(s: State, id: int, bits: Bits, mode: Mode, ptr: Word): Outcome {
    if !s.HasFlag(id) || bits == {} then Stay(s.Return(MINUS_ONE)) else
    var f := s.flags[id - 1];
    if !f.Multi() && f.waiters > 0 then Stay(s.Return(MINUS_ONE))
    else if Satisfied(f.bits, bits, mode) then Stay(TakeFlag(s, id, mode, ptr))
    else Switch(JoinFlag(s, id, Want(bits, mode, ptr)))
  }

  /** The caller, if there is one, joins the flag's waiters, which are counted in any case. */
  function JoinFlag(s: State, id: int, want: Want): State
    requires 1 <= id <= MAX_FLAGS
  {
    BlockWanting(CountWaiter(s, id), id, want)
  }

  function CountWaiter(s: State, id: int): State
    requires 1 <= id <= MAX_FLAGS
  {
    s.(flags := s.flags[id - 1 := s.flags[id - 1].(waiters := s.flags[id - 1].waiters + 1)])
  }

  function BlockWanting(s: State, id: int, want: Want): State {
    if s.current == 0 then s.Return(0) else
    var b := Block(s, OnFlag, id);
    b.Put(s.current, b.threads[s.current - 1].(want := want))
  }

  function PollFlag(s: State, id: int, bits: Bits, mode: Mode, ptr: Word): Outcome {
    Stay(if s.HasFlag(id) && bits != {} && Satisfied(s.flags[id - 1].bits, bits, mode)
         then TakeFlag(s, id, mode, ptr) else s.Return(MINUS_ONE))
  }

  // ---------------------------------------------------------------------------
  // Runs
  // ---------------------------------------------------------------------------

  datatype Call =
    | Create(entry: Word, stackSize: Word, priority: Word)
    | Delete(id: int)
    | Start(id: int, a0: Word, a1: Word)
    | Exit(delete: bool)
    | Terminate(id: int)
    | SetPriority(id: int, priority: Word)
    | Rotate(priority: Word)
    | Release(id: int)
    | Sleep
    | Wakeup(id: int)
    | Cancel(id: int)
    | Suspend(id: int)
    | Resume(id: int)
    | Delay(usec: Word, now: nat)
    | NewSema(attr: Word, initial: int, max: int)
    | DropSema(id: int)
    | Signal(id: int, fromInterrupt: bool)
    | Acquire(id: int)
    | Poll(id: int)
    | NewFlag(attr: Word, bits: Bits)
    | DropFlag(id: int)
    | Raise(id: int, bits: Bits, fromInterrupt: bool)
    | Keep(id: int, mask: Bits)
    | Await(id: int, bits: Bits, mode: Mode, ptr: Word)
    | Test(id: int, bits: Bits, mode: Mode, ptr: Word)

  // Families of gates; the rest are the event-flag gates.
  predicate OnThreads(c: Call) {
    c.Create? || c.Delete? || c.Start? || c.Exit? || c.Terminate? || c.SetPriority? || c.Rotate?
  }

  predicate OnBlocking(c: Call) {
    c.Release? || c.Sleep? || c.Wakeup? || c.Cancel? || c.Suspend? || c.Resume? || c.Delay?
  }

  predicate OnSemas(c: Call) { c.NewSema? || c.DropSema? || c.Signal? || c.Acquire? || c.Poll? }

  function Effect(s: State, c: Call): Outcome {
    match c
    case Create(entry, size, priority) => CreateThread(s, entry, size, priority)
    case Delete(id) => DeleteThread(s, id)
    case Start(id, a0, a1) => StartThread(s, id, a0, a1)
    case Exit(delete) => ExitThread(s, delete)
    case Terminate(id) => TerminateThread(s, id)
    case SetPriority(id, priority) => ChangePriority(s, id, priority)
    case Rotate(priority) => RotateReadyQueue(s, priority)
    case Release(id) => ReleaseWait(s, id)
    case Sleep => SleepThread(s)
    case Wakeup(id) => WakeupThread(s, id)
    case Cancel(id) => CancelWakeup(s, id)
    case Suspend(id) => SuspendThread(s, id)
    case Resume(id) => ResumeThread(s, id)
    case Delay(usec, now) => DelayThread(s, usec, now)
    case NewSema(attr, initial, max) => CreateSema(s, attr, initial, max)
    case DropSema(id) => DeleteSema(s, id)
    case Signal(id, i) => SignalSema(s, id, i)
    case Acquire(id) => WaitSema(s, id)
    case Poll(id) => PollSema(s, id)
    case NewFlag(attr, bits) => CreateFlag(s, attr, bits)
    case DropFlag(id) => DeleteFlag(s, id)
    case Raise(id, bits, i) => SetFlag(s, id, bits, i)
    case Keep(id, mask) => ClearFlag(s, id, mask)
    case Await(id, bits, mode, ptr) => WaitFlag(s, id, bits, mode, ptr)
    case Test(id, bits, mode, ptr) => PollFlag(s, id, bits, mode, ptr)
  }

  function Settle(o: Outcome): State {
    match o
    case Stay(s) => s
    case Switch(s) => Reschedule(s)
  }

  /** One event: a gate, a clock tick, or guest code changing the live registers. */
  datatype Event = Enter(call: Call) | Clock(now: nat) | Execute(regs: Regs)

  function Step(s: State, e: Event): State {
    match e
    case Enter(c) => Settle(Effect(EnsureRoot(s), c))
    case Clock(now) => Settle(Tick(s, now))
    case Execute(regs) => s.(cpu := regs)
  }

  function After(s: State, es: seq<Event>): State {
    if es == [] then s else Step(After(s, es[..|es| - 1]), es[|es| - 1])
  }
}
