/** The kernel object: one global record of status words, wait types and flag patterns, updated in
    place by each gate. Every gate is proved to make exactly the transition that ThreadState gives
    it for what the record stands for. */
module ThreadKernel {
  import opened Words
  import opened Bitwise
  import opened ThreadRecords
  import T = ThreadState

  /** A gate with its arguments as words. */
  datatype Request =
    | Other(call: T.Call)
    | CreateFlag(attr: Word, bits: Word)
    | DeleteFlag(id: int)
    | SetFlag(id: int, bits: Word, fromInterrupt: bool)
    | ClearFlag(id: int, mask: Word)
    | WaitFlag(id: int, bits: Word, mode: Word, ptr: Word)
    | PollFlag(id: int, bits: Word, mode: Word, ptr: Word)

  predicate OnFlags(c: T.Call) { !T.OnThreads(c) && !T.OnBlocking(c) && !T.OnSemas(c) }

  ghost function CallOf(r: Request): T.Call {
    match r
    case Other(c) => c
    case CreateFlag(attr, bits) => T.NewFlag(attr, Ones(bits))
    case DeleteFlag(id) => T.DropFlag(id)
    case SetFlag(id, bits, i) => T.Raise(id, Ones(bits), i)
    case ClearFlag(id, mask) => T.Keep(id, Ones(mask))
    case WaitFlag(id, bits, mode, ptr) => T.Await(id, Ones(bits), ModeOf(mode), ptr)
    case PollFlag(id, bits, mode, ptr) => T.Test(id, Ones(bits), ModeOf(mode), ptr)
  }

  class Kernel {
    var threads: Threads
    var threadCount: nat
    var current: T.ThreadRef
    var nextSeq: Word
    var stackNext: Word
    var semas: T.Semas
    var flags: Flags
    var cpu: T.Regs
    var idle: bool
    var results: seq<(Word, Word)>

    /** Every thread in use has exactly one phase bit in its status word. */
    ghost predicate Valid()
      reads this
    {
      forall i | 0 <= i < T.MAX_THREADS :: threads[i].Valid()
    }

    ghost function Snapshot(): T.State
      reads this
    {
      T.State(Tcbs(threads), threadCount, current, nextSeq, stackNext, semas, FlagsOf(flags), cpu, idle,
              ResultsOf(results))
    }

    /** What a gate has done: `switch` says that it ends in reschedule. */
    ghost function Outcome(switch: bool): T.Outcome
      reads this
    {
      if switch then T.Switch(Snapshot()) else T.Stay(Snapshot())
    }

    constructor ()
      ensures Valid() && Snapshot() == T.INITIAL
    {
      threads := seq(T.MAX_THREADS, _ => BLANK);
      threadCount, current, nextSeq, stackNext := 0, 0, 0, T.ARENA_TOP;
      semas := seq(T.MAX_SEMAS, _ => T.Sema(false, 0, 0, 0, 0, 0));
      flags := seq(T.MAX_FLAGS, _ => Flag(false, 0, 0, 0));
      cpu, idle, results := T.ZERO_REGS, false, [];
      new;
      BlankRecords();
    }

    // -------------------------------------------------------------------------
    // Updates of one record
    // -------------------------------------------------------------------------

    method Put(id: int, t: Thread)
      requires Valid() && 1 <= id <= T.MAX_THREADS && t.Valid()
      modifies this`threads
      ensures Valid() && threads == old(threads)[id - 1 := t]
      ensures Snapshot() == old(Snapshot()).Put(id, Tcb(t))
    {
      TcbsPut(threads, id - 1, t);
      threads := threads[id - 1 := t];
    }

    method PutFlag(id: int, f: Flag)
      requires Valid() && 1 <= id <= T.MAX_FLAGS
      modifies this`flags
      ensures Valid() && flags == old(flags)[id - 1 := f]
      ensures Snapshot() == old(Snapshot()).(flags := old(Snapshot()).flags[id - 1 := FlagOf(f)])
    {
      FlagsPut(flags, id - 1, f);
      flags := flags[id - 1 := f];
    }

    method Store(ptr: Word, bits: Word)
      requires Valid()
      modifies this`results
      ensures Valid()
      ensures Snapshot() == old(Snapshot()).(results := if ptr != 0 then old(Snapshot()).results + [(ptr, Ones(bits))]
                                                        else old(Snapshot()).results)
    {
      if ptr != 0 {
        ResultsSnoc(results, ptr, bits);
        results := results + [(ptr, bits)];
      }
    }

    method NextNumber() returns (n: Word)
      requires Valid()
      modifies this`nextSeq
      ensures Valid() && n == old(nextSeq) && Snapshot() == old(Snapshot()).(nextSeq := Plus(n, 1))
    {
      n := nextSeq;
      nextSeq := Plus(nextSeq, 1);
    }

    method Return(v: Word)
      requires Valid()
      modifies this`cpu
      ensures Valid() && Snapshot() == old(Snapshot()).Return(v)
    {
      cpu := cpu.Returned(v);
    }

    /** status = READY, wait_type = wait_id = 0, and the next number. */
    method MakeReady(id: int)
      requires Valid() && 1 <= id <= T.MAX_THREADS && !Suspended(threads[id - 1].status)
      modifies this`threads, this`nextSeq
      ensures Valid() && Snapshot() == old(Snapshot()).Awaken(id)
    {
      var n := NextNumber();
      Put(id, threads[id - 1].(status := READY, waitType := 0, waitId := 0, seqNo := n));
    }

    // -------------------------------------------------------------------------
    // Scheduling
    // -------------------------------------------------------------------------

    method PickNextReady() returns (best: nat)
      requires Valid()
      ensures best == T.Pick(Snapshot().threads)
    {
      ghost var ts := Tcbs(threads);
      ghost var bests := PickScan(ts);
      best := 0;
      var prio, no := MINUS_ONE, MINUS_ONE;
      for i := 0 to T.MAX_THREADS
        invariant best == bests[i] && best <= i && prio == PrioOf(ts, best) && no == NoOf(ts, best)
      {
        assert bests[i + 1] == PickNext(ts, i, bests[i]);
        var better := Urgent(i, prio, no);
        if better { best, prio, no := i + 1, threads[i].priority, threads[i].seqNo; }
      }
    }

    method Urgent(i: nat, prio: Word, no: Word) returns (b: bool)
      requires Valid() && i < T.MAX_THREADS
      ensures var t := Snapshot().threads[i];
              b == (t.Runnable() && (t.priority < prio || (t.priority == prio && t.seqNo < no)))
    {
      var t := threads[i];
      b := t.inUse && (t.status == READY || t.status == RUN) && (t.priority < prio || (t.priority == prio && t.seqNo < no));
    }

    method SaveContext(id: int)
      requires Valid() && 1 <= id <= T.MAX_THREADS
      modifies this`threads
      ensures Valid() && threads == old(threads)[id - 1 := old(threads)[id - 1].(regs := cpu)]
      ensures Snapshot() == old(Snapshot()).Put(id, old(Snapshot()).threads[id - 1].(regs := cpu))
    {
      Put(id, threads[id - 1].(regs := cpu));
    }

    method Reschedule()
      requires Valid()
      modifies this
      ensures Valid() && Snapshot() == T.Reschedule(old(Snapshot()))
    {
      var next := PickNextReady();
      if next == 0 {
        GoIdle();
      } else if next != current {
        SwitchOut();
        SwitchIn(next);
      } else {
        Put(next, threads[next - 1].(status := RUN));
        RunKeepsSuspend(old(Snapshot()), next);
        idle := false;
      }
    }

    method GoIdle()
      requires Valid()
      modifies this
      ensures Valid()
      ensures var s := old(Snapshot());
              Snapshot() == (if T.OwnsCpu(s) then T.Save(s) else s).(current := 0, idle := true)
    {
      if current != 0 {
        if threads[current - 1].status == RUN { SaveContext(current); }
      }
      current := 0;
      idle := true;
    }

    method SwitchIn(next: nat)
      requires Valid() && 1 <= next <= T.MAX_THREADS && Snapshot().threads[next - 1].Runnable()
      modifies this
      ensures Valid() && Snapshot() == T.SwitchIn(old(Snapshot()), next)
    {
      cpu := threads[next - 1].regs;
      Put(next, threads[next - 1].(status := RUN));
      current := next;
      idle := false;
    }

    /** Saves the outgoing thread if it is still the one the registers belong to. */
    method SwitchOut()
      requires Valid()
      modifies this`threads
      ensures Valid() && Snapshot() == T.SwitchOut(old(Snapshot()))
    {
      if current != 0 {
        var t := threads[current - 1];
        if t.status == RUN {
          Put(current, t.(status := READY));
          SaveContext(current);
        }
      }
    }

    method EnsureRootThread()
      requires Valid()
      modifies this
      ensures Valid() && Snapshot() == T.EnsureRoot(old(Snapshot()))
    {
      if threadCount > 0 { return; }
      var n := NextNumber();
      BlankRecords();
      Put(1, BLANK.(inUse := true, status := RUN, priority := 64, seqNo := n, regs := cpu));
      threadCount, current := 1, 1;
    }

    // -------------------------------------------------------------------------
    // Threads
    // -------------------------------------------------------------------------

    method FindFreeThread() returns (slot: nat)
      requires Valid()
      ensures slot == T.FirstFree(Snapshot().threads)
    {
      ghost var ts := Tcbs(threads);
      for i := 0 to T.MAX_THREADS
        invariant forall k | 0 <= k < i :: ts[k].inUse
      {
        if !threads[i].inUse {
          FirstFreeIs(ts, i);
          return i + 1;
        }
      }
      slot := 0;
      AllInUse(ts);
    }

    method CreateThread(entry: Word, size: Word, priority: Word) returns (switch: bool)
      requires Valid()
      modifies this
      ensures Valid() && Outcome(switch) == T.CreateThread(old(Snapshot()), entry, size, priority)
    {
      switch := false;
      var stack := if size < 0x100 then 0x100 else size;
      var slot := FindFreeThread();
      if slot == 0 || stackNext < Plus(T.ARENA_BOTTOM, stack) {
        Return(MINUS_ONE);
      } else {
        var aligned := AlignUp(stack);
        AddThread(slot, entry, aligned, priority);
        Return(slot);
      }
    }

    static method AlignUp(size: Word) returns (a: Word)
      ensures a == T.Align16(size)
    {
      AlignMask(Plus(size, 15));
      a := AndWord(Plus(size, 15), Not(15));
    }

    /** Takes a stack off the arena for a new, dormant thread. */
    method AddThread(slot: nat, entry: Word, size: Word, priority: Word)
      requires Valid() && 1 <= slot <= T.MAX_THREADS
      modifies this`threads, this`stackNext, this`threadCount
      ensures Valid()
      ensures Snapshot() == T.AddThread(old(Snapshot()), slot, entry, size, priority)
    {
      BlankRecords();
      stackNext := Plus(stackNext, -(size as int));
      Put(slot, BLANK.(inUse := true, status := DORMANT, stack := T.Stack(entry, stackNext, size), priority := priority));
      if slot > threadCount { threadCount := slot; }
    }

    method DeleteThread(id: int) returns (switch: bool)
      requires Valid()
      modifies this
      ensures Valid() && Outcome(switch) == T.DeleteThread(old(Snapshot()), id)
    {
      switch := false;
      if 1 <= id <= T.MAX_THREADS && threads[id - 1].inUse && threads[id - 1].status == DORMANT {
        Put(id, threads[id - 1].(inUse := false));
        Return(0);
      } else {
        Return(MINUS_ONE);
      }
    }

    method StartThread(id: int, a0: Word, a1: Word) returns (switch: bool)
      requires Valid()
      modifies this
      ensures Valid() && Outcome(switch) == T.StartThread(old(Snapshot()), id, a0, a1)
    {
      if 1 <= id <= T.MAX_THREADS && threads[id - 1].inUse && threads[id - 1].status == DORMANT {
        var regs := StartRegs(threads[id - 1], cpu.gpr[28], a0, a1);
        Launch(id, regs);
      } else {
        Return(MINUS_ONE);
      }
      switch := true;
    }

    static method StartRegs(t: Thread, gp: Word, a0: Word, a1: Word) returns (regs: T.Regs)
      ensures regs == T.StartRegs(Tcb(t), gp, a0, a1)
    {
      var end := Plus(t.stack.base, t.stack.size);
      AlignMask(end);
      regs := T.Regs(T.ZERO_REGS.gpr[29 := AndWord(end, Not(7))][28 := gp][31 := T.ENTRY_RETURN][4 := a0][5 := a1],
                     t.stack.entry, Plus(t.stack.entry, 4), t.regs.hi, t.regs.lo);
    }

    method Launch(id: int, regs: T.Regs)
      requires Valid() && 1 <= id <= T.MAX_THREADS && threads[id - 1].status == DORMANT
      modifies this
      ensures Valid() && Snapshot() == T.Launch(old(Snapshot()), id, regs)
    {
      var n := NextNumber();
      Put(id, threads[id - 1].(regs := regs, status := READY, seqNo := n));
      Return(0);
    }

    method ExitThread(delete: bool) returns (switch: bool)
      requires Valid()
      modifies this
      ensures Valid() && Outcome(switch) == T.ExitThread(old(Snapshot()), delete)
    {
      if current != 0 {
        var t := threads[current - 1];
        Put(current, t.(status := DORMANT, inUse := t.inUse && !delete));
      }
      assert Snapshot() == T.ExitThread(old(Snapshot()), delete).state;
      switch := true;
    }

    method TerminateThread(id: int) returns (switch: bool)
      requires Valid()
      modifies this
      ensures Valid() && Outcome(switch) == T.TerminateThread(old(Snapshot()), id)
    {
      switch := false;
      if 1 <= id <= T.MAX_THREADS && threads[id - 1].inUse && id != current {
        Put(id, threads[id - 1].(status := DORMANT, waitType := 0, waitId := 0));
        Return(0);
      } else {
        Return(MINUS_ONE);
      }
    }

    method ChangeThreadPriority(id: int, priority: Word) returns (switch: bool)
      requires Valid()
      modifies this
      ensures Valid() && Outcome(switch) == T.ChangePriority(old(Snapshot()), id, priority)
    {
      if 1 <= id <= T.MAX_THREADS && threads[id - 1].inUse {
        Put(id, threads[id - 1].(priority := priority));
        Return(0);
      } else {
        Return(MINUS_ONE);
      }
      switch := true;
    }

    method FindEarliest(priority: Word) returns (e: nat)
      requires Valid()
      ensures e == T.Earliest(Snapshot().threads, priority)
    {
      ghost var ts := Tcbs(threads);
      ghost var es := EarliestScan(ts, priority);
      e := 0;
      var no := MINUS_ONE;
      for i := 0 to T.MAX_THREADS
        invariant e == es[i] && e <= i && no == NoOf(ts, e)
      {
        assert es[i + 1] == EarliestNext(ts, i, es[i], priority);
        var earlier := Earlier(i, priority, no);
        if earlier { e, no := i + 1, threads[i].seqNo; }
      }
    }

    method Earlier(i: nat, priority: Word, no: Word) returns (b: bool)
      requires Valid() && i < T.MAX_THREADS
      ensures var t := Snapshot().threads[i];
              b == (t.Runnable() && t.priority == priority && t.seqNo < no)
    {
      var t := threads[i];
      b := t.inUse && t.priority == priority && (t.status == READY || t.status == RUN) && t.seqNo < no;
    }

    method RotateThreadReadyQueue(priority: Word) returns (switch: bool)
      requires Valid()
      modifies this
      ensures Valid() && Outcome(switch) == T.RotateReadyQueue(old(Snapshot()), priority)
    {
      var p := priority;
      if p == 0 && current != 0 { p := threads[current - 1].priority; }
      var e := FindEarliest(p);
      SendBack(e);
      switch := true;
    }

    method SendBack(e: nat)
      requires Valid() && e <= T.MAX_THREADS
      modifies this
      ensures Valid() && Snapshot() == T.SentBack(old(Snapshot()), e).state
    {
      if e != 0 { Renumber(e); }
      Return(0);
    }

    method ReleaseWaitThread(id: int) returns (switch: bool)
      requires Valid()
      modifies this
      ensures Valid() && Outcome(switch) == T.ReleaseWait(old(Snapshot()), id)
    {
      if 1 <= id <= T.MAX_THREADS && threads[id - 1].inUse && threads[id - 1].status == WAIT {
        LeaveSema(id);
        MakeReady(id);
        Return(0);
      } else {
        Return(MINUS_ONE);
      }
      switch := true;
    }

    /** A semaphore's waiter count goes down when one of its waiters is released from outside. */
    method LeaveSema(id: int)
      requires Valid() && 1 <= id <= T.MAX_THREADS
      modifies this`semas
      ensures Valid()
      ensures var s := old(Snapshot());
              var t := s.threads[id - 1];
              Snapshot() == if t.waitKind == T.OnSema && 1 <= t.waitId <= T.MAX_SEMAS then T.LeaveSema(s, t.waitId) else s
    {
      var t := threads[id - 1];
      if t.waitType == TSW_SEMA && 1 <= t.waitId <= T.MAX_SEMAS {
        var m := semas[t.waitId - 1];
        semas := semas[t.waitId - 1 := m.(waiters := m.waiters - 1)];
      }
    }

    /** Saves the caller with its return in place and marks it waiting. */
    method BlockCurrent(waitType: nat, id: int)
      requires Valid() && current != 0
      modifies this`threads, this`cpu
      ensures Valid() && Snapshot() == T.Block(old(Snapshot()), KindOf(waitType), id)
    {
      Return(0);
      SaveContext(current);
      Put(current, threads[current - 1].(status := WAIT, waitType := waitType, waitId := id));
    }

    method SleepThread() returns (switch: bool)
      requires Valid()
      modifies this
      ensures Valid() && Outcome(switch) == T.SleepThread(old(Snapshot()))
    {
      switch := false;
      if current == 0 {
        cpu := cpu.Resumed();
        return;
      }
      var t := threads[current - 1];
      if t.wakeups > 0 {
        Put(current, t.(wakeups := t.wakeups - 1));
        Return(0);
      } else {
        BlockCurrent(TSW_SLEEP, 0);
        switch := true;
      }
    }

    method WakeupThread(id: int) returns (switch: bool)
      requires Valid()
      modifies this
      ensures Valid() && Outcome(switch) == T.WakeupThread(old(Snapshot()), id)
    {
      if 1 <= id <= T.MAX_THREADS && threads[id - 1].inUse {
        var t := threads[id - 1];
        if t.status == WAIT && t.waitType == TSW_SLEEP {
          var n := NextNumber();
          Put(id, t.(status := READY, waitType := 0, seqNo := n));
        } else {
          Put(id, t.(wakeups := Plus(t.wakeups, 1)));
        }
        Return(0);
      } else {
        Return(MINUS_ONE);
      }
      assert Snapshot() == T.WakeupThread(old(Snapshot()), id).state;
      switch := true;
    }

    method CancelWakeupThread(id: int) returns (switch: bool)
      requires Valid()
      modifies this
      ensures Valid() && Outcome(switch) == T.CancelWakeup(old(Snapshot()), id)
    {
      switch := false;
      if 1 <= id <= T.MAX_THREADS && threads[id - 1].inUse {
        Return(threads[id - 1].wakeups);
        Put(id, threads[id - 1].(wakeups := 0));
      } else {
        Return(MINUS_ONE);
      }
    }

    /** status |= SUSPEND, for any thread that is not dormant. */
    method SuspendThread(id: int) returns (switch: bool)
      requires Valid()
      modifies this
      ensures Valid() && Outcome(switch) == T.SuspendThread(old(Snapshot()), id)
    {
      if 1 <= id <= T.MAX_THREADS && threads[id - 1].inUse && threads[id - 1].status != DORMANT {
        var t := threads[id - 1];
        StatusSuspend(t.status);
        Put(id, t.(status := OrWord(t.status, SUSPEND)));
        Return(0);
      } else {
        Return(MINUS_ONE);
      }
      switch := true;
    }

    /** status &= ~SUSPEND; a thread left with no status at all would become ready, but there is none. */
    method ResumeThread(id: int) returns (switch: bool)
      requires Valid()
      modifies this
      ensures Valid() && Outcome(switch) == T.ResumeThread(old(Snapshot()), id)
    {
      if 1 <= id <= T.MAX_THREADS && threads[id - 1].inUse {
        SuspendedIff(threads[id - 1].status);
      }
      if 1 <= id <= T.MAX_THREADS && threads[id - 1].inUse && Has(threads[id - 1].status, SUSPEND) {
        Unsuspend(id);
        Return(0);
      } else {
        Return(MINUS_ONE);
      }
      assert Snapshot() == T.ResumeThread(old(Snapshot()), id).state;
      switch := true;
    }

    method Unsuspend(id: int)
      requires Valid() && 1 <= id <= T.MAX_THREADS && threads[id - 1].inUse && Suspended(threads[id - 1].status)
      modifies this`threads, this`nextSeq
      ensures Valid()
      ensures var s := old(Snapshot());
              var t := s.threads[id - 1].(suspended := false);
              Snapshot() == if t.phase == T.Ready then s.Put(id, t.(seqNo := s.nextSeq)).(nextSeq := Plus(s.nextSeq, 1))
                            else s.Put(id, t)
    {
      var t := threads[id - 1];
      StatusResume(t.status);
      var status := AndWord(t.status, Not(SUSPEND));
      if status == 0 { status := READY; }
      if status == READY {
        var n := NextNumber();
        Put(id, t.(status := status, seqNo := n));
      } else {
        Put(id, t.(status := status));
      }
    }

    method DelayThread(usec: Word, now: nat) returns (switch: bool)
      requires Valid()
      modifies this
      ensures Valid() && Outcome(switch) == T.DelayThread(old(Snapshot()), usec, now)
    {
      switch := false;
      if current == 0 {
        cpu := cpu.Resumed();
      } else {
        Put(current, threads[current - 1].(deadline := now + usec * T.CLOCK_HZ / 1000000));
        SaveContext(current);
        Put(current, threads[current - 1].(status := WAIT, waitType := TSW_DELAY, waitId := 0));
        Return(0);
        switch := true;
      }
    }

    method TickDelays(now: nat) returns (switch: bool)
      requires Valid()
      modifies this
      ensures Valid() && Outcome(switch) == T.Tick(old(Snapshot()), now)
    {
      switch := false;
      if threadCount == 0 { return; }
      var woke := WakeDelayed(now, T.MAX_THREADS);
      switch := woke;
    }

    method WakeDelayed(now: nat, n: nat) returns (woke: bool)
      requires Valid() && n == T.MAX_THREADS
      modifies this
      ensures Valid() && Snapshot() == T.WakeDelayed(old(Snapshot()), now, n)
      ensures woke == (Snapshot().threads != old(Snapshot()).threads) && (!woke ==> Snapshot() == old(Snapshot()))
    {
      woke := false;
      ghost var s, first := Snapshot(), 0;
      for i := 0 to n
        invariant Valid() && Snapshot() == T.WakeDelayed(s, now, i)
        invariant if woke then first < i && Tcb(threads[first]) != Tcb(old(threads)[first]) else Snapshot() == s
        invariant forall k | i <= k < n :: threads[k] == old(threads)[k]
      {
        var due := WakeIfDue(i, now);
        if due && !woke { first, woke := i, true; }
      }
      assert woke ==> Snapshot().threads[first] != s.threads[first];
    }

    method WakeIfDue(i: nat, now: nat) returns (due: bool)
      requires Valid() && i < T.MAX_THREADS
      modifies this`threads, this`nextSeq
      ensures Valid() && due == T.Due(old(Snapshot()).threads[i], now)
      ensures Snapshot() == if due then T.EndDelay(old(Snapshot()), i + 1) else old(Snapshot())
      ensures forall k | 0 <= k < T.MAX_THREADS && k != i :: threads[k] == old(threads)[k]
      ensures due ==> Tcb(threads[i]) != Tcb(old(threads)[i])
    {
      var t := threads[i];
      due := t.inUse && t.status == WAIT && t.waitType == TSW_DELAY && now >= t.deadline;
      if due {
        var n := NextNumber();
        Put(i + 1, t.(status := READY, waitType := 0, seqNo := n));
      }
    }

    // -------------------------------------------------------------------------
    // Semaphores
    // -------------------------------------------------------------------------

    method FindFreeSema() returns (slot: nat)
      ensures slot == T.FreeSema(semas)
    {
      for i := 0 to T.MAX_SEMAS
        invariant forall k | 0 <= k < i :: semas[k].inUse
      {
        if !semas[i].inUse {
          assert semas[i] in semas;
          return i + 1;
        }
      }
      return 0;
    }

    method CreateSema(attr: Word, initial: int, max: int) returns (switch: bool)
      requires Valid()
      modifies this
      ensures Valid() && Outcome(switch) == T.CreateSema(old(Snapshot()), attr, initial, max)
    {
      switch := false;
      var slot := FindFreeSema();
      if slot == 0 {
        Return(MINUS_ONE);
      } else {
        semas := semas[slot - 1 := T.Sema(true, attr, initial, max, initial, 0)];
        Return(slot);
      }
    }

    method DeleteSema(id: int) returns (switch: bool)
      requires Valid()
      modifies this
      ensures Valid() && Outcome(switch) == T.DeleteSema(old(Snapshot()), id)
    {
      switch := false;
      if 1 <= id <= T.MAX_SEMAS && semas[id - 1].inUse {
        semas := semas[id - 1 := semas[id - 1].(inUse := false)];
        Return(0);
      } else {
        Return(MINUS_ONE);
      }
    }

    method FindWaiter(id: int, attr: Word) returns (best: nat)
      requires Valid()
      ensures best == T.BestWaiter(Snapshot().threads, id, attr % 2 == 1)
    {
      ghost var ts := Tcbs(threads);
      ghost var bests := WaiterScan(ts, id, attr % 2 == 1);
      best := 0;
      var prio, no := MINUS_ONE, MINUS_ONE;
      for i := 0 to T.MAX_THREADS
        invariant best == bests[i] && best <= i
        invariant best > 0 ==> prio == PrioOf(ts, best) && no == NoOf(ts, best)
      {
        assert bests[i + 1] == WaiterNext(ts, i, bests[i], id, attr % 2 == 1);
        var waits := WaitsOn(i, id);
        if waits {
          var better := Better(threads[i], attr, prio, no);
          if best == 0 || better { best, prio, no := i + 1, threads[i].priority, threads[i].seqNo; }
        }
      }
    }

    method WaitsOn(i: nat, id: int) returns (b: bool)
      requires Valid() && i < T.MAX_THREADS
      ensures b == Snapshot().threads[i].Waits(T.OnSema, id)
    {
      var t := threads[i];
      b := t.inUse && t.status == WAIT && t.waitType == TSW_SEMA && t.waitId == id;
    }

    /** Whether a waiter goes before the best so far, given by its priority and number. */
    method Better(t: Thread, attr: Word, prio: Word, no: Word) returns (b: bool)
      ensures forall u: T.Tcb | u.priority == prio && u.seqNo == no :: b == T.Before(Tcb(t), u, attr % 2 == 1)
    {
      HasBit(attr, 0, SA_THPRI);
      b := if Has(attr, SA_THPRI) then t.priority < prio || (t.priority == prio && t.seqNo < no) else t.seqNo < no;
    }

    method SignalSema(id: int, fromInterrupt: bool) returns (switch: bool)
      requires Valid()
      modifies this
      ensures Valid() && Outcome(switch) == T.SignalSema(old(Snapshot()), id, fromInterrupt)
    {
      PostSema(id);
      switch := !fromInterrupt;
    }

    /** Releases one waiter, or else counts up to the maximum. */
    method PostSema(id: int)
      requires Valid()
      modifies this
      ensures Valid() && Snapshot() == T.Post(old(Snapshot()), id)
    {
      if !(1 <= id <= T.MAX_SEMAS && semas[id - 1].inUse) {
        Return(MINUS_ONE);
        return;
      }
      var w := FindWaiter(id, semas[id - 1].attr);
      PostTo(id, w);
    }

    method PostTo(id: int, w: nat)
      requires Valid() && 1 <= id <= T.MAX_SEMAS && w <= T.MAX_THREADS
      requires w > 0 ==> !Suspended(threads[w - 1].status)
      modifies this
      ensures Valid() && Snapshot() == T.PostTo(old(Snapshot()), id, w)
    {
      var m := semas[id - 1];
      if w != 0 {
        MakeReady(w);
        semas := semas[id - 1 := m.(waiters := m.waiters - 1)];
      } else if m.count < m.max {
        semas := semas[id - 1 := m.(count := m.count + 1)];
      }
      Return(0);
    }

    method WaitSema(id: int) returns (switch: bool)
      requires Valid()
      modifies this
      ensures Valid() && Outcome(switch) == T.WaitSema(old(Snapshot()), id)
    {
      switch := false;
      if !(1 <= id <= T.MAX_SEMAS && semas[id - 1].inUse) {
        Return(MINUS_ONE);
        return;
      }
      var m := semas[id - 1];
      if m.count > 0 {
        semas := semas[id - 1 := m.(count := m.count - 1)];
        Return(0);
        return;
      }
      JoinSema(id);
      switch := true;
    }

    method JoinSema(id: int)
      requires Valid() && 1 <= id <= T.MAX_SEMAS
      modifies this
      ensures Valid() && Snapshot() == T.JoinSema(old(Snapshot()), id)
    {
      EnterSema(id);
      BlockNumbered(id);
    }

    method EnterSema(id: int)
      requires Valid() && 1 <= id <= T.MAX_SEMAS
      modifies this`semas
      ensures Valid() && Snapshot() == T.EnterSema(old(Snapshot()), id)
    {
      semas := semas[id - 1 := semas[id - 1].(waiters := semas[id - 1].waiters + 1)];
    }

    method BlockNumbered(id: int)
      requires Valid()
      modifies this
      ensures Valid() && Snapshot() == T.BlockNumbered(old(Snapshot()), id)
    {
      if current != 0 {
        BlockCurrent(TSW_SEMA, id);
        Renumber(current);
      } else {
        Return(0);
      }
    }

    method Renumber(id: int)
      requires Valid() && 1 <= id <= T.MAX_THREADS
      modifies this`threads, this`nextSeq
      ensures Valid()
      ensures var s := old(Snapshot());
              Snapshot() == s.Put(id, s.threads[id - 1].(seqNo := s.nextSeq)).(nextSeq := Plus(s.nextSeq, 1))
    {
      var n := NextNumber();
      Put(id, threads[id - 1].(seqNo := n));
    }

    method PollSema(id: int) returns (switch: bool)
      requires Valid()
      modifies this
      ensures Valid() && Outcome(switch) == T.PollSema(old(Snapshot()), id)
    {
      switch := false;
      if 1 <= id <= T.MAX_SEMAS && semas[id - 1].inUse && semas[id - 1].count > 0 {
        semas := semas[id - 1 := semas[id - 1].(count := semas[id - 1].count - 1)];
        Return(0);
      } else {
        Return(MINUS_ONE);
      }
    }

    // -------------------------------------------------------------------------
    // Event flags
    // -------------------------------------------------------------------------

    method FindFreeFlag() returns (slot: nat)
      ensures slot == T.FreeFlag(FlagsOf(flags))
    {
      ghost var fs := FlagsOf(flags);
      for i := 0 to T.MAX_FLAGS
        invariant forall k | 0 <= k < i :: fs[k].inUse
      {
        if !flags[i].inUse {
          assert fs[i] in fs;
          return i + 1;
        }
      }
      return 0;
    }

    method CreateEventFlag(attr: Word, bits: Word) returns (switch: bool)
      requires Valid()
      modifies this
      ensures Valid() && Outcome(switch) == T.CreateFlag(old(Snapshot()), attr, Ones(bits))
    {
      switch := false;
      var slot := FindFreeFlag();
      if slot == 0 {
        Return(MINUS_ONE);
      } else {
        PutFlag(slot, Flag(true, attr, bits, 0));
        Return(slot);
      }
    }

    method ReleaseWaiters(id: int, n: nat)
      requires Valid() && n == T.MAX_THREADS
      modifies this
      ensures Valid() && Snapshot() == T.ReleaseAll(old(Snapshot()), id, n) && flags == old(flags)
    {
      ghost var s := Snapshot();
      for i := 0 to n
        invariant Valid() && Snapshot() == T.ReleaseAll(s, id, i) && flags == old(flags)
      {
        ReleaseIfWaits(id, i);
      }
    }

    method ReleaseIfWaits(id: int, i: nat)
      requires Valid() && i < T.MAX_THREADS
      modifies this`threads, this`nextSeq
      ensures Valid()
      ensures var s := old(Snapshot());
              Snapshot() == if s.threads[i].Waits(T.OnFlag, id) then s.Awaken(i + 1) else s
    {
      var t := threads[i];
      if t.inUse && t.status == WAIT && t.waitType == TSW_EVENTFLAG && t.waitId == id { MakeReady(i + 1); }
    }

    method DeleteEventFlag(id: int) returns (switch: bool)
      requires Valid()
      modifies this
      ensures Valid() && Outcome(switch) == T.DeleteFlag(old(Snapshot()), id)
    {
      if 1 <= id <= T.MAX_FLAGS && flags[id - 1].inUse {
        ReleaseWaiters(id, T.MAX_THREADS);
        PutFlag(id, flags[id - 1].(inUse := false));
        Return(0);
      } else {
        Return(MINUS_ONE);
      }
      assert Snapshot() == T.DeleteFlag(old(Snapshot()), id).state;
      switch := true;
    }

    method GrantFlag(id: int, n: nat)
      requires Valid() && 1 <= id <= T.MAX_FLAGS && 1 <= n <= T.MAX_THREADS && threads[n - 1].status == WAIT
      modifies this
      ensures Valid() && Snapshot() == T.GrantFlag(old(Snapshot()), id, n)
    {
      var f, t := flags[id - 1], threads[n - 1];
      MakeReady(n);
      Store(t.waitPtr, f.bits);
      var bits := Left(f.bits, t.waitMode);
      PutFlag(id, f.(bits := bits, waiters := f.waiters - 1));
    }

    /** The bits a grant leaves: none if the waiter asked to clear them. */
    static method Left(bits: Word, mode: Word) returns (r: Word)
      ensures Ones(r) == if ModeOf(mode).clear then {} else Ones(bits)
    {
      ModeBits(mode);
      OnesZero();
      r := if Has(mode, WEF_CLEAR) then 0 else bits;
    }

    /** wake_evf_waiters, with its early exit once the bits are gone. */
    method WakeFlagWaiters(id: int, n: nat)
      requires Valid() && 1 <= id <= T.MAX_FLAGS && n == T.MAX_THREADS
      modifies this
      ensures Valid() && Snapshot() == T.WakeFlag(old(Snapshot()), id, n)
    {
      ghost var s := Snapshot();
      var i := 0;
      while i < n
        invariant 0 <= i <= n
        invariant Valid() && Snapshot() == T.WakeFlag(s, id, i)
      {
        OnesEmpty(flags[id - 1].bits);
        if flags[id - 1].bits == 0 {
          NothingLeft(s, id, i, n);
          return;
        }
        WakeIfShared(id, i);
        i := i + 1;
      }
    }

    method WakeIfShared(id: int, i: nat)
      requires Valid() && 1 <= id <= T.MAX_FLAGS && i < T.MAX_THREADS
      modifies this
      ensures Valid()
      ensures var s := old(Snapshot());
              var t, f := s.threads[i], s.flags[id - 1];
              Snapshot() == if t.Waits(T.OnFlag, id) && T.Satisfied(f.bits, t.want.bits, t.want.mode)
                            then T.GrantFlag(s, id, i + 1) else s
    {
      var f, t := flags[id - 1], threads[i];
      SharedIff(f.bits, t.waitBits, t.waitMode);
      if t.inUse && t.status == WAIT && t.waitType == TSW_EVENTFLAG && t.waitId == id
         && Shared(f.bits, t.waitBits, t.waitMode) {
        GrantFlag(id, i + 1);
      }
    }

    method SetEventFlag(id: int, bits: Word, fromInterrupt: bool) returns (switch: bool)
      requires Valid()
      modifies this
      ensures Valid() && Outcome(switch) == T.SetFlag(old(Snapshot()), id, Ones(bits), fromInterrupt)
    {
      RaiseBits(id, bits);
      switch := !fromInterrupt;
    }

    method RaiseBits(id: int, bits: Word)
      requires Valid()
      modifies this
      ensures Valid() && Snapshot() == T.SetBits(old(Snapshot()), id, Ones(bits))
    {
      OnesEmpty(bits);
      if 1 <= id <= T.MAX_FLAGS && flags[id - 1].inUse {
        if bits != 0 {
          OnesOr(flags[id - 1].bits, bits);
          PutFlag(id, flags[id - 1].(bits := OrWord(flags[id - 1].bits, bits)));
          assert Snapshot() == T.Raised(old(Snapshot()), id, Ones(bits));
          WakeFlagWaiters(id, T.MAX_THREADS);
        }
        Return(0);
      } else {
        Return(MINUS_ONE);
      }
    }

    method ClearEventFlag(id: int, mask: Word) returns (switch: bool)
      requires Valid()
      modifies this
      ensures Valid() && Outcome(switch) == T.ClearFlag(old(Snapshot()), id, Ones(mask))
    {
      switch := false;
      if 1 <= id <= T.MAX_FLAGS && flags[id - 1].inUse {
        OnesAnd(flags[id - 1].bits, mask);
        PutFlag(id, flags[id - 1].(bits := AndWord(flags[id - 1].bits, mask)));
        Return(0);
      } else {
        Return(MINUS_ONE);
      }
    }

    method TakeFlag(id: int, mode: Word, ptr: Word)
      requires Valid() && 1 <= id <= T.MAX_FLAGS
      modifies this
      ensures Valid() && Snapshot() == T.TakeFlag(old(Snapshot()), id, ModeOf(mode), ptr)
    {
      var f := flags[id - 1];
      Store(ptr, f.bits);
      var bits := Left(f.bits, mode);
      PutFlag(id, f.(bits := bits));
      Return(0);
    }

    method WaitEventFlag(id: int, bits: Word, mode: Word, ptr: Word) returns (switch: bool)
      requires Valid()
      modifies this
      ensures Valid() && Outcome(switch) == T.WaitFlag(old(Snapshot()), id, Ones(bits), ModeOf(mode), ptr)
    {
      switch := false;
      OnesEmpty(bits);
      if !(1 <= id <= T.MAX_FLAGS && flags[id - 1].inUse) || bits == 0 {
        Return(MINUS_ONE);
        return;
      }
      var f := flags[id - 1];
      MultiBit(f.attr);
      if !Has(f.attr, EA_MULTI) && f.waiters > 0 {
        Return(MINUS_ONE);
        return;
      }
      SharedIff(f.bits, bits, mode);
      if Shared(f.bits, bits, mode) {
        TakeFlag(id, mode, ptr);
        return;
      }
      JoinFlag(id, bits, mode, ptr);
      switch := true;
    }

    method JoinFlag(id: int, bits: Word, mode: Word, ptr: Word)
      requires Valid() && 1 <= id <= T.MAX_FLAGS
      modifies this
      ensures Valid() && Snapshot() == T.JoinFlag(old(Snapshot()), id, T.Want(Ones(bits), ModeOf(mode), ptr))
    {
      CountWaiter(id);
      BlockWanting(id, bits, mode, ptr);
    }

    method CountWaiter(id: int)
      requires Valid() && 1 <= id <= T.MAX_FLAGS
      modifies this`flags
      ensures Valid() && Snapshot() == T.CountWaiter(old(Snapshot()), id)
    {
      PutFlag(id, flags[id - 1].(waiters := flags[id - 1].waiters + 1));
    }

    method BlockWanting(id: int, bits: Word, mode: Word, ptr: Word)
      requires Valid()
      modifies this
      ensures Valid() && Snapshot() == T.BlockWanting(old(Snapshot()), id, T.Want(Ones(bits), ModeOf(mode), ptr))
    {
      if current != 0 {
        BlockCurrent(TSW_EVENTFLAG, id);
        Want(current, bits, mode, ptr);
      } else {
        Return(0);
      }
    }

    method Want(id: int, bits: Word, mode: Word, ptr: Word)
      requires Valid() && 1 <= id <= T.MAX_THREADS
      modifies this`threads
      ensures Valid()
      ensures var s := old(Snapshot());
              Snapshot() == s.Put(id, s.threads[id - 1].(want := T.Want(Ones(bits), ModeOf(mode), ptr)))
    {
      Put(id, threads[id - 1].(waitBits := bits, waitMode := mode, waitPtr := ptr));
    }

    method PollEventFlag(id: int, bits: Word, mode: Word, ptr: Word) returns (switch: bool)
      requires Valid()
      modifies this
      ensures Valid() && Outcome(switch) == T.PollFlag(old(Snapshot()), id, Ones(bits), ModeOf(mode), ptr)
    {
      switch := false;
      OnesEmpty(bits);
      if 1 <= id <= T.MAX_FLAGS && flags[id - 1].inUse && bits != 0 {
        SharedIff(flags[id - 1].bits, bits, mode);
        if Shared(flags[id - 1].bits, bits, mode) {
          TakeFlag(id, mode, ptr);
          return;
        }
      }
      Return(MINUS_ONE);
    }

    // -------------------------------------------------------------------------
    // The dispatcher
    // -------------------------------------------------------------------------

    /** iop_hle_thread_try_handle: the root thread first, then the gate, which may end in reschedule. */
    method Handle(r: Request)
      requires Valid() && (r.Other? ==> !OnFlags(r.call))
      modifies this
      ensures Valid() && Snapshot() == T.Step(old(Snapshot()), T.Enter(CallOf(r)))
    {
      EnsureRootThread();
      var switch := Dispatch(r);
      if switch { Reschedule(); }
    }

    /** iop_hle_thread_tick, at every counter update. */
    method Tick(now: nat)
      requires Valid()
      modifies this
      ensures Valid() && Snapshot() == T.Step(old(Snapshot()), T.Clock(now))
    {
      var switch := TickDelays(now);
      if switch { Reschedule(); }
    }

    method Dispatch(r: Request) returns (switch: bool)
      requires Valid() && (r.Other? ==> !OnFlags(r.call))
      modifies this
      ensures Valid() && Outcome(switch) == T.Effect(old(Snapshot()), CallOf(r))
    {
      if !r.Other? {
        FlagEffectIs(Snapshot(), r);
        switch := HandleFlag(r);
      } else if T.OnThreads(r.call) {
        switch := HandleThread(r.call);
      } else if T.OnBlocking(r.call) {
        switch := HandleBlocking(r.call);
      } else {
        switch := HandleSema(r.call);
      }
    }

    method HandleThread(c: T.Call) returns (switch: bool)
      requires Valid() && T.OnThreads(c)
      modifies this
      ensures Valid() && Outcome(switch) == T.Effect(old(Snapshot()), c)
    {
      match c {
        case Create(entry, size, priority) => switch := CreateThread(entry, size, priority);
        case Delete(id) => switch := DeleteThread(id);
        case Start(id, a0, a1) => switch := StartThread(id, a0, a1);
        case Exit(delete) => switch := ExitThread(delete);
        case Terminate(id) => switch := TerminateThread(id);
        case SetPriority(id, priority) => switch := ChangeThreadPriority(id, priority);
        case Rotate(priority) => switch := RotateThreadReadyQueue(priority);
      }
    }

    method HandleBlocking(c: T.Call) returns (switch: bool)
      requires Valid() && T.OnBlocking(c)
      modifies this
      ensures Valid() && Outcome(switch) == T.Effect(old(Snapshot()), c)
    {
      match c {
        case Release(id) => switch := ReleaseWaitThread(id);
        case Sleep => switch := SleepThread();
        case Wakeup(id) => switch := WakeupThread(id);
        case Cancel(id) => switch := CancelWakeupThread(id);
        case Suspend(id) => switch := SuspendThread(id);
        case Resume(id) => switch := ResumeThread(id);
        case Delay(usec, now) => switch := DelayThread(usec, now);
      }
    }

    method HandleSema(c: T.Call) returns (switch: bool)
      requires Valid() && T.OnSemas(c)
      modifies this
      ensures Valid() && Outcome(switch) == T.Effect(old(Snapshot()), c)
    {
      match c {
        case NewSema(attr, initial, max) => switch := CreateSema(attr, initial, max);
        case DropSema(id) => switch := DeleteSema(id);
        case Signal(id, i) => switch := SignalSema(id, i);
        case Acquire(id) => switch := WaitSema(id);
        case Poll(id) => switch := PollSema(id);
      }
    }

    method HandleFlag(r: Request) returns (switch: bool)
      requires Valid() && !r.Other?
      modifies this
      ensures Valid() && Outcome(switch) == FlagEffect(old(Snapshot()), r)
    {
      match r {
        case CreateFlag(attr, bits) => switch := CreateEventFlag(attr, bits);
        case DeleteFlag(id) => switch := DeleteEventFlag(id);
        case SetFlag(id, bits, i) => switch := SetEventFlag(id, bits, i);
        case ClearFlag(id, mask) => switch := ClearEventFlag(id, mask);
        case WaitFlag(id, bits, mode, ptr) => switch := WaitEventFlag(id, bits, mode, ptr);
        case PollFlag(id, bits, mode, ptr) => switch := PollEventFlag(id, bits, mode, ptr);
      }
    }
  }

  lemma FirstFreeIs(ts: T.Threads, i: nat)
    requires i < T.MAX_THREADS && !ts[i].inUse && forall k | 0 <= k < i :: ts[k].inUse
    ensures T.FirstFree(ts) == i + 1
  {
    assert ts[i] in ts;
  }

  lemma AllInUse(ts: T.Threads)
    requires forall k | 0 <= k < T.MAX_THREADS :: ts[k].inUse
    ensures T.FirstFree(ts) == 0
  {}

  // ---------------------------------------------------------------------------
  // Scans: the choice after each thread of the table
  // ---------------------------------------------------------------------------

  function NoOf(ts: T.Threads, best: nat): Word { if 0 < best <= T.MAX_THREADS then ts[best - 1].seqNo else MINUS_ONE }
  function PrioOf(ts: T.Threads, best: nat): Word { if 0 < best <= T.MAX_THREADS then ts[best - 1].priority else MINUS_ONE }

  function PickNext(ts: T.Threads, i: nat, best: nat): nat
    requires i < T.MAX_THREADS
  {
    var t := ts[i];
    if t.Runnable() && (t.priority < PrioOf(ts, best) || (t.priority == PrioOf(ts, best) && t.seqNo < NoOf(ts, best)))
    then i + 1 else best
  }

  lemma PickScan(ts: T.Threads) returns (r: seq<nat>)
    ensures |r| == T.MAX_THREADS + 1 && r[0] == 0 && r[T.MAX_THREADS] == T.Pick(ts)
    ensures forall i | 0 <= i < T.MAX_THREADS :: r[i + 1] == PickNext(ts, i, r[i])
  {
    r := seq(T.MAX_THREADS + 1, i requires 0 <= i <= T.MAX_THREADS => T.Pick(ts[..i]));
    assert ts[..T.MAX_THREADS] == ts;
    forall i | 0 <= i < T.MAX_THREADS
      ensures r[i + 1] == PickNext(ts, i, r[i])
    {
      assert ts[..i + 1][..i] == ts[..i];
    }
  }

  function EarliestNext(ts: T.Threads, i: nat, e: nat, priority: Word): nat
    requires i < T.MAX_THREADS
  {
    var t := ts[i];
    if t.Runnable() && t.priority == priority && t.seqNo < NoOf(ts, e) then i + 1 else e
  }

  lemma EarliestScan(ts: T.Threads, priority: Word) returns (r: seq<nat>)
    ensures |r| == T.MAX_THREADS + 1 && r[0] == 0 && r[T.MAX_THREADS] == T.Earliest(ts, priority)
    ensures forall i | 0 <= i < T.MAX_THREADS :: r[i + 1] == EarliestNext(ts, i, r[i], priority)
  {
    r := seq(T.MAX_THREADS + 1, i requires 0 <= i <= T.MAX_THREADS => T.Earliest(ts[..i], priority));
    assert ts[..T.MAX_THREADS] == ts;
    forall i | 0 <= i < T.MAX_THREADS
      ensures r[i + 1] == EarliestNext(ts, i, r[i], priority)
    {
      assert ts[..i + 1][..i] == ts[..i];
    }
  }

  function WaiterNext(ts: T.Threads, i: nat, best: nat, id: int, byPriority: bool): nat
    requires i < T.MAX_THREADS
  {
    if ts[i].Waits(T.OnSema, id) && (best == 0 || (best <= i && T.Before(ts[i], ts[best - 1], byPriority))) then i + 1 else best
  }

  lemma WaiterScan(ts: T.Threads, id: int, byPriority: bool) returns (r: seq<nat>)
    ensures |r| == T.MAX_THREADS + 1 && r[0] == 0 && r[T.MAX_THREADS] == T.BestWaiter(ts, id, byPriority)
    ensures forall i | 0 <= i < T.MAX_THREADS :: r[i + 1] == WaiterNext(ts, i, r[i], id, byPriority)
  {
    r := seq(T.MAX_THREADS + 1, i requires 0 <= i <= T.MAX_THREADS => T.BestWaiter(ts[..i], id, byPriority));
    assert ts[..T.MAX_THREADS] == ts;
    forall i | 0 <= i < T.MAX_THREADS
      ensures r[i + 1] == WaiterNext(ts, i, r[i], id, byPriority)
    {
      assert ts[..i + 1][..i] == ts[..i];
    }
  }

  ghost function FlagEffect(s: T.State, r: Request): T.Outcome
    requires !r.Other?
  {
    match r
    case CreateFlag(attr, bits) => T.CreateFlag(s, attr, Ones(bits))
    case DeleteFlag(id) => T.DeleteFlag(s, id)
    case SetFlag(id, bits, i) => T.SetFlag(s, id, Ones(bits), i)
    case ClearFlag(id, mask) => T.ClearFlag(s, id, Ones(mask))
    case WaitFlag(id, bits, mode, ptr) => T.WaitFlag(s, id, Ones(bits), ModeOf(mode), ptr)
    case PollFlag(id, bits, mode, ptr) => T.PollFlag(s, id, Ones(bits), ModeOf(mode), ptr)
  }

  lemma FlagEffectIs(s: T.State, r: Request)
    requires !r.Other?
    ensures FlagEffect(s, r) == T.Effect(s, CallOf(r))
  {
    match r
    case CreateFlag(_, _) =>
    case DeleteFlag(_) =>
    case SetFlag(_, _, _) =>
    case ClearFlag(_, _) =>
    case WaitFlag(_, _, _, _) =>
    case PollFlag(_, _, _, _) =>
  }

  const SA_THPRI: Word := 1
  const EA_MULTI: Word := 2

  lemma MultiBit(attr: Word)
    ensures Has(attr, EA_MULTI) <==> attr / 2 % 2 == 1
  {
    assert Pow2(1) == 2;
    HasBit(attr, 1, EA_MULTI);
  }

  /** Once the bits are gone the rest of the scan does nothing. */
  lemma {:induction false} NothingLeft(s: T.State, id: int, i: nat, n: nat)
    requires 1 <= id <= T.MAX_FLAGS && i <= n <= T.MAX_THREADS
    requires T.WakeFlag(s, id, i).flags[id - 1].bits == {}
    ensures T.WakeFlag(s, id, n) == T.WakeFlag(s, id, i)
    decreases n
  {
    if i < n { NothingLeft(s, id, i, n - 1); }
  }

  lemma BlankRecords()
    ensures BLANK.Valid() && Tcb(BLANK) == T.BLANK && Ones(0) == {}
  {
    OnesZero();
  }

  /** The thread that stays current was runnable, so its new status only changes the phase. */
  lemma RunKeepsSuspend(s: T.State, next: nat)
    requires 1 <= next <= T.MAX_THREADS && next == T.Pick(s.threads)
    ensures !s.threads[next - 1].suspended
  {}
}
