/** Semaphores conserve their counts and queue their waiters: each semaphore follows a
    ledger of accepted signals, granted waits and a queue of blocked threads. */
module SemaLedger {
  import opened Words
  import opened ThreadState
  import opened ThreadSafety

  /** Threads blocked on the semaphore in blocking order, and what it took in and gave out. */
  datatype Ledger = Ledger(queue: seq<nat>, accepted: nat, granted: nat)

  function IndexOf(q: seq<nat>, w: int): (k: nat)
    ensures k <= |q|
    ensures k < |q| ==> q[k] == w
    ensures k == |q| ==> w !in q
  {
    if q == [] || q[0] == w then 0 else 1 + IndexOf(q[1..], w)
  }

  function Without(q: seq<nat>, w: int): seq<nat> {
    var k := IndexOf(q, w);
    if k < |q| then q[..k] + q[k + 1..] else q
  }

  // ---------------------------------------------------------------------------
  // The queue of one semaphore: table indices of the blocked threads
  // ---------------------------------------------------------------------------

  ghost predicate InQueue(ts: Threads, id: int, i: nat) { i < MAX_THREADS && ts[i].Waits(OnSema, id) }

  /** q holds exactly the threads blocked on the semaphore, each once, and none is suspended. */
  ghost predicate Members(ts: Threads, id: int, q: seq<nat>) {
    && (forall k | 0 <= k < |q| :: InQueue(ts, id, q[k]))
    && (forall k, l | 0 <= k < l < |q| :: q[k] != q[l])
    && (forall i | 0 <= i < MAX_THREADS && ts[i].Blocked(OnSema, id) :: i in q)
  }

  /** t' is on the semaphore exactly if t is, and as visibly. */
  ghost predicate SamePlace(t: Tcb, t': Tcb, id: int) {
    && t'.Blocked(OnSema, id) == t.Blocked(OnSema, id)
    && (t.Waits(OnSema, id) ==> t'.Waits(OnSema, id))
  }

  lemma MembersStay(ts: Threads, ts': Threads, id: int, q: seq<nat>)
    requires Members(ts, id, q)
    requires forall i | 0 <= i < MAX_THREADS :: SamePlace(ts[i], ts'[i], id)
    ensures Members(ts', id, q)
  {
    forall k | 0 <= k < |q| ensures InQueue(ts', id, q[k]) {
      assert InQueue(ts, id, q[k]) && SamePlace(ts[q[k]], ts'[q[k]], id);
    }
    forall i | 0 <= i < MAX_THREADS && ts'[i].Blocked(OnSema, id) ensures i in q {
      assert SamePlace(ts[i], ts'[i], id);
    }
  }

  lemma MemberJoins(ts: Threads, ts': Threads, id: int, q: seq<nat>, j: nat)
    requires Members(ts, id, q) && j < MAX_THREADS
    requires !ts[j].Blocked(OnSema, id) && ts'[j].Waits(OnSema, id)
    requires forall i | 0 <= i < MAX_THREADS && i != j :: SamePlace(ts[i], ts'[i], id)
    ensures Members(ts', id, q + [j])
  {
    var q' := q + [j];
    forall k | 0 <= k < |q| ensures InQueue(ts', id, q[k]) && q[k] != j {
      assert InQueue(ts, id, q[k]) && SamePlace(ts[q[k]], ts'[q[k]], id);
    }
    forall k | 0 <= k < |q'| ensures InQueue(ts', id, q'[k]) {
      if k < |q| { assert q'[k] == q[k]; }
    }
    forall i | 0 <= i < MAX_THREADS && ts'[i].Blocked(OnSema, id) ensures i in q' {
      if i != j { assert SamePlace(ts[i], ts'[i], id); }
    }
  }

  lemma InRest(q: seq<nat>, k0: nat, i: nat)
    requires k0 < |q| && i in q && i != q[k0]
    ensures i in q[..k0] + q[k0 + 1..]
  {
    assert q == q[..k0] + [q[k0]] + q[k0 + 1..];
  }

  lemma MemberLeaves(ts: Threads, ts': Threads, id: int, q: seq<nat>, j: nat)
    requires Members(ts, id, q) && j < MAX_THREADS
    requires ts[j].Blocked(OnSema, id) && !ts'[j].Blocked(OnSema, id)
    requires forall i | 0 <= i < MAX_THREADS && i != j :: SamePlace(ts[i], ts'[i], id)
    ensures Members(ts', id, Without(q, j)) && |Without(q, j)| == |q| - 1
  {
    assert j in q;
    var k0, q' := IndexOf(q, j), Without(q, j);
    forall m | 0 <= m < |q'| ensures q'[m] == q[if m < k0 then m else m + 1] && InQueue(ts', id, q'[m]) {
      var k := if m < k0 then m else m + 1;
      assert InQueue(ts, id, q[k]) && q[k] != q[k0];
      assert SamePlace(ts[q[k]], ts'[q[k]], id);
    }
    forall i | 0 <= i < MAX_THREADS && ts'[i].Blocked(OnSema, id) ensures i in q' {
      assert SamePlace(ts[i], ts'[i], id);
      InRest(q, k0, i);
    }
  }

  // ---------------------------------------------------------------------------
  // The waiter a signal releases
  // ---------------------------------------------------------------------------

  lemma BeforeOrder(t: Tcb, u: Tcb, v: Tcb, byPriority: bool)
    requires !Before(t, u, byPriority) && Before(v, u, byPriority)
    ensures !Before(t, v, byPriority)
  {}

  lemma {:induction false} BestWaiterIsFirst(ts: seq<Tcb>, id: int, byPriority: bool, i: nat)
    requires i < |ts| && ts[i].Waits(OnSema, id)
    ensures var w := BestWaiter(ts, id, byPriority);
            w > 0 && !Before(ts[i], ts[w - 1], byPriority)
  {
    var n := |ts| - 1;
    var best := BestWaiter(ts[..n], id, byPriority);
    if i < n {
      BestWaiterIsFirst(ts[..n], id, byPriority, i);
      assert ts[..n][i] == ts[i] && ts[..n][best - 1] == ts[best - 1];
      if Before(ts[n], ts[best - 1], byPriority) { BeforeOrder(ts[i], ts[best - 1], ts[n], byPriority); }
    }
  }

  lemma Released(ts: Threads, id: int, q: seq<nat>, byPriority: bool) returns (j: nat)
    requires Members(ts, id, q) && q != []
    ensures j in q && j < MAX_THREADS && ts[j].Blocked(OnSema, id) && BestWaiter(ts, id, byPriority) == j + 1
  {
    assert InQueue(ts, id, q[0]);
    BestWaiterIsFirst(ts, id, byPriority, q[0]);
    j := BestWaiter(ts, id, byPriority) - 1;
  }

  lemma NobodyToRelease(ts: Threads, id: int, byPriority: bool)
    requires Members(ts, id, [])
    ensures BestWaiter(ts, id, byPriority) == 0
  {}

  // ---------------------------------------------------------------------------
  // The ledger
  // ---------------------------------------------------------------------------

  /** What a call does to the ledger of semaphore id. */
  ghost function Posted(s: State, c: Call, id: int, v: Ledger): Ledger
    requires 1 <= id <= MAX_SEMAS
  {
    var m := s.semas[id - 1];
    match c
    case NewSema(_, _, _) => if FreeSema(s.semas) == id then Ledger([], 0, 0) else v
    case Signal(k, _) =>
      if k != id || !m.inUse then v
      else if v.queue != [] then
        Ledger(Without(v.queue, BestWaiter(s.threads, id, m.ByPriority()) - 1), v.accepted + 1, v.granted + 1)
      else if m.count < m.max then v.(accepted := v.accepted + 1)
      else v
    case Acquire(k) =>
      if k != id || !m.inUse then v
      else if m.count > 0 then v.(granted := v.granted + 1)
      else if s.current == 0 then v
      else v.(queue := v.queue + [s.current - 1])
    case Poll(k) => if k == id && m.inUse && m.count > 0 then v.(granted := v.granted + 1) else v
    case Release(t) => v.(queue := Without(v.queue, t - 1))
    case _ => v
  }

  /** Count and waiters in range, nobody waiting while the count is positive, and
      initial + accepted == count + granted. */
  ghost predicate Settled(m: Sema, v: Ledger) {
    if m.inUse then
      && 0 <= m.count <= m.max
      && m.waiters == |v.queue|
      && (m.count > 0 ==> v.queue == [])
      && m.initial + v.accepted == m.count + v.granted
    else v.queue == []
  }

  ghost predicate Balanced(s: State, id: int, v: Ledger)
    requires 1 <= id <= MAX_SEMAS
  {
    Members(s.threads, id, v.queue) && Settled(s.semas[id - 1], v)
  }

  /** What the callers of semaphore id must respect: its waiters are neither suspended nor terminated,
      it is not deleted while it has any, its initial count lies in range, and only threads block. */
  ghost predicate Fair(s: State, c: Call, id: int)
    requires 1 <= id <= MAX_SEMAS
  {
    var m := s.semas[id - 1];
    match c
    case Suspend(t) => 1 <= t <= MAX_THREADS ==> !s.threads[t - 1].Blocked(OnSema, id)
    case Terminate(t) => 1 <= t <= MAX_THREADS ==> !s.threads[t - 1].Blocked(OnSema, id)
    case DropSema(k) => k == id && m.inUse ==> m.waiters == 0
    case NewSema(_, initial, max) => FreeSema(s.semas) == id ==> 0 <= initial <= max
    case Acquire(k) => k == id && m.inUse && m.count <= 0 ==> s.current != 0
    case _ => true
  }

  // Gates that leave every waiter of the semaphore where it is.
  lemma KeptPlaces(s: State, r: State, c: Call, id: int, i: nat)
    requires Steady(s) && Kept(s, r, c) && i < MAX_THREADS
    requires s.threads[i].Blocked(OnSema, id) ==> !EndsWait(c, i, s.threads[i]) && c != Suspend(i + 1) && !s.threads[i].suspended
    requires c != Acquire(id) || i + 1 != s.current
    ensures SamePlace(s.threads[i], r.threads[i], id)
  {
    assert ThreadKept(s, i, r.threads[i], c);
  }

  lemma PlacesKept(s: State, r: State, c: Call, id: int, v: Ledger)
    requires Steady(s) && Kept(s, r, c) && Members(s.threads, id, v.queue)
    requires forall i | 0 <= i < MAX_THREADS && s.threads[i].Blocked(OnSema, id) ::
               !EndsWait(c, i, s.threads[i]) && c != Suspend(i + 1)
    requires c != Acquire(id)
    ensures Members(r.threads, id, v.queue)
  {
    forall i | 0 <= i < MAX_THREADS ensures SamePlace(s.threads[i], r.threads[i], id) {
      if s.threads[i].Blocked(OnSema, id) { BlockedIsQueued(s.threads, id, v.queue, i); }
      KeptPlaces(s, r, c, id, i);
    }
    MembersStay(s.threads, r.threads, id, v.queue);
  }

  lemma BlockedIsQueued(ts: Threads, id: int, q: seq<nat>, i: nat)
    requires Members(ts, id, q) && i < MAX_THREADS && ts[i].Blocked(OnSema, id)
    ensures ts[i].Waits(OnSema, id)
  {
    var k :| 0 <= k < |q| && q[k] == i;
    assert InQueue(ts, id, q[k]);
  }

  // ---------------------------------------------------------------------------
  // The gates, one by one
  // ---------------------------------------------------------------------------

  /** The calls that name semaphore id or end a wait on it. */
  ghost predicate Concerns(s: State, c: Call, id: int) {
    || ((c.Signal? || c.Acquire? || c.Poll? || c.DropSema?) && c.id == id)
    || (c.NewSema? && FreeSema(s.semas) == id)
    || (c.Release? && 1 <= c.id <= MAX_THREADS && s.threads[c.id - 1].Blocked(OnSema, id))
  }

  lemma {:induction false} FlagScansLeaveSemas(s: State, id: int, n: nat)
    requires n <= MAX_THREADS
    ensures 1 <= id <= MAX_FLAGS ==> WakeFlag(s, id, n).semas == s.semas
    ensures ReleaseAll(s, id, n).semas == s.semas
  {
    if n > 0 { FlagScansLeaveSemas(s, id, n - 1); }
  }

  lemma ThreadsLeaveSemas(s: State, c: Call, id: int)
    requires 1 <= id <= MAX_SEMAS && OnThreads(c)
    ensures Effect(s, c).state.semas[id - 1] == s.semas[id - 1]
  {}

  lemma BlockingLeavesSemas(s: State, c: Call, id: int)
    requires 1 <= id <= MAX_SEMAS && OnBlocking(c) && !Concerns(s, c, id)
    ensures Effect(s, c).state.semas[id - 1] == s.semas[id - 1]
  {}

  lemma OtherSemasLeft(s: State, c: Call, id: int)
    requires 1 <= id <= MAX_SEMAS && OnSemas(c) && !Concerns(s, c, id)
    ensures Effect(s, c).state.semas[id - 1] == s.semas[id - 1]
  {}

  lemma FlagsLeaveSemas(s: State, c: Call)
    requires !OnThreads(c) && !OnBlocking(c) && !OnSemas(c)
    ensures Effect(s, c).state.semas == s.semas
  {
    match c {
      case Raise(k, bits, _) => if s.HasFlag(k) { FlagScansLeaveSemas(Raised(s, k, bits), k, MAX_THREADS); }
      case DropFlag(k) => FlagScansLeaveSemas(s, k, MAX_THREADS);
      case _ =>
    }
  }

  lemma Untouched(s: State, c: Call, id: int)
    requires 1 <= id <= MAX_SEMAS && !Concerns(s, c, id)
    ensures Effect(s, c).state.semas[id - 1] == s.semas[id - 1]
  {
    if OnThreads(c) {
      ThreadsLeaveSemas(s, c, id);
    } else if OnBlocking(c) {
      BlockingLeavesSemas(s, c, id);
    } else if OnSemas(c) {
      OtherSemasLeft(s, c, id);
    } else {
      FlagsLeaveSemas(s, c);
    }
  }

  lemma OtherCalls(s: State, r: State, c: Call, id: int, v: Ledger)
    requires 1 <= id <= MAX_SEMAS && Steady(s) && Balanced(s, id, v) && Fair(s, c, id) && !Concerns(s, c, id)
    requires Kept(s, r, c) && r.semas[id - 1] == s.semas[id - 1]
    ensures Balanced(r, id, v)
  {
    PlacesKept(s, r, c, id, v);
  }

  lemma SignalBalanced(s: State, id: int, i: bool, v: Ledger)
    requires 1 <= id <= MAX_SEMAS && Balanced(s, id, v)
    ensures Balanced(SignalSema(s, id, i).state, id, Posted(s, Signal(id, i), id, v))
  {
    assert SignalSema(s, id, i).state == Post(s, id);
    PostBalanced(s, id, v);
    assert Posted(s, Signal(id, i), id, v) == Posted(s, Signal(id, true), id, v);
  }

  lemma PostBalanced(s: State, id: int, v: Ledger)
    requires 1 <= id <= MAX_SEMAS && Balanced(s, id, v)
    ensures Balanced(Post(s, id), id, Posted(s, Signal(id, true), id, v))
  {
    if !s.semas[id - 1].inUse {
      assert Post(s, id).threads == s.threads && Post(s, id).semas == s.semas;
    } else if v.queue == [] {
      CountUp(s, id, v);
    } else {
      PassOn(s, id, v);
    }
  }

  lemma CountUp(s: State, id: int, v: Ledger)
    requires 1 <= id <= MAX_SEMAS && Balanced(s, id, v) && s.semas[id - 1].inUse && v.queue == []
    ensures Balanced(Post(s, id), id, Posted(s, Signal(id, true), id, v))
  {
    NobodyToRelease(s.threads, id, s.semas[id - 1].ByPriority());
  }

  lemma PassOn(s: State, id: int, v: Ledger)
    requires 1 <= id <= MAX_SEMAS && Balanced(s, id, v) && s.semas[id - 1].inUse && v.queue != []
    ensures Balanced(Post(s, id), id, Posted(s, Signal(id, true), id, v))
  {
    var j := Released(s.threads, id, v.queue, s.semas[id - 1].ByPriority());
    HandOver(s, id, v, j);
    PostedTo(s, id, v, j);
  }

  lemma PostedTo(s: State, id: int, v: Ledger, j: nat)
    requires 1 <= id <= MAX_SEMAS && s.semas[id - 1].inUse && v.queue != [] && j < MAX_THREADS
    requires BestWaiter(s.threads, id, s.semas[id - 1].ByPriority()) == j + 1
    ensures Post(s, id) == PostTo(s, id, j + 1)
    ensures Posted(s, Signal(id, true), id, v) == Ledger(Without(v.queue, j), v.accepted + 1, v.granted + 1)
  {}

  lemma HandOver(s: State, id: int, v: Ledger, j: nat)
    requires 1 <= id <= MAX_SEMAS && Balanced(s, id, v) && s.semas[id - 1].inUse
    requires v.queue != [] && j < MAX_THREADS && s.threads[j].Blocked(OnSema, id)
    ensures Balanced(PostTo(s, id, j + 1), id,
                     Ledger(Without(v.queue, j), v.accepted + 1, v.granted + 1))
  {
    MemberLeaves(s.threads, s.Awaken(j + 1).threads, id, v.queue, j);
  }

  lemma AcquireBalanced(s: State, id: int, v: Ledger)
    requires 1 <= id <= MAX_SEMAS && Steady(s) && Balanced(s, id, v) && Fair(s, Acquire(id), id)
    ensures Balanced(WaitSema(s, id).state, id, Posted(s, Acquire(id), id, v))
  {
    if s.HasSema(id) && s.semas[id - 1].count <= 0 {
      MemberJoins(s.threads, WaitSema(s, id).state.threads, id, v.queue, s.current - 1);
    }
  }

  lemma ReleaseBalanced(s: State, t: int, id: int, v: Ledger)
    requires 1 <= id <= MAX_SEMAS && Balanced(s, id, v)
    requires 1 <= t <= MAX_THREADS && s.threads[t - 1].Blocked(OnSema, id)
    ensures Balanced(ReleaseWait(s, t).state, id, Posted(s, Release(t), id, v))
  {
    BlockedIsQueued(s.threads, id, v.queue, t - 1);
    MemberLeaves(s.threads, ReleaseWait(s, t).state.threads, id, v.queue, t - 1);
  }

  lemma NewBalanced(s: State, attr: Word, initial: int, max: int, id: int, v: Ledger)
    requires 1 <= id <= MAX_SEMAS && Balanced(s, id, v) && FreeSema(s.semas) == id && 0 <= initial <= max
    ensures Balanced(CreateSema(s, attr, initial, max).state, id, Ledger([], 0, 0))
  {}

  lemma DropBalanced(s: State, id: int, v: Ledger)
    requires 1 <= id <= MAX_SEMAS && Balanced(s, id, v) && Fair(s, DropSema(id), id)
    ensures Balanced(DeleteSema(s, id).state, id, v)
  {}

  lemma PollBalanced(s: State, id: int, v: Ledger)
    requires 1 <= id <= MAX_SEMAS && Balanced(s, id, v)
    ensures Balanced(PollSema(s, id).state, id, Posted(s, Poll(id), id, v))
  {}

  lemma ConcernedBalanced(s: State, c: Call, id: int, v: Ledger)
    requires 1 <= id <= MAX_SEMAS && Steady(s) && Balanced(s, id, v) && Fair(s, c, id) && Concerns(s, c, id)
    ensures Balanced(Effect(s, c).state, id, Posted(s, c, id, v))
  {
    match c {
      case Signal(_, i) => SignalBalanced(s, id, i, v); assert Effect(s, c) == SignalSema(s, id, i);
      case Acquire(_) => AcquireBalanced(s, id, v); assert Effect(s, c) == WaitSema(s, id);
      case Release(t) => ReleaseBalanced(s, t, id, v); assert Effect(s, c) == ReleaseWait(s, t);
      case NewSema(attr, initial, max) => NewBalanced(s, attr, initial, max, id, v);
      case DropSema(_) => DropBalanced(s, id, v);
      case Poll(_) => PollBalanced(s, id, v);
    }
  }

  lemma UnconcernedLedger(s: State, c: Call, id: int, v: Ledger)
    requires 1 <= id <= MAX_SEMAS && Members(s.threads, id, v.queue) && !Concerns(s, c, id)
    ensures Posted(s, c, id, v) == v
  {
    if c.Release? { NotQueued(s.threads, id, v.queue, c.id - 1); }
  }

  /** One gate follows the ledger. */
  lemma EffectBalanced(s: State, c: Call, id: int, v: Ledger)
    requires 1 <= id <= MAX_SEMAS && Steady(s) && Balanced(s, id, v) && Fair(s, c, id)
    ensures Balanced(Effect(s, c).state, id, Posted(s, c, id, v))
  {
    if Concerns(s, c, id) {
      ConcernedBalanced(s, c, id, v);
    } else {
      UnconcernedLedger(s, c, id, v);
      EffectGood(s, c);
      Untouched(s, c, id);
      OtherCalls(s, Effect(s, c).state, c, id, v);
    }
  }

  lemma NotQueued(ts: Threads, id: int, q: seq<nat>, i: int)
    requires Members(ts, id, q) && (0 <= i < MAX_THREADS ==> !ts[i].Blocked(OnSema, id))
    ensures Without(q, i) == q
  {
    assert forall k | 0 <= k < |q| :: InQueue(ts, id, q[k]);
  }

  lemma SwitchBalanced(s: State, id: int, v: Ledger)
    requires 1 <= id <= MAX_SEMAS
    ensures Balanced(Reschedule(s), id, v) <==> Balanced(s, id, v)
  {
    RescheduleSwitches(s);
    PickRuns(s);
    var r := Reschedule(s);
    forall i | 0 <= i < MAX_THREADS
      ensures SamePlace(s.threads[i], r.threads[i], id) && SamePlace(r.threads[i], s.threads[i], id)
    {
      assert ThreadSwitched(s, i, s.threads[i], r.threads[i], r.current);
    }
    if Balanced(s, id, v) { MembersStay(s.threads, r.threads, id, v.queue); }
    if Balanced(r, id, v) { MembersStay(r.threads, s.threads, id, v.queue); }
  }

  lemma {:induction false} DelayedLeavesSemas(s: State, now: nat, n: nat)
    requires n <= MAX_THREADS
    ensures WakeDelayed(s, now, n).semas == s.semas
  {
    if n > 0 { DelayedLeavesSemas(s, now, n - 1); }
  }

  ghost function LedgerStep(s: State, e: Event, id: int, v: Ledger): Ledger
    requires 1 <= id <= MAX_SEMAS
  {
    match e
    case Enter(c) => Posted(EnsureRoot(s), c, id, v)
    case _ => v
  }

  ghost predicate FairEvent(s: State, e: Event, id: int)
    requires 1 <= id <= MAX_SEMAS
  {
    e.Enter? ==> Fair(EnsureRoot(s), e.call, id)
  }

  lemma RootBalanced(s: State, id: int, v: Ledger)
    requires 1 <= id <= MAX_SEMAS && Sane(s)
    ensures Balanced(EnsureRoot(s), id, v) <==> Balanced(s, id, v)
  {
    var r := EnsureRoot(s);
    if Balanced(s, id, v) { MembersStay(s.threads, r.threads, id, v.queue); }
    if Balanced(r, id, v) { MembersStay(r.threads, s.threads, id, v.queue); }
  }

  lemma TickBalanced(s: State, now: nat, id: int, v: Ledger)
    requires 1 <= id <= MAX_SEMAS && Steady(s) && Balanced(s, id, v)
    ensures Balanced(Tick(s, now).state, id, v)
  {
    TickKept(s, now);
    DelayedLeavesSemas(s, now, MAX_THREADS);
    OtherCalls(s, WakeDelayed(s, now, MAX_THREADS), Sleep, id, v);
  }

  // ---------------------------------------------------------------------------
  // Unfair calls
  // ---------------------------------------------------------------------------

  ghost function WaiterSet(ts: Threads, id: int): set<nat> {
    set i: nat | i < MAX_THREADS && ts[i].Blocked(OnSema, id)
  }

  ghost function Elements(q: seq<nat>): set<nat> { set i | i in q }

  lemma {:induction false} DistinctCard(q: seq<nat>)
    requires forall k, l | 0 <= k < l < |q| :: q[k] != q[l]
    ensures |Elements(q)| == |q|
  {
    if q != [] {
      var n := |q| - 1;
      DistinctCard(q[..n]);
      assert q == q[..n] + [q[n]];
      assert Elements(q) == Elements(q[..n]) + {q[n]};
      assert forall k | 0 <= k < n :: q[..n][k] == q[k] != q[n];
    }
  }

  /** The waiter count is the number of blocked threads. */
  lemma QueueLength(ts: Threads, id: int, q: seq<nat>)
    requires Members(ts, id, q)
    ensures |q| == |WaiterSet(ts, id)|
  {
    assert forall k | 0 <= k < |q| :: InQueue(ts, id, q[k]);
    DistinctCard(q);
    assert Elements(q) == WaiterSet(ts, id);
  }

  /** A suspended waiter is one that no queue accounts for. */
  lemma SuspendUnbalances(s: State, t: int, id: int, v': Ledger)
    requires 1 <= id <= MAX_SEMAS && 1 <= t <= MAX_THREADS && s.threads[t - 1].Blocked(OnSema, id)
    ensures !Balanced(SuspendThread(s, t).state, id, v')
  {
    var ts := SuspendThread(s, t).state.threads;
    var j: nat := t - 1;
    assert ts[j].Blocked(OnSema, id) && ts[j].suspended;
    if Members(ts, id, v'.queue) { BlockedIsQueued(ts, id, v'.queue, j); }
  }

  lemma TerminateUnbalances(s: State, t: int, id: int, v: Ledger, v': Ledger)
    requires 1 <= id <= MAX_SEMAS && Balanced(s, id, v) && 1 <= t <= MAX_THREADS && t != s.current
    requires s.threads[t - 1].Blocked(OnSema, id)
    ensures !Balanced(TerminateThread(s, t).state, id, v')
  {
    var ts, ts' := s.threads, TerminateThread(s, t).state.threads;
    var j: nat := t - 1;
    BlockedIsQueued(ts, id, v.queue, j);
    QueueLength(ts, id, v.queue);
    assert WaiterSet(ts, id) == WaiterSet(ts', id) + {j};
    if Members(ts', id, v'.queue) { QueueLength(ts', id, v'.queue); }
  }

  lemma DropUnbalances(s: State, id: int, v: Ledger, v': Ledger)
    requires 1 <= id <= MAX_SEMAS && Balanced(s, id, v) && s.semas[id - 1].inUse && s.semas[id - 1].waiters != 0
    ensures !Balanced(DeleteSema(s, id).state, id, v')
  {
    assert InQueue(s.threads, id, v.queue[0]);
  }

  lemma NewUnbalances(s: State, attr: Word, initial: int, max: int, id: int, v': Ledger)
    requires 1 <= id <= MAX_SEMAS && FreeSema(s.semas) == id && !(0 <= initial <= max)
    ensures !Balanced(CreateSema(s, attr, initial, max).state, id, v')
  {}

  lemma AcquireUnbalances(s: State, id: int, v: Ledger, v': Ledger)
    requires 1 <= id <= MAX_SEMAS && Balanced(s, id, v) && s.current == 0
    requires s.semas[id - 1].inUse && s.semas[id - 1].count <= 0
    ensures !Balanced(WaitSema(s, id).state, id, v')
  {
    var ts := s.threads;
    QueueLength(ts, id, v.queue);
    if Members(ts, id, v'.queue) { QueueLength(ts, id, v'.queue); }
  }

  /** After an unfair call no ledger at all fits the semaphore. */
  lemma UnfairUnbalances(s: State, c: Call, id: int, v: Ledger, v': Ledger)
    requires 1 <= id <= MAX_SEMAS && Steady(s) && Balanced(s, id, v) && !Fair(s, c, id)
    ensures !Balanced(Effect(s, c).state, id, v')
  {
    match c {
      case Suspend(t) => SuspendUnbalances(s, t, id, v');
      case Terminate(t) => TerminateUnbalances(s, t, id, v, v');
      case DropSema(_) => DropUnbalances(s, id, v, v');
      case NewSema(attr, initial, max) => NewUnbalances(s, attr, initial, max, id, v');
      case Acquire(_) => AcquireUnbalances(s, id, v, v');
    }
  }

  /** A gate leaves the semaphore with some ledger that fits exactly if it is fair: for DeleteSema, if
      nobody waits; for SuspendThread and TerminateThread, if the thread does not wait there; for CreateSema,
      if the count is in range; for WaitSema, if there is a thread to block. */
  lemma EffectBalancedIff(s: State, c: Call, id: int, v: Ledger)
    requires 1 <= id <= MAX_SEMAS && Steady(s) && Balanced(s, id, v)
    ensures (exists v' :: Balanced(Effect(s, c).state, id, v')) <==> Fair(s, c, id)
  {
    if Fair(s, c, id) {
      EffectBalanced(s, c, id, v);
    } else {
      forall v' ensures !Balanced(Effect(s, c).state, id, v') { UnfairUnbalances(s, c, id, v, v'); }
    }
  }

  // ---------------------------------------------------------------------------
  // Runs
  // ---------------------------------------------------------------------------

  lemma SettleBalanced(o: Outcome, id: int, v: Ledger)
    requires 1 <= id <= MAX_SEMAS
    ensures Balanced(Settle(o), id, v) <==> Balanced(o.state, id, v)
  {
    if o.Switch? { SwitchBalanced(o.state, id, v); }
  }

  /** One event keeps to the ledger if it is fair, and otherwise leaves the semaphore with no
      ledger at all. */
  lemma StepBalancedIff(s: State, e: Event, id: int, v: Ledger, v': Ledger)
    requires 1 <= id <= MAX_SEMAS && Sane(s) && Balanced(s, id, v)
    ensures FairEvent(s, e, id) ==> Balanced(Step(s, e), id, LedgerStep(s, e, id, v))
    ensures !FairEvent(s, e, id) ==> !Balanced(Step(s, e), id, v')
  {
    match e {
      case Enter(c) =>
        var s0 := EnsureRoot(s);
        RootSteady(s);
        RootBalanced(s, id, v);
        if Fair(s0, c, id) {
          EffectBalanced(s0, c, id, v);
          SettleBalanced(Effect(s0, c), id, Posted(s0, c, id, v));
        } else {
          UnfairUnbalances(s0, c, id, v, v');
          SettleBalanced(Effect(s0, c), id, v');
        }
      case Clock(now) =>
        if s.threadCount > 0 { TickBalanced(s, now, id, v); }
        SettleBalanced(Tick(s, now), id, v);
      case Execute(regs) =>
    }
  }

  /** The ledger of semaphore id after a run from s, where it starts empty. */
  ghost function LedgerAfter(s: State, es: seq<Event>, id: int): Ledger
    requires 1 <= id <= MAX_SEMAS
  {
    if es == [] then Ledger([], 0, 0) else
    LedgerStep(After(s, es[..|es| - 1]), es[|es| - 1], id, LedgerAfter(s, es[..|es| - 1], id))
  }

  ghost predicate FairRun(s: State, es: seq<Event>, id: int)
    requires 1 <= id <= MAX_SEMAS
  {
    es != [] ==>
      var n := |es| - 1;
      FairRun(s, es[..n], id) && FairEvent(After(s, es[..n]), es[n], id)
  }

  /** Over every fair run each semaphore keeps to its ledger, whatever the ready counter does. */
  lemma {:induction false} RunBalanced(es: seq<Event>, id: int)
    requires 1 <= id <= MAX_SEMAS && FairRun(INITIAL, es, id)
    ensures Balanced(After(INITIAL, es), id, LedgerAfter(INITIAL, es, id))
  {
    if es != [] {
      var n := |es| - 1;
      var s, v := After(INITIAL, es[..n]), LedgerAfter(INITIAL, es[..n], id);
      RunBalanced(es[..n], id);
      RunSane(es[..n]);
      StepBalancedIff(s, es[n], id, v, v);
    }
  }

  /** Some ledger fits the semaphore, now and at all times before. */
  ghost predicate AlwaysBalanced(s: State, es: seq<Event>, id: int)
    requires 1 <= id <= MAX_SEMAS
  {
    && (exists v :: Balanced(After(s, es), id, v))
    && (es != [] ==> AlwaysBalanced(s, es[..|es| - 1], id))
  }

  /** The books of a semaphore stay in order over a run if and only if the run is fair to it. */
  lemma {:induction false} RunBalancedIff(es: seq<Event>, id: int)
    requires 1 <= id <= MAX_SEMAS
    ensures AlwaysBalanced(INITIAL, es, id) <==> FairRun(INITIAL, es, id)
  {
    if FairRun(INITIAL, es, id) { RunBalanced(es, id); }
    if es != [] {
      var n := |es| - 1;
      var s := After(INITIAL, es[..n]);
      RunBalancedIff(es[..n], id);
      RunSane(es[..n]);
      if AlwaysBalanced(INITIAL, es, id) {
        var v :| Balanced(s, id, v);
        var v' :| Balanced(After(INITIAL, es), id, v');
        StepBalancedIff(s, es[n], id, v, v');
      }
    }
  }
}
