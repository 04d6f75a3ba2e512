/** Semaphore queues are first in, first out as long as the waiters' numbers ascend in blocking
    order, and exactly when they do: a wait must not join behind a number that the ready counter has
    yet to reach again. */
module SemaOrder {
  import opened Words
  import opened ThreadState
  import opened ThreadSafety
  import opened SemaLedger

  ghost predicate Indices(q: seq<nat>) { forall k | 0 <= k < |q| :: q[k] < MAX_THREADS }

  ghost predicate Ascending(ts: Threads, q: seq<nat>)
    requires Indices(q)
  {
    forall k, l | 0 <= k < l < |q| :: ts[q[k]].seqNo < ts[q[l]].seqNo
  }

  ghost predicate Below(ts: Threads, q: seq<nat>, n: nat)
    requires Indices(q)
  {
    forall k | 0 <= k < |q| :: ts[q[k]].seqNo < n
  }

  /** The queue in blocking order is in order of number. */
  ghost predicate InOrder(s: State, q: seq<nat>) { Indices(q) && Ascending(s.threads, q) }

  /** A signal releases the thread that has waited longest, or on a priority semaphore
      the one of best priority that has. */
  lemma SignalReleases(ts: Threads, id: int, q: seq<nat>, byPriority: bool) returns (k0: nat)
    requires Members(ts, id, q) && q != [] && Indices(q) && Ascending(ts, q)
    ensures k0 < |q| && BestWaiter(ts, id, byPriority) == q[k0] + 1
    ensures !byPriority ==> k0 == 0
    ensures byPriority ==> forall k | 0 <= k < |q| ::
              ts[q[k0]].priority < ts[q[k]].priority || (ts[q[k0]].priority == ts[q[k]].priority && k0 <= k)
  {
    var j := Released(ts, id, q, byPriority);
    k0 :| 0 <= k0 < |q| && q[k0] == j;
    forall k | 0 <= k < |q| ensures !Before(ts[q[k]], ts[q[k0]], byPriority) {
      assert InQueue(ts, id, q[k]);
      BestWaiterIsFirst(ts, id, byPriority, q[k]);
    }
    assert !Before(ts[q[0]], ts[q[k0]], byPriority) && (k0 > 0 ==> ts[q[0]].seqNo < ts[q[k0]].seqNo);
  }

  // ---------------------------------------------------------------------------
  // One call
  // ---------------------------------------------------------------------------

  ghost predicate SameNumbers(s: State, r: State, q: seq<nat>)
    requires Indices(q)
  {
    forall k | 0 <= k < |q| :: r.threads[q[k]].seqNo == s.threads[q[k]].seqNo
  }

  lemma OrderStays(s: State, r: State, q: seq<nat>)
    requires Indices(q) && SameNumbers(s, r, q)
    ensures InOrder(r, q) <==> InOrder(s, q)
  {
    assert forall k | 0 <= k < |q| :: s.threads[q[k]].seqNo == r.threads[q[k]].seqNo;
  }

  /** A queue without one entry is still in order. */
  lemma OrderWithout(s: State, q: seq<nat>, w: int)
    requires InOrder(s, q)
    ensures InOrder(s, Without(q, w))
  {
    var k0, q' := IndexOf(q, w), Without(q, w);
    if k0 < |q| {
      assert forall k | 0 <= k < |q'| :: q'[k] == q[if k < k0 then k else k + 1];
    }
  }

  /** A new entry at the end is in order exactly if its number is above all others. */
  lemma OrderJoins(ts: Threads, q: seq<nat>, j: nat)
    requires Indices(q) && Ascending(ts, q) && j < MAX_THREADS
    ensures Indices(q + [j]) && (Ascending(ts, q + [j]) <==> Below(ts, q, ts[j].seqNo))
  {
    var q' := q + [j];
    assert forall k | 0 <= k < |q| :: q'[k] == q[k];
    assert q'[|q|] == j;
    if Ascending(ts, q') {
      forall k | 0 <= k < |q| ensures ts[q[k]].seqNo < ts[j].seqNo { assert ts[q'[k]].seqNo < ts[q'[|q|]].seqNo; }
    }
  }

  /** A thread that waits on the semaphore before and after a gate has kept its number, unless it is
      the caller. */
  lemma NumberKept(s: State, r: State, c: Call, id: int, i: nat)
    requires Steady(s) && Kept(s, r, c) && i < MAX_THREADS
    requires s.threads[i].Blocked(OnSema, id) && r.threads[i].Blocked(OnSema, id)
    ensures r.threads[i].seqNo == s.threads[i].seqNo
  {
    assert ThreadKept(s, i, r.threads[i], c);
  }

  /** The entries that are in the queue both before and after. */
  lemma MembersNumbered(s: State, r: State, c: Call, id: int, q: seq<nat>, q': seq<nat>)
    requires Steady(s) && Kept(s, r, c)
    requires Members(s.threads, id, q) && Members(r.threads, id, q')
    requires Indices(q') && forall k | 0 <= k < |q'| :: q'[k] in q
    ensures SameNumbers(s, r, q')
  {
    forall k | 0 <= k < |q'| ensures r.threads[q'[k]].seqNo == s.threads[q'[k]].seqNo {
      assert InQueue(r.threads, id, q'[k]);
      var m :| 0 <= m < |q| && q[m] == q'[k];
      assert InQueue(s.threads, id, q[m]);
      NumberKept(s, r, c, id, q'[k]);
    }
  }

  lemma WithoutFrom(q: seq<nat>, w: int)
    ensures forall k | 0 <= k < |Without(q, w)| :: Without(q, w)[k] in q
  {
    var q' := Without(q, w);
    forall k | 0 <= k < |q'| ensures q'[k] in q { assert q'[k] in q'; }
  }

  /** Calls after which the queue is the old one, or that less one entry. */
  lemma ShrinkInOrder(s: State, r: State, c: Call, id: int, v: Ledger, v': Ledger, w: int)
    requires 1 <= id <= MAX_SEMAS && Steady(s) && Kept(s, r, c)
    requires Balanced(s, id, v) && Balanced(r, id, v') && InOrder(s, v.queue)
    requires v'.queue == v.queue || v'.queue == Without(v.queue, w)
    ensures InOrder(r, v'.queue)
  {
    OrderWithout(s, v.queue, w);
    WithoutFrom(v.queue, w);
    MembersNumbered(s, r, c, id, v.queue, v'.queue);
    OrderStays(s, r, v'.queue);
  }

  ghost predicate Joins(s: State, c: Call, id: int)
    requires 1 <= id <= MAX_SEMAS
  {
    c == Acquire(id) && s.semas[id - 1].inUse && s.semas[id - 1].count <= 0
  }

  /** A wait that joins the queue q behind a number at or above the ready counter. */
  ghost predicate JoinsBehind(s: State, c: Call, id: int, q: seq<nat>)
    requires 1 <= id <= MAX_SEMAS
  {
    Joins(s, c, id) && Indices(q) && !Below(s.threads, q, s.nextSeq)
  }

  lemma JoinNumbers(s: State, id: int, v: Ledger)
    requires 1 <= id <= MAX_SEMAS && Steady(s) && Balanced(s, id, v) && Indices(v.queue)
    requires s.HasSema(id) && s.semas[id - 1].count <= 0 && s.current != 0
    ensures var r := WaitSema(s, id).state;
            SameNumbers(s, r, v.queue) && r.threads[s.current - 1].seqNo == s.nextSeq && r.nextSeq == Plus(s.nextSeq, 1)
  {
    var r := WaitSema(s, id).state;
    forall k | 0 <= k < |v.queue| ensures r.threads[v.queue[k]].seqNo == s.threads[v.queue[k]].seqNo {
      assert InQueue(s.threads, id, v.queue[k]);
    }
  }

  lemma JoinInOrderIff(s: State, id: int, v: Ledger)
    requires 1 <= id <= MAX_SEMAS && Steady(s) && Balanced(s, id, v) && InOrder(s, v.queue)
    requires s.HasSema(id) && s.semas[id - 1].count <= 0 && s.current != 0
    ensures InOrder(WaitSema(s, id).state, v.queue + [s.current - 1]) <==> Below(s.threads, v.queue, s.nextSeq)
  {
    var r := WaitSema(s, id).state;
    JoinNumbers(s, id, v);
    OrderStays(s, r, v.queue);
    OrderJoins(r.threads, v.queue, s.current - 1);
    assert forall k | 0 <= k < |v.queue| :: r.threads[v.queue[k]].seqNo == s.threads[v.queue[k]].seqNo;
  }

  lemma PostedShrinks(s: State, c: Call, id: int, v: Ledger) returns (w: int)
    requires 1 <= id <= MAX_SEMAS && !Joins(s, c, id) && !(c.NewSema? && FreeSema(s.semas) == id)
    ensures Posted(s, c, id, v).queue == v.queue || Posted(s, c, id, v).queue == Without(v.queue, w)
  {
    w := if c.Release? then c.id - 1 else BestWaiter(s.threads, id, s.semas[id - 1].ByPriority()) - 1;
  }

  lemma OtherInOrder(s: State, c: Call, id: int, v: Ledger)
    requires 1 <= id <= MAX_SEMAS && Steady(s) && Balanced(s, id, v) && InOrder(s, v.queue) && Fair(s, c, id)
    requires !Joins(s, c, id)
    ensures InOrder(Effect(s, c).state, Posted(s, c, id, v).queue)
  {
    if !(c.NewSema? && FreeSema(s.semas) == id) {
      EffectBalanced(s, c, id, v);
      EffectGood(s, c);
      var w := PostedShrinks(s, c, id, v);
      ShrinkInOrder(s, Effect(s, c).state, c, id, v, Posted(s, c, id, v), w);
    }
  }

  /** A fair gate keeps the queue in order exactly unless it joins behind such a number. */
  lemma EffectInOrderIff(s: State, c: Call, id: int, v: Ledger)
    requires 1 <= id <= MAX_SEMAS && Steady(s) && Balanced(s, id, v) && InOrder(s, v.queue) && Fair(s, c, id)
    ensures InOrder(Effect(s, c).state, Posted(s, c, id, v).queue) <==> !JoinsBehind(s, c, id, v.queue)
  {
    if Joins(s, c, id) { JoinInOrderIff(s, id, v); } else { OtherInOrder(s, c, id, v); }
  }

  // ---------------------------------------------------------------------------
  // Runs
  // ---------------------------------------------------------------------------

  lemma SettleInOrder(o: Outcome, q: seq<nat>)
    requires Indices(q)
    ensures InOrder(Settle(o), q) <==> InOrder(o.state, q)
  {
    if o.Switch? {
      RescheduleSwitches(o.state);
      var r := Reschedule(o.state);
      forall k | 0 <= k < |q| ensures r.threads[q[k]].seqNo == o.state.threads[q[k]].seqNo {
        assert ThreadSwitched(o.state, q[k], o.state.threads[q[k]], r.threads[q[k]], r.current);
      }
      OrderStays(o.state, r, q);
    }
  }

  lemma MembersIndices(ts: Threads, id: int, q: seq<nat>)
    requires Members(ts, id, q)
    ensures Indices(q)
  {
    forall k | 0 <= k < |q| ensures q[k] < MAX_THREADS { assert InQueue(ts, id, q[k]); }
  }

  lemma RootInOrder(s: State, id: int, v: Ledger)
    requires 1 <= id <= MAX_SEMAS && Sane(s) && Balanced(s, id, v) && InOrder(s, v.queue)
    ensures InOrder(EnsureRoot(s), v.queue)
  {
    assert forall k | 0 <= k < |v.queue| :: InQueue(s.threads, id, v.queue[k]);
  }

  lemma TickInOrder(s: State, now: nat, id: int, v: Ledger)
    requires 1 <= id <= MAX_SEMAS && Steady(s) && Balanced(s, id, v) && InOrder(s, v.queue)
    ensures InOrder(Tick(s, now).state, v.queue)
  {
    TickKept(s, now);
    TickBalanced(s, now, id, v);
    if Tick(s, now).Switch? { ShrinkInOrder(s, Tick(s, now).state, Sleep, id, v, v, 0); }
  }

  ghost predicate EventJoinsBehind(s: State, e: Event, id: int, q: seq<nat>)
    requires 1 <= id <= MAX_SEMAS
  {
    e.Enter? && JoinsBehind(EnsureRoot(s), e.call, id, q)
  }

  lemma StepInOrderIff(s: State, e: Event, id: int, v: Ledger)
    requires 1 <= id <= MAX_SEMAS && Sane(s) && Balanced(s, id, v) && InOrder(s, v.queue) && FairEvent(s, e, id)
    ensures InOrder(Step(s, e), LedgerStep(s, e, id, v).queue) <==> !EventJoinsBehind(s, e, id, v.queue)
  {
    match e {
      case Enter(c) =>
        var s0 := EnsureRoot(s);
        RootSteady(s);
        RootBalanced(s, id, v);
        RootInOrder(s, id, v);
        EffectInOrderIff(s0, c, id, v);
        EffectBalanced(s0, c, id, v);
        var o, q := Effect(s0, c), Posted(s0, c, id, v).queue;
        MembersIndices(o.state.threads, id, q);
        SettleInOrder(o, q);
      case Clock(now) =>
        if s.threadCount > 0 { TickInOrder(s, now, id, v); }
        SettleInOrder(Tick(s, now), v.queue);
      case Execute(regs) =>
    }
  }

  /** The waiters of semaphore id are numbered in blocking order, now and at all times before. */
  ghost predicate AlwaysInOrder(s: State, es: seq<Event>, id: int)
    requires 1 <= id <= MAX_SEMAS
  {
    && InOrder(After(s, es), LedgerAfter(s, es, id).queue)
    && (es != [] ==> AlwaysInOrder(s, es[..|es| - 1], id))
  }

  ghost predicate NeverJoinsBehind(s: State, es: seq<Event>, id: int)
    requires 1 <= id <= MAX_SEMAS
  {
    es != [] ==>
      var n := |es| - 1;
      && NeverJoinsBehind(s, es[..n], id)
      && !EventJoinsBehind(After(s, es[..n]), es[n], id, LedgerAfter(s, es[..n], id).queue)
  }

  /** Over every fair run from reset, whatever the ready counter does, the threads blocked on a
      semaphore are numbered in blocking order, which is the order signals release them in, if and
      only if no wait ever joins the queue behind a number at or above the counter. */
  lemma {:induction false} RunInOrderIff(es: seq<Event>, id: int)
    requires 1 <= id <= MAX_SEMAS && FairRun(INITIAL, es, id)
    ensures AlwaysInOrder(INITIAL, es, id) <==> NeverJoinsBehind(INITIAL, es, id)
  {
    if es != [] {
      var n := |es| - 1;
      var s, v := After(INITIAL, es[..n]), LedgerAfter(INITIAL, es[..n], id);
      RunInOrderIff(es[..n], id);
      RunBalanced(es[..n], id);
      RunSane(es[..n]);
      if InOrder(s, v.queue) { StepInOrderIff(s, es[n], id, v); }
    }
  }

  // ---------------------------------------------------------------------------
  // Runs in which the counter does not wrap
  // ---------------------------------------------------------------------------

  /** In order, with every number given out already. */
  ghost predicate Ordered(s: State, q: seq<nat>) { InOrder(s, q) && Below(s.threads, q, s.nextSeq) }

  /** The ready counter does not go back. */
  ghost predicate Rises(s: State, e: Event) { (if e.Enter? then EnsureRoot(s) else s).nextSeq <= Step(s, e).nextSeq }

  ghost predicate NeverWraps(s: State, es: seq<Event>) {
    es != [] ==>
      var n := |es| - 1;
      NeverWraps(s, es[..n]) && Rises(After(s, es[..n]), es[n])
  }

  lemma BelowStays(s: State, r: State, q: seq<nat>, q': seq<nat>)
    requires Indices(q) && Indices(q') && Below(s.threads, q, s.nextSeq) && s.nextSeq <= r.nextSeq
    requires SameNumbers(s, r, q') && forall k | 0 <= k < |q'| :: q'[k] in q
    ensures Below(r.threads, q', r.nextSeq)
  {
    forall k | 0 <= k < |q'| ensures r.threads[q'[k]].seqNo < r.nextSeq {
      var m :| 0 <= m < |q| && q[m] == q'[k];
      assert s.threads[q[m]].seqNo < s.nextSeq;
    }
  }

  lemma ShrinkBelow(s: State, r: State, c: Call, id: int, v: Ledger, v': Ledger, w: int)
    requires 1 <= id <= MAX_SEMAS && Steady(s) && Kept(s, r, c) && s.nextSeq <= r.nextSeq
    requires Balanced(s, id, v) && Balanced(r, id, v') && Ordered(s, v.queue)
    requires v'.queue == v.queue || v'.queue == Without(v.queue, w)
    ensures Ordered(r, v'.queue)
  {
    ShrinkInOrder(s, r, c, id, v, v', w);
    WithoutFrom(v.queue, w);
    MembersNumbered(s, r, c, id, v.queue, v'.queue);
    BelowStays(s, r, v.queue, v'.queue);
  }

  lemma JoinBelow(s: State, id: int, v: Ledger)
    requires 1 <= id <= MAX_SEMAS && Steady(s) && Balanced(s, id, v) && Ordered(s, v.queue)
    requires s.HasSema(id) && s.semas[id - 1].count <= 0 && s.current != 0
    requires s.nextSeq <= WaitSema(s, id).state.nextSeq
    ensures Ordered(WaitSema(s, id).state, v.queue + [s.current - 1])
  {
    var r, q' := WaitSema(s, id).state, v.queue + [s.current - 1];
    JoinInOrderIff(s, id, v);
    JoinNumbers(s, id, v);
    BelowStays(s, r, v.queue, v.queue);
    assert forall k | 0 <= k < |v.queue| :: q'[k] == v.queue[k];
  }

  lemma EffectOrdered(s: State, c: Call, id: int, v: Ledger)
    requires 1 <= id <= MAX_SEMAS && Steady(s) && Balanced(s, id, v) && Ordered(s, v.queue) && Fair(s, c, id)
    requires s.nextSeq <= Effect(s, c).state.nextSeq
    ensures Ordered(Effect(s, c).state, Posted(s, c, id, v).queue)
  {
    if Joins(s, c, id) {
      JoinBelow(s, id, v);
    } else if !(c.NewSema? && FreeSema(s.semas) == id) {
      EffectBalanced(s, c, id, v);
      EffectGood(s, c);
      var w := PostedShrinks(s, c, id, v);
      ShrinkBelow(s, Effect(s, c).state, c, id, v, Posted(s, c, id, v), w);
    }
  }

  lemma SettleOrdered(o: Outcome, q: seq<nat>)
    requires Ordered(o.state, q)
    ensures Ordered(Settle(o), q) && Settle(o).nextSeq == o.state.nextSeq
  {
    SettleInOrder(o, q);
    if o.Switch? {
      RescheduleSwitches(o.state);
      var r := Reschedule(o.state);
      forall k | 0 <= k < |q| ensures r.threads[q[k]].seqNo < r.nextSeq {
        assert ThreadSwitched(o.state, q[k], o.state.threads[q[k]], r.threads[q[k]], r.current);
      }
    }
  }

  lemma SettleCounts(o: Outcome)
    ensures Settle(o).nextSeq == o.state.nextSeq
  {
    if o.Switch? { RescheduleSwitches(o.state); }
  }

  /** The first gate finds no waiters. */
  lemma RootOrdered(s: State, id: int, v: Ledger)
    requires 1 <= id <= MAX_SEMAS && Sane(s) && Balanced(s, id, v) && Ordered(s, v.queue)
    ensures Ordered(EnsureRoot(s), v.queue)
  {
    assert forall k | 0 <= k < |v.queue| :: InQueue(s.threads, id, v.queue[k]);
  }

  lemma TickOrdered(s: State, now: nat, id: int, v: Ledger)
    requires 1 <= id <= MAX_SEMAS && Steady(s) && Balanced(s, id, v) && Ordered(s, v.queue)
    requires s.nextSeq <= Tick(s, now).state.nextSeq
    ensures Ordered(Tick(s, now).state, v.queue)
  {
    TickKept(s, now);
    TickBalanced(s, now, id, v);
    if Tick(s, now).Switch? { ShrinkBelow(s, Tick(s, now).state, Sleep, id, v, v, 0); }
  }

  lemma StepOrdered(s: State, e: Event, id: int, v: Ledger)
    requires 1 <= id <= MAX_SEMAS && Sane(s) && Balanced(s, id, v) && Ordered(s, v.queue)
    requires FairEvent(s, e, id) && Rises(s, e)
    ensures Ordered(Step(s, e), LedgerStep(s, e, id, v).queue)
  {
    match e {
      case Enter(c) =>
        var s0 := EnsureRoot(s);
        RootSteady(s);
        RootBalanced(s, id, v);
        RootOrdered(s, id, v);
        SettleCounts(Effect(s0, c));
        EffectOrdered(s0, c, id, v);
        SettleOrdered(Effect(s0, c), Posted(s0, c, id, v).queue);
      case Clock(now) =>
        SettleCounts(Tick(s, now));
        if s.threadCount > 0 { TickOrdered(s, now, id, v); }
        SettleOrdered(Tick(s, now), v.queue);
      case Execute(regs) =>
    }
  }

  /** So in every fair run in which the ready counter does not wrap, first in is first out. */
  lemma {:induction false} RunOrdered(es: seq<Event>, id: int)
    requires 1 <= id <= MAX_SEMAS && FairRun(INITIAL, es, id) && NeverWraps(INITIAL, es)
    ensures Ordered(After(INITIAL, es), LedgerAfter(INITIAL, es, id).queue)
  {
    if es != [] {
      var n := |es| - 1;
      var s, v := After(INITIAL, es[..n]), LedgerAfter(INITIAL, es[..n], id);
      RunOrdered(es[..n], id);
      RunBalanced(es[..n], id);
      RunSane(es[..n]);
      StepOrdered(s, es[n], id, v);
    }
  }
}
