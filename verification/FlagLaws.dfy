/** What an event flag does with its bits: whom SetEventFlag wakes, what is reported to them and what is
    left, and the same for a wait or poll that is satisfied at once. */
module FlagLaws {
  import opened Words
  import opened ThreadState

  /** Waits in sight for something that these bits satisfy. */
  predicate Meets(t: Tcb, id: int, bits: Bits) {
    && t.inUse && t.phase == Wait && !t.suspended && t.waitKind == OnFlag && t.waitId == id
    && if t.want.mode.any then t.want.bits * bits != {} else t.want.bits <= bits
  }

  /** Thread i is served: it is met, and no thread before it that is met asks to clear. */
  ghost predicate Served(ts: Threads, id: int, bits: Bits, i: nat)
    requires i < MAX_THREADS
  {
    Meets(ts[i], id, bits) && forall j | 0 <= j < i && Meets(ts[j], id, bits) :: !ts[j].want.mode.clear
  }

  /** Some thread before n is served and asks to clear. */
  ghost predicate Cleared(ts: Threads, id: int, bits: Bits, n: nat)
    requires n <= MAX_THREADS
  {
    exists i | 0 <= i < n :: Served(ts, id, bits, i) && ts[i].want.mode.clear
  }

  /** How many threads before n are served. */
  ghost function Count(ts: Threads, id: int, bits: Bits, n: nat): nat
    requires n <= MAX_THREADS
  {
    if n == 0 then 0 else Count(ts, id, bits, n - 1) + if Served(ts, id, bits, n - 1) then 1 else 0
  }

  /** What is written for them, in table order: the bits, wherever one gave an address. */
  ghost function Reports(ts: Threads, id: int, bits: Bits, n: nat): seq<(Word, Bits)>
    requires n <= MAX_THREADS
  {
    if n == 0 then [] else
    Reports(ts, id, bits, n - 1)
    + if Served(ts, id, bits, n - 1) && ts[n - 1].want.ptr != 0 then [(ts[n - 1].want.ptr, bits)] else []
  }

  /** A served thread is ready, with the next number in table order; the others are as they were. */
  ghost predicate Ready(ts: Threads, ts': Threads, id: int, bits: Bits, next: Word, n: nat, i: nat)
    requires n <= MAX_THREADS && i < MAX_THREADS
  {
    ts'[i] == if i < n && Served(ts, id, bits, i)
              then ts[i].(phase := Phase.Ready, waitKind := NoWait, waitId := 0, seqNo := Plus(next, Count(ts, id, bits, i)))
              else ts[i]
  }

  /** The scan has dealt with the first n threads. */
  ghost predicate Scanned(s: State, r: State, id: int, bits: Bits, n: nat)
    requires 1 <= id <= MAX_FLAGS && n <= MAX_THREADS
  {
    && (forall i | 0 <= i < MAX_THREADS :: Ready(s.threads, r.threads, id, bits, s.nextSeq, n, i))
    && r.flags == s.flags[id - 1 := s.flags[id - 1].(
         bits := if Cleared(s.threads, id, bits, n) then {} else bits,
         waiters := s.flags[id - 1].waiters - Count(s.threads, id, bits, n))]
    && r.results == s.results + Reports(s.threads, id, bits, n)
    && r.nextSeq == Plus(s.nextSeq, Count(s.threads, id, bits, n))
    && r == s.(threads := r.threads, flags := r.flags, results := r.results, nextSeq := r.nextSeq)
  }

  // ---------------------------------------------------------------------------
  // The scan
  // ---------------------------------------------------------------------------

  /** Once a thread has cleared the flag nobody further on is served. */
  lemma ClearedStops(ts: Threads, id: int, bits: Bits, n: nat)
    requires n < MAX_THREADS
    ensures Served(ts, id, bits, n) <==> !Cleared(ts, id, bits, n) && Meets(ts[n], id, bits)
  {
    if Meets(ts[n], id, bits) && !Served(ts, id, bits, n) {
      var j :| 0 <= j < n && Meets(ts[j], id, bits) && ts[j].want.mode.clear;
      FirstClears(ts, id, bits, j);
    }
  }

  /** If a thread that is met asks to clear, the first such one is served. */
  lemma {:induction false} FirstClears(ts: Threads, id: int, bits: Bits, j: nat)
    requires j < MAX_THREADS && Meets(ts[j], id, bits) && ts[j].want.mode.clear
    ensures exists i | 0 <= i <= j :: Served(ts, id, bits, i) && ts[i].want.mode.clear
  {
    if !Served(ts, id, bits, j) {
      var i :| 0 <= i < j && Meets(ts[i], id, bits) && ts[i].want.mode.clear;
      FirstClears(ts, id, bits, i);
    }
  }

  lemma ClearedNext(ts: Threads, id: int, bits: Bits, n: nat)
    requires n < MAX_THREADS
    ensures Cleared(ts, id, bits, n + 1) <==>
            Cleared(ts, id, bits, n) || (Served(ts, id, bits, n) && ts[n].want.mode.clear)
  {}

  lemma MeetsIs(t: Tcb, id: int, bits: Bits)
    ensures Meets(t, id, bits) <==> t.Waits(OnFlag, id) && Satisfied(bits, t.want.bits, t.want.mode)
  {
    assert t.want.bits * bits == bits * t.want.bits;
  }

  lemma ScanNone(s: State, id: int, bits: Bits)
    requires 1 <= id <= MAX_FLAGS && s.flags[id - 1].bits == bits
    ensures Scanned(s, s, id, bits, 0)
  {
    assert s.results + [] == s.results;
    assert !Cleared(s.threads, id, bits, 0);
  }

  lemma {:induction false} ScanServes(s: State, id: int, bits: Bits, n: nat)
    requires 1 <= id <= MAX_FLAGS && n <= MAX_THREADS && bits != {} && s.flags[id - 1].bits == bits
    ensures Scanned(s, WakeFlag(s, id, n), id, bits, n)
  {
    if n == 0 {
      ScanNone(s, id, bits);
    } else {
      ScanServes(s, id, bits, n - 1);
      ScanOne(s, WakeFlag(s, id, n - 1), id, bits, n - 1);
    }
  }

  lemma ScanOne(s: State, r: State, id: int, bits: Bits, n: nat)
    requires 1 <= id <= MAX_FLAGS && n < MAX_THREADS && bits != {} && Scanned(s, r, id, bits, n)
    ensures var f := r.flags[id - 1];
            var t := r.threads[n];
            Scanned(s, if f.bits != {} && t.Waits(OnFlag, id) && Satisfied(f.bits, t.want.bits, t.want.mode)
                       then GrantFlag(r, id, n + 1) else r, id, bits, n + 1)
  {
    assert Ready(s.threads, r.threads, id, bits, s.nextSeq, n, n);
    ClearedStops(s.threads, id, bits, n);
    ClearedNext(s.threads, id, bits, n);
    MeetsIs(s.threads[n], id, bits);
    var f := r.flags[id - 1];
    var t := r.threads[n];
    if f.bits != {} && t.Waits(OnFlag, id) && Satisfied(f.bits, t.want.bits, t.want.mode) {
      ServedOne(s, r, GrantFlag(r, id, n + 1), id, bits, n);
    } else {
      SkippedOne(s, r, id, bits, n);
    }
  }

  lemma SkippedOne(s: State, r: State, id: int, bits: Bits, n: nat)
    requires 1 <= id <= MAX_FLAGS && n < MAX_THREADS && Scanned(s, r, id, bits, n) && !Served(s.threads, id, bits, n)
    requires Cleared(s.threads, id, bits, n + 1) <==> Cleared(s.threads, id, bits, n)
    ensures Scanned(s, r, id, bits, n + 1)
  {
    assert Reports(s.threads, id, bits, n + 1) == Reports(s.threads, id, bits, n);
    var m := n + 1;
    forall i | 0 <= i < MAX_THREADS ensures Ready(s.threads, r.threads, id, bits, s.nextSeq, m, i) {
      assert Ready(s.threads, r.threads, id, bits, s.nextSeq, n, i);
    }
  }

  lemma ServedOne(s: State, r: State, r': State, id: int, bits: Bits, n: nat)
    requires 1 <= id <= MAX_FLAGS && n < MAX_THREADS && Scanned(s, r, id, bits, n) && Served(s.threads, id, bits, n)
    requires r.flags[id - 1].bits == bits && r' == GrantFlag(r, id, n + 1)
    requires Cleared(s.threads, id, bits, n + 1) <==> s.threads[n].want.mode.clear
    ensures Scanned(s, r', id, bits, n + 1)
  {
    assert Ready(s.threads, r.threads, id, bits, s.nextSeq, n, n);
    PlusPlus(s.nextSeq, Count(s.threads, id, bits, n), 1);
    var m := n + 1;
    forall i | 0 <= i < MAX_THREADS ensures Ready(s.threads, r'.threads, id, bits, s.nextSeq, m, i) {
      assert Ready(s.threads, r.threads, id, bits, s.nextSeq, n, i);
    }
    assert r'.results == s.results + Reports(s.threads, id, bits, n + 1);
  }

  // ---------------------------------------------------------------------------
  // Results
  // ---------------------------------------------------------------------------

  /** SetEventFlag with some bits: with the old bits and the new ones together, every waiter in sight that
      they satisfy is woken, up to and including the first one that asks to clear; each that gave an
      address is told those bits, in table order; and the flag is left with them, or with none if
      somebody asked to clear. */
  lemma SetServes(s: State, id: int, bits: Bits)
    requires s.HasFlag(id) && bits != {}
    ensures Scanned(s, SetBits(s, id, bits).(cpu := s.cpu), id, s.flags[id - 1].bits + bits, MAX_THREADS)
    ensures SetBits(s, id, bits).cpu == s.cpu.Returned(0)
  {
    var all := s.flags[id - 1].bits + bits;
    var s0 := s.(flags := s.flags[id - 1 := s.flags[id - 1].(bits := all)]);
    assert all != {} by { var b :| b in bits; assert b in all; }
    ScanServes(s0, id, all, MAX_THREADS);
    RaisedScan(s, s0, WakeFlag(s0, id, MAX_THREADS), id, all);
  }

  lemma RaisedScan(s: State, s0: State, r: State, id: int, bits: Bits)
    requires 1 <= id <= MAX_FLAGS && s0 == s.(flags := s.flags[id - 1 := s.flags[id - 1].(bits := bits)])
    requires Scanned(s0, r, id, bits, MAX_THREADS)
    ensures Scanned(s, r, id, bits, MAX_THREADS)
  {
    forall i | 0 <= i < MAX_THREADS ensures Ready(s.threads, r.threads, id, bits, s.nextSeq, MAX_THREADS, i) {
      assert Ready(s0.threads, r.threads, id, bits, s0.nextSeq, MAX_THREADS, i);
    }
  }

  /** Otherwise it changes nothing: no such flag is an error, and no bits are none. */
  lemma SetIdle(s: State, id: int, bits: Bits)
    requires !s.HasFlag(id) || bits == {}
    ensures SetBits(s, id, bits) == s.(cpu := s.cpu.Returned(if s.HasFlag(id) then 0 else MINUS_ONE))
  {}

  /** How many threads before n wait for the flag in sight. */
  function WaitersBefore(ts: Threads, id: int, n: nat): nat
    requires n <= MAX_THREADS
  {
    if n == 0 then 0 else WaitersBefore(ts, id, n - 1) + if ts[n - 1].Waits(OnFlag, id) then 1 else 0
  }

  /** The first n threads have been released. */
  ghost predicate Released(s: State, r: State, id: int, n: nat, i: nat)
    requires n <= MAX_THREADS && i < MAX_THREADS
  {
    && r == s.(threads := r.threads, nextSeq := Plus(s.nextSeq, WaitersBefore(s.threads, id, n)))
    && r.threads[i] == if i < n && s.threads[i].Waits(OnFlag, id)
                       then s.threads[i].(phase := Phase.Ready, waitKind := NoWait, waitId := 0,
                                          seqNo := Plus(s.nextSeq, WaitersBefore(s.threads, id, i)))
                       else s.threads[i]
  }

  lemma {:induction false} ReleaseServes(s: State, id: int, n: nat, i: nat)
    requires n <= MAX_THREADS && i < MAX_THREADS
    ensures Released(s, ReleaseAll(s, id, n), id, n, i)
  {
    if n > 0 {
      ReleaseServes(s, id, n - 1, i);
      ReleaseServes(s, id, n - 1, n - 1);
      ReleaseOne(s, ReleaseAll(s, id, n - 1), id, n - 1, i);
    }
  }

  lemma ReleaseOne(s: State, r: State, id: int, n: nat, i: nat)
    requires n < MAX_THREADS && i < MAX_THREADS && Released(s, r, id, n, i) && Released(s, r, id, n, n)
    ensures Released(s, if r.threads[n].Waits(OnFlag, id) then r.Awaken(n + 1) else r, id, n + 1, i)
  {
    PlusPlus(s.nextSeq, WaitersBefore(s.threads, id, n), 1);
  }

  /** DeleteEventFlag readies every waiter in sight, numbered in table order, and nobody else, and the flag is
      gone. */
  lemma DropServes(s: State, id: int, i: nat)
    requires s.HasFlag(id) && i < MAX_THREADS
    ensures var r := DeleteFlag(s, id).state;
            && !r.flags[id - 1].inUse && r.flags == s.flags[id - 1 := r.flags[id - 1]] && r.semas == s.semas
            && r.threads[i] == if s.threads[i].Waits(OnFlag, id)
                               then s.threads[i].(phase := Phase.Ready, waitKind := NoWait, waitId := 0,
                                                  seqNo := Plus(s.nextSeq, WaitersBefore(s.threads, id, i)))
                               else s.threads[i]
  {
    ReleaseServes(s, id, MAX_THREADS, i);
  }

  /** ClearEventFlag keeps exactly the bits of its mask, and wakes nobody. */
  lemma KeepServes(s: State, id: int, mask: Bits)
    requires s.HasFlag(id)
    ensures var r := ClearFlag(s, id, mask).state;
            && (forall b :: b in r.flags[id - 1].bits <==> b in s.flags[id - 1].bits && b in mask)
            && r.flags == s.flags[id - 1 := s.flags[id - 1].(bits := r.flags[id - 1].bits)] && r.threads == s.threads
  {}

  /** CreateEventFlag: the flag it answers starts with the bits and the attribute given, and without waiters. */
  lemma NewServes(s: State, attr: Word, bits: Bits, id: int)
    requires 1 <= id <= MAX_FLAGS
    ensures var r := CreateFlag(s, attr, bits).state;
            if !s.flags[id - 1].inUse && (forall j | 0 <= j < id - 1 :: s.flags[j].inUse)
            then r.flags[id - 1] == Flag(true, attr, bits, 0) else r.flags[id - 1] == s.flags[id - 1]
  {
    if FreeFlag(s.flags) == 0 { assert s.flags[id - 1] in s.flags; }
  }

  // ---------------------------------------------------------------------------
  // Waits and polls
  // ---------------------------------------------------------------------------

  predicate Holds(bits: Bits, want: Bits, any: bool) { if any then want * bits != {} else want <= bits }

  /** A wait is refused without a flag, without bits, or behind another waiter of a single-waiter flag. */
  predicate Refuses(s: State, id: int, bits: Bits) {
    || !(1 <= id <= MAX_FLAGS && s.flags[id - 1].inUse) || bits == {}
    || (s.flags[id - 1].attr / 2 % 2 == 0 && s.flags[id - 1].waiters > 0)
  }

  /** The condition held: the bits are reported whole, and all of them go if that was asked for. */
  ghost predicate Took(s: State, r: State, id: int, clear: bool, ptr: Word)
    requires 1 <= id <= MAX_FLAGS
  {
    && r.flags == s.flags[id - 1 := s.flags[id - 1].(bits := if clear then {} else s.flags[id - 1].bits)]
    && r.results == s.results + (if ptr == 0 then [] else [(ptr, s.flags[id - 1].bits)])
    && r == s.(cpu := s.cpu.Returned(0), flags := r.flags, results := r.results)
  }

  /** The caller is now one more waiter, for this. */
  ghost predicate Blocks(s: State, r: State, id: int, want: Want)
    requires 1 <= id <= MAX_FLAGS
  {
    && r.flags == s.flags[id - 1 := s.flags[id - 1].(waiters := s.flags[id - 1].waiters + 1)] && r.results == s.results
    && (s.current != 0 ==>
          var t := r.threads[s.current - 1];
          t.Waits(OnFlag, id) == s.threads[s.current - 1].inUse && t.want == want && t.regs == s.cpu.Returned(0))
    && forall i | 0 <= i < MAX_THREADS && i + 1 != s.current :: r.threads[i] == s.threads[i]
  }

  /** WaitEventFlag: refused, served at once, or blocked. */
  lemma WaitServes(s: State, id: int, bits: Bits, mode: Mode, ptr: Word)
    ensures var o := WaitFlag(s, id, bits, mode, ptr);
            if Refuses(s, id, bits) then o == Stay(s.(cpu := s.cpu.Returned(MINUS_ONE)))
            else if Holds(s.flags[id - 1].bits, bits, mode.any) then o.Stay? && Took(s, o.state, id, mode.clear, ptr)
            else o.Switch? && Blocks(s, o.state, id, Want(bits, mode, ptr))
  {
    if !Refuses(s, id, bits) { assert bits * s.flags[id - 1].bits == s.flags[id - 1].bits * bits; }
  }

  /** PollEventFlag: served, or refused without waiting. */
  lemma PollServes(s: State, id: int, bits: Bits, mode: Mode, ptr: Word)
    ensures var o := PollFlag(s, id, bits, mode, ptr);
            if s.HasFlag(id) && bits != {} && Holds(s.flags[id - 1].bits, bits, mode.any)
            then o.Stay? && Took(s, o.state, id, mode.clear, ptr)
            else o == Stay(s.(cpu := s.cpu.Returned(MINUS_ONE)))
  {
    if s.HasFlag(id) { assert bits * s.flags[id - 1].bits == s.flags[id - 1].bits * bits; }
  }

  /** The running thread is about to wait for what more bits will bring, and nobody else waits in sight. */
  ghost predicate WouldWait(s: State, id: int, bits: Bits, want: Want) {
    && s.current != 0 && s.threads[s.current - 1].Is(Run) && bits != {} && !Refuses(s, id, want.bits)
    && (forall i | 0 <= i < MAX_THREADS :: !s.threads[i].Waits(OnFlag, id))
    && !Holds(s.flags[id - 1].bits, want.bits, want.mode.any)
    && Holds(s.flags[id - 1].bits + bits, want.bits, want.mode.any)
  }

  /** The flag and the reports once the thread has got its bits. */
  ghost predicate Got(s: State, r: State, id: int, bits: Bits, want: Want)
    requires 1 <= id <= MAX_FLAGS
  {
    && r.flags == s.flags[id - 1 := s.flags[id - 1].(bits := if want.mode.clear then {} else bits)]
    && r.results == s.results + if want.ptr == 0 then [] else [(want.ptr, bits)]
  }

  lemma Early(s: State, w: State, id: int, bits: Bits, want: Want)
    requires WouldWait(s, id, bits, want) && w == WaitFlag(s, id, want.bits, want.mode, want.ptr).state
    ensures Got(s, SetBits(w, id, bits), id, s.flags[id - 1].bits + bits, want)
  {
    WaitServes(s, id, want.bits, want.mode, want.ptr);
    SetServes(w, id, bits);
    OnlyServed(w.threads, id, s.flags[id - 1].bits + bits, s.current - 1, MAX_THREADS);
  }

  lemma Late(s: State, w: State, id: int, bits: Bits, want: Want)
    requires WouldWait(s, id, bits, want) && w == SetBits(s, id, bits)
    ensures Got(s, WaitFlag(w, id, want.bits, want.mode, want.ptr).state, id, s.flags[id - 1].bits + bits, want)
  {
    SetServes(s, id, bits);
    NobodyServed(s.threads, id, s.flags[id - 1].bits + bits, MAX_THREADS);
    WaitServes(w, id, want.bits, want.mode, want.ptr);
  }

  /** It makes no difference to the flag, nor to what is reported, whether a thread comes before the bits
      it waits for or after them. */
  lemma EarlyOrLate(s: State, id: int, bits: Bits, want: Want)
    requires WouldWait(s, id, bits, want)
    ensures var early := SetBits(WaitFlag(s, id, want.bits, want.mode, want.ptr).state, id, bits);
            var late := WaitFlag(SetBits(s, id, bits), id, want.bits, want.mode, want.ptr).state;
            early.flags == late.flags && early.results == late.results
  {
    Early(s, WaitFlag(s, id, want.bits, want.mode, want.ptr).state, id, bits, want);
    Late(s, SetBits(s, id, bits), id, bits, want);
  }

  lemma {:induction false} NobodyServed(ts: Threads, id: int, bits: Bits, n: nat)
    requires n <= MAX_THREADS && forall i | 0 <= i < n :: !ts[i].Waits(OnFlag, id)
    ensures Count(ts, id, bits, n) == 0 && Reports(ts, id, bits, n) == [] && !Cleared(ts, id, bits, n)
  {
    if n > 0 { NobodyServed(ts, id, bits, n - 1); }
  }

  lemma {:induction false} OnlyServed(ts: Threads, id: int, bits: Bits, k: nat, n: nat)
    requires k < n <= MAX_THREADS && Meets(ts[k], id, bits)
    requires forall i | 0 <= i < MAX_THREADS && i != k :: !ts[i].Waits(OnFlag, id)
    ensures Count(ts, id, bits, n) == 1 && (Cleared(ts, id, bits, n) <==> ts[k].want.mode.clear)
    ensures Reports(ts, id, bits, n) == if ts[k].want.ptr == 0 then [] else [(ts[k].want.ptr, bits)]
  {
    assert Served(ts, id, bits, k);
    if n == k + 1 { NobodyServed(ts, id, bits, k); } else { OnlyServed(ts, id, bits, k, n - 1); }
  }
}
