/** The asynchronous request table: 128 channels with round-robin cursors, proved to be
    exactly a bounded first-in first-out queue. */
module AsyncQueue {

  const CHANNELS: nat := 128

  datatype Channel<R> = Channel(active: bool, request: R)

  /** The channel i places after the cursor s. */
  function Slot(s: nat, i: nat): (k: nat)
    requires s < CHANNELS && i < CHANNELS
    ensures k < CHANNELS && k == (s + i) % CHANNELS
  {
    if s + i < CHANNELS then s + i else s + i - CHANNELS
  }

  /** How far channel k is after the cursor s. */
  function Age(s: nat, k: nat): (i: nat)
    requires s < CHANNELS && k < CHANNELS
    ensures i < CHANNELS && Slot(s, i) == k
  {
    if k >= s then k - s else k + CHANNELS - s
  }

  class Table<R> {
    const channels: array<Channel<R>>
    var busy: nat
    var nextAlloc: nat
    var nextService: nat

    /** Active channels are the cyclic interval from the service to the allocation cursor. */
    ghost predicate Valid()
      reads this, channels
    {
      && channels.Length == CHANNELS
      && busy <= CHANNELS && nextService < CHANNELS && nextAlloc == (nextService + busy) % CHANNELS
      && forall k | 0 <= k < CHANNELS :: channels[k].active <==> Age(nextService, k) < busy
    }

    /** The pending requests, oldest first. */
    ghost function Pending(): (ps: seq<R>)
      requires Valid()
      reads this, channels
      ensures |ps| == busy && forall i | 0 <= i < busy :: ps[i] == channels[Slot(nextService, i)].request
    {
      seq(busy, i requires 0 <= i < busy && Valid() reads this, channels =>
        channels[Slot(nextService, i)].request)
    }

    constructor (r: R)
      ensures Valid() && fresh(channels) && Pending() == []
    {
      busy, nextAlloc, nextService := 0, 0, 0;
      channels := new Channel<R>[CHANNELS](_ => Channel(false, r));
    }

    /** The first channel from a cursor that is (or is not) active, in cyclic order. */
    method Scan(start: nat, active: bool) returns (found: bool, index: nat)
      requires channels.Length == CHANNELS && start < CHANNELS
      ensures found ==> index < CHANNELS && channels[index].active == active
      ensures found ==> forall k | 0 <= k < CHANNELS && Age(start, k) < Age(start, index) :: channels[k].active != active
      ensures !found ==> forall k | 0 <= k < CHANNELS :: channels[k].active != active
    {
      var tries := 0;
      while tries < CHANNELS
        invariant tries <= CHANNELS
        invariant forall k | 0 <= k < CHANNELS && Age(start, k) < tries :: channels[k].active != active
      {
        index := (start + tries) % CHANNELS;
        assert index == Slot(start, tries) && Age(start, index) == tries;
        if channels[index].active == active { return true, index; }
        tries := tries + 1;
      }
      return false, 0;
    }

    /** Fails, changing nothing, exactly when all 128 channels are pending. */
    method Enqueue(r: R) returns (index: int)
      requires Valid()
      modifies this, channels
      ensures Valid()
      ensures old(|Pending()|) == CHANNELS ==> index == -1 && Pending() == old(Pending())
      ensures old(|Pending()|) < CHANNELS ==> index == old(nextAlloc) && Pending() == old(Pending()) + [r]
    {
      assert Age(nextService, nextAlloc) == if busy == CHANNELS then 0 else busy;
      var found, k := Scan(nextAlloc, false);
      if !found { return -1; }
      assert k == nextAlloc;
      Fill(k, r);
      return k;
    }

    method Fill(k: nat, r: R)
      requires Valid() && busy < CHANNELS && k == nextAlloc
      modifies this, channels
      ensures Valid() && Pending() == old(Pending()) + [r]
    {
      channels[k] := Channel(true, r);
      nextAlloc := (k + 1) % CHANNELS;
      busy := busy + 1;
    }

    /** Takes the oldest request, if there is one. */
    method Service() returns (taken: seq<R>)
      requires Valid()
      modifies this, channels
      ensures Valid()
      ensures old(Pending()) == [] ==> taken == [] && Pending() == []
      ensures old(Pending()) != [] ==> taken == [old(Pending())[0]] && Pending() == old(Pending())[1..]
    {
      taken := [];
      if busy == 0 { return; }
      assert Age(nextService, nextService) == 0;
      var found, k := Scan(nextService, true);
      if found {
        assert Slot(nextService, 0) == k;
        taken := [channels[k].request];
        Release(k);
      }
    }

    method Release(k: nat)
      requires Valid() && busy > 0 && k == nextService
      modifies this, channels
      ensures Valid() && Pending() == old(Pending())[1..]
    {
      channels[k] := channels[k].(active := false);
      busy := busy - 1;
      nextService := (k + 1) % CHANNELS;
    }

    /** Any run of the table is the same run of the queue. */
    method Perform(ops: seq<Op<R>>) returns (served: seq<R>)
      requires Valid()
      modifies this, channels
      ensures Valid() && Log(Pending(), served) == After(Log(old(Pending()), []), ops)
    {
      served := [];
      ghost var start := Log(Pending(), []);
      for i := 0 to |ops|
        invariant Valid() && Log(Pending(), served) == After(start, ops[..i])
      {
        assert ops[..i + 1][..i] == ops[..i];
        match ops[i]
        case Put(r) =>
          var _ := Enqueue(r);
        case Take =>
          var taken := Service();
          served := served + taken;
      }
      assert ops[..|ops|] == ops;
    }
  }

  // ---------------------------------------------------------------------------
  // The bounded queue
  // ---------------------------------------------------------------------------

  datatype Op<R> = Put(r: R) | Take

  /** Requests pending, oldest first, and requests served, in order. */
  datatype Log<R> = Log(pending: seq<R>, served: seq<R>)

  function Step<R>(q: Log<R>, op: Op<R>): Log<R> {
    match op
    case Put(r) => if |q.pending| < CHANNELS then q.(pending := q.pending + [r]) else q
    case Take => if q.pending == [] then q else Log(q.pending[1..], q.served + [q.pending[0]])
  }

  function After<R>(q: Log<R>, ops: seq<Op<R>>): Log<R> {
    if ops == [] then q else Step(After(q, ops[..|ops| - 1]), ops[|ops| - 1])
  }

  /** The requests a run accepts: those put while fewer than 128 are pending. */
  function Accepted<R>(q: Log<R>, ops: seq<Op<R>>): seq<R> {
    if ops == [] then []
    else
      var m := |ops| - 1;
      Accepted(q, ops[..m])
      + if ops[m].Put? && |After(q, ops[..m]).pending| < CHANNELS then [ops[m].r] else []
  }

  function Takes<R>(ops: seq<Op<R>>): nat {
    if ops == [] then 0 else Takes(ops[..|ops| - 1]) + if ops[|ops| - 1].Take? then 1 else 0
  }

  /** Every request accepted is served once, in the order accepted, or still pending; and
      never more than 128 are pending. */
  lemma {:induction false} FirstInFirstOut<R>(q: Log<R>, ops: seq<Op<R>>)
    requires |q.pending| <= CHANNELS
    ensures var r := After(q, ops);
            && r.served + r.pending == q.served + q.pending + Accepted(q, ops)
            && |r.pending| <= CHANNELS && q.served <= r.served
  {
    if ops != [] {
      var m := |ops| - 1;
      FirstInFirstOut(q, ops[..m]);
      StepKeeps(After(q, ops[..m]), ops[m]);
      var added := if ops[m].Put? && |After(q, ops[..m]).pending| < CHANNELS then [ops[m].r] else [];
      assert q.served + q.pending + Accepted(q, ops[..m]) + added
        == q.served + q.pending + (Accepted(q, ops[..m]) + added);
    }
  }

  lemma StepKeeps<R>(q: Log<R>, op: Op<R>)
    ensures var r := Step(q, op);
            r.served + r.pending == q.served + q.pending
                                    + if op.Put? && |q.pending| < CHANNELS then [op.r] else []
  {}

  /** Each pending request has been served once that many requests have been taken. */
  lemma {:induction false} TakesServe<R>(q: Log<R>, ops: seq<Op<R>>)
    requires |q.pending| <= CHANNELS
    ensures |After(q, ops).served| >= |q.served| + if Takes(ops) < |q.pending| then Takes(ops) else |q.pending|
  {
    if ops != [] {
      var m := |ops| - 1;
      TakesServe(q, ops[..m]);
      FirstInFirstOut(q, ops[..m]);
    }
  }

  /** 128 service calls, however interleaved, serve everything that was pending, in order. */
  lemma {:induction false} ServedInTime<R>(q: Log<R>, ops: seq<Op<R>>)
    requires |q.pending| <= CHANNELS && Takes(ops) >= CHANNELS
    ensures q.served + q.pending <= After(q, ops).served
  {
    TakesServe(q, ops);
    FirstInFirstOut(q, ops);
    var r, n := After(q, ops), |q.served + q.pending|;
    assert r.served[..n] == (r.served + r.pending)[..n] == q.served + q.pending;
  }
}
