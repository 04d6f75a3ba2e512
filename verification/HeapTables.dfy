/** The heap's tables as linked nodes: 31 elements each, chained within a table, from the last
    element of a table to the first of the next, and from table to table. One walk along the
    element links is the sequence of slots that IopHeap works on, and the operations that change
    the chain change that sequence as IopHeap says. */
module HeapTables {
  import opened Words
  import opened Options
  import opened HeapBlocks
  import opened IopHeap

  const SM_LAST := 30

  /** A reference to an element of a table. */
  datatype Ref = Ref(table: nat, index: nat)

  datatype Table = Table(next: Option<nat>, links: seq<Option<Ref>>, infos: seq<Word>)

  type Store = map<nat, Table>

  /** new_table. */
  function Blank(t: nat): Table {
    Table(None, seq(SM_MAX, (i: nat) => if i + 1 < SM_MAX then Some(Ref(t, i + 1)) else None), EmptySlots())
  }

  // ---------------------------------------------------------------------------
  // Chains
  // ---------------------------------------------------------------------------

  /** The first element of table i of the chain, or nothing past its end. */
  function First(order: seq<nat>, i: nat): Option<Ref> { if i < |order| then Some(Ref(order[i], 0)) else None }

  function Following(order: seq<nat>, i: nat): Option<nat> { if i + 1 < |order| then Some(order[i + 1]) else None }

  ghost predicate TableLinked(m: Store, order: seq<nat>, i: nat)
    requires i < |order|
  {
    && order[i] in m
    && var t := m[order[i]];
       && |t.links| == SM_MAX && |t.infos| == SM_MAX
       && t.next == Following(order, i)
       && (forall j | 0 <= j < SM_LAST :: t.links[j] == Some(Ref(order[i], j + 1)))
       && t.links[SM_LAST] == First(order, i + 1)
  }

  ghost predicate Distinct(order: seq<nat>) { forall i, j | 0 <= i < j < |order| :: order[i] != order[j] }

  ghost predicate Linked(m: Store, order: seq<nat>) {
    Distinct(order) && forall i | 0 <= i < |order| :: TableLinked(m, order, i)
  }

  /** The reference to slot k of the chain, counted over all tables. */
  function At(order: seq<nat>, k: nat): Option<Ref> {
    if k / SM_MAX < |order| then Some(Ref(order[k / SM_MAX], k % SM_MAX)) else None
  }

  ghost function Slots(m: Store, order: seq<nat>): (r: seq<Word>)
    requires Linked(m, order)
    ensures |r| == SM_MAX * |order|
  {
    seq(SM_MAX * |order|, k requires 0 <= k < SM_MAX * |order| => SlotOf(m, order, k))
  }

  ghost function SlotOf(m: Store, order: seq<nat>, k: nat): Word
    requires Linked(m, order) && k < SM_MAX * |order|
  {
    assert TableLinked(m, order, k / SM_MAX);
    m[order[k / SM_MAX]].infos[k % SM_MAX]
  }

  lemma InTable(k: nat, n: nat)
    ensures k / SM_MAX < n <==> k < SM_MAX * n
    ensures if k % SM_MAX == SM_LAST then (k + 1) / SM_MAX == k / SM_MAX + 1 && (k + 1) % SM_MAX == 0
            else (k + 1) / SM_MAX == k / SM_MAX && (k + 1) % SM_MAX == k % SM_MAX + 1
  {}

  /** The link of every element leads to the next slot of the chain, across tables too. */
  lemma LinkNext(m: Store, order: seq<nat>, k: nat)
    requires Linked(m, order) && k < SM_MAX * |order|
    ensures var e := At(order, k).value;
            e.table in m && e.index < |m[e.table].links| && m[e.table].links[e.index] == At(order, k + 1)
  {
    InTable(k, |order|);
    assert TableLinked(m, order, k / SM_MAX);
  }

  lemma SameSlot(order: seq<nat>, j: nat, k: nat)
    requires Distinct(order) && j < SM_MAX * |order| && k < SM_MAX * |order| && j != k
    ensures order[j / SM_MAX] != order[k / SM_MAX] || j % SM_MAX != k % SM_MAX
  {
    assert j / SM_MAX == k / SM_MAX ==> j % SM_MAX != k % SM_MAX;
  }

  function Written(m: Store, e: Ref, w: Word): Store
    requires e.table in m && e.index < |m[e.table].infos|
  {
    m[e.table := m[e.table].(infos := m[e.table].infos[e.index := w])]
  }

  /** Writing one element changes its slot and no other. */
  lemma WriteSlot(m: Store, order: seq<nat>, k: nat, w: Word)
    requires Linked(m, order) && k < SM_MAX * |order|
    ensures var e := At(order, k).value;
            && e.table in m && e.index < |m[e.table].infos|
            && var r := Written(m, e, w);
               Linked(r, order) && Slots(r, order) == Slots(m, order)[k := w]
  {
    InTable(k, |order|);
    var e := At(order, k).value;
    assert TableLinked(m, order, k / SM_MAX);
    var r := Written(m, e, w);
    forall i | 0 <= i < |order| ensures TableLinked(r, order, i) { assert TableLinked(m, order, i); }
    forall j | 0 <= j < SM_MAX * |order|
      ensures Slots(r, order)[j] == Slots(m, order)[k := w][j]
    {
      assert TableLinked(r, order, j / SM_MAX) && TableLinked(m, order, j / SM_MAX);
      if j != k { SameSlot(order, j, k); }
    }
  }

  /** Stitching a table to the end: `next` of the last table, and the link of its last element. */
  function Stitched(m: Store, last: nat, next: Option<nat>): Store
    requires last in m && |m[last].links| == SM_MAX
  {
    m[last := m[last].(next := next, links := m[last].links[SM_LAST := if next.Some? then Some(Ref(next.value, 0)) else None])]
  }

  lemma SlotsAgree(m: Store, r: Store, order: seq<nat>, longer: seq<nat>, k: nat)
    requires Linked(m, order) && Linked(r, longer) && order <= longer && k < SM_MAX * |order|
    requires forall i | 0 <= i < |order| :: order[i] in m && order[i] in r && r[order[i]].infos == m[order[i]].infos
    ensures k < SM_MAX * |longer| && SlotOf(r, longer, k) == SlotOf(m, order, k)
  {
    InTable(k, |order|);
    assert longer[k / SM_MAX] == order[k / SM_MAX];
  }

  ghost predicate Loose(m: Store, order: seq<nat>, t: nat) { t in m && t !in order && m[t] == Blank(t) }

  /** A new table at the end adds its empty slots. */
  lemma Grown(m: Store, order: seq<nat>, t: nat)
    requires Linked(m, order) && order != [] && Loose(m, order, t)
    ensures var last := order[|order| - 1];
            && last in m && |m[last].links| == SM_MAX
            && var r := Stitched(m, last, Some(t));
               Linked(r, order + [t]) && Slots(r, order + [t]) == Slots(m, order) + EmptySlots()
  {
    var n, longer := |order|, order + [t];
    assert TableLinked(m, order, n - 1);
    var r := Stitched(m, order[n - 1], Some(t));
    forall i | 0 <= i < n ensures TableLinked(r, longer, i) { assert TableLinked(m, order, i); }
    forall i | 0 <= i < n ensures order[i] in m && order[i] in r && r[order[i]].infos == m[order[i]].infos {
      assert TableLinked(m, order, i);
    }
    assert TableLinked(r, longer, n);
    forall k | 0 <= k < SM_MAX * n ensures Slots(r, longer)[k] == Slots(m, order)[k] { SlotsAgree(m, r, order, longer, k); }
    forall k | SM_MAX * n <= k < SM_MAX * (n + 1) ensures Slots(r, longer)[k] == 0 { InTable(k, n); InTable(k, n + 1); }
    assert Slots(r, longer) == Slots(m, order) + EmptySlots();
  }

  lemma OneTable(m: Store, t: nat)
    requires Loose(m, [], t)
    ensures Linked(m, [t]) && Slots(m, [t]) == EmptySlots()
  {
    assert TableLinked(m, [t], 0);
  }

  /** A node outside the chain does not matter to it. */
  lemma Outside(m: Store, order: seq<nat>, t: nat)
    requires Linked(m, order) && t !in m
    ensures var r := m[t := Blank(t)]; Linked(r, order) && Slots(r, order) == Slots(m, order) && Loose(r, order, t)
  {
    var r := m[t := Blank(t)];
    forall i | 0 <= i < |order| ensures TableLinked(r, order, i) && order[i] != t { assert TableLinked(m, order, i); }
    forall i | 0 <= i < |order| ensures order[i] in m && order[i] in r && r[order[i]].infos == m[order[i]].infos {
      assert TableLinked(m, order, i);
    }
    forall k | 0 <= k < SM_MAX * |order| ensures Slots(r, order)[k] == Slots(m, order)[k] { SlotsAgree(m, r, order, order, k); }
    assert Slots(r, order) == Slots(m, order);
  }

  /** An element is the slot at its place in the chain. */
  lemma ElementSlot(m: Store, order: seq<nat>, i: nat, j: nat)
    requires Linked(m, order) && i < |order| && j < SM_MAX
    ensures order[i] in m && j < |m[order[i]].infos|
    ensures SM_MAX * i + j < SM_MAX * |order| && Slots(m, order)[SM_MAX * i + j] == m[order[i]].infos[j]
    ensures At(order, SM_MAX * i + j) == Some(Ref(order[i], j))
  {
    assert TableLinked(m, order, i);
    DivMod(SM_MAX * i + j, SM_MAX, i, j);
  }

  /** Cutting the last table off takes its slots away. */
  lemma Shrunk(m: Store, order: seq<nat>)
    requires Linked(m, order) && |order| >= 2
    ensures var n := |order| - 1;
            && order[n - 1] in m && |m[order[n - 1]].links| == SM_MAX
            && var r := Stitched(m, order[n - 1], None) - {order[n]};
               Linked(r, order[..n]) && Slots(r, order[..n]) == Slots(m, order)[..SM_MAX * n]
  {
    var n := |order| - 1;
    var shorter := order[..n];
    assert TableLinked(m, order, n - 1);
    var r := Stitched(m, order[n - 1], None) - {order[n]};
    forall i | 0 <= i < n ensures TableLinked(r, shorter, i) { assert TableLinked(m, order, i); }
    forall i | 0 <= i < n ensures shorter[i] in r && shorter[i] in m && m[shorter[i]].infos == r[shorter[i]].infos {
      assert TableLinked(m, order, i);
    }
    forall k | 0 <= k < SM_MAX * n ensures Slots(r, shorter)[k] == Slots(m, order)[k] { SlotsAgree(r, m, shorter, order, k); }
    assert Slots(r, shorter) == Slots(m, order)[..SM_MAX * n];
  }

  /** The chain goes on without its first table. */
  lemma Headless(m: Store, order: seq<nat>)
    requires Linked(m, order) && order != []
    ensures order[0] in m && m[order[0]].next == Following(order, 0)
    ensures Linked(m - {order[0]}, order[1..])
  {
    assert TableLinked(m, order, 0);
    forall i | 0 <= i < |order| - 1 ensures TableLinked(m - {order[0]}, order[1..], i) {
      assert TableLinked(m, order, i + 1);
    }
  }

  // ---------------------------------------------------------------------------
  // The copy loop on the walk
  // ---------------------------------------------------------------------------

  /** Closing a gap, when the slots before j are done. */
  ghost function CopiedDown(s: seq<Word>, k: nat, skip: nat, j: nat): (r: seq<Word>)
    requires k <= j && j + skip <= |s|
    ensures |r| == |s|
    decreases j
  {
    if j == k then s else CopiedDown(s, k, skip, j - 1)[j - 1 := s[j - 1 + skip]]
  }

  lemma {:induction false} CopiedAt(s: seq<Word>, k: nat, skip: nat, j: nat, i: nat)
    requires k <= j && j + skip <= |s| && i < |s|
    ensures CopiedDown(s, k, skip, j)[i] == if k <= i < j then s[i + skip] else s[i]
    decreases j
  {
    if j > k { CopiedAt(s, k, skip, j - 1, i); }
  }

  lemma CopiedNext(s: seq<Word>, k: nat, skip: nat, j: nat, i: nat)
    requires k <= j && i == j + skip < |s|
    ensures CopiedDown(s, k, skip, j + 1) == CopiedDown(s, k, skip, j)[j := CopiedDown(s, k, skip, j)[i]]
  {
    CopiedAt(s, k, skip, j, i);
  }

  lemma CopiedAll(s: seq<Word>, k: nat, skip: nat)
    requires k + skip <= |s|
    ensures CopiedDown(s, k, skip, |s| - skip) == Closed(s, k, skip)
  {
    forall i | 0 <= i < |s| ensures CopiedDown(s, k, skip, |s| - skip)[i] == Closed(s, k, skip)[i] {
      CopiedAt(s, k, skip, |s| - skip, i);
    }
  }

  /** What of the joined slots is copied, and that nothing is when nothing was joined. */
  lemma CoalescedParts(s: seq<Word>, k: nat)
    requires k < |s|
    ensures FreeBefore(WithNext(s, k), k) == FreeBefore(s, k)
    ensures FreeBefore(s, k) ==> SpareFrom(s, k) == k
    ensures !FreeBefore(s, k) ==> SpareFrom(s, k) == k + 1
    ensures SpareFrom(s, k) + Spare(s, k) <= |s|
    ensures Spare(s, k) == 0 ==> Coalesced(s, k) == WithBefore(WithNext(s, k), k)
  {
    ClosedNone(WithBefore(WithNext(s, k), k), SpareFrom(s, k));
  }

  lemma ClosedNone(s: seq<Word>, n: nat)
    requires n <= |s|
    ensures Closed(s, n, 0) == s
  {}

  // ---------------------------------------------------------------------------
  // The chain
  // ---------------------------------------------------------------------------

  class Chain {
    var tables: Store
    var head: Option<nat>
    /** The number malloc gives out next. */
    var unused: nat
    ghost var order: seq<nat>

    ghost predicate Valid()
      reads this
    {
      && Linked(tables, order)
      && head == (if order == [] then None else Some(order[0]))
      && forall t | t in tables :: t < unused
    }

    ghost function Words(): seq<Word>
      requires Valid()
      reads this
    {
      Slots(tables, order)
    }

    constructor ()
      ensures Valid() && Words() == []
    {
      tables, head, unused, order := map[], None, 0, [];
    }

    /** A table of its own, not in the chain yet. */
    method NewTable() returns (t: nat)
      requires Valid()
      modifies this`tables, this`unused
      ensures Valid() && Words() == old(Words()) && Loose(tables, order, t)
    {
      t := unused;
      Outside(tables, order, t);
      tables, unused := tables[t := Blank(t)], unused + 1;
    }

    /** last_table: along `next` to the end. */
    method LastTable() returns (last: Option<nat>)
      requires Valid()
      ensures last == if order == [] then None else Some(order[|order| - 1])
    {
      if head.None? { return None; }
      var t := head.value;
      ghost var i := 0;
      assert TableLinked(tables, order, 0);
      while tables[t].next.Some?
        invariant i < |order| && t == order[i] && TableLinked(tables, order, i)
        decreases |order| - i
      {
        t, i := tables[t].next.value, i + 1;
        assert TableLinked(tables, order, i);
      }
      return Some(t);
    }

    /** Puts a loose table at the end of the chain. */
    method Append(t: nat)
      requires Valid() && Loose(tables, order, t)
      modifies this`tables, this`head, this`order
      ensures Valid() && Words() == old(Words()) + EmptySlots() && order == old(order) + [t]
    {
      var last := LastTable();
      if last.None? {
        OneTable(tables, t);
        head := Some(t);
      } else {
        Grown(tables, order, t);
        tables := Stitched(tables, last.value, Some(t));
      }
      order := order + [t];
    }

    /** Cuts the last table off the one before it and frees it. */
    method CutLast(before: nat)
      requires Valid() && |order| >= 2 && before == order[|order| - 2]
      modifies this`tables, this`order
      ensures Valid() && Words() == old(Words())[..|old(Words())| - SM_MAX]
    {
      Shrunk(tables, order);
      assert TableLinked(tables, order, |order| - 2);
      var t := tables[before].next.value;
      tables := Stitched(tables, before, None) - {t};
      order := order[..|order| - 1];
    }

    /** do_maintain. */
    method Maintain()
      requires Valid()
      modifies this
      ensures Valid() && Words() == Maintained(old(Words()))
    {
      var last := LastTable();
      if last.None? { return; }
      AddIfFull(last.value);
      DropEmpty();
    }

    /** Adds a table if the check slot of the last one is filled. */
    method AddIfFull(last: nat)
      requires Valid() && order != [] && last == order[|order| - 1]
      modifies this
      ensures Valid() && order != []
      ensures Words() == Widened(old(Words()))
    {
      ElementSlot(tables, order, |order| - 1, SM_CHECK);
      if SizeOf(tables[last].infos[SM_CHECK]) > 0 {
        var t := NewTable();
        Append(t);
      }
    }

    /** Frees the last table if the check slot of the one before is empty. */
    method DropEmpty()
      requires Valid() && order != []
      modifies this`tables, this`order
      ensures Valid() && Words() == Narrowed(old(Words()))
    {
      var t := LastButOne();
      if t.Some? {
        ElementSlot(tables, order, |order| - 2, SM_CHECK);
        if SizeOf(tables[t.value].infos[SM_CHECK]) == 0 { CutLast(t.value); }
      }
    }

    method LastButOne() returns (r: Option<nat>)
      requires Valid() && order != []
      ensures r == if |order| == 1 then None else Some(order[|order| - 2])
    {
      var t := head.value;
      ghost var i := 0;
      assert TableLinked(tables, order, 0);
      if tables[t].next.None? { return None; }
      assert TableLinked(tables, order, 1);
      while tables[tables[t].next.value].next.Some?
        invariant i + 1 < |order| && t == order[i] && TableLinked(tables, order, i) && TableLinked(tables, order, i + 1)
        decreases |order| - i
      {
        t, i := tables[t].next.value, i + 1;
        assert TableLinked(tables, order, i + 1);
      }
      return Some(t);
    }

    // -------------------------------------------------------------------------
    // Elements, by reference; the slot each is is ghost
    // -------------------------------------------------------------------------

    /** The first element, as every scan starts. */
    method Start() returns (a: Option<Ref>)
      requires Valid()
      ensures a == At(order, 0)
    {
      a := if head.None? then None else Some(Ref(head.value, 0));
    }

    /** An element's word and link. */
    method Read(e: Ref, ghost k: nat) returns (w: Word, next: Option<Ref>)
      requires Valid() && At(order, k) == Some(e)
      ensures k < |Words()| && w == Words()[k] && next == At(order, k + 1)
    {
      InTable(k, |order|);
      LinkNext(tables, order, k);
      assert TableLinked(tables, order, k / SM_MAX);
      w, next := tables[e.table].infos[e.index], tables[e.table].links[e.index];
      assert w == SlotOf(tables, order, k);
    }

    method Put(e: Ref, w: Word, ghost k: nat)
      requires Valid() && At(order, k) == Some(e)
      modifies this`tables
      ensures Valid() && k < |old(Words())| && Words() == old(Words())[k := w]
    {
      InTable(k, |order|);
      WriteSlot(tables, order, k, w);
      tables := Written(tables, e, w);
    }

    /** A reference leads nowhere exactly past the last slot. */
    lemma EndsAt(k: nat)
      requires Valid()
      ensures At(order, k).None? <==> |Words()| <= k
    {
      InTable(k, |order|);
    }

    // -------------------------------------------------------------------------
    // do_alloc along the links
    // -------------------------------------------------------------------------

    method FindFirst(n: nat) returns (a: Option<Ref>, ghost k: nat)
      requires Valid()
      ensures k == FirstFit(Words(), n, 0) && a == At(order, k)
    {
      a := Start();
      k := 0;
      while a.Some?
        invariant a == At(order, k) && k <= |Words()| && FirstFit(Words(), n, k) == FirstFit(Words(), n, 0)
        decreases |Words()| - k
      {
        var w, next := Read(a.value, k);
        var size, _, live := ReadInfo(w);
        if !live && size >= n { return; }
        a, k := next, k + 1;
      }
      EndsAt(k);
    }

    method FindLast(n: nat) returns (last: Option<Ref>, ghost k: nat)
      requires Valid()
      ensures k == LastFit(Words(), n, |Words()|) && last == At(order, k)
    {
      var a := Start();
      ghost var j := 0;
      last, k := None, |Words()|;
      EndsAt(k);
      while a.Some?
        invariant a == At(order, j) && j <= |Words()| && k == LastFit(Words(), n, j) && last == At(order, k)
        decreases |Words()| - j
      {
        var w, next := Read(a.value, j);
        var size, _, live := ReadInfo(w);
        if !live && size >= n { last, k := a, j; }
        a, j := next, j + 1;
      }
      EndsAt(j);
    }

    method FindLater(n: nat, at: nat) returns (a: Option<Ref>, ghost k: nat)
      requires Valid()
      ensures k == LaterFit(Words(), n, at, 0) && a == At(order, k)
      ensures a.Some? ==> k < |Words()| && SizeOf(Words()[k]) + AddrOf(Words()[k]) >= at + n
    {
      a := Start();
      k := 0;
      while a.Some?
        invariant a == At(order, k) && k <= |Words()| && LaterFit(Words(), n, at, k) == LaterFit(Words(), n, at, 0)
        decreases |Words()| - k
      {
        var w, next := Read(a.value, k);
        var size, addr, live := ReadInfo(w);
        if at < addr {
          a, k := None, |Words()|;
          break;
        }
        if !live && size + addr >= at + n { return; }
        a, k := next, k + 1;
      }
      EndsAt(k);
    }

    /** Marks an element live and gives its address. */
    method TakeWhole(e: Ref, ghost k: nat) returns (r: nat)
      requires Valid() && At(order, k) == Some(e)
      modifies this`tables
      ensures Valid() && k < |old(Words())| && r == AddrOf(old(Words())[k]) * 256
      ensures Words() == old(Words())[k := SetLive(old(Words())[k])]
    {
      var w, _ := Read(e, k);
      LiveAddress(w);
      w := MarkLive(w);
      Put(e, w, k);
      var _, addr, _ := ReadInfo(w);
      r := addr * 256;
    }

    method TakeFront(e: Ref, n: nat, ghost k: nat) returns (r: nat)
      requires Valid() && At(order, k) == Some(e) && n < 0x100_0000
      modifies this`tables
      ensures Valid() && k < |old(Words())| && r == AddrOf(old(Words())[k]) * 256
      ensures Words() == FrontTaken(old(Words()), k, n)
    {
      var w, next := Read(e, k);
      var size, addr, _ := ReadInfo(w);
      if size == n {
        r := TakeWhole(e, k);
        return;
      }
      r := addr * 256;
      var i := LeaveWord(w, n);
      w := TakeWord(w, n);
      Put(e, w, k);
      Insert(next, i, k + 1);
    }

    method TakeBack(e: Ref, n: nat, ghost k: nat) returns (r: nat)
      requires Valid() && At(order, k) == Some(e)
      modifies this`tables
      ensures Valid() && k < |old(Words())| && (r, Words()) == BackTaken(old(Words()), k, n)
    {
      var w, next := Read(e, k);
      var size, _, _ := ReadInfo(w);
      if size == n {
        r := TakeWhole(e, k);
        return;
      }
      w := Shorten(w, n);
      Put(e, w, k);
      var i := PutBehind(w, n, true);
      var _, addr, _ := ReadInfo(i);
      r := addr * 256;
      Insert(next, i, k + 1);
    }

    /** Cuts the block of an element in two; the element after it is the second half. */
    method SplitAt(e: Ref, at: nat, ghost k: nat) returns (next: Option<Ref>)
      requires Valid() && At(order, k) == Some(e)
      requires k < |Words()| && at <= AddrOf(Words()[k]) + SizeOf(Words()[k])
      modifies this`tables
      ensures Valid() && Words() == SplitSlots(old(Words()), k, at) && next == At(order, k + 1)
    {
      var w, link := Read(e, k);
      next := link;
      var front, back := CutWord(w, at);
      Put(e, front, k);
      Insert(next, back, k + 1);
    }

    method CarveAt(e: Ref, at: nat, n: nat, ghost k: nat) returns (r: nat)
      requires Valid() && At(order, k) == Some(e) && n < 0x100_0000
      requires k < |Words()| && at <= AddrOf(Words()[k]) + SizeOf(Words()[k])
      modifies this`tables
      ensures Valid() && (r, Words()) == CarvedAt(old(Words()), k, at, n)
    {
      var w, _ := Read(e, k);
      var _, addr, _ := ReadInfo(w);
      if addr < at {
        var next := SplitAt(e, at, k);
        EndsAt(k + 1);
        if next.None? { return 0; }
        r := TakeFront(next.value, n, k + 1);
      } else {
        r := TakeFront(e, n, k);
      }
    }

    method AllocFirst(n: nat) returns (r: nat)
      requires Valid() && n < 0x100_0000
      modifies this`tables
      ensures Valid() && (r, Words()) == FirstAlloc(old(Words()), n)
    {
      var a, k := FindFirst(n);
      EndsAt(k);
      if a.None? { return 0; }
      r := TakeFront(a.value, n, k);
    }

    method AllocLast(n: nat) returns (r: nat)
      requires Valid()
      modifies this`tables
      ensures Valid() && (r, Words()) == LastAlloc(old(Words()), n)
    {
      var a, k := FindLast(n);
      EndsAt(k);
      if a.None? { return 0; }
      r := TakeBack(a.value, n, k);
    }

    method AllocLater(n: nat, mem: Word) returns (r: nat)
      requires Valid() && n < 0x100_0000
      modifies this`tables
      ensures Valid() && (r, Words()) == LaterAlloc(old(Words()), n, mem)
    {
      if mem % 256 != 0 { return 0; }
      var a, k := FindLater(n, mem / 256);
      EndsAt(k);
      if a.None? { return 0; }
      r := CarveAt(a.value, mem / 256, n, k);
    }

    /** do_alloc. */
    method DoAlloc(flags: int, size: Word, mem: Word) returns (r: nat)
      requires Valid()
      modifies this`tables
      ensures Valid() && (r, Words()) == DoneAlloc(old(Words()), flags, size, mem)
    {
      r := 0;
      if head.None? { return; }
      var n := Plus(size, 255) / 256;
      if n == 0 { return; }
      if flags == ALLOC_FIRST {
        r := AllocFirst(n);
      } else if flags == ALLOC_LAST {
        r := AllocLast(n);
      } else if flags == ALLOC_LATER {
        r := AllocLater(n, mem);
      }
    }

    /** iop_heap_alloc. */
    method Alloc(flags: int, size: Word, mem: Word) returns (r: nat)
      requires Valid()
      modifies this
      ensures Valid() && (r, Words()) == AfterAlloc(old(Words()), flags, size, mem)
    {
      if head.None? || flags >= 3 { return 0; }
      r := DoAlloc(flags, size, mem);
      Maintain();
    }

    // -------------------------------------------------------------------------
    // do_free along the links
    // -------------------------------------------------------------------------

    /** The element of the block starting at `at`, and the one before it. */
    method FindBlock(at: nat) returns (p: Option<Ref>, a: Option<Ref>, ghost k: nat)
      requires Valid()
      ensures k == Found(Words(), at, 0) && a == At(order, k)
      ensures p == if k == 0 then None else At(order, k - 1)
    {
      a := Start();
      p, k := None, 0;
      while a.Some?
        invariant a == At(order, k) && k <= |Words()| && Found(Words(), at, k) == Found(Words(), at, 0)
        invariant p == if k == 0 then None else At(order, k - 1)
        decreases |Words()| - k
      {
        var w, next := Read(a.value, k);
        var size, addr, _ := ReadInfo(w);
        if size != 0 && addr == at { return; }
        p, a, k := a, next, k + 1;
      }
      EndsAt(k);
    }

    /** Clears the live bit of an element and adds the size of the next one unless that is live. */
    method JoinNext(e: Ref, ghost k: nat) returns (next: Option<Ref>, skip: nat)
      requires Valid() && At(order, k) == Some(e)
      modifies this`tables
      ensures Valid() && k < |old(Words())| && Words() == WithNext(old(Words()), k) && next == At(order, k + 1)
      ensures skip == if FreeNext(old(Words()), k) then 1 else 0
    {
      var w, link := Read(e, k);
      next, skip := link, 0;
      w := MarkFree(w);
      Put(e, w, k);
      EndsAt(k + 1);
      if next.Some? {
        var v, _ := Read(next.value, k + 1);
        var live := ReadLive(v);
        if !live {
          skip := 1;
          w := JoinFree(w, v);
          Put(e, w, k);
        }
      }
    }

    /** Adds the size of an element to the one before it unless that is live. */
    method JoinPrevious(p: Option<Ref>, e: Ref, ghost k: nat) returns (joined: bool)
      requires Valid() && At(order, k) == Some(e) && p == if k == 0 then None else At(order, k - 1)
      modifies this`tables
      ensures Valid() && k < |old(Words())| && Words() == WithBefore(old(Words()), k)
      ensures joined == FreeBefore(old(Words()), k)
    {
      var w, _ := Read(e, k);
      EndsAt(k - if k == 0 then 0 else 1);
      joined := false;
      if p.Some? {
        var v, _ := Read(p.value, k - 1);
        var live := ReadLive(v);
        if !live {
          joined := true;
          v := JoinWords(v, w);
          Put(p.value, v, k - 1);
        }
      }
    }

    /** The copy loop has done the slots before j. */
    ghost predicate Copying(was: seq<Word>, k: nat, skip: nat, j: nat, to: Option<Ref>, from: Option<Ref>)
      reads this
    {
      && k <= j && j + skip <= |was|
      && Valid() && Words() == CopiedDown(was, k, skip, j)
      && to == At(order, j) && from == At(order, j + skip)
    }

    lemma CopyBegins(k: nat, skip: nat, to: Option<Ref>, from: Option<Ref>)
      requires Valid() && to == At(order, k) && from == At(order, k + skip) && k + skip <= |Words()|
      ensures Copying(Words(), k, skip, k, to, from)
    {}

    lemma CopyDone(was: seq<Word>, k: nat, skip: nat, j: nat, to: Option<Ref>)
      requires Copying(was, k, skip, j, to, None)
      ensures Words() == Closed(was, k, skip)
    {
      EndsAt(j + skip);
      CopiedAll(was, k, skip);
    }

    /** Copies every element from `skip` further on, along two references. */
    method CloseGap(start: Option<Ref>, skip: nat, ghost k: nat)
      requires Valid() && start == At(order, k) && k + skip <= |Words()|
      modifies this`tables
      ensures Valid() && Words() == Closed(old(Words()), k, skip)
    {
      var a := Ahead(start, skip, k);
      ghost var was := Words();
      CopyBegins(k, skip, start, a);
      var n, j := CopyDown(start, a, was, k, skip);
      CopyDone(was, k, skip, j, n);
    }

    method CopyDown(to: Option<Ref>, from: Option<Ref>, ghost was: seq<Word>, ghost k: nat, ghost skip: nat)
      returns (n: Option<Ref>, ghost j: nat)
      requires Copying(was, k, skip, k, to, from)
      modifies this`tables
      ensures Copying(was, k, skip, j, n, None)
    {
      var a := from;
      n, j := to, k;
      while a.Some?
        invariant Copying(was, k, skip, j, n, a)
        decreases |was| - j
      {
        n, a := CopyOne(n, a, was, k, skip, j);
        j := j + 1;
      }
    }

    /** Copies one element to another, and steps on from both. */
    method CopyOne(to: Option<Ref>, from: Option<Ref>, ghost was: seq<Word>, ghost k: nat, ghost skip: nat, ghost j: nat)
      returns (next: Option<Ref>, ahead: Option<Ref>)
      requires from.Some? && Copying(was, k, skip, j, to, from)
      modifies this`tables
      ensures Copying(was, k, skip, j + 1, next, ahead)
    {
      EndsAt(j);
      EndsAt(j + skip);
      CopiedNext(was, k, skip, j, j + skip);
      var w, a := Read(from.value, j + skip);
      var _, n := Read(to.value, j);
      Put(to.value, w, j);
      next, ahead := n, a;
    }

    method Ahead(start: Option<Ref>, skip: nat, ghost k: nat) returns (a: Option<Ref>)
      requires Valid() && start == At(order, k) && k + skip <= |Words()|
      ensures a == At(order, k + skip)
    {
      a := start;
      var left := skip;
      while left > 0 && a.Some?
        invariant 0 <= left <= skip && a == At(order, k + skip - left)
        decreases left
      {
        var _, next := Read(a.value, k + skip - left);
        a, left := next, left - 1;
      }
      EndsAt(k + skip - left);
      assert left == 0;
    }

    /** do_free. */
    method DoFree(mem: Word) returns (ok: bool)
      requires Valid()
      modifies this`tables
      ensures Valid() && (ok, Words()) == DoneFree(old(Words()), mem)
    {
      if head.None? || mem % 256 != 0 { return false; }
      var p, a, k := FindBlock(mem / 256);
      EndsAt(k);
      if a.None? { return false; }
      var w, _ := Read(a.value, k);
      var live := ReadLive(w);
      if !live { return false; }
      Coalesce(p, a.value, k);
      ok := true;
    }

    method Coalesce(p: Option<Ref>, e: Ref, ghost k: nat)
      requires Valid() && At(order, k) == Some(e) && p == if k == 0 then None else At(order, k - 1)
      modifies this`tables
      ensures Valid() && k < |old(Words())| && Words() == Coalesced(old(Words()), k)
    {
      EndsAt(k);
      CoalescedParts(Words(), k);
      var next, skip := JoinNext(e, k);
      var joined := JoinPrevious(p, e, k);
      var n := if joined then Some(e) else next;
      if joined { skip := skip + 1; }
      if skip > 0 { CloseGap(n, skip, if joined then k else k + 1); }
    }

    /** iop_heap_free. */
    method Free(mem: Word) returns (r: int)
      requires Valid()
      modifies this
      ensures Valid() && (r, Words()) == AfterFree(old(Words()), mem)
    {
      var ok := DoFree(mem);
      if ok { Maintain(); }
      r := if ok then 0 else -1;
    }

    method PerformOne(call: Call) returns (r: int)
      requires Valid()
      modifies this
      ensures Valid() && (r, Words()) == AfterCall(old(Words()), call)
    {
      match call {
        case Alloc(flags, size, mem) => r := Alloc(flags, size, mem);
        case Free(mem) => r := Free(mem);
      }
    }

    /** iop_heap_init: frees every table, and starts with one that holds the whole arena. */
    method Init()
      requires Valid()
      modifies this
      ensures Valid() && Words() == FreshSlots()
    {
      while head.Some?
        invariant Valid()
        decreases |order|
      {
        Headless(tables, order);
        var next := tables[head.value].next;
        tables, head, order := tables - {head.value}, next, order[1..];
      }
      var t := NewTable();
      Append(t);
      SetLast(t, 0, 0xD00 * 0x20000 + BASE * 2);
    }

    /** The swap loop from slot k on, along the element links. */
    method Insert(start: Option<Ref>, word: Word, ghost k: nat)
      requires Valid() && start == At(order, k)
      modifies this`tables
      ensures Valid() && Words() == Inserted(old(Words()), k, word)
    {
      ghost var goal := Inserted(Words(), k, word);
      var a, i := start, word;
      ghost var n := k;
      while a.Some? && SizeOf(i) > 0
        invariant Valid() && a == At(order, n) && Inserted(Words(), n, i) == goal
        decreases SM_MAX * |order| - n
      {
        InTable(n, |order|);
        LinkNext(tables, order, n);
        WriteSlot(tables, order, n, i);
        var e := a.value;
        ghost var before := Words();
        var tmp := tables[e.table].infos[e.index];
        assert tmp == before[n];
        a := tables[e.table].links[e.index];
        tables := Written(tables, e, i);
        i, n := tmp, n + 1;
      }
      InTable(n, |order|);
    }

    /** One walk along the element links, as every scan of the allocator makes it, meets each slot of
        each table once and in order. */
    method Walk() returns (words: seq<Word>)
      requires Valid()
      ensures words == Words()
    {
      words := [];
      if head.None? { return; }
      var a := Some(Ref(head.value, 0));
      while a.Some?
        invariant |words| <= SM_MAX * |order| && a == At(order, |words|) && words == Words()[..|words|]
        decreases SM_MAX * |order| - |words|
      {
        ghost var k := |words|;
        InTable(k, |order|);
        LinkNext(tables, order, k);
        assert TableLinked(tables, order, k / SM_MAX);
        var e := a.value;
        assert tables[e.table].infos[e.index] == Words()[k];
        words, a := words + [tables[e.table].infos[e.index]], tables[e.table].links[e.index];
      }
      InTable(|words|, |order|);
    }

    /** iop_heap_snapshot_save: the number of tables, then the words table by table. */
    method SnapshotSave() returns (buf: seq<Word>)
      requires Valid() && |order| < 0x1_0000_0000
      ensures buf == [|order|] + Words()
    {
      var count, t := 0, head;
      buf := [];
      while t.Some?
        invariant count <= |order| && buf == Words()[..SM_MAX * count]
        invariant t == if count < |order| then Some(order[count]) else None
        decreases |order| - count
      {
        assert TableLinked(tables, order, count);
        var infos := tables[t.value].infos;
        for i := 0 to SM_MAX
          invariant buf == Words()[..SM_MAX * count + i]
        {
          ElementSlot(tables, order, count, i);
          buf := buf + [infos[i]];
        }
        t, count := tables[t.value].next, count + 1;
      }
      buf := [count] + buf;
    }

    /** iop_heap_snapshot_load: a chain of new tables, stitched as it goes; the one before is leaked. */
    method SnapshotLoad(buf: seq<Word>)
      requires Valid() && buf != [] && |buf| >= 1 + buf[0] * SM_MAX
      modifies this
      ensures Valid() && |order| == buf[0] && Words() == buf[1..1 + buf[0] * SM_MAX]
    {
      head, order := None, [];
      var count := 0;
      while count < buf[0]
        invariant count <= buf[0] && Valid() && |order| == count && Words() == buf[1..1 + count * SM_MAX]
      {
        LoadTable(buf[1 + count * SM_MAX..1 + (count + 1) * SM_MAX]);
        count := count + 1;
      }
    }

    method LoadTable(words: seq<Word>)
      requires Valid() && |words| == SM_MAX
      modifies this
      ensures Valid() && |order| == |old(order)| + 1 && Words() == old(Words()) + words
    {
      var t := NewTable();
      Append(t);
      FillTable(t, words);
    }

    /** Fills the last table. */
    method FillTable(t: nat, words: seq<Word>)
      requires Valid() && order != [] && t == order[|order| - 1] && |words| == SM_MAX
      modifies this`tables
      ensures Valid() && Words() == old(Words())[..|old(Words())| - SM_MAX] + words
    {
      ghost var n, before := SM_MAX * (|order| - 1), Words();
      for i := 0 to SM_MAX
        invariant Valid() && Words() == Overwritten(before, n, words, i)
      {
        SetLast(t, i, words[i]);
      }
      assert Overwritten(before, n, words, SM_MAX) == before[..n] + words;
    }

    method SetLast(t: nat, i: nat, word: Word)
      requires Valid() && order != [] && t == order[|order| - 1] && i < SM_MAX
      modifies this`tables
      ensures Valid() && Words() == old(Words())[SM_MAX * (|order| - 1) + i := word]
    {
      ElementSlot(tables, order, |order| - 1, i);
      WriteSlot(tables, order, SM_MAX * (|order| - 1) + i, word);
      tables := Written(tables, Ref(t, i), word);
    }
  }

  /** The first i of some words written from place n on. */
  ghost function Overwritten(s: seq<Word>, n: nat, words: seq<Word>, i: nat): (r: seq<Word>)
    requires i <= |words| && n + |words| == |s|
    ensures |r| == |s| && forall k | 0 <= k < |s| :: r[k] == if n <= k < n + i then words[k - n] else s[k]
  {
    if i == 0 then s else Overwritten(s, n, words, i - 1)[n + i - 1 := words[i - 1]]
  }

  /** A saved chain and the one rebuilt from it in another place walk alike. */
  method SaveThenLoad(from: Chain, into: Chain)
    requires from.Valid() && into.Valid() && from != into && |from.order| < 0x1_0000_0000
    modifies into
    ensures into.Valid() && into.Words() == from.Words()
  {
    var buf := from.SnapshotSave();
    into.SnapshotLoad(buf);
  }

  /** One walk along the tables is the heap's slots. */
  ghost predicate Same(c: Chain, h: Heap)
    reads c, h
  {
    c.Valid() && Whole(h.slots) && c.Words() == h.slots
  }

  method PerformBoth(c: Chain, h: Heap, call: Call) returns (r: int, t: int)
    requires Same(c, h)
    modifies c, h
    ensures Same(c, h) && r == t && Step(old(LiveSet(h.slots)), call, LiveSet(h.slots))
  {
    r := c.PerformOne(call);
    t := h.PerformOne(call);
  }

  /** The linked tables and the sequence of slots go through any history of calls in lockstep: every
      call returns the same, the walk is the sequence again after it, and its live blocks are those of
      a run on live sets alone. */
  method Lockstep(c: Chain, h: Heap, calls: seq<Call>) returns (rs: seq<int>, ts: seq<int>, ghost lives: seq<set<Block>>)
    requires Same(c, h)
    modifies c, h
    ensures Same(c, h) && rs == ts && |rs| == |calls|
    ensures Run(lives, calls) && lives[0] == old(LiveSet(h.slots)) && lives[|calls|] == LiveSet(h.slots)
  {
    rs, ts, lives := [], [], [LiveSet(h.slots)];
    for i := 0 to |calls|
      invariant Same(c, h) && rs == ts && |rs| == i
      invariant Run(lives, calls[..i]) && lives[0] == old(LiveSet(h.slots)) && lives[i] == LiveSet(h.slots)
    {
      var r, t := PerformBoth(c, h, calls[i]);
      RunGrows(lives, calls[..i], calls[i], LiveSet(h.slots));
      assert calls[..i] + [calls[i]] == calls[..i + 1];
      rs, ts, lives := rs + [r], ts + [t], lives + [LiveSet(h.slots)];
    }
    assert calls[..|calls|] == calls;
  }

  /** From initialisation on. */
  method RunBoth(calls: seq<Call>) returns (rs: seq<int>, ts: seq<int>, ghost lives: seq<set<Block>>)
    ensures rs == ts && |rs| == |calls| && Run(lives, calls) && lives[0] == {}
  {
    var c := new Chain();
    c.Init();
    var h := new Heap();
    rs, ts, lives := Lockstep(c, h, calls);
  }
}
