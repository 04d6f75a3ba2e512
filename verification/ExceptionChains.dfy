/** The IOP kernel's exception priority chains as linked nodes in guest memory: enqueue,
    dequeue, and the dispatcher that walks them. */
module ExceptionChains {
  import opened Words
  import opened Memory
  import opened StatusStack
  import opened D = ExceptionDispatch

  const TABLE_ADDR: Word := 0x100
  const ARRAY_ADDR: Word := 0xE000

  // ---------------------------------------------------------------------------
  // Chains
  // ---------------------------------------------------------------------------

  /** The slot that holds the head of a priority's chain. */
  function Slot(ram: Bytes, p: nat): Word {
    var table := Load(ram, TABLE_ADDR);
    Plus(if table == 0 then ARRAY_ADDR else table, 8 * p)
  }

  function Head(ram: Bytes, p: nat): Word { Load(ram, Slot(ram, p)) }

  function Next(ram: Bytes, node: Word): Word { Load(ram, node) }

  function Second(ram: Bytes, node: Word): Word { Load(ram, Plus(node, 4)) }

  function First(ram: Bytes, node: Word): Word { Load(ram, Plus(node, 8)) }

  /** Guest memory as the dispatcher reads it. */
  function View(ram: Bytes): Links {
    Links((p: nat) => Head(ram, p), (a: Word) => Next(ram, a), (a: Word) => First(ram, a), (a: Word) => Second(ram, a))
  }

  function Enqueue(ram: Bytes, p: nat, node: Word): Bytes {
    if p >= PRIORITIES then ram
    else Store(Store(ram, node, Head(ram, p)), Slot(ram, p), node)
  }

  /** Only the head can be taken out; anything else is left alone. */
  function Dequeue(ram: Bytes, p: nat, node: Word): Bytes {
    if p >= PRIORITIES || Head(ram, p) != node then ram
    else Store(ram, Slot(ram, p), Next(ram, node))
  }

  // ---------------------------------------------------------------------------
  // Enqueue is cons, dequeue of the head undoes it
  // ---------------------------------------------------------------------------

  /** A word at a shares no byte with the table pointer, any other head slot or any link. */
  ghost predicate Free(ram: Bytes, cs: seq<seq<Word>>, a: Word, p: nat)
    requires |cs| == PRIORITIES
  {
    && InRam(ram, a) && Apart(a, TABLE_ADDR)
    && (forall q | 0 <= q < PRIORITIES && q != p :: Apart(a, Slot(ram, q)))
    && (forall q, i | 0 <= q < PRIORITIES && 0 <= i < |cs[q]| :: Apart(a, cs[q][i]))
  }

  lemma {:induction false} ChainKept(ram: Bytes, a: Word, w: Word, head: Word, nodes: seq<Word>)
    requires forall i | 0 <= i < |nodes| :: Apart(a, nodes[i])
    ensures Chain(View(Store(ram, a, w)), head, nodes) == Chain(View(ram), head, nodes)
    decreases |nodes|
  {
    if nodes != [] && head == nodes[0] {
      LoadOther(ram, a, w, nodes[0]);
      ChainKept(ram, a, w, Next(ram, head), nodes[1..]);
    }
  }

  lemma SlotKept(ram: Bytes, a: Word, w: Word, p: nat)
    requires Apart(a, TABLE_ADDR)
    ensures Slot(Store(ram, a, w), p) == Slot(ram, p)
  {
    LoadOther(ram, a, w, TABLE_ADDR);
  }

  /** A write apart from a chain's slot and links leaves that chain alone. */
  lemma OtherChainKept(ram: Bytes, cs: seq<seq<Word>>, a: Word, w: Word, p: nat, q: nat)
    requires |cs| == PRIORITIES && Free(ram, cs, a, p) && q < PRIORITIES && q != p
    requires Chain(View(ram), Head(ram, q), cs[q])
    ensures Chain(View(Store(ram, a, w)), Head(Store(ram, a, w), q), cs[q])
  {
    SlotKept(ram, a, w, q);
    LoadOther(ram, a, w, Slot(ram, q));
    ChainKept(ram, a, w, Head(ram, q), cs[q]);
  }

  /** Redirecting the head of one chain. */
  lemma Relink(ram: Bytes, cs: seq<seq<Word>>, p: nat, head: Word, nodes: seq<Word>)
    requires Chains(View(ram), cs) && p < PRIORITIES && Free(ram, cs, Slot(ram, p), p)
    requires Chain(View(ram), head, nodes) && forall i | 0 <= i < |nodes| :: Apart(Slot(ram, p), nodes[i])
    ensures Chains(View(Store(ram, Slot(ram, p), head)), cs[p := nodes])
  {
    var a := Slot(ram, p);
    var r := Store(ram, a, head);
    forall q | 0 <= q < PRIORITIES ensures Chain(View(r), Head(r, q), cs[p := nodes][q]) {
      if q == p {
        SlotKept(ram, a, head, p);
        LoadStored(ram, a, head);
        ChainKept(ram, a, head, head, nodes);
      } else {
        assert Chain(View(ram), Head(ram, q), cs[q]);
        OtherChainKept(ram, cs, a, head, p, q);
      }
    }
  }

  /** Writing a link outside every chain changes none of them. */
  lemma Unlinked(ram: Bytes, cs: seq<seq<Word>>, a: Word, w: Word)
    requires Chains(View(ram), cs) && Free(ram, cs, a, PRIORITIES)
    ensures Chains(View(Store(ram, a, w)), cs)
    ensures forall q | 0 <= q < PRIORITIES :: Slot(Store(ram, a, w), q) == Slot(ram, q)
  {
    forall q | 0 <= q < PRIORITIES
      ensures Chain(View(Store(ram, a, w)), Head(Store(ram, a, w), q), cs[q])
      ensures Slot(Store(ram, a, w), q) == Slot(ram, q)
    {
      assert Chain(View(ram), Head(ram, q), cs[q]);
      OtherChainKept(ram, cs, a, w, PRIORITIES, q);
      SlotKept(ram, a, w, q);
    }
  }

  /** A node outside every chain, and a head slot that nothing else overlaps. */
  ghost predicate Enqueuable(ram: Bytes, cs: seq<seq<Word>>, p: nat, node: Word)
    requires |cs| == PRIORITIES
  {
    && p < PRIORITIES && node != 0
    && Free(ram, cs, node, PRIORITIES) && Free(ram, cs, Slot(ram, p), p) && Apart(Slot(ram, p), node)
  }

  /** The links of the chains, the head slots, the table pointer and the node do not partly overlap; the
      node may be in a chain already. */
  ghost predicate Laid(ram: Bytes, cs: seq<seq<Word>>, p: nat, node: Word)
    requires |cs| == PRIORITIES
  {
    && p < PRIORITIES && InRam(ram, node) && Apart(node, TABLE_ADDR)
    && (forall q | 0 <= q < PRIORITIES :: Apart(node, Slot(ram, q)))
    && (forall q, i | 0 <= q < PRIORITIES && 0 <= i < |cs[q]| :: cs[q][i] == node || Apart(node, cs[q][i]))
    && Free(ram, cs, Slot(ram, p), p)
  }

  /** Wherever a chain holds the node, it goes on with the nodes of this one. */
  ghost predicate GoesOn(nodes: seq<Word>, node: Word, rest: seq<Word>) {
    forall i | 0 <= i < |nodes| && nodes[i] == node :: nodes[i + 1..] == rest
  }

  /** A head spells out only one chain. */
  lemma {:induction false} OneSpelling(m: Links, head: Word, a: seq<Word>, b: seq<Word>)
    requires Chain(m, head, a) && Chain(m, head, b)
    ensures a == b
    decreases |a|
  {
    if head != 0 { OneSpelling(m, m.next(head), a[1..], b[1..]); }
  }

  lemma {:induction false} Suffix(m: Links, head: Word, nodes: seq<Word>, i: nat)
    requires Chain(m, head, nodes) && i < |nodes|
    ensures Chain(m, m.next(nodes[i]), nodes[i + 1..])
    decreases i
  {
    if i > 0 {
      Suffix(m, m.next(head), nodes[1..], i - 1);
      assert nodes[1..][i..] == nodes[i + 1..];
    }
  }

  /** A chain that goes on with rest behind the node, when its link is made to lead there. */
  lemma {:induction false} Redirected(ram: Bytes, node: Word, to: Word, rest: seq<Word>, head: Word, nodes: seq<Word>)
    requires InRam(ram, node) && forall i | 0 <= i < |nodes| :: nodes[i] == node || Apart(node, nodes[i])
    requires Chain(View(ram), head, nodes) && GoesOn(nodes, node, rest)
    requires Chain(View(Store(ram, node, to)), to, rest)
    ensures Chain(View(Store(ram, node, to)), head, nodes)
    decreases |nodes|
  {
    if nodes != [] {
      if nodes[0] == node {
        LoadStored(ram, node, to);
      } else {
        LoadOther(ram, node, to, nodes[0]);
        assert forall i | 0 <= i < |nodes[1..]| :: nodes[1..][i] == nodes[i + 1] && nodes[1..][i + 1..] == nodes[i + 2..];
        Redirected(ram, node, to, rest, Next(ram, head), nodes[1..]);
      }
    }
  }

  /** Enqueue is cons on one chain and leaves the others alone, exactly if the node is not null and
      every chain it is in already goes on behind it as that chain does. A node that is in the chain
      itself never does. */
  lemma EnqueueConsIff(ram: Bytes, cs: seq<seq<Word>>, p: nat, node: Word)
    requires Chains(View(ram), cs) && Laid(ram, cs, p, node)
    ensures Chains(View(Enqueue(ram, p, node)), cs[p := [node] + cs[p]]) <==>
            node != 0 && forall q | 0 <= q < PRIORITIES :: GoesOn(cs[q], node, cs[p])
  {
    if node != 0 && forall q | 0 <= q < PRIORITIES :: GoesOn(cs[q], node, cs[p]) {
      EnqueueCons(ram, cs, p, node);
    } else if Chains(View(Enqueue(ram, p, node)), cs[p := [node] + cs[p]]) {
      ConsSpelled(ram, cs, p, node, p);
      forall q | 0 <= q < PRIORITIES ensures GoesOn(cs[q], node, cs[p]) { OnlyCons(ram, cs, p, node, q); }
    }
  }

  /** The node's link leads to the old head, and slots stay where they are. */
  lemma Enqueued(ram: Bytes, cs: seq<seq<Word>>, p: nat, node: Word, q: nat)
    requires |cs| == PRIORITIES && Laid(ram, cs, p, node) && q < PRIORITIES
    ensures var linked, head := Store(ram, node, Head(ram, p)), Head(ram, p);
            && Slot(linked, q) == Slot(ram, q) && Head(linked, q) == Head(ram, q) && Next(linked, node) == head
            && Slot(Enqueue(ram, p, node), q) == Slot(ram, q) && Next(Enqueue(ram, p, node), node) == head
            && Head(Enqueue(ram, p, node), q) == if q == p then node else Head(ram, q)
  {
    var head, slot := Head(ram, p), Slot(ram, p);
    var linked := Store(ram, node, head);
    SlotKept(ram, node, head, q);
    LoadOther(ram, node, head, Slot(ram, q));
    LoadStored(ram, node, head);
    SlotKept(linked, slot, node, q);
    LoadOther(linked, slot, node, node);
    if q == p { LoadStored(linked, slot, node); } else { LoadOther(linked, slot, node, Slot(ram, q)); }
  }

  lemma EnqueueCons(ram: Bytes, cs: seq<seq<Word>>, p: nat, node: Word)
    requires Chains(View(ram), cs) && Laid(ram, cs, p, node) && node != 0
    requires forall q | 0 <= q < PRIORITIES :: GoesOn(cs[q], node, cs[p])
    ensures Chains(View(Enqueue(ram, p, node)), cs[p := [node] + cs[p]])
  {
    var head, nodes := Head(ram, p), [node] + cs[p];
    var linked := Store(ram, node, head);
    assert GoesOn(cs[p], node, cs[p]) && Chain(View(ram), head, cs[p]);
    NotOnItself(cs[p], node);
    ChainKept(ram, node, head, head, cs[p]);
    forall q | 0 <= q < PRIORITIES
      ensures Chain(View(linked), Head(linked, q), cs[q]) && Slot(linked, q) == Slot(ram, q)
    {
      Enqueued(ram, cs, p, node, q);
      assert Chain(View(ram), Head(ram, q), cs[q]) && GoesOn(cs[q], node, cs[p]);
      Redirected(ram, node, head, cs[p], Head(ram, q), cs[q]);
    }
    Enqueued(ram, cs, p, node, p);
    assert nodes[1..] == cs[p];
    Relink(linked, cs, p, node, nodes);
  }

  lemma NotOnItself(nodes: seq<Word>, node: Word)
    requires GoesOn(nodes, node, nodes)
    ensures node !in nodes
  {
    if i: nat :| i < |nodes| && nodes[i] == node { assert false; }
  }

  /** If an enqueue was cons, every old chain is still spelled out from its old head. */
  lemma ConsSpelled(ram: Bytes, cs: seq<seq<Word>>, p: nat, node: Word, q: nat)
    requires |cs| == PRIORITIES && Laid(ram, cs, p, node) && q < PRIORITIES
    requires Chains(View(Enqueue(ram, p, node)), cs[p := [node] + cs[p]])
    ensures Chain(View(Enqueue(ram, p, node)), Head(ram, q), cs[q]) && node != 0
  {
    var r, longer := Enqueue(ram, p, node), [node] + cs[p];
    Enqueued(ram, cs, p, node, q);
    Enqueued(ram, cs, p, node, p);
    assert Chain(View(r), View(r).head(p), cs[p := longer][p]) && longer[1..] == cs[p];
    assert Chain(View(r), View(r).head(q), cs[p := longer][q]);
  }

  lemma OnlyCons(ram: Bytes, cs: seq<seq<Word>>, p: nat, node: Word, q: nat)
    requires |cs| == PRIORITIES && Laid(ram, cs, p, node) && q < PRIORITIES
    requires Chains(View(Enqueue(ram, p, node)), cs[p := [node] + cs[p]])
    ensures GoesOn(cs[q], node, cs[p])
  {
    ConsSpelled(ram, cs, p, node, p);
    ConsSpelled(ram, cs, p, node, q);
    Enqueued(ram, cs, p, node, p);
    Following(View(Enqueue(ram, p, node)), Head(ram, q), cs[q], node, cs[p]);
  }

  /** In a memory that spells out both, a chain goes on behind a node with what its link spells out. */
  lemma Following(m: Links, head: Word, nodes: seq<Word>, node: Word, rest: seq<Word>)
    requires Chain(m, head, nodes) && Chain(m, m.next(node), rest)
    ensures GoesOn(nodes, node, rest)
  {
    forall i | 0 <= i < |nodes| && nodes[i] == node ensures nodes[i + 1..] == rest {
      Suffix(m, head, nodes, i);
      OneSpelling(m, m.next(node), nodes[i + 1..], rest);
    }
  }

  /** A head slot that nothing else overlaps. */
  ghost predicate Dequeuable(ram: Bytes, cs: seq<seq<Word>>, p: nat)
    requires |cs| == PRIORITIES
  {
    p < PRIORITIES && Free(ram, cs, Slot(ram, p), p)
  }

  /** A chain without a node, if that is its head. */
  function Tail(nodes: seq<Word>, node: Word): seq<Word> { if nodes != [] && nodes[0] == node then nodes[1..] else nodes }

  /** Dequeue of the head is tail on its chain. */
  lemma DequeueHead(ram: Bytes, cs: seq<seq<Word>>, p: nat)
    requires Chains(View(ram), cs) && Dequeuable(ram, cs, p) && cs[p] != []
    ensures Chains(View(Dequeue(ram, p, cs[p][0])), cs[p := cs[p][1..]])
  {
    assert Chain(View(ram), Head(ram, p), cs[p]);
    Relink(ram, cs, p, Next(ram, cs[p][0]), cs[p][1..]);
  }

  /** Dequeue of node zero from an empty chain takes the word at address zero for a link. */
  lemma DequeueNull(ram: Bytes, cs: seq<seq<Word>>, p: nat)
    requires Chains(View(ram), cs) && Dequeuable(ram, cs, p) && cs[p] == []
    ensures Chains(View(Dequeue(ram, p, 0)), cs) <==> Next(ram, 0) == 0
  {
    var slot, next := Slot(ram, p), Next(ram, 0);
    assert Chain(View(ram), Head(ram, p), cs[p]);
    if next == 0 {
      Relink(ram, cs, p, 0, []);
      assert cs[p := []] == cs;
    } else {
      SlotKept(ram, slot, next, p);
      LoadStored(ram, slot, next);
      assert !Chain(View(Dequeue(ram, p, 0)), Head(Dequeue(ram, p, 0), p), cs[p]);
    }
  }

  /** Any other node changes no memory. */
  lemma DequeueOther(ram: Bytes, cs: seq<seq<Word>>, p: nat, node: Word)
    requires Chains(View(ram), cs) && p < PRIORITIES && (if cs[p] == [] then node != 0 else node != cs[p][0])
    ensures Dequeue(ram, p, node) == ram
  {
    assert Chain(View(ram), Head(ram, p), cs[p]);
  }

  predicate TakesNull(ram: Bytes, nodes: seq<Word>, node: Word) { nodes == [] && node == 0 && Next(ram, 0) != 0 }

  /** Dequeue takes the node off its chain if it is the head, and leaves all chains alone if it is
      not, exactly unless node zero is taken from an empty chain with a word other than zero at
      address zero. */
  lemma DequeueTailIff(ram: Bytes, cs: seq<seq<Word>>, p: nat, node: Word)
    requires Chains(View(ram), cs) && Dequeuable(ram, cs, p)
    ensures Chains(View(Dequeue(ram, p, node)), cs[p := Tail(cs[p], node)]) <==> !TakesNull(ram, cs[p], node)
  {
    assert Tail(cs[p], node) == cs[p] ==> cs[p := Tail(cs[p], node)] == cs;
    if cs[p] != [] && node == cs[p][0] {
      DequeueHead(ram, cs, p);
    } else if cs[p] == [] && node == 0 {
      DequeueNull(ram, cs, p);
    } else {
      DequeueOther(ram, cs, p, node);
    }
  }

  /** Dequeuing a node just enqueued restores memory, but for the node's own link. */
  lemma DequeueUndoes(ram: Bytes, cs: seq<seq<Word>>, p: nat, node: Word)
    requires Chains(View(ram), cs) && Enqueuable(ram, cs, p, node)
    ensures Dequeue(Enqueue(ram, p, node), p, node) == Store(ram, node, Head(ram, p))
    ensures Chains(View(Dequeue(Enqueue(ram, p, node), p, node)), cs)
  {
    var slot, head := Slot(ram, p), Head(ram, p);
    var linked := Store(ram, node, head);
    var queued := Store(linked, slot, node);
    SlotKept(ram, node, head, p);
    SlotKept(linked, slot, node, p);
    LoadStored(linked, slot, node);
    LoadStored(ram, node, head);
    LoadOther(linked, slot, node, node);
    LoadOther(ram, node, head, slot);
    WriteTwice(linked, Place(slot), node, head);
    WriteBack(linked, Place(slot));
    Unlinked(ram, cs, node, head);
  }

  // ---------------------------------------------------------------------------
  // The kernel
  // ---------------------------------------------------------------------------

  class Kernel {
    var ram: Bytes
    var cpu: Cpu
    var d: Dispatch

    constructor (ram: Bytes, cpu: Cpu, d: Dispatch)
      ensures this.ram == ram && this.cpu == cpu && this.d == d
    {
      this.ram, this.cpu, this.d := ram, cpu, d;
    }

    ghost function Snapshot(): State
      reads this
    {
      State(View(ram), cpu, d)
    }

    method SysEnqIntRP(p: nat, node: Word)
      modifies this`ram
      ensures ram == Enqueue(old(ram), p, node)
      ensures forall cs | Chains(View(old(ram)), cs) && Laid(old(ram), cs, p, node) ::
                Chains(View(ram), cs[p := [node] + cs[p]]) <==>
                node != 0 && forall q | 0 <= q < PRIORITIES :: GoesOn(cs[q], node, cs[p])
    {
      forall cs | Chains(View(ram), cs) && Laid(ram, cs, p, node)
        ensures Chains(View(Enqueue(ram, p, node)), cs[p := [node] + cs[p]]) <==>
                node != 0 && forall q | 0 <= q < PRIORITIES :: GoesOn(cs[q], node, cs[p])
      {
        EnqueueConsIff(ram, cs, p, node);
      }
      if p >= PRIORITIES { return; }
      var slot := Slot(ram, p);
      var head := Load(ram, slot);
      ram := Store(ram, node, head);
      ram := Store(ram, slot, node);
    }

    method SysDeqIntRP(p: nat, node: Word)
      modifies this`ram
      ensures ram == Dequeue(old(ram), p, node)
      ensures forall cs | Chains(View(old(ram)), cs) && Dequeuable(old(ram), cs, p) ::
                Chains(View(ram), cs[p := Tail(cs[p], node)]) <==> !TakesNull(old(ram), cs[p], node)
    {
      forall cs | Chains(View(ram), cs) && Dequeuable(ram, cs, p)
        ensures Chains(View(Dequeue(ram, p, node)), cs[p := Tail(cs[p], node)]) <==> !TakesNull(ram, cs[p], node)
      {
        DequeueTailIff(ram, cs, p, node);
      }
      if p >= PRIORITIES { return; }
      var slot := Slot(ram, p);
      if Load(ram, slot) == node { ram := Store(ram, slot, Load(ram, node)); }
    }

    /** The first non-empty chain at or after a priority. */
    method FindNextChain(start: nat) returns (found: bool, p: nat, node: Word)
      ensures found == (NextChain(View(ram), start) < PRIORITIES)
      ensures found ==> p == NextChain(View(ram), start) && node == Head(ram, p) != 0
    {
      p := start;
      while p < PRIORITIES
        invariant NextChain(View(ram), p) == NextChain(View(ram), start)
      {
        node := Load(ram, Slot(ram, p));
        if node != 0 { return true, p, node; }
        p := p + 1;
      }
      return false, 0, 0;
    }

    method EnterNodeFunction(p: nat, node: Word, second: bool)
      modifies this`cpu, this`d
      ensures Snapshot() == Enter(old(Snapshot()), p, node, second)
    {
      var f := if second then Second(ram, node) else First(ram, node);
      d := d.(second := second, priority := p, node := node);
      cpu := cpu.(ra := TRAMPOLINE, pc := f, next := Plus(f, 4));
    }

    method AdvanceAndEnter() returns (entered: bool)
      modifies this`cpu, this`d
      ensures (entered, Snapshot()) == Advance(old(Snapshot()))
    {
      if !d.second {
        var f := Second(ram, d.node);
        if f != 0 {
          EnterNodeFunction(d.priority, d.node, true);
          return true;
        }
      }
      var next := Next(ram, d.node);
      if next != 0 {
        EnterNodeFunction(d.priority, next, false);
        return true;
      }
      var found, p, node := FindNextChain(d.priority + 1);
      if found { EnterNodeFunction(p, node, false); }
      return found;
    }

    /** False when every chain is empty; the caller then vectors as usual. */
    method DispatchInterrupt(irq: nat) returns (taken: bool)
      modifies this`cpu, this`d
      ensures (taken, Snapshot()) == Interrupt(old(Snapshot()), irq)
    {
      var found, p, node := FindNextChain(0);
      if !found { return false; }
      d := d.(active := true, irq := irq, epc := cpu.epc);
      EnterNodeFunction(p, node, false);
      return true;
    }

    /** Handles a fetch from the trampoline while a dispatch is under way. */
    method TryHandle(pc: Word) returns (handled: bool)
      modifies this`cpu, this`d
      ensures pc != TRAMPOLINE ==> !handled && Snapshot() == old(Snapshot())
      ensures pc == TRAMPOLINE ==> (handled, Snapshot()) == Return(old(Snapshot()))
    {
      if pc != TRAMPOLINE || !d.active { return false; }
      if cpu.v0 == 0 {
        var status := PopStatus(cpu.status);
        cpu := cpu.(pending := cpu.pending - {d.irq}, status := status);
        cpu := cpu.(pc := d.epc, next := Plus(d.epc, 4));
        d := d.(active := false);
        return true;
      }
      var entered := AdvanceAndEnter();
      if entered { return true; }
      var vector := DefaultVector(cpu.status);
      cpu := cpu.(pc := vector, next := Plus(vector, 4));
      d := d.(active := false);
      return true;
    }
  }
}
