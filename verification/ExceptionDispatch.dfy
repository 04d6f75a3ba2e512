/** Dispatch over the exception priority chains: the resumable walk that offers an interrupt
    to one handler function after another, in the flattened order of the chains. */
module ExceptionDispatch {
  import opened Words
  import opened StatusStack
  import Bitwise

  const TRAMPOLINE: Word := 0xF0
  const PRIORITIES := 4

  /** What the walk reads of guest memory: chain heads, links and the two functions of a node. */
  datatype Links = Links(head: nat -> Word, next: Word -> Word, first: Word -> Word, second: Word -> Word)

  /** The links from head spell out nodes and end. */
  predicate Chain(m: Links, head: Word, nodes: seq<Word>)
    decreases |nodes|
  {
    if nodes == [] then head == 0
    else head != 0 && head == nodes[0] && Chain(m, m.next(head), nodes[1..])
  }

  predicate Chains(m: Links, cs: seq<seq<Word>>) {
    |cs| == PRIORITIES && forall p | 0 <= p < PRIORITIES :: Chain(m, m.head(p), cs[p])
  }

  // ---------------------------------------------------------------------------
  // Dispatch
  // ---------------------------------------------------------------------------

  datatype Cpu = Cpu(pc: Word, next: Word, ra: Word, v0: Word, status: Word, epc: Word, pending: set<nat>)

  datatype Dispatch = Dispatch(active: bool, second: bool, priority: nat, node: Word, irq: nat, epc: Word)

  datatype State = State(links: Links, cpu: Cpu, d: Dispatch)

  function Jump(c: Cpu, target: Word): Cpu { c.(pc := target, next := Plus(target, 4)) }

  function Enter(s: State, p: nat, node: Word, second: bool): State {
    var f := if second then s.links.second(node) else s.links.first(node);
    s.(cpu := Jump(s.cpu.(ra := TRAMPOLINE), f), d := s.d.(second := second, priority := p, node := node))
  }

  /** The first non-empty chain at or after a priority. */
  function NextChain(m: Links, p: nat): (r: nat)
    ensures r <= PRIORITIES
    decreases PRIORITIES - p
  {
    if p >= PRIORITIES then PRIORITIES else if m.head(p) != 0 then p else NextChain(m, p + 1)
  }

  function FindChain(s: State, p: nat): (bool, State) {
    var r := NextChain(s.links, p);
    if r == PRIORITIES then (false, s) else (true, Enter(s, r, s.links.head(r), false))
  }

  /** On to the next candidate: second function, next node, next chain. */
  function Advance(s: State): (bool, State) {
    if !s.d.second && s.links.second(s.d.node) != 0 then (true, Enter(s, s.d.priority, s.d.node, true))
    else if s.links.next(s.d.node) != 0 then (true, Enter(s, s.d.priority, s.links.next(s.d.node), false))
    else FindChain(s, s.d.priority + 1)
  }

  /** Offers an interrupt to the first candidate, if there is one. */
  function Interrupt(s: State, irq: nat): (bool, State) {
    var a := s.(d := s.d.(active := true, irq := irq, epc := s.cpu.epc));
    if FindChain(a, 0).0 then FindChain(a, 0) else (false, s)
  }

  function Claimed(s: State): State {
    var c := s.cpu.(pending := s.cpu.pending - {s.d.irq}, status := Popped(s.cpu.status));
    s.(cpu := Jump(c, s.d.epc), d := s.d.(active := false))
  }

  function Exhausted(s: State): State {
    s.(cpu := Jump(s.cpu, Vector(s.cpu.status)), d := s.d.(active := false))
  }

  /** A handler function has returned to the trampoline; zero in v0 claims the interrupt. */
  function Return(s: State): (bool, State) {
    if !s.d.active then (false, s)
    else if s.cpu.v0 == 0 then (true, Claimed(s))
    else
      var (entered, r) := Advance(s);
      (true, if entered then r else Exhausted(s))
  }

  // ---------------------------------------------------------------------------
  // The flattened order
  // ---------------------------------------------------------------------------

  datatype Candidate = Candidate(priority: nat, node: Word, second: bool)

  /** A node's second function, unless it is null. */
  function Seconds(m: Links, p: nat, node: Word): seq<Candidate> {
    if m.second(node) != 0 then [Candidate(p, node, true)] else []
  }

  function OfNodes(m: Links, p: nat, nodes: seq<Word>): seq<Candidate> {
    if nodes == [] then [] else [Candidate(p, nodes[0], false)] + (Seconds(m, p, nodes[0]) + OfNodes(m, p, nodes[1..]))
  }

  /** Priority ascending, list order within a chain, first function before a second. */
  function Order(m: Links, cs: seq<seq<Word>>, p: nat): seq<Candidate>
    requires |cs| == PRIORITIES && p <= PRIORITIES
    decreases PRIORITIES - p
  {
    if p == PRIORITIES then [] else OfNodes(m, p, cs[p]) + Order(m, cs, p + 1)
  }

  function Target(m: Links, c: Candidate): Word { if c.second then m.second(c.node) else m.first(c.node) }

  function Current(d: Dispatch): Candidate { Candidate(d.priority, d.node, d.second) }

  /** What is still to come, given the nodes after the current one. */
  function Remaining(m: Links, cs: seq<seq<Word>>, d: Dispatch, tail: seq<Word>): seq<Candidate>
    requires |cs| == PRIORITIES && d.priority < PRIORITIES
  {
    (if d.second then [] else Seconds(m, d.priority, d.node))
    + (OfNodes(m, d.priority, tail) + Order(m, cs, d.priority + 1))
  }

  /** A dispatch under way, with tail the nodes after the current one in its chain. */
  ghost predicate Underway(s: State, cs: seq<seq<Word>>, tail: seq<Word>) {
    Chains(s.links, cs) && s.d.active && s.d.priority < PRIORITIES && Chain(s.links, s.links.next(s.d.node), tail)
  }

  /** The CPU is at the start of the current candidate's function, to return to the trampoline. */
  ghost predicate Entered(s: State) {
    && s.cpu.pc == Target(s.links, Current(s.d)) && s.cpu.next == Plus(s.cpu.pc, 4)
    && s.cpu.ra == TRAMPOLINE
  }

  /** Empty chains contribute no candidates. */
  lemma {:induction false} SkipEmpty(m: Links, cs: seq<seq<Word>>, p: nat)
    requires Chains(m, cs) && p <= PRIORITIES
    ensures Order(m, cs, p) == Order(m, cs, NextChain(m, p))
    ensures NextChain(m, p) < PRIORITIES ==> cs[NextChain(m, p)] != []
    decreases PRIORITIES - p
  {
    if p < PRIORITIES && m.head(p) == 0 {
      SkipEmpty(m, cs, p + 1);
      assert Chain(m, m.head(p), cs[p]);
      assert OfNodes(m, p, cs[p]) + Order(m, cs, p + 1) == Order(m, cs, p + 1);
    } else if p < PRIORITIES {
      assert Chain(m, m.head(p), cs[p]);
    }
  }

  lemma NodeFirst(m: Links, p: nat, nodes: seq<Word>, rest: seq<Candidate>)
    requires nodes != []
    ensures var order := OfNodes(m, p, nodes) + rest;
            && order != [] && order[0] == Candidate(p, nodes[0], false)
            && order[1..] == Seconds(m, p, nodes[0]) + (OfNodes(m, p, nodes[1..]) + rest)
  {
    Regroup([Candidate(p, nodes[0], false)], Seconds(m, p, nodes[0]), OfNodes(m, p, nodes[1..]), rest);
  }

  lemma Regroup<T>(a: seq<T>, b: seq<T>, c: seq<T>, d: seq<T>)
    ensures a + (b + c) + d == a + (b + (c + d))
  {}

  /** The dispatch has moved from s to r, taking the first of the candidates to come. */
  ghost predicate Takes(s: State, r: State, cs: seq<seq<Word>>, tail: seq<Word>, order: seq<Candidate>) {
    && order != [] && Underway(r, cs, tail) && Entered(r)
    && r.links == s.links && r.d.irq == s.d.irq && r.d.epc == s.d.epc
    && Current(r.d) == order[0] && Remaining(r.links, cs, r.d, tail) == order[1..]
  }

  lemma EnterFirst(s: State, cs: seq<seq<Word>>, p: nat, nodes: seq<Word>)
    requires Chains(s.links, cs) && s.d.active && p < PRIORITIES
    requires nodes != [] && Chain(s.links, nodes[0], nodes)
    ensures Takes(s, Enter(s, p, nodes[0], false), cs, nodes[1..], OfNodes(s.links, p, nodes) + Order(s.links, cs, p + 1))
  {
    NodeFirst(s.links, p, nodes, Order(s.links, cs, p + 1));
  }

  lemma EnterSecond(s: State, cs: seq<seq<Word>>, tail: seq<Word>)
    requires Underway(s, cs, tail) && !s.d.second && s.links.second(s.d.node) != 0
    ensures Takes(s, Enter(s, s.d.priority, s.d.node, true), cs, tail, Remaining(s.links, cs, s.d, tail))
  {
    var later := OfNodes(s.links, s.d.priority, tail) + Order(s.links, cs, s.d.priority + 1);
    assert [] + later == later;
  }

  /** Starting on the chains from a priority on. */
  lemma ChainEntered(s: State, cs: seq<seq<Word>>, p: nat) returns (t: seq<Word>)
    requires Chains(s.links, cs) && s.d.active && p <= PRIORITIES
    ensures Steps(s, FindChain(s, p), cs, t, Order(s.links, cs, p))
  {
    t := [];
    SkipEmpty(s.links, cs, p);
    var q := NextChain(s.links, p);
    if q < PRIORITIES {
      assert Chain(s.links, s.links.head(q), cs[q]);
      EnterFirst(s, cs, q, cs[q]);
      t := cs[q][1..];
    }
  }

  /** Where Advance goes from a node that has nothing more to offer. */
  lemma AdvanceDone(s: State, tail: seq<Word>)
    requires Chain(s.links, s.links.next(s.d.node), tail) && (s.d.second || s.links.second(s.d.node) == 0)
    ensures tail != [] ==> Chain(s.links, tail[0], tail) && Advance(s) == (true, Enter(s, s.d.priority, tail[0], false))
    ensures tail == [] ==> Advance(s) == FindChain(s, s.d.priority + 1)
  {}

  /** What Advance is to do: enter the first of order, or report that there is none. */
  ghost predicate Steps(s: State, o: (bool, State), cs: seq<seq<Word>>, t: seq<Word>, order: seq<Candidate>) {
    o.0 == (order != []) && (o.0 ==> Takes(s, o.1, cs, t, order))
  }

  /** With the current node done, the next node of its chain or the next chain. */
  lemma NodeDone(s: State, cs: seq<seq<Word>>, tail: seq<Word>, later: seq<Candidate>) returns (t: seq<Word>)
    requires Underway(s, cs, tail) && (s.d.second || s.links.second(s.d.node) == 0)
    requires later == OfNodes(s.links, s.d.priority, tail) + Order(s.links, cs, s.d.priority + 1)
    ensures Steps(s, Advance(s), cs, t, later)
  {
    AdvanceDone(s, tail);
    if tail != [] {
      EnterFirst(s, cs, s.d.priority, tail);
      t := tail[1..];
    } else {
      assert later == Order(s.links, cs, s.d.priority + 1);
      t := ChainEntered(s, cs, s.d.priority + 1);
    }
  }

  /** Advancing takes the next of the remaining candidates, or finds there is none. */
  lemma AdvanceStep(s: State, cs: seq<seq<Word>>, tail: seq<Word>) returns (t: seq<Word>)
    requires Underway(s, cs, tail)
    ensures Steps(s, Advance(s), cs, t, Remaining(s.links, cs, s.d, tail))
  {
    if !s.d.second && s.links.second(s.d.node) != 0 {
      EnterSecond(s, cs, tail);
      t := tail;
    } else {
      t := NodeDone(s, cs, tail, Remaining(s.links, cs, s.d, tail));
    }
  }

  // ---------------------------------------------------------------------------
  // Whole runs
  // ---------------------------------------------------------------------------

  /** The dispatch under a sequence of answers. An answer is the CPU as the handler leaves it;
      handlers do not change the chains. */
  function Serve(s: State, answers: seq<Cpu>): State
    decreases |answers|
  {
    if answers == [] then s else Serve(Return(s.(cpu := answers[0])).1, answers[1..])
  }

  lemma {:induction false} ServeConcat(s: State, a: seq<Cpu>, b: seq<Cpu>)
    ensures Serve(s, a + b) == Serve(Serve(s, a), b)
    decreases |a|
  {
    if a == [] {
      assert a + b == b;
    } else {
      assert (a + b)[1..] == a[1..] + b;
      ServeConcat(Return(s.(cpu := a[0])).1, a[1..], b);
    }
  }

  predicate AllDecline(answers: seq<Cpu>) { forall i | 0 <= i < |answers| :: answers[i].v0 != 0 }

  /** k refusals move the dispatch k candidates on. */
  lemma {:induction false} Declined(s: State, cs: seq<seq<Word>>, tail: seq<Word>, answers: seq<Cpu>)
    returns (t: seq<Word>)
    requires Underway(s, cs, tail) && AllDecline(answers)
    requires 1 <= |answers| <= |Remaining(s.links, cs, s.d, tail)|
    ensures Takes(s, Serve(s, answers), cs, t, Remaining(s.links, cs, s.d, tail)[|answers| - 1..])
    decreases |answers|
  {
    var a, rest := s.(cpu := answers[0]), Remaining(s.links, cs, s.d, tail);
    t := AdvanceStep(a, cs, tail);
    if |answers| > 1 {
      var r := Return(a).1;
      assert rest[1..][|answers| - 2..] == rest[|answers| - 1..];
      t := Declined(r, cs, t, answers[1..]);
    } else {
      assert rest[0..] == rest;
    }
  }

  /** With every chain empty an interrupt is left to the caller; otherwise the first
      candidate runs, and after k refusals candidate k of the flattened order does. */
  lemma {:induction false} Offered(s: State, irq: nat, cs: seq<seq<Word>>, answers: seq<Cpu>) returns (t: seq<Word>)
    requires Chains(s.links, cs) && AllDecline(answers)
    ensures var order := Order(s.links, cs, 0);
            && Interrupt(s, irq).0 == (order != [])
            && (order == [] ==> Interrupt(s, irq).1 == s)
            && (|answers| < |order| ==>
                  var a := s.(d := s.d.(active := true, irq := irq, epc := s.cpu.epc));
                  Takes(a, Serve(Interrupt(s, irq).1, answers), cs, t, order[|answers|..]))
  {
    var a, order := s.(d := s.d.(active := true, irq := irq, epc := s.cpu.epc)), Order(s.links, cs, 0);
    t := ChainEntered(a, cs, 0);
    if |answers| < |order| {
      assert order[0..] == order;
      if answers != [] {
        assert order[1..][|answers| - 1..] == order[|answers|..];
        t := Declined(Interrupt(s, irq).1, cs, t, answers);
      }
    }
  }

  /** The first claim ends the dispatch: the program resumes where it was interrupted, that one
      interrupt is acknowledged, and the status stack moves down, to where it was before the exception
      if the handlers left it alone. */
  lemma {:induction false} ClaimEnds(s: State, irq: nat, cs: seq<seq<Word>>, answers: seq<Cpu>, claim: Cpu)
    requires Chains(s.links, cs) && AllDecline(answers) && |answers| < |Order(s.links, cs, 0)|
    requires claim.v0 == 0
    ensures var r := Serve(Interrupt(s, irq).1, answers + [claim]);
            && r.cpu == claim.(pc := s.cpu.epc, next := Plus(s.cpu.epc, 4), status := r.cpu.status,
                               pending := claim.pending - {irq})
            && MovedDown(claim.status, r.cpu.status)
            && (forall before: Word | Untouched(before, claim.status) :: Restored(before, r.cpu.status))
            && r.links == s.links && !r.d.active
  {
    var _ := Offered(s, irq, cs, answers);
    var r := Serve(Interrupt(s, irq).1, answers);
    ServeConcat(Interrupt(s, irq).1, answers, [claim]);
    assert Serve(r, [claim]) == Return(r.(cpu := claim)).1;
    PopMovesDown(claim.status);
    PopUndoesPush(claim.status);
  }

  /** A refusal by the last candidate. */
  lemma LastRefusal(s: State, cs: seq<seq<Word>>, tail: seq<Word>, answer: Cpu)
    requires Underway(s, cs, tail) && Remaining(s.links, cs, s.d, tail) == [] && answer.v0 != 0
    ensures Serve(s, [answer]) == Exhausted(s.(cpu := answer))
  {
    var a := s.(cpu := answer);
    var _ := AdvanceStep(a, cs, tail);
    assert Serve(s, [answer]) == Return(a).1;
  }

  lemma ToVector(s: State)
    ensures Exhausted(s) == s.(d := s.d.(active := false), cpu := Defaulted(s.cpu))
  {
    VectorBit(s.cpu.status);
  }

  /** At the default vector, by bit 22 of the status. */
  function Defaulted(c: Cpu): Cpu {
    if Bitwise.Bit(c.status, 22) then c.(pc := 0xBFC0_0180, next := 0xBFC0_0184) else c.(pc := 0x8000_0080, next := 0x8000_0084)
  }

  /** When every candidate refuses, the last refusal goes to the default vector with the
      interrupt still pending and the status stack untouched. */
  lemma {:induction false} NobodyClaims(s: State, irq: nat, cs: seq<seq<Word>>, answers: seq<Cpu>)
    requires Chains(s.links, cs) && AllDecline(answers) && answers != [] && |answers| == |Order(s.links, cs, 0)|
    ensures var r, last := Serve(Interrupt(s, irq).1, answers), answers[|answers| - 1];
            && r.cpu == Defaulted(last)
            && r.links == s.links && !r.d.active
  {
    var m := |answers| - 1;
    var i := Interrupt(s, irq).1;
    var t := Refused(s, irq, cs, answers[..m], i);
    ServeConcat(i, answers[..m], [answers[m]]);
    assert answers[..m] + [answers[m]] == answers;
    LastRefusal(Serve(i, answers[..m]), cs, t, answers[m]);
    ToVector(Serve(i, answers[..m]).(cpu := answers[m]));
  }

  /** All but the last candidate have refused. */
  lemma Refused(s: State, irq: nat, cs: seq<seq<Word>>, answers: seq<Cpu>, i: State) returns (t: seq<Word>)
    requires Chains(s.links, cs) && AllDecline(answers) && |answers| + 1 == |Order(s.links, cs, 0)|
    requires i == Interrupt(s, irq).1
    ensures var r := Serve(i, answers);
            Underway(r, cs, t) && Remaining(r.links, cs, r.d, t) == [] && r.links == s.links
  {
    t := Offered(s, irq, cs, answers);
  }

  /** A finished dispatch stays finished. */
  lemma {:induction false} StaysDone(s: State, answers: seq<Cpu>)
    requires !s.d.active
    ensures !Serve(s, answers).d.active
    decreases |answers|
  {
    if answers != [] { StaysDone(Return(s.(cpu := answers[0])).1, answers[1..]); }
  }

  lemma {:induction false} DonePrefix(s: State, answers: seq<Cpu>, m: nat)
    requires m <= |answers| && !Serve(s, answers[..m]).d.active
    ensures !Serve(s, answers).d.active
  {
    assert answers == answers[..m] + answers[m..];
    ServeConcat(s, answers[..m], answers[m..]);
    StaysDone(Serve(s, answers[..m]), answers[m..]);
  }

  /** Every run ends: no more answers are needed than there are candidates. */
  lemma {:induction false} EveryRunEnds(s: State, irq: nat, cs: seq<seq<Word>>, answers: seq<Cpu>)
    requires Chains(s.links, cs) && Order(s.links, cs, 0) != [] && |answers| >= |Order(s.links, cs, 0)|
    ensures !Serve(Interrupt(s, irq).1, answers).d.active
  {
    var n, k := |Order(s.links, cs, 0)|, FirstClaim(answers);
    if k < n {
      ClaimEnds(s, irq, cs, answers[..k], answers[k]);
      assert answers[..k] + [answers[k]] == answers[..k + 1];
      DonePrefix(Interrupt(s, irq).1, answers, k + 1);
    } else {
      assert AllDecline(answers[..k][..n]) && answers[..k][..n] == answers[..n];
      NobodyClaims(s, irq, cs, answers[..n]);
      DonePrefix(Interrupt(s, irq).1, answers, n);
    }
  }

  function FirstClaim(answers: seq<Cpu>): (k: nat)
    ensures k <= |answers| && AllDecline(answers[..k]) && (k < |answers| ==> answers[k].v0 == 0)
  {
    if answers == [] || answers[0].v0 == 0 then 0
    else
      var k := FirstClaim(answers[1..]);
      assert answers[..k + 1] == [answers[0]] + answers[1..][..k];
      k + 1
  }
}
