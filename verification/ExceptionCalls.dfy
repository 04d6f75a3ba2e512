/** The order in which an interrupt is offered to handler functions, read off guest memory: a table of four
    list heads, and nodes of three words. */
module ExceptionCalls {
  import opened Words
  import opened Memory
  import opened D = ExceptionDispatch
  import opened ExceptionChains

  /** A node: the link to the next one, its second function and its first function, one word each. */
  datatype Node = Node(at: Word, second: Word, first: Word)

  predicate NodesAt(ram: Bytes, head: Word, ns: seq<Node>)
    decreases |ns|
  {
    if ns == [] then head == 0
    else
      && head == ns[0].at && head != 0
      && Load(ram, Plus(ns[0].at, 4)) == ns[0].second && Load(ram, Plus(ns[0].at, 8)) == ns[0].first
      && NodesAt(ram, Load(ram, ns[0].at), ns[1..])
  }

  /** The list heads are eight bytes apart, from where the word at 0x100 says, or from 0xE000 if that is zero. */
  function HeadPlace(ram: Bytes, p: nat): Word {
    if Load(ram, 0x100) == 0 then Plus(0xE000, 8 * p) else Plus(Load(ram, 0x100), 8 * p)
  }

  predicate ListsAt(ram: Bytes, lists: seq<seq<Node>>) {
    |lists| == 4 && forall p | 0 <= p < 4 :: NodesAt(ram, Load(ram, HeadPlace(ram, p)), lists[p])
  }

  /** A node's first function, and its second unless that is null. */
  function Functions(ns: seq<Node>): seq<Word> {
    if ns == [] then [] else [ns[0].first] + ((if ns[0].second != 0 then [ns[0].second] else []) + Functions(ns[1..]))
  }

  /** List by list. */
  function Calls(lists: seq<seq<Node>>): seq<Word> {
    if lists == [] then [] else Functions(lists[0]) + Calls(lists[1..])
  }

  // ---------------------------------------------------------------------------
  // The chains of the dispatcher
  // ---------------------------------------------------------------------------

  function Places(ns: seq<Node>): (r: seq<Word>)
    ensures |r| == |ns| && forall i | 0 <= i < |ns| :: r[i] == ns[i].at
  {
    seq(|ns|, i requires 0 <= i < |ns| => ns[i].at)
  }

  function Targets(m: Links, cs: seq<Candidate>): (r: seq<Word>)
    ensures |r| == |cs| && forall i | 0 <= i < |cs| :: r[i] == Target(m, cs[i])
  {
    seq(|cs|, i requires 0 <= i < |cs| => Target(m, cs[i]))
  }

  lemma TargetsConcat(m: Links, a: seq<Candidate>, b: seq<Candidate>)
    ensures Targets(m, a + b) == Targets(m, a) + Targets(m, b)
  {}

  lemma {:induction false} NodesSpell(ram: Bytes, head: Word, ns: seq<Node>, p: nat)
    requires NodesAt(ram, head, ns)
    ensures Chain(View(ram), head, Places(ns)) && Targets(View(ram), OfNodes(View(ram), p, Places(ns))) == Functions(ns)
    decreases |ns|
  {
    if ns != [] {
      NodesSpell(ram, Load(ram, ns[0].at), ns[1..], p);
      assert Places(ns)[1..] == Places(ns[1..]) && Places(ns)[0] == ns[0].at;
      OneNode(View(ram), p, ns[0], OfNodes(View(ram), p, Places(ns[1..])));
    }
  }

  lemma OneNode(m: Links, p: nat, n: Node, rest: seq<Candidate>)
    requires m.first(n.at) == n.first && m.second(n.at) == n.second
    ensures Targets(m, [Candidate(p, n.at, false)] + (Seconds(m, p, n.at) + rest)) ==
            [n.first] + ((if n.second != 0 then [n.second] else []) + Targets(m, rest))
  {
    TargetsConcat(m, Seconds(m, p, n.at), rest);
    TargetsConcat(m, [Candidate(p, n.at, false)], Seconds(m, p, n.at) + rest);
    assert Targets(m, [Candidate(p, n.at, false)]) == [n.first];
    assert Targets(m, Seconds(m, p, n.at)) == if n.second != 0 then [n.second] else [];
  }

  function AllPlaces(lists: seq<seq<Node>>): (r: seq<seq<Word>>)
    ensures |r| == |lists| && forall p | 0 <= p < |lists| :: r[p] == Places(lists[p])
  {
    seq(|lists|, p requires 0 <= p < |lists| => Places(lists[p]))
  }

  lemma HeadsAgree(ram: Bytes, p: nat)
    ensures View(ram).head(p) == Load(ram, HeadPlace(ram, p))
  {}

  lemma ListsSpell(ram: Bytes, lists: seq<seq<Node>>)
    requires ListsAt(ram, lists)
    ensures Chains(View(ram), AllPlaces(lists))
  {
    forall p | 0 <= p < 4 ensures Chain(View(ram), View(ram).head(p), AllPlaces(lists)[p]) {
      HeadsAgree(ram, p);
      NodesSpell(ram, Load(ram, HeadPlace(ram, p)), lists[p], p);
    }
  }

  lemma {:induction false} OrderCalls(ram: Bytes, lists: seq<seq<Node>>, p: nat)
    requires ListsAt(ram, lists) && p <= 4
    ensures Targets(View(ram), Order(View(ram), AllPlaces(lists), p)) == Calls(lists[p..])
    decreases 4 - p
  {
    if p < 4 {
      OrderCalls(ram, lists, p + 1);
      NodesSpell(ram, Load(ram, HeadPlace(ram, p)), lists[p], p);
      TargetsConcat(View(ram), OfNodes(View(ram), p, AllPlaces(lists)[p]), Order(View(ram), AllPlaces(lists), p + 1));
      assert lists[p..][0] == lists[p] && lists[p..][1..] == lists[p + 1..];
    } else {
      assert lists[4..] == [];
    }
  }

  // ---------------------------------------------------------------------------
  // Results
  // ---------------------------------------------------------------------------

  /** An interrupt calls, one refusal after another, the functions that memory lists: by list, by node, the first
      function of a node before its second; each returns to the gate at 0xF0. With nothing listed it is
      left to the caller. */
  lemma CallOrder(ram: Bytes, cpu: Cpu, d: Dispatch, irq: nat, lists: seq<seq<Node>>, answers: seq<Cpu>)
    requires ListsAt(ram, lists) && AllDecline(answers)
    ensures var s := State(View(ram), cpu, d);
            && Interrupt(s, irq).0 == (Calls(lists) != [])
            && (Calls(lists) == [] ==> Interrupt(s, irq).1 == s)
            && (|answers| < |Calls(lists)| ==>
                  var c := Serve(Interrupt(s, irq).1, answers).cpu;
                  c.pc == Calls(lists)[|answers|] && c.next == Plus(c.pc, 4) && c.ra == 0xF0)
  {
    var s, cs := State(View(ram), cpu, d), AllPlaces(lists);
    ListsSpell(ram, lists);
    OrderCalls(ram, lists, 0);
    assert lists[0..] == lists;
    var order := Order(View(ram), cs, 0);
    var t := Offered(s, irq, cs, answers);
    if |answers| < |order| {
      var r := Serve(Interrupt(s, irq).1, answers);
      assert Current(r.d) == order[|answers|..][0] == order[|answers|];
    }
  }
}
