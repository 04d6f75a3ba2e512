/** Interrupts that arrive while a handler function of the exception chains is running. There is one
    record of the dispatch under way, so a second dispatch replaces the first. */
module ExceptionNesting {
  import opened Words
  import opened ExceptionDispatch

  /** What happens before a handler function returns to the trampoline: guest code, which may leave
      anything in the processor, and further interrupts, whose own handler functions each do the work
      of one round. */
  datatype Step = Execute(cpu: Cpu) | Arrive(irq: nat, rounds: seq<Round>)

  datatype Round = Round(steps: seq<Step>)

  function Perform(s: State, t: Step): State
    decreases t, 0
  {
    match t
    case Execute(cpu) => s.(cpu := cpu)
    case Arrive(irq, rounds) => if Interrupt(s, irq).0 then ServeRounds(Interrupt(s, irq).1, rounds) else s
  }

  function Work(s: State, ts: seq<Step>): State
    decreases ts, 1
  {
    if ts == [] then s else Work(Perform(s, ts[0]), ts[1..])
  }

  /** Round by round: the work of a function, and its return. */
  function ServeRounds(s: State, rs: seq<Round>): State
    decreases rs, 2
  {
    if rs == [] then s else ServeRounds(Return(Work(s, rs[0].steps)).1, rs[1..])
  }

  /** The interrupt is offered to the chains. */
  predicate Offers(s: State, t: Step) { t.Arrive? && Interrupt(s, t.irq).0 }

  predicate Nests(s: State, ts: seq<Step>)
    decreases ts
  {
    ts != [] && (Offers(s, ts[0]) || Nests(Perform(s, ts[0]), ts[1..]))
  }

  /** Every interrupt offered is over before the interrupted function goes on. */
  predicate Concludes(s: State, ts: seq<Step>)
    decreases ts
  {
    ts != [] ==>
      var r := Perform(s, ts[0]);
      (Offers(s, ts[0]) ==> !r.d.active) && Concludes(r, ts[1..])
  }

  // ---------------------------------------------------------------------------
  // One function
  // ---------------------------------------------------------------------------

  lemma {:induction false} Unnested(s: State, ts: seq<Step>)
    requires !Nests(s, ts)
    ensures Work(s, ts) == s.(cpu := Work(s, ts).cpu)
    decreases ts
  {
    if ts != [] { Unnested(Perform(s, ts[0]), ts[1..]); }
  }

  lemma {:induction false} StaysOver(s: State, ts: seq<Step>)
    requires !s.d.active && Concludes(s, ts)
    ensures !Work(s, ts).d.active
    decreases ts
  {
    if ts != [] { StaysOver(Perform(s, ts[0]), ts[1..]); }
  }

  lemma {:induction false} NestedOver(s: State, ts: seq<Step>)
    requires Nests(s, ts) && Concludes(s, ts)
    ensures !Work(s, ts).d.active
    decreases ts
  {
    if Offers(s, ts[0]) { StaysOver(Perform(s, ts[0]), ts[1..]); } else { NestedOver(Perform(s, ts[0]), ts[1..]); }
  }

  /** A function's return to the trampoline is handled exactly if no interrupt was offered to the
      chains while it ran; otherwise it is left where it is. */
  lemma ReturnHandledIff(s: State, ts: seq<Step>)
    requires s.d.active && Concludes(s, ts)
    ensures Return(Work(s, ts)).0 <==> !Nests(s, ts)
    ensures Nests(s, ts) ==> Return(Work(s, ts)).1 == Work(s, ts)
  {
    if Nests(s, ts) { NestedOver(s, ts); } else { Unnested(s, ts); }
  }

  /** One interrupt that the first function offered claims at once is enough: whatever the interrupted
      function then does, its return is not handled. */
  lemma OneIsEnough(s: State, irq: nat, claim: Cpu, cpu: Cpu)
    requires s.d.active && NextChain(s.links, 0) < PRIORITIES && claim.v0 == 0
    ensures var ts := [Arrive(irq, [Round([Execute(claim)])]), Execute(cpu)];
            Concludes(s, ts) && !Return(Work(s, ts)).0
  {
    var inner, rest := [Execute(claim)], [Execute(cpu)];
    var ts := [Arrive(irq, [Round(inner)])] + rest;
    var m := Interrupt(s, irq).1;
    assert Work(m, inner) == m.(cpu := claim);
    var r := Perform(s, ts[0]);
    assert r == ServeRounds(m, [Round(inner)]) == Return(m.(cpu := claim)).1;
    assert ts[1..] == rest && rest[1..] == [];
    assert Work(r, rest) == r.(cpu := cpu);
  }

  // ---------------------------------------------------------------------------
  // Whole dispatches
  // ---------------------------------------------------------------------------

  predicate NestsIn(s: State, rs: seq<Round>)
    decreases rs
  {
    rs != [] && (Nests(s, rs[0].steps) || NestsIn(Return(Work(s, rs[0].steps)).1, rs[1..]))
  }

  /** What the functions of the rounds answer. */
  function Answers(s: State, rs: seq<Round>): seq<Cpu>
    decreases rs
  {
    if rs == [] then [] else
    var w := Work(s, rs[0].steps);
    [w.cpu] + Answers(Return(w).1, rs[1..])
  }

  /** Without nesting a dispatch is the one given by the answers alone. */
  lemma {:induction false} UnnestedServes(s: State, rs: seq<Round>)
    requires !NestsIn(s, rs)
    ensures ServeRounds(s, rs) == Serve(s, Answers(s, rs))
    decreases rs
  {
    if rs != [] {
      Unnested(s, rs[0].steps);
      UnnestedServes(Return(Work(s, rs[0].steps)).1, rs[1..]);
    }
  }

  /** A dispatch lost in one round is never ended: every later return of its functions is left where
      it is, as long as the interrupts in between conclude. */
  lemma {:induction false} LostForGood(s: State, rs: seq<Round>, k: nat)
    requires !s.d.active && k < |rs| && ConcludesAll(s, rs)
    ensures var w := Work(ServeRounds(s, rs[..k]), rs[k].steps); Return(w) == (false, w)
    decreases k
  {
    StaysOver(s, rs[0].steps);
    var r := Return(Work(s, rs[0].steps)).1;
    if k == 0 {
      assert rs[..0] == [];
    } else {
      assert rs[..k][1..] == rs[1..][..k - 1];
      LostForGood(r, rs[1..], k - 1);
    }
  }

  predicate ConcludesAll(s: State, rs: seq<Round>)
    decreases rs
  {
    rs != [] ==> Concludes(s, rs[0].steps) && ConcludesAll(Return(Work(s, rs[0].steps)).1, rs[1..])
  }

  /** The dispatch is active after every round up to its end: each return before it was handled. */
  predicate AllHandled(s: State, rs: seq<Round>)
    decreases rs
  {
    rs != [] && s.d.active ==>
      var w := Work(s, rs[0].steps);
      Return(w).0 && AllHandled(Return(w).1, rs[1..])
  }

  /** No interrupt is offered to the chains in a round of the dispatch while it is under way. */
  predicate NestsUnderway(s: State, rs: seq<Round>)
    decreases rs
  {
    && rs != [] && s.d.active
    && (Nests(s, rs[0].steps) || NestsUnderway(Return(Work(s, rs[0].steps)).1, rs[1..]))
  }

  /** Every return of a dispatch is handled, until it ends in a claim or at the default vector, if and
      only if no interrupt is offered to the chains in between. */
  lemma {:induction false} DispatchHandledIff(s: State, rs: seq<Round>)
    requires ConcludesAll(s, rs)
    ensures AllHandled(s, rs) <==> !NestsUnderway(s, rs)
    decreases rs
  {
    if rs != [] && s.d.active {
      ReturnHandledIff(s, rs[0].steps);
      DispatchHandledIff(Return(Work(s, rs[0].steps)).1, rs[1..]);
    }
  }
}
