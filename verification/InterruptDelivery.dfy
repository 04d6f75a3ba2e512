/** Delivery of interrupts to registered handlers: the interrupted registers are saved on entry and
    restored by the return trampoline, so a handler is invisible to the program, exactly as long as
    no further interrupt is delivered inside it. */
module InterruptDelivery {
  import opened Words
  import opened StatusStack

  const LINES := 64
  const TRAMPOLINE: Word := 0xE4

  /** The processor without its general registers. */
  datatype Cpu = Cpu(hi: Word, lo: Word, pc: Word, next: Word, status: Word, epc: Word, pending: set<nat>, raised: bool)

  datatype Saved = Saved(active: bool, irq: nat, hi: Word, lo: Word, epc: Word)

  type Bank = r: seq<Word> | |r| == 32 witness seq(32, _ => 0)
  type Table = t: seq<Word> | |t| == LINES witness seq(LINES, _ => 0)

  /** General registers, processor, the one save area with its copy of the registers, and the
      handlers with their arguments. */
  datatype State = State(regs: Bank, cpu: Cpu, saved: Saved, copy: Bank, handlers: Table, args: Table)

  /** Register zero is not copied. */
  function Copied(source: Bank, target: Bank): Bank { [target[0]] + source[1..] }

  /** A handler is registered for the line. */
  predicate Taken(s: State, irq: nat) { irq < LINES && s.handlers[irq] != 0 }

  function Dispatch(s: State, irq: nat): State {
    if !Taken(s, irq) then s else
    var handler := s.handlers[irq];
    s.(regs := s.regs[4 := s.args[irq]][31 := TRAMPOLINE], cpu := s.cpu.(pc := handler, next := Plus(handler, 4)),
       saved := Saved(true, irq, s.cpu.hi, s.cpu.lo, s.cpu.epc), copy := Copied(s.regs, s.copy))
  }

  function Return(s: State): State {
    if !s.saved.active then s else
    var c := s.cpu.(pending := s.cpu.pending - {s.saved.irq}, status := Popped(s.cpu.status), raised := false,
                    hi := s.saved.hi, lo := s.saved.lo, pc := s.saved.epc, next := Plus(s.saved.epc, 4));
    s.(regs := Copied(s.copy, s.regs), cpu := c, saved := s.saved.(active := false))
  }

  /** RegisterIntrHandler, and ReleaseIntrHandler with zeros. */
  function Install(s: State, irq: int, handler: Word, arg: Word): State {
    if 0 <= irq < LINES then s.(handlers := s.handlers[irq := handler], args := s.args[irq := arg]) else s
  }

  // ---------------------------------------------------------------------------
  // What happens inside a handler
  // ---------------------------------------------------------------------------

  /** Guest code, which may leave anything in the processor; a registration; or a further interrupt,
      whose handler, if there is one, does the steps of the body and returns. */
  datatype Step =
    | Execute(regs: Bank, cpu: Cpu)
    | Register(irq: int, handler: Word, arg: Word)
    | Interrupt(line: nat, body: seq<Step>)

  function Perform(s: State, t: Step): State
    decreases t, 0
  {
    match t
    case Execute(regs, cpu) => s.(regs := regs, cpu := cpu)
    case Register(irq, handler, arg) => Install(s, irq, handler, arg)
    case Interrupt(line, body) => if Taken(s, line) then Return(After(Dispatch(s, line), body)) else s
  }

  function After(s: State, ts: seq<Step>): State
    decreases ts, 1
  {
    if ts == [] then s else After(Perform(s, ts[0]), ts[1..])
  }

  /** Some interrupt of the sequence arrives with a handler registered for it. */
  predicate Nests(s: State, ts: seq<Step>)
    decreases ts
  {
    ts != [] && ((ts[0].Interrupt? && Taken(s, ts[0].line)) || Nests(Perform(s, ts[0]), ts[1..]))
  }

  /** The interrupted program is back at its place with every register as it was. */
  predicate Resumed(s: State, r: State) {
    && r.regs[1..] == s.regs[1..] && r.cpu.hi == s.cpu.hi && r.cpu.lo == s.cpu.lo
    && r.cpu.pc == s.cpu.epc && r.cpu.next == Plus(s.cpu.epc, 4)
  }

  /** A return that finds the save area in use leaves it free. */
  lemma ReturnFrees(s: State)
    ensures !Return(s).saved.active
  {}

  lemma InstallKeeps(s: State, irq: int, handler: Word, arg: Word)
    ensures Install(s, irq, handler, arg).saved == s.saved && Install(s, irq, handler, arg).copy == s.copy
  {}

  /** Once the save area is free, steps that return from every interrupt leave it free. */
  lemma {:induction false} StaysFree(s: State, ts: seq<Step>)
    requires !s.saved.active
    ensures !After(s, ts).saved.active
    decreases ts
  {
    if ts != [] {
      PerformFrees(s, ts[0]);
      StaysFree(Perform(s, ts[0]), ts[1..]);
    }
  }

  lemma PerformFrees(s: State, t: Step)
    requires !s.saved.active
    ensures !Perform(s, t).saved.active
  {
    if t.Interrupt? && Taken(s, t.line) { ReturnFrees(After(Dispatch(s, t.line), t.body)); }
  }

  lemma {:induction false} NestedFrees(s: State, ts: seq<Step>)
    requires Nests(s, ts)
    ensures !After(s, ts).saved.active
    decreases ts
  {
    if ts[0].Interrupt? && Taken(s, ts[0].line) {
      ReturnFrees(After(Dispatch(s, ts[0].line), ts[0].body));
      StaysFree(Perform(s, ts[0]), ts[1..]);
    } else {
      NestedFrees(Perform(s, ts[0]), ts[1..]);
    }
  }

  lemma {:induction false} UnnestedKeeps(s: State, ts: seq<Step>)
    requires !Nests(s, ts)
    ensures After(s, ts).saved == s.saved && After(s, ts).copy == s.copy
    decreases ts
  {
    if ts != [] {
      if ts[0].Register? { InstallKeeps(s, ts[0].irq, ts[0].handler, ts[0].arg); }
      UnnestedKeeps(Perform(s, ts[0]), ts[1..]);
    }
  }

  // ---------------------------------------------------------------------------
  // Results
  // ---------------------------------------------------------------------------

  /** Whatever a handler does, short of letting another interrupt in, the interrupted program
      resumes, the line is acknowledged, and the status stack moves down, to where it was before the
      exception if the handler left it alone. */
  lemma Transparent(s: State, irq: nat, ts: seq<Step>)
    requires Taken(s, irq) && !Nests(Dispatch(s, irq), ts)
    ensures var e := After(Dispatch(s, irq), ts);
            var r := Return(e);
            && Resumed(s, r)
            && r.cpu.pending == e.cpu.pending - {irq} && !r.cpu.raised
            && MovedDown(e.cpu.status, r.cpu.status)
            && (forall before: Word | Untouched(before, e.cpu.status) :: Restored(before, r.cpu.status))
            && !r.saved.active
  {
    UnnestedKeeps(Dispatch(s, irq), ts);
    PopMovesDown(After(Dispatch(s, irq), ts).cpu.status);
    PopUndoesPush(After(Dispatch(s, irq), ts).cpu.status);
  }

  /** There is one save area: after an interrupt delivered inside, the outer return does nothing. */
  lemma NestedReturnIdle(s: State, irq: nat, ts: seq<Step>)
    requires Taken(s, irq) && Nests(Dispatch(s, irq), ts)
    ensures var e := After(Dispatch(s, irq), ts); Return(e) == e
  {
    NestedFrees(Dispatch(s, irq), ts);
  }

  /** A handler that has come to the trampoline resumes the interrupted program exactly if no
      interrupt was delivered inside it. */
  lemma ResumedIff(s: State, irq: nat, ts: seq<Step>)
    requires Taken(s, irq) && After(Dispatch(s, irq), ts).cpu.pc == TRAMPOLINE && s.cpu.epc != TRAMPOLINE
    ensures Resumed(s, Return(After(Dispatch(s, irq), ts))) <==> !Nests(Dispatch(s, irq), ts)
  {
    if Nests(Dispatch(s, irq), ts) {
      NestedReturnIdle(s, irq, ts);
    } else {
      Transparent(s, irq, ts);
    }
  }

  /** The handler and argument that the last registration among the steps gave a line, or those before. */
  function LastGiven(line: nat, handler: Word, arg: Word, ts: seq<Step>): (Word, Word) {
    if ts == [] then (handler, arg)
    else
      var t := ts[|ts| - 1];
      if t.Register? && t.irq == line then (t.handler, t.arg) else LastGiven(line, handler, arg, ts[..|ts| - 1])
  }

  lemma {:induction false} AfterSnoc(s: State, ts: seq<Step>, t: Step)
    ensures After(s, ts + [t]) == Perform(After(s, ts), t)
    decreases |ts|
  {
    if ts == [] {
      assert [] + [t] == [t];
    } else {
      assert (ts + [t])[0] == ts[0] && (ts + [t])[1..] == ts[1..] + [t];
      AfterSnoc(Perform(s, ts[0]), ts[1..], t);
    }
  }

  /** After any registrations and any guest code, an interrupt enters the handler that was last registered
      for its line, with its argument in $a0 and the trampoline to return to, or nothing if that is zero;
      every other register is the program's. */
  lemma {:induction false} LastRegisteredRuns(s: State, ts: seq<Step>, line: nat)
    requires line < LINES && forall k | 0 <= k < |ts| :: !ts[k].Interrupt?
    ensures var m, (handler, arg) := After(s, ts), LastGiven(line, s.handlers[line], s.args[line], ts);
            var r := Dispatch(m, line);
            && (m.handlers[line], m.args[line]) == (handler, arg)
            && if handler == 0 then r == m
               else
                 && r.cpu == m.cpu.(pc := handler, next := Plus(handler, 4))
                 && r.regs[4] == arg && r.regs[31] == 0xE4
                 && forall k | 0 <= k < 32 && k != 4 && k != 31 :: r.regs[k] == m.regs[k]
    decreases |ts|
  {
    if ts != [] {
      var n := |ts| - 1;
      LastRegisteredRuns(s, ts[..n], line);
      AfterSnoc(s, ts[..n], ts[n]);
      assert ts[..n] + [ts[n]] == ts;
    }
  }

  // ---------------------------------------------------------------------------
  // The dispatcher
  // ---------------------------------------------------------------------------

  class Dispatcher {
    const regs: array<Word>
    const copy: array<Word>
    const handlers: array<Word>
    const args: array<Word>
    var cpu: Cpu
    var saved: Saved

    ghost predicate Valid() {
      && regs.Length == 32 && copy.Length == 32 && handlers.Length == LINES && args.Length == LINES
      && regs != copy && handlers != args && handlers !in {regs, copy} && args !in {regs, copy}
    }

    ghost function Snapshot(): State
      requires Valid()
      reads this, regs, copy, handlers, args
    {
      State(regs[..], cpu, saved, copy[..], handlers[..], args[..])
    }

    constructor (cpu: Cpu)
      ensures Valid() && fresh(regs) && fresh(copy) && fresh(handlers) && fresh(args)
      ensures this.cpu == cpu && !saved.active && forall irq | 0 <= irq < LINES :: !Taken(Snapshot(), irq)
    {
      regs, copy := new Word[32](_ => 0), new Word[32](_ => 0);
      handlers, args := new Word[LINES](_ => 0), new Word[LINES](_ => 0);
      this.cpu, saved := cpu, Saved(false, 0, 0, 0, 0);
    }

    /** Registers 1 to 31, one by one. */
    static method CopyRegisters(source: array<Word>, target: array<Word>)
      requires source.Length == 32 && target.Length == 32 && source != target
      modifies target
      ensures target[..] == Copied(source[..], old(target[..]))
    {
      var r := 1;
      while r < 32
        invariant 1 <= r <= 32
        invariant target[0] == old(target[0]) && target[1..r] == source[1..r]
      {
        target[r] := source[r];
        r := r + 1;
      }
    }

    method RegisterHandler(irq: int, handler: Word, arg: Word) returns (result: Word)
      requires Valid()
      modifies handlers, args
      ensures Snapshot() == Install(old(Snapshot()), irq, handler, arg)
      ensures result == if 0 <= irq < LINES then 0 else MINUS_ONE
    {
      if !(0 <= irq < LINES) { return MINUS_ONE; }
      handlers[irq], args[irq] := handler, arg;
      return 0;
    }

    method DispatchInterrupt(irq: nat) returns (taken: bool)
      requires Valid()
      modifies this, regs, copy
      ensures taken == Taken(old(Snapshot()), irq)
      ensures Snapshot() == Dispatch(old(Snapshot()), irq)
    {
      if irq >= LINES { return false; }
      var handler := handlers[irq];
      if handler == 0 { return false; }
      saved := Saved(true, irq, cpu.hi, cpu.lo, cpu.epc);
      CopyRegisters(regs, copy);
      regs[4] := args[irq];
      regs[31] := TRAMPOLINE;
      cpu := cpu.(pc := handler, next := Plus(handler, 4));
      return true;
    }

    method ReturnFromHandler()
      requires Valid()
      modifies this, regs
      ensures Snapshot() == Return(old(Snapshot()))
    {
      if saved.active {
        var status := PopStatus(cpu.status);
        cpu := cpu.(pending := cpu.pending - {saved.irq}, status := status);
        CopyRegisters(copy, regs);
        cpu := cpu.(hi := saved.hi, lo := saved.lo, pc := saved.epc, next := Plus(saved.epc, 4), raised := false);
        saved := saved.(active := false);
      }
    }
  }
}
