/** The EE DMA controller's chain mode: a bounded loop over tags in memory, proved to be the
    recursive meaning of a tag chain. */
module DmaChain {
  import opened Words
  import opened Bitwise
  import opened Memory
  import opened Options

  const MAX_TAGS: nat := 4096
  const SCRATCH_SIZE: nat := 0x4000

  datatype Error = Fine | OutOfBounds | UnsupportedTag

  // ---------------------------------------------------------------------------
  // Memory
  // ---------------------------------------------------------------------------

  datatype Mem = Mem(ram: Bytes, scratch: Option<Bytes>)

  /** The bytes a DMA address names; bit 31 selects the scratchpad. */
  function Resolve(m: Mem, raw: Word, len: nat): (r: Option<Bytes>)
    ensures r.Some? ==> |r.value| == len
  {
    var addr := raw % 0x8000_0000;
    if raw >= 0x8000_0000 then
      var off := addr % SCRATCH_SIZE;
      if m.scratch.None? || off + len > |m.scratch.value| || off + len > SCRATCH_SIZE then None
      else Some(m.scratch.value[off..off + len])
    else if addr + len > |m.ram| then None
    else Some(m.ram[addr..addr + len])
  }

  function At(area: Bytes, i: nat): Option<Byte> { if i < |area| then Some(area[i]) else None }

  /** The byte a DMA address names: scratchpad with bit 31 set, mirrored over its size, else RAM. */
  function ByteAt(m: Mem, a: Word): Option<Byte> {
    if a < 0x8000_0000 then At(m.ram, a)
    else if m.scratch.None? then None
    else At(m.scratch.value, a % SCRATCH_SIZE)
  }

  /** The bytes at the addresses from raw on are those of an area from off on. */
  ghost predicate Maps(m: Mem, raw: Word, len: nat, area: Bytes, off: nat) {
    forall k | 0 <= k < len :: ByteAt(m, Plus(raw, k)) == At(area, off + k)
  }

  ghost predicate Block(m: Mem, raw: Word, len: nat, r: Option<Bytes>) {
    && (r.Some? <==> forall k | 0 <= k < len :: ByteAt(m, Plus(raw, k)).Some?)
    && (r.Some? ==> |r.value| == len && forall k | 0 <= k < len :: ByteAt(m, Plus(raw, k)) == Some(r.value[k]))
  }

  lemma AreaBlock(m: Mem, raw: Word, len: nat, area: Bytes, off: nat)
    requires len > 0 && Maps(m, raw, len, area, off)
    ensures Block(m, raw, len, if off + len <= |area| then Some(area[off..off + len]) else None)
  {
    if off + len > |area| { assert ByteAt(m, Plus(raw, len - 1)) == At(area, off + (len - 1)); }
  }

  lemma RamMaps(m: Mem, raw: Word, len: nat)
    requires raw + len <= 0x8000_0000
    ensures Maps(m, raw, len, m.ram, raw)
  {}

  function Scratch(m: Mem): Bytes { if m.scratch.Some? then m.scratch.value else [] }

  lemma ScratchMaps(m: Mem, raw: Word, len: nat)
    requires raw >= 0x8000_0000 && raw % SCRATCH_SIZE + len <= SCRATCH_SIZE
    ensures Maps(m, raw, len, Scratch(m), raw % SCRATCH_SIZE)
  {
    forall k | 0 <= k < len ensures Plus(raw, k) == raw + k && (raw + k) % SCRATCH_SIZE == raw % SCRATCH_SIZE + k {
      InMirror(raw, k);
    }
  }

  lemma InMirror(raw: Word, k: nat)
    requires raw % SCRATCH_SIZE + k < SCRATCH_SIZE
    ensures Plus(raw, k) == raw + k && (raw + k) % SCRATCH_SIZE == raw % SCRATCH_SIZE + k
  {
    DivMod(raw + k, SCRATCH_SIZE, raw / SCRATCH_SIZE, raw % SCRATCH_SIZE + k);
  }

  lemma SameMirror(raw: Word)
    ensures raw % 0x8000_0000 % SCRATCH_SIZE == raw % SCRATCH_SIZE
  {}

  /** A range that leaves neither its half of the addresses nor its copy of the scratchpad. */
  predicate OneArea(raw: Word, len: nat) {
    if raw < 0x8000_0000 then raw + len <= 0x8000_0000 else raw % SCRATCH_SIZE + len <= SCRATCH_SIZE
  }

  /** A block is the bytes at its addresses, and fails exactly if one of them is missing or the range
      leaves its area. */
  lemma ResolveBytes(m: Mem, raw: Word, len: nat)
    requires len > 0 && |m.ram| <= 0x8000_0000
    ensures if OneArea(raw, len) then Block(m, raw, len, Resolve(m, raw, len)) else Resolve(m, raw, len).None?
  {
    if raw < 0x8000_0000 {
      RamResolved(m, raw, len);
      if OneArea(raw, len) { RamMaps(m, raw, len); AreaBlock(m, raw, len, m.ram, raw); }
    } else {
      ScratchResolved(m, raw, len, raw % SCRATCH_SIZE);
      if OneArea(raw, len) { ScratchMaps(m, raw, len); AreaBlock(m, raw, len, Scratch(m), raw % SCRATCH_SIZE); }
    }
  }

  lemma RamResolved(m: Mem, raw: Word, len: nat)
    requires raw < 0x8000_0000
    ensures Resolve(m, raw, len) == if raw + len <= |m.ram| then Some(m.ram[raw..raw + len]) else None
  {}

  lemma ScratchResolved(m: Mem, raw: Word, len: nat, off: nat)
    requires raw >= 0x8000_0000 && len > 0 && off == raw % SCRATCH_SIZE
    ensures off + len > SCRATCH_SIZE ==> Resolve(m, raw, len).None?
    ensures off + len <= SCRATCH_SIZE ==>
              Resolve(m, raw, len) == if off + len <= |Scratch(m)| then Some(Scratch(m)[off..off + len]) else None
  {
    SameMirror(raw);
  }

  /** The blocks a transfer hands to the sink: none if it is empty. */
  function Blocks(m: Mem, addr: Word, qwc: nat): Option<seq<Bytes>> {
    if qwc == 0 then Some([])
    else match Resolve(m, addr, 16 * qwc) case None => None case Some(b) => Some([b])
  }

  // ---------------------------------------------------------------------------
  // Tags
  // ---------------------------------------------------------------------------

  datatype Tag = Tag(id: nat, qwc: nat, addr: Word)

  const REFE := 0
  const CNT := 1
  const NEXT := 2
  const REF := 3
  const REFS := 4
  const END := 7

  function ReadTag(m: Mem, t: Word): Option<Tag> {
    match Resolve(m, t, 4)
    case None => None
    case Some(c) =>
      match Resolve(m, Plus(t, 4), 4)
      case None => None
      case Some(a) =>
        var control := Read32(c, 0);
        Some(Tag(control / 0x1000_0000 % 8, control % 0x1_0000, Read32(a, 0)))
  }

  lemma ControlMasks(w: Word)
    ensures AndWord(w / 0x1000_0000, 7) == w / 0x1000_0000 % 8 && AndWord(w, 0xFFFF) == w % 0x1_0000
  {
    Powers();
    assert Pow2(3) == 8;
    assert Pow2(16) == 2 * Pow2(15);
    AndLow(w / 0x1000_0000, 3);
    AndLow(w, 16);
  }

  predicate Continues(tag: Tag) { tag.id == CNT || tag.id == NEXT || tag.id == REF || tag.id == REFS }

  predicate Stops(tag: Tag) { tag.id == REFE || tag.id == END }

  /** Where a tag's data lies: at ADDR for the reference tags, else after the tag. */
  function Source(tag: Tag, t: Word): Word {
    if tag.id == REFE || tag.id == REF || tag.id == REFS then tag.addr else Plus(t, 16)
  }

  /** TADR after a tag. */
  function Follow(tag: Tag, t: Word): Word {
    if tag.id == CNT || tag.id == END then Plus(t, 16 + 16 * tag.qwc)
    else if tag.id == NEXT then tag.addr
    else Plus(t, 16)
  }

  /** Memory as the tag walk reads it: a tag, or the blocks of a transfer, at an address. */
  datatype View = View(tag: Word -> Option<Tag>, data: (Word, nat) -> Option<seq<Bytes>>)

  function ViewOf(m: Mem): View {
    View((t: Word) => ReadTag(m, t), (a: Word, qwc: nat) => Blocks(m, a, qwc))
  }

  // ---------------------------------------------------------------------------
  // The meaning of a chain
  // ---------------------------------------------------------------------------

  /** What some tags deliver, how many quadwords that is, and where they lead. */
  datatype Progress = Progress(blocks: seq<Bytes>, quadwords: nat, at: Word)

  function Join(p: Progress, q: Progress): Progress {
    Progress(p.blocks + q.blocks, p.quadwords + q.quadwords, q.at)
  }

  /** One tag with its data in bounds. */
  function Transfer(m: View, t: Word, tag: Tag): Option<Progress> {
    match m.data(Source(tag, t), tag.qwc)
    case None => None
    case Some(b) => Some(Progress(b, tag.qwc, Follow(tag, t)))
  }

  /** One tag that continues the chain. */
  function Stride(m: View, t: Word): Option<Progress> {
    match m.tag(t)
    case None => None
    case Some(tag) => if Continues(tag) then Transfer(m, t, tag) else None
  }

  /** One tag that ends the chain. */
  function Stop(m: View, t: Word): Option<Progress> {
    match m.tag(t)
    case None => None
    case Some(tag) => if Stops(tag) then Transfer(m, t, tag) else None
  }

  /** The first k tags of a chain, if all of them are in bounds and continue it. */
  function Pass(m: View, t: Word, k: nat): Option<Progress>
    decreases k
  {
    if k == 0 then Some(Progress([], 0, t)) else
      match Stride(m, t)
      case None => None
      case Some(p) =>
        match Pass(m, p.at, k - 1)
        case None => None
        case Some(q) => Some(Join(p, q))
  }

  /** A whole chain: k tags that continue it and one that stops it, all in bounds. */
  function Meaning(m: View, t: Word, k: nat): Option<Progress> {
    match Pass(m, t, k)
    case None => None
    case Some(p) =>
      match Stop(m, p.at)
      case None => None
      case Some(q) => Some(Join(p, q))
  }

  // ---------------------------------------------------------------------------
  // The channel
  // ---------------------------------------------------------------------------

  /** One channel: its registers, its counter, the blocks its sink has received and its bit
      in the status register. */
  datatype Channel = Channel(tadr: Word, chcr: Word, error: Error, moved: Word, sink: seq<Bytes>, signalled: bool)

  predicate Started(chcr: Word) { chcr / 0x100 % 2 == 1 }

  /** Clears STR and nothing else. */
  function ClearStart(chcr: Word): (r: Word)
    ensures !Started(r) && r % 0x100 == chcr % 0x100 && r / 0x200 == chcr / 0x200
  {
    if Started(chcr) then chcr - 0x100 else chcr
  }

  function Fail(c: Channel): Channel { c.(error := UnsupportedTag, chcr := ClearStart(c.chcr)) }

  /** The channel after some tags: their blocks delivered and counted, TADR moved on. */
  function Moved(c: Channel, p: Progress): Channel {
    c.(tadr := p.at, sink := c.sink + p.blocks, moved := Plus(c.moved, p.quadwords))
  }

  function Done(c: Channel): Channel { c.(chcr := ClearStart(c.chcr), signalled := true) }

  /** The last step of a kick: a tag that does not continue the chain. Data out of bounds
      leaves a continuing tag's channel started, but completes a stopping tag's. */
  function Finish(m: View, c: Channel): Channel {
    match m.tag(c.tadr)
    case None => Fail(c)
    case Some(tag) =>
      if Stops(tag) then
        match Transfer(m, c.tadr, tag)
        case None => Done(c.(error := OutOfBounds, tadr := Follow(tag, c.tadr)))
        case Some(p) => Done(Moved(c, p))
      else if Continues(tag) then c.(error := OutOfBounds)
      else Fail(c)
  }

  /** The tag loop with g tags left to look at. */
  function Walk(m: View, c: Channel, g: nat): Channel
    decreases g
  {
    if g == 0 then Fail(c) else
      match Stride(m, c.tadr)
      case None => Finish(m, c)
      case Some(p) => Walk(m, Moved(c, p), g - 1)
  }

  function Kick(m: View, c: Channel): Channel { Walk(m, c.(error := Fine), MAX_TAGS) }

  // ---------------------------------------------------------------------------
  // Refinement
  // ---------------------------------------------------------------------------

  lemma MovedTwice(c: Channel, p: Progress, q: Progress)
    ensures Moved(Moved(c, p), q) == Moved(c, Join(p, q))
  {
    PlusPlus(c.moved, p.quadwords, q.quadwords);
    var both, joined := Moved(Moved(c, p), q), Moved(c, Join(p, q));
    assert both.sink == joined.sink;
  }

  lemma MovedNowhere(c: Channel)
    ensures Moved(c, Progress([], 0, c.tadr)) == c
  {
    assert c.sink + [] == c.sink;
  }

  /** The loop takes any run of continuing tags in its stride. */
  lemma {:induction false} WalkPasses(m: View, c: Channel, k: nat, g: nat)
    requires k <= g && Pass(m, c.tadr, k).Some?
    ensures Walk(m, c, g) == Walk(m, Moved(c, Pass(m, c.tadr, k).value), g - k)
    decreases k
  {
    if k == 0 {
      MovedNowhere(c);
    } else {
      var p := Stride(m, c.tadr).value;
      WalkPasses(m, Moved(c, p), k - 1, g - 1);
      MovedTwice(c, p, Pass(m, p.at, k - 1).value);
    }
  }

  /** A chain of at most 4096 tags is transferred exactly as it means: every block in order,
      all counted, STR clear and completion signalled. */
  lemma {:induction false} ChainRefined(m: View, c: Channel, k: nat)
    requires k < MAX_TAGS && Meaning(m, c.tadr, k).Some?
    ensures Kick(m, c) == Done(Moved(c, Meaning(m, c.tadr, k).value).(error := Fine))
  {
    var p := Pass(m, c.tadr, k).value;
    WalkPasses(m, c.(error := Fine), k, MAX_TAGS);
    MovedTwice(c.(error := Fine), p, Stop(m, p.at).value);
  }

  /** How many of the first g tags continue the chain in bounds. */
  function Reach(m: View, t: Word, g: nat): (k: nat)
    ensures k <= g
    decreases g
  {
    if g == 0 then 0 else
      match Stride(m, t)
      case None => 0
      case Some(p) => 1 + Reach(m, p.at, g - 1)
  }

  lemma {:induction false} ReachPasses(m: View, t: Word, g: nat)
    ensures Pass(m, t, Reach(m, t, g)).Some?
    ensures Reach(m, t, g) < g ==> Stride(m, Pass(m, t, Reach(m, t, g)).value.at).None?
    decreases g
  {
    if g > 0 && Stride(m, t).Some? { ReachPasses(m, Stride(m, t).value.at, g - 1); }
  }

  /** Every kick ends within the limit: after the tags that continue the chain, at one that does
      not, or at the limit itself. */
  lemma {:induction false} KickEnds(m: View, c: Channel, g: nat)
    ensures var k := Reach(m, c.tadr, g);
            && Pass(m, c.tadr, k).Some?
            && var p := Pass(m, c.tadr, k).value;
               Walk(m, c, g) == if k == g then Fail(Moved(c, p)) else Finish(m, Moved(c, p))
  {
    ReachPasses(m, c.tadr, g);
    WalkPasses(m, c, Reach(m, c.tadr, g), g);
  }

  /** A kick reports no error exactly for a chain that has a meaning. */
  lemma {:induction false} FineIffMeant(m: View, c: Channel)
    ensures var k := Reach(m, c.tadr, MAX_TAGS);
            Kick(m, c).error == Fine <==> k < MAX_TAGS && Meaning(m, c.tadr, k).Some?
  {
    KickEnds(m, c.(error := Fine), MAX_TAGS);
    ReachPasses(m, c.tadr, MAX_TAGS);
  }

  /** A chain that still goes on after 4096 tags, as every cyclic one does, ends in an error
      with STR clear and no completion signal. */
  lemma {:induction false} EndlessFails(m: View, c: Channel)
    requires Pass(m, c.tadr, MAX_TAGS).Some?
    ensures Kick(m, c) == Fail(Moved(c, Pass(m, c.tadr, MAX_TAGS).value))
  {
    WalkPasses(m, c.(error := Fine), MAX_TAGS, MAX_TAGS);
  }

  /** A chain that comes back to a tag it has passed never runs out. */
  lemma {:induction false} CycleIsEndless(m: View, t: Word, n: nat, k: nat)
    requires n > 0 && Pass(m, t, n).Some? && Pass(m, t, n).value.at == t
    ensures Pass(m, t, k).Some?
    decreases k
  {
    if k <= n {
      PassFewer(m, t, n, k);
    } else {
      CycleIsEndless(m, t, n, k - n);
      PassOn(m, t, n, k - n);
    }
  }

  lemma {:induction false} PassFewer(m: View, t: Word, n: nat, k: nat)
    requires k <= n && Pass(m, t, n).Some?
    ensures Pass(m, t, k).Some?
    decreases k
  {
    if k > 0 { PassFewer(m, Stride(m, t).value.at, n - 1, k - 1); }
  }

  lemma {:induction false} PassOn(m: View, t: Word, n: nat, k: nat)
    requires Pass(m, t, n).Some? && Pass(m, Pass(m, t, n).value.at, k).Some?
    ensures Pass(m, t, n + k).Some?
    decreases n
  {
    if n > 0 { PassOn(m, Stride(m, t).value.at, n - 1, k); }
  }

  /** STR is left set exactly when the walk ends at a continuing tag whose data is out of
      bounds: a channel that was started then looks busy and signals nothing. */
  lemma {:induction false} StuckIff(m: View, c: Channel)
    requires Started(c.chcr)
    ensures var k := Reach(m, c.tadr, MAX_TAGS);
            && Pass(m, c.tadr, k).Some?
            && var at := Pass(m, c.tadr, k).value.at;
               Started(Kick(m, c).chcr) <==> k < MAX_TAGS && m.tag(at).Some? && Continues(m.tag(at).value)
  {
    KickEnds(m, c.(error := Fine), MAX_TAGS);
    ReachPasses(m, c.tadr, MAX_TAGS);
  }

  // ---------------------------------------------------------------------------
  // The controller
  // ---------------------------------------------------------------------------

  class Dmac {
    const ram: Bytes
    const scratch: Option<Bytes>
    var tadr: Word
    var chcr: Word
    var error: Error
    var moved: Word
    var sink: seq<Bytes>
    var signalled: bool

    constructor (ram: Bytes, scratch: Option<Bytes>, tadr: Word, chcr: Word)
      ensures this.ram == ram && this.scratch == scratch
      ensures Snapshot() == Channel(tadr, chcr, Fine, 0, [], false)
    {
      this.ram, this.scratch, this.tadr, this.chcr := ram, scratch, tadr, chcr;
      error, moved, sink, signalled := Fine, 0, [], false;
    }

    ghost function Snapshot(): Channel
      reads this
    {
      Channel(tadr, chcr, error, moved, sink, signalled)
    }

    ghost function Memory(): View { ViewOf(Mem(ram, scratch)) }

    method TransferQuadwords(addr: Word, qwc: nat) returns (ok: bool)
      modifies this`sink, this`moved
      ensures ok == Memory().data(addr, qwc).Some?
      ensures ok ==> sink == old(sink) + Memory().data(addr, qwc).value && moved == Plus(old(moved), qwc)
      ensures !ok ==> sink == old(sink) && moved == old(moved)
    {
      if qwc == 0 { return true; }
      var block := Resolve(Mem(ram, scratch), addr, 16 * qwc);
      if block.None? { return false; }
      sink, moved := sink + [block.value], Plus(moved, qwc);
      return true;
    }

    method SignalDone()
      modifies this`chcr, this`signalled
      ensures Snapshot() == Done(old(Snapshot()))
    {
      chcr, signalled := ClearStart(chcr), true;
    }

    /** The two words of a tag, with their masks. */
    method ReadChainTag(t: Word) returns (tag: Option<Tag>)
      ensures tag == Memory().tag(t)
    {
      var m := Mem(ram, scratch);
      var c := Resolve(m, t, 4);
      if c.None? { return None; }
      var a := Resolve(m, Plus(t, 4), 4);
      if a.None? { return None; }
      var control := Read32(c.value, 0);
      ControlMasks(control);
      return Some(Tag(AndWord(control / 0x1000_0000, 7), AndWord(control, 0xFFFF), Read32(a.value, 0)));
    }

    /** Moves data and goes on, or returns with the channel still started. */
    method GoOn(from: Word, qwc: nat, next: Word) returns (ok: bool)
      modifies this
      ensures ok == Memory().data(from, qwc).Some?
      ensures Snapshot() == if ok then Moved(old(Snapshot()), Progress(Memory().data(from, qwc).value, qwc, next))
                            else old(Snapshot()).(error := OutOfBounds)
    {
      ok := TransferQuadwords(from, qwc);
      if ok { tadr := next; } else { error := OutOfBounds; }
    }

    /** Moves data and completes, whether or not the data was there. */
    method Conclude(from: Word, qwc: nat, next: Word)
      modifies this
      ensures var b := Memory().data(from, qwc);
              Snapshot() == Done(if b.Some? then Moved(old(Snapshot()), Progress(b.value, qwc, next))
                                 else old(Snapshot()).(error := OutOfBounds, tadr := next))
    {
      var ok := TransferQuadwords(from, qwc);
      if !ok { error := OutOfBounds; }
      tadr := next;
      SignalDone();
    }

    /** One tag of the loop; false when it returns from the kick. */
    method ProcessTag(tag: Tag) returns (more: bool)
      requires Memory().tag(tadr) == Some(tag)
      modifies this
      ensures var s := Stride(Memory(), old(tadr));
              && more == s.Some?
              && Snapshot() == if more then Moved(old(Snapshot()), s.value) else Finish(Memory(), old(Snapshot()))
    {
      more := false;
      if tag.id == REFE {
        Conclude(tag.addr, tag.qwc, Plus(tadr, 16));
      } else if tag.id == CNT {
        more := GoOn(Plus(tadr, 16), tag.qwc, Plus(tadr, 16 + 16 * tag.qwc));
      } else if tag.id == NEXT {
        more := GoOn(Plus(tadr, 16), tag.qwc, tag.addr);
      } else if tag.id == END {
        Conclude(Plus(tadr, 16), tag.qwc, Plus(tadr, 16 + 16 * tag.qwc));
      } else if tag.id == REF || tag.id == REFS {
        more := GoOn(tag.addr, tag.qwc, Plus(tadr, 16));
      } else {
        error, chcr := UnsupportedTag, ClearStart(chcr);
      }
    }

    /** A chain-mode kick. */
    method KickChain()
      modifies this
      ensures Snapshot() == Kick(Memory(), old(Snapshot()))
    {
      error := Fine;
      WalkTags(MAX_TAGS);
    }

    /** Reads and processes the tag at TADR: the loop goes on, breaks off, or the kick is over. */
    method LookAtTag(ghost m: View) returns (turn: Turn)
      requires m == Memory()
      modifies this
      ensures forall g: nat :: g > 0 ==> Walk(m, old(Snapshot()), g) == Turned(m, turn, Snapshot(), g)
    {
      ghost var c := Snapshot();
      var tag := ReadChainTag(tadr);
      if tag.None? {
        error := OutOfBounds;
        turn := Break;
      } else {
        var more := ProcessTag(tag.value);
        turn := if more then Again else Over;
      }
      forall g: nat | g > 0 ensures Walk(m, c, g) == Turned(m, turn, Snapshot(), g) { WalkTurn(m, c, turn, Snapshot(), g); }
    }

    /** The tag loop with its guard; true when a tag has ended the kick. */
    method RunTags(limit: nat, ghost m: View) returns (over: bool)
      requires m == Memory()
      modifies this
      ensures Walk(m, old(Snapshot()), limit) == if over then Snapshot() else Fail(Snapshot())
    {
      ghost var goal := Walk(m, Snapshot(), limit);
      ghost var left := limit;
      var guard := 0;
      while guard < limit
        invariant guard + left == limit && Walk(m, Snapshot(), left) == goal
      {
        var turn := LookAtTag(m);
        left := left - 1;
        if !turn.Again? { return turn.Over?; }
        guard := guard + 1;
      }
      return false;
    }

    /** An unreadable tag leaves the loop like the guard does, so its error is reported as an
        unsupported tag. */
    method WalkTags(limit: nat)
      modifies this
      ensures Snapshot() == Walk(Memory(), old(Snapshot()), limit)
    {
      var over := RunTags(limit, Memory());
      if !over { GiveUp(); }
    }

    method GiveUp()
      modifies this`error, this`chcr
      ensures Snapshot() == Fail(old(Snapshot()))
    {
      error, chcr := UnsupportedTag, ClearStart(chcr);
    }
  }

  datatype Turn = Again | Break | Over

  /** What is left of a walk after a turn of the tag loop. */
  function Turned(m: View, turn: Turn, r: Channel, g: nat): Channel
    requires g > 0
  {
    match turn
    case Again => Walk(m, r, g - 1)
    case Break => Fail(r)
    case Over => r
  }

  lemma WalkTurn(m: View, c: Channel, turn: Turn, r: Channel, g: nat)
    requires g > 0
    requires match turn
             case Again => Stride(m, c.tadr).Some? && r == Moved(c, Stride(m, c.tadr).value)
             case Break => m.tag(c.tadr).None? && r == c.(error := OutOfBounds)
             case Over => Stride(m, c.tadr).None? && r == Finish(m, c)
    ensures Walk(m, c, g) == Turned(m, turn, r, g)
  {}
}
