/** Chain-mode DMA seen from memory: a list of links written out as bytes, each with the next one where
    its kind demands, and what a kick makes of it. */
module DmaTags {
  import opened Words
  import opened Options
  import opened Memory
  import opened DmaChain

  /** The kinds of tag. Data lies at `at` for the reference kinds and right behind the tag otherwise; the
      next tag lies behind the data, at `to`, or right behind the tag. */
  datatype Link =
    | Refe(place: Word, at: Word, data: Bytes)
    | Cnt(place: Word, data: Bytes)
    | Next(place: Word, to: Word, data: Bytes)
    | Ref(place: Word, at: Word, data: Bytes)
    | Refs(place: Word, at: Word, data: Bytes)
    | End(place: Word, data: Bytes)
  {
    function Number(): nat {
      match this
      case Refe(_, _, _) => 0
      case Cnt(_, _) => 1
      case Next(_, _, _) => 2
      case Ref(_, _, _) => 3
      case Refs(_, _, _) => 4
      case End(_, _) => 7
    }

    predicate Last() { Refe? || End? }

    function DataPlace(): Word { if Refe? || Ref? || Refs? then at else Plus(place, 16) }

    /** Where the next tag lies, or TADR is left behind the last one. */
    function After(): Word {
      match this
      case Next(_, to, _) => to
      case Cnt(_, _) => Plus(place, 16 + |data|)
      case End(_, _) => Plus(place, 16 + |data|)
      case _ => Plus(place, 16)
    }

    /** What the ADDR word has to be, if it matters. */
    predicate Names(addr: Word) {
      match this
      case Cnt(_, _) => true
      case End(_, _) => true
      case Next(_, to, _) => addr == to
      case _ => addr == at
    }
  }

  // ---------------------------------------------------------------------------
  // In memory
  // ---------------------------------------------------------------------------

  /** A word as four bytes, lowest first. */
  ghost predicate Stored(m: Mem, t: Word, w: Word) {
    && OneArea(t, 4)
    && ByteAt(m, t) == Some(w % 0x100) && ByteAt(m, Plus(t, 1)) == Some(w / 0x100 % 0x100)
    && ByteAt(m, Plus(t, 2)) == Some(w / 0x1_0000 % 0x100) && ByteAt(m, Plus(t, 3)) == Some(w / 0x100_0000)
  }

  /** The control word: the quadword count in bits 0 to 15, the kind in bits 28 to 30, and two fields that
      do not matter. */
  function Control(kind: nat, qwc: nat, spare: nat, irq: nat): Word
    requires kind < 8 && qwc < 0x1_0000 && spare < 0x1000 && irq < 2
  {
    qwc + 0x1_0000 * spare + 0x1000_0000 * kind + 0x8000_0000 * irq
  }

  /** A control word of this kind and count, and behind it the ADDR word. */
  ghost predicate TagAt(m: Mem, t: Word, kind: nat, qwc: nat, addr: Word) {
    && kind < 8 && qwc < 0x1_0000 && Stored(m, Plus(t, 4), addr)
    && exists spare: nat, irq: nat :: spare < 0x1000 && irq < 2 && Stored(m, t, Control(kind, qwc, spare, irq))
  }

  ghost predicate DataAt(m: Mem, from: Word, data: Bytes) {
    data != [] ==> OneArea(from, |data|) && forall k | 0 <= k < |data| :: ByteAt(m, Plus(from, k)) == Some(data[k])
  }

  ghost predicate Holds(m: Mem, l: Link) {
    && |l.data| % 16 == 0 && DataAt(m, l.DataPlace(), l.data)
    && exists addr: Word :: l.Names(addr) && TagAt(m, l.place, l.Number(), |l.data| / 16, addr)
  }

  /** Memory holds these links from t on, each where the one before it demands, and none is the last. */
  ghost predicate Led(m: Mem, t: Word, ls: seq<Link>)
    decreases |ls|
  {
    ls != [] ==> ls[0].place == t && Holds(m, ls[0]) && !ls[0].Last() && Led(m, ls[0].After(), ls[1..])
  }

  function Reached(t: Word, ls: seq<Link>): Word
    decreases |ls|
  {
    if ls == [] then t else Reached(ls[0].After(), ls[1..])
  }

  /** A whole chain: links that go on, and a last one. */
  ghost predicate Listed(m: Mem, t: Word, ls: seq<Link>) {
    && ls != []
    && var n := |ls| - 1;
       Led(m, t, ls[..n]) && ls[n].place == Reached(t, ls[..n]) && Holds(m, ls[n]) && ls[n].Last()
  }

  /** The data of the links in order; an empty one is not handed over. */
  function Data(ls: seq<Link>): seq<Bytes>
    decreases |ls|
  {
    if ls == [] then [] else (if ls[0].data == [] then [] else [ls[0].data]) + Data(ls[1..])
  }

  function Quadwords(ls: seq<Link>): nat
    decreases |ls|
  {
    if ls == [] then 0 else |ls[0].data| / 16 + Quadwords(ls[1..])
  }

  // ---------------------------------------------------------------------------
  // Reading
  // ---------------------------------------------------------------------------

  lemma ControlFields(kind: nat, qwc: nat, spare: nat, irq: nat)
    requires kind < 8 && qwc < 0x1_0000 && spare < 0x1000 && irq < 2
    ensures var w := Control(kind, qwc, spare, irq); w % 0x1_0000 == qwc && w / 0x1000_0000 % 8 == kind
  {
    var w := Control(kind, qwc, spare, irq);
    DivMod(w, 0x1_0000, spare + 0x1000 * kind + 0x8000 * irq, qwc);
    DivMod(w, 0x1000_0000, kind + 8 * irq, qwc + 0x1_0000 * spare);
  }

  /** Every word is one of these. */
  lemma ControlOf(w: Word)
    ensures w % 0x1_0000 < 0x1_0000 && w / 0x1000_0000 % 8 < 8
    ensures w == Control(w / 0x1000_0000 % 8, w % 0x1_0000, w / 0x1_0000 % 0x1000, w / 0x8000_0000)
  {
    assert w == w / 0x1_0000 * 0x1_0000 + w % 0x1_0000;
    assert w / 0x1_0000 == w / 0x1000_0000 * 0x1000 + w / 0x1_0000 % 0x1000;
    assert w / 0x1000_0000 == w / 0x8000_0000 * 8 + w / 0x1000_0000 % 8;
  }

  lemma WordBytes(w: Word)
    ensures Assemble(w % 0x100, w / 0x100 % 0x100, w / 0x1_0000 % 0x100, w / 0x100_0000) == w
  {
    assert w == w / 0x100 * 0x100 + w % 0x100;
    assert w / 0x100 == w / 0x1_0000 * 0x100 + w / 0x100 % 0x100;
    assert w / 0x1_0000 == w / 0x100_0000 * 0x100 + w / 0x1_0000 % 0x100;
  }

  lemma BytesOf(b0: Byte, b1: Byte, b2: Byte, b3: Byte)
    ensures var a := Assemble(b0, b1, b2, b3);
            a % 0x100 == b0 && a / 0x100 % 0x100 == b1 && a / 0x1_0000 % 0x100 == b2 && a / 0x100_0000 == b3
  {}

  lemma FourBytes(m: Mem, t: Word, c: Bytes)
    requires |c| == 4
    ensures (forall k | 0 <= k < 4 :: ByteAt(m, Plus(t, k)) == Some(c[k])) <==>
            && ByteAt(m, t) == Some(c[0]) && ByteAt(m, Plus(t, 1)) == Some(c[1])
            && ByteAt(m, Plus(t, 2)) == Some(c[2]) && ByteAt(m, Plus(t, 3)) == Some(c[3])
  {
    assert Plus(t, 0) == t;
    if ByteAt(m, Plus(t, 0)) == Some(c[0]) && ByteAt(m, Plus(t, 1)) == Some(c[1])
       && ByteAt(m, Plus(t, 2)) == Some(c[2]) && ByteAt(m, Plus(t, 3)) == Some(c[3]) {
      forall k | 0 <= k < 4 ensures ByteAt(m, Plus(t, k)) == Some(c[k]) {
        if k == 0 {} else if k == 1 {} else if k == 2 {} else {}
      }
    }
  }

  /** A word written out is read back. */
  lemma StoredRead(m: Mem, t: Word, w: Word)
    requires |m.ram| <= 0x8000_0000 && Stored(m, t, w)
    ensures Resolve(m, t, 4).Some? && Read32(Resolve(m, t, 4).value, 0) == w
  {
    ResolveBytes(m, t, 4);
    var b: Bytes := [w % 0x100, w / 0x100 % 0x100, w / 0x1_0000 % 0x100, w / 0x100_0000];
    FourBytes(m, t, b);
    var c := Resolve(m, t, 4);
    assert c.Some?;
    assert forall k | 0 <= k < 4 :: ByteAt(m, Plus(t, k)) == Some(c.value[k]);
    FourBytes(m, t, c.value);
    WordBytes(w);
  }

  /** And whatever is read was written out. */
  lemma ReadStored(m: Mem, t: Word)
    requires |m.ram| <= 0x8000_0000 && Resolve(m, t, 4).Some?
    ensures Stored(m, t, Read32(Resolve(m, t, 4).value, 0))
  {
    ResolveBytes(m, t, 4);
    var c := Resolve(m, t, 4).value;
    FourBytes(m, t, c);
    BytesOf(c[0], c[1], c[2], c[3]);
  }

  lemma TagRead(m: Mem, t: Word, kind: nat, qwc: nat, addr: Word)
    requires |m.ram| <= 0x8000_0000 && TagAt(m, t, kind, qwc, addr)
    ensures ReadTag(m, t) == Some(Tag(kind, qwc, addr))
  {
    var spare: nat, irq: nat :| spare < 0x1000 && irq < 2 && Stored(m, t, Control(kind, qwc, spare, irq));
    StoredRead(m, t, Control(kind, qwc, spare, irq));
    StoredRead(m, Plus(t, 4), addr);
    ControlFields(kind, qwc, spare, irq);
  }

  lemma ReadIsTag(m: Mem, t: Word)
    requires |m.ram| <= 0x8000_0000 && ReadTag(m, t).Some?
    ensures var tag := ReadTag(m, t).value; TagAt(m, t, tag.id, tag.qwc, tag.addr)
  {
    ReadStored(m, t);
    ReadStored(m, Plus(t, 4));
    var w := Read32(Resolve(m, t, 4).value, 0);
    ControlOf(w);
    var spare: nat, irq: nat := w / 0x1_0000 % 0x1000, w / 0x8000_0000;
    assert Stored(m, t, Control(w / 0x1000_0000 % 8, w % 0x1_0000, spare, irq));
  }

  lemma DataRead(m: Mem, from: Word, data: Bytes)
    requires |m.ram| <= 0x8000_0000 && |data| % 16 == 0 && DataAt(m, from, data)
    ensures Blocks(m, from, |data| / 16) == Some(if data == [] then [] else [data])
  {
    if data != [] {
      ResolveBytes(m, from, |data|);
      var r := Resolve(m, from, |data|);
      assert forall k | 0 <= k < |data| :: ByteAt(m, Plus(from, k)) == Some(r.value[k]) && r.value[k] == data[k];
      assert r.value == data;
    }
  }

  lemma ReadIsData(m: Mem, from: Word, qwc: nat, b: seq<Bytes>)
    requires |m.ram| <= 0x8000_0000 && Blocks(m, from, qwc) == Some(b)
    ensures var data := if b == [] then [] else b[0];
            b == (if data == [] then [] else [data]) && |data| == 16 * qwc && DataAt(m, from, data)
  {
    if qwc > 0 { ResolveBytes(m, from, 16 * qwc); }
  }

  // ---------------------------------------------------------------------------
  // The walk, on a view of memory
  // ---------------------------------------------------------------------------

  function Handed(l: Link): Progress {
    Progress(if l.data == [] then [] else [l.data], |l.data| / 16, l.After())
  }

  /** The links from t on taken together. */
  function HandedAll(t: Word, ls: seq<Link>): Progress { Progress(Data(ls), Quadwords(ls), Reached(t, ls)) }

  /** The view has this tag, with or without its data. */
  ghost predicate Shows(v: View, l: Link) {
    exists addr: Word :: l.Names(addr) && v.tag(l.place) == Some(Tag(l.Number(), |l.data| / 16, addr))
  }

  ghost predicate Gives(v: View, l: Link) {
    |l.data| % 16 == 0 && Shows(v, l) && v.data(l.DataPlace(), |l.data| / 16) == Some(Handed(l).blocks)
  }

  ghost predicate GivesAll(v: View, t: Word, ls: seq<Link>)
    decreases |ls|
  {
    ls != [] ==> ls[0].place == t && Gives(v, ls[0]) && !ls[0].Last() && GivesAll(v, ls[0].After(), ls[1..])
  }

  lemma TagPlaces(l: Link, addr: Word, tag: Tag)
    requires |l.data| % 16 == 0 && l.Names(addr) && tag == Tag(l.Number(), |l.data| / 16, addr)
    ensures Source(tag, l.place) == l.DataPlace() && Follow(tag, l.place) == l.After()
    ensures if l.Last() then Stops(tag) && !Continues(tag) else Continues(tag) && !Stops(tag)
  {
    assert 16 * tag.qwc == |l.data|;
  }

  lemma LinkTransfers(v: View, l: Link)
    requires Gives(v, l)
    ensures if l.Last() then Stop(v, l.place) == Some(Handed(l)) && Stride(v, l.place).None?
            else Stride(v, l.place) == Some(Handed(l))
  {
    var addr: Word :| l.Names(addr) && v.tag(l.place) == Some(Tag(l.Number(), |l.data| / 16, addr));
    TagPlaces(l, addr, v.tag(l.place).value);
  }

  lemma LinkLacks(v: View, l: Link, c: Channel, g: nat)
    requires |l.data| % 16 == 0 && Shows(v, l) && v.data(l.DataPlace(), |l.data| / 16).None? && c.tadr == l.place && g > 0
    ensures Walk(v, c, g) == if l.Last() then Done(c.(error := OutOfBounds, tadr := l.After())) else c.(error := OutOfBounds)
  {
    var addr: Word :| l.Names(addr) && v.tag(l.place) == Some(Tag(l.Number(), |l.data| / 16, addr));
    TagPlaces(l, addr, v.tag(l.place).value);
  }

  lemma HandedStep(t: Word, ls: seq<Link>)
    requires ls != []
    ensures Join(Handed(ls[0]), HandedAll(ls[0].After(), ls[1..])) == HandedAll(t, ls)
  {}

  /** The channel once these links are through. */
  function Carried(c: Channel, ls: seq<Link>): Channel {
    c.(tadr := Reached(c.tadr, ls), sink := c.sink + Data(ls), moved := Plus(c.moved, Quadwords(ls)))
  }

  lemma CarriedMoved(c: Channel, ls: seq<Link>)
    ensures Carried(c, ls) == Moved(c, HandedAll(c.tadr, ls))
  {}

  /** The loop takes links that go on in its stride. */
  lemma {:induction false} WalkGiven(v: View, c: Channel, ls: seq<Link>, g: nat)
    requires GivesAll(v, c.tadr, ls) && |ls| <= g
    ensures Walk(v, c, g) == Walk(v, Moved(c, HandedAll(c.tadr, ls)), g - |ls|)
    decreases |ls|
  {
    if ls == [] {
      MovedNowhere(c);
    } else {
      LinkTransfers(v, ls[0]);
      WalkGiven(v, Moved(c, Handed(ls[0])), ls[1..], g - 1);
      MovedTwice(c, Handed(ls[0]), HandedAll(ls[0].After(), ls[1..]));
      HandedStep(c.tadr, ls);
    }
  }

  lemma HeldGiven(m: Mem, l: Link)
    requires |m.ram| <= 0x8000_0000 && Holds(m, l)
    ensures Gives(ViewOf(m), l)
  {
    var addr: Word :| l.Names(addr) && TagAt(m, l.place, l.Number(), |l.data| / 16, addr);
    TagRead(m, l.place, l.Number(), |l.data| / 16, addr);
    DataRead(m, l.DataPlace(), l.data);
    assert ViewOf(m).tag(l.place) == Some(Tag(l.Number(), |l.data| / 16, addr));
  }

  lemma {:induction false} LedGiven(m: Mem, t: Word, ls: seq<Link>)
    requires |m.ram| <= 0x8000_0000 && Led(m, t, ls)
    ensures GivesAll(ViewOf(m), t, ls)
    decreases |ls|
  {
    if ls != [] {
      HeldGiven(m, ls[0]);
      LedGiven(m, ls[0].After(), ls[1..]);
    }
  }

  lemma WalkLed(m: Mem, c: Channel, ls: seq<Link>, g: nat)
    requires |m.ram| <= 0x8000_0000 && Led(m, c.tadr, ls) && |ls| <= g
    ensures Walk(ViewOf(m), c, g) == Walk(ViewOf(m), Carried(c, ls), g - |ls|)
  {
    LedGiven(m, c.tadr, ls);
    WalkGiven(ViewOf(m), c, ls, g);
    CarriedMoved(c, ls);
  }

  // ---------------------------------------------------------------------------
  // What a kick does
  // ---------------------------------------------------------------------------

  lemma OneHanded(t: Word, l: Link)
    ensures HandedAll(t, [l]) == Handed(l) && Join(HandedAll(t, []), Handed(l)) == Handed(l)
  {
    assert [l][1..] == [];
    assert Data([l]) == Handed(l).blocks + Data([]) && Quadwords([l]) == |l.data| / 16 && Reached(t, [l]) == l.After();
    assert Handed(l).blocks + [] == Handed(l).blocks == [] + Handed(l).blocks;
  }

  lemma {:induction false} SumsSnoc(t: Word, ls: seq<Link>)
    requires ls != []
    ensures var n := |ls| - 1; Join(HandedAll(t, ls[..n]), Handed(ls[n])) == HandedAll(t, ls)
    decreases |ls|
  {
    var n := |ls| - 1;
    if n == 0 {
      assert ls[..0] == [] && ls == [ls[0]];
      OneHanded(t, ls[0]);
    } else {
      SumsSnoc(ls[0].After(), ls[1..]);
      assert ls[1..][..n - 1] == ls[..n][1..];
      assert Data(ls[..n]) + Handed(ls[n]).blocks == Data(ls);
    }
  }

  lemma WalkListed(v: View, c: Channel, ls: seq<Link>, g: nat)
    requires ls != [] && |ls| <= g
    requires var n := |ls| - 1;
             GivesAll(v, c.tadr, ls[..n]) && ls[n].place == Reached(c.tadr, ls[..n]) && Gives(v, ls[n]) && ls[n].Last()
    ensures Walk(v, c, g) == Done(Carried(c, ls))
  {
    var n := |ls| - 1;
    WalkGiven(v, c, ls[..n], g);
    LinkTransfers(v, ls[n]);
    MovedTwice(c, HandedAll(c.tadr, ls[..n]), Handed(ls[n]));
    SumsSnoc(c.tadr, ls);
    CarriedMoved(c, ls);
  }

  lemma {:induction false} ReachedLast(t: Word, ls: seq<Link>)
    requires ls != []
    ensures Reached(t, ls) == ls[|ls| - 1].After()
    decreases |ls|
  {
    if |ls| > 1 { ReachedLast(ls[0].After(), ls[1..]); }
  }

  /** A chain of at most 4096 links in memory is handed over data by data in its order, all counted, with
      STR cleared, completion signalled, and TADR left where the last link demands. */
  lemma KickListed(m: Mem, c: Channel, ls: seq<Link>)
    requires |m.ram| <= 0x8000_0000 && Listed(m, c.tadr, ls) && |ls| <= 4096
    ensures Kick(ViewOf(m), c) == Channel(ls[|ls| - 1].After(), ClearStart(c.chcr), Fine,
                                          Plus(c.moved, Quadwords(ls)), c.sink + Data(ls), true)
  {
    var n := |ls| - 1;
    LedGiven(m, c.tadr, ls[..n]);
    HeldGiven(m, ls[n]);
    WalkListed(ViewOf(m), c.(error := Fine), ls, MAX_TAGS);
    ReachedLast(c.tadr, ls);
  }

  /** A chain that still goes on after 4096 links is given up with an error. */
  lemma KickGivesUp(m: Mem, c: Channel, ls: seq<Link>)
    requires |m.ram| <= 0x8000_0000 && Led(m, c.tadr, ls) && |ls| == 4096
    ensures Kick(ViewOf(m), c) == Carried(c, ls).(error := UnsupportedTag, chcr := ClearStart(c.chcr))
  {
    WalkLed(m, c.(error := Fine), ls, MAX_TAGS);
  }

  /** So is one that comes to a place where no tag can be read, or only one of kind CALL or RET. */
  lemma KickBreaksOff(m: Mem, c: Channel, ls: seq<Link>)
    requires |m.ram| <= 0x8000_0000 && Led(m, c.tadr, ls) && |ls| < 4096
    requires forall kind: nat, qwc: nat, addr: Word | TagAt(m, Reached(c.tadr, ls), kind, qwc, addr) :: kind == 5 || kind == 6
    ensures Kick(ViewOf(m), c) == Carried(c, ls).(error := UnsupportedTag, chcr := ClearStart(c.chcr))
  {
    WalkLed(m, c.(error := Fine), ls, MAX_TAGS);
    if ReadTag(m, Reached(c.tadr, ls)).Some? { ReadIsTag(m, Reached(c.tadr, ls)); }
    WalkBroken(ViewOf(m), Carried(c.(error := Fine), ls), MAX_TAGS - |ls|);
  }

  lemma WalkBroken(v: View, c: Channel, g: nat)
    requires g > 0 && (v.tag(c.tadr).Some? ==> v.tag(c.tadr).value.id in {5, 6})
    ensures Walk(v, c, g) == c.(error := UnsupportedTag, chcr := ClearStart(c.chcr))
  {}

  /** The tag of a link is there and its data is not. */
  ghost predicate Lacking(m: Mem, l: Link) {
    && |l.data| > 0 && |l.data| % 16 == 0
    && (exists addr: Word :: l.Names(addr) && TagAt(m, l.place, l.Number(), |l.data| / 16, addr))
    && forall data: Bytes | |data| == |l.data| :: !DataAt(m, l.DataPlace(), data)
  }

  lemma LackingShown(m: Mem, l: Link)
    requires |m.ram| <= 0x8000_0000 && Lacking(m, l)
    ensures Shows(ViewOf(m), l) && ViewOf(m).data(l.DataPlace(), |l.data| / 16).None?
  {
    var addr: Word :| l.Names(addr) && TagAt(m, l.place, l.Number(), |l.data| / 16, addr);
    TagRead(m, l.place, l.Number(), |l.data| / 16, addr);
    assert ViewOf(m).tag(l.place) == Some(Tag(l.Number(), |l.data| / 16, addr));
    var b := Blocks(m, l.DataPlace(), |l.data| / 16);
    if b.Some? {
      ReadIsData(m, l.DataPlace(), |l.data| / 16, b.value);
      assert false;
    }
  }

  /** If the data of a link is missing, one that goes on leaves TADR at its tag and STR as it was, without
      a signal; a last one still completes. */
  lemma KickLacks(m: Mem, c: Channel, ls: seq<Link>, l: Link)
    requires |m.ram| <= 0x8000_0000 && Led(m, c.tadr, ls) && |ls| < 4096 && l.place == Reached(c.tadr, ls) && Lacking(m, l)
    ensures Kick(ViewOf(m), c) ==
            if l.Last() then Carried(c, ls).(error := OutOfBounds, tadr := l.After(), chcr := ClearStart(c.chcr), signalled := true)
            else Carried(c, ls).(error := OutOfBounds)
  {
    WalkLed(m, c.(error := Fine), ls, MAX_TAGS);
    LackingShown(m, l);
    LinkLacks(ViewOf(m), l, Carried(c.(error := Fine), ls), MAX_TAGS - |ls|);
  }

  // ---------------------------------------------------------------------------
  // And nothing else is a chain
  // ---------------------------------------------------------------------------

  function LinkOf(t: Word, tag: Tag, data: Bytes): Link {
    if tag.id == 0 then Refe(t, tag.addr, data)
    else if tag.id == 1 then Cnt(t, data)
    else if tag.id == 2 then Next(t, tag.addr, data)
    else if tag.id == 3 then Ref(t, tag.addr, data)
    else if tag.id == 4 then Refs(t, tag.addr, data)
    else End(t, data)
  }

  lemma LinkOfTag(t: Word, tag: Tag, data: Bytes)
    requires (Stops(tag) || Continues(tag)) && |data| == 16 * tag.qwc
    ensures var l := LinkOf(t, tag, data);
            && l.place == t && l.data == data && l.Names(tag.addr) && l.Number() == tag.id
            && l.DataPlace() == Source(tag, t) && l.After() == Follow(tag, t) && (l.Last() <==> Stops(tag))
  {}

  lemma SixteenTimes(n: nat, q: nat)
    requires n == 16 * q
    ensures n / 16 == q && n % 16 == 0
  {}

  /** A transfer of some quadwords gives one block of that many, and an empty one gives none. */
  ghost predicate Regular(v: View) {
    forall a: Word, q: nat | v.data(a, q).Some? :: OneBlock(v.data(a, q).value, q)
  }

  predicate OneBlock(b: seq<Bytes>, q: nat) { if q == 0 then b == [] else |b| == 1 && |b[0]| == 16 * q }

  lemma MemoryRegular(m: Mem)
    ensures Regular(ViewOf(m))
  {
    forall a: Word, q: nat | ViewOf(m).data(a, q).Some? ensures OneBlock(ViewOf(m).data(a, q).value, q) {
      assert ViewOf(m).data(a, q) == Blocks(m, a, q);
    }
  }

  /** The link that a transfer found. */
  lemma TransferGives(v: View, t: Word, tag: Tag, p: Progress) returns (l: Link)
    requires Regular(v) && v.tag(t) == Some(tag) && (Stops(tag) || Continues(tag)) && Transfer(v, t, tag) == Some(p)
    ensures l.place == t && Gives(v, l) && l.After() == p.at && (l.Last() <==> Stops(tag))
  {
    var b := v.data(Source(tag, t), tag.qwc).value;
    assert OneBlock(b, tag.qwc);
    var data := if b == [] then [] else b[0];
    l := LinkOf(t, tag, data);
    LinkOfTag(t, tag, data);
    SixteenTimes(|data|, tag.qwc);
    assert b == Handed(l).blocks by { if b != [] { assert b == [b[0]]; } }
    assert l.Names(tag.addr) && v.tag(l.place) == Some(Tag(l.Number(), |l.data| / 16, tag.addr));
  }

  lemma GivesCons(v: View, t: Word, l: Link, rest: seq<Link>)
    requires l.place == t && Gives(v, l) && !l.Last() && GivesAll(v, l.After(), rest)
    ensures GivesAll(v, t, [l] + rest) && Reached(t, [l] + rest) == Reached(l.After(), rest)
  {
    assert ([l] + rest)[1..] == rest;
  }

  lemma {:induction false} PassGives(v: View, t: Word, k: nat) returns (ls: seq<Link>)
    requires Regular(v) && Pass(v, t, k).Some?
    ensures |ls| == k && GivesAll(v, t, ls) && Reached(t, ls) == Pass(v, t, k).value.at
    decreases k
  {
    if k == 0 {
      ls := [];
    } else {
      var p := Stride(v, t).value;
      var l := TransferGives(v, t, v.tag(t).value, p);
      var rest := PassGives(v, p.at, k - 1);
      GivesCons(v, t, l, rest);
      ls := [l] + rest;
    }
  }

  lemma GivenHeld(m: Mem, l: Link)
    requires |m.ram| <= 0x8000_0000 && Gives(ViewOf(m), l)
    ensures Holds(m, l)
  {
    var q := |l.data| / 16;
    var addr: Word :| l.Names(addr) && ViewOf(m).tag(l.place) == Some(Tag(l.Number(), q, addr));
    assert ReadTag(m, l.place) == Some(Tag(l.Number(), q, addr));
    ReadIsTag(m, l.place);
    assert Blocks(m, l.DataPlace(), q) == Some(Handed(l).blocks);
    ReadIsData(m, l.DataPlace(), q, Handed(l).blocks);
  }

  lemma {:induction false} GivenLed(m: Mem, t: Word, ls: seq<Link>)
    requires |m.ram| <= 0x8000_0000 && GivesAll(ViewOf(m), t, ls)
    ensures Led(m, t, ls)
    decreases |ls|
  {
    if ls != [] {
      GivenHeld(m, ls[0]);
      GivenLed(m, ls[0].After(), ls[1..]);
    }
  }

  lemma FineGives(v: View, c: Channel) returns (ls: seq<Link>, l: Link)
    requires Regular(v) && Kick(v, c).error == Fine
    ensures |ls| < 4096 && GivesAll(v, c.tadr, ls) && l.place == Reached(c.tadr, ls) && Gives(v, l) && l.Last()
  {
    FineIffMeant(v, c);
    var k := Reach(v, c.tadr, MAX_TAGS);
    ls := PassGives(v, c.tadr, k);
    var at := Reached(c.tadr, ls);
    l := TransferGives(v, at, v.tag(at).value, Stop(v, at).value);
  }

  lemma FineIsListed(m: Mem, c: Channel) returns (ls: seq<Link>)
    requires |m.ram| <= 0x8000_0000 && Kick(ViewOf(m), c).error == Fine
    ensures |ls| <= 4096 && Listed(m, c.tadr, ls)
  {
    MemoryRegular(m);
    var front, l := FineGives(ViewOf(m), c);
    GivenLed(m, c.tadr, front);
    GivenHeld(m, l);
    ls := front + [l];
    assert ls[..|front|] == front;
  }

  /** A kick reports no error exactly if memory holds a chain of at most 4096 links at TADR. */
  lemma KickFineIff(m: Mem, c: Channel)
    requires |m.ram| <= 0x8000_0000
    ensures Kick(ViewOf(m), c).error == Fine <==> exists ls: seq<Link> :: |ls| <= 4096 && Listed(m, c.tadr, ls)
  {
    if Kick(ViewOf(m), c).error == Fine {
      var ls := FineIsListed(m, c);
    } else if exists ls: seq<Link> :: |ls| <= 4096 && Listed(m, c.tadr, ls) {
      var ls: seq<Link> :| |ls| <= 4096 && Listed(m, c.tadr, ls);
      KickListed(m, c, ls);
    }
  }

  /** The controller on such a chain. */
  method KickChainOf(d: Dmac, ghost ls: seq<Link>)
    requires |d.ram| <= 0x8000_0000 && Listed(Mem(d.ram, d.scratch), d.tadr, ls) && |ls| <= 4096
    modifies d
    ensures d.sink == old(d.sink) + Data(ls) && d.tadr == ls[|ls| - 1].After() && d.moved == Plus(old(d.moved), Quadwords(ls))
    ensures d.error == Fine && d.signalled && d.chcr == ClearStart(old(d.chcr))
  {
    KickListed(Mem(d.ram, d.scratch), d.Snapshot(), ls);
    d.KickChain();
  }
}
