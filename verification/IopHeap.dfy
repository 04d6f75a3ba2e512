/** The IOP heap allocator: a chain of 31-slot tables of packed words, updated in
    place by the three placement strategies, by free with two-sided coalescing,
    and by table growth and shrinkage. */
module IopHeap {
  import opened Words
  import opened HeapBlocks

  const SM_CHECK: nat := 27
  const SM_MAX: nat := 31
  const ALLOC_FIRST := 0
  const ALLOC_LAST := 1
  const ALLOC_LATER := 2

  // ---------------------------------------------------------------------------
  // What a chain of slots stands for
  // ---------------------------------------------------------------------------

  /** The blocks held by the leading non-empty slots. */
  ghost function Blocks(slots: seq<Word>): seq<Block> {
    if slots == [] || SizeOf(slots[0]) == 0 then [] else [Unpack(slots[0])] + Blocks(slots[1..])
  }

  ghost function LiveSet(slots: seq<Word>): set<Block> { Live(Blocks(slots)) }

  /** The slots hold exactly these blocks, packed, and then only zero words. */
  ghost predicate Represents(slots: seq<Word>, bs: seq<Block>) {
    && |bs| <= |slots|
    && (forall i | 0 <= i < |bs| :: bs[i].InArena() && slots[i] == Pack(bs[i]))
    && (forall i | |bs| <= i < |slots| :: slots[i] == 0)
  }

  ghost predicate Sound(slots: seq<Word>) {
    Tiles(Blocks(slots)) && Represents(slots, Blocks(slots))
  }

  /** The number of tables a chain of n blocks keeps. */
  function Tables(n: nat): nat { (n + 3) / SM_MAX + 1 }

  /** The state between calls. */
  ghost predicate Whole(slots: seq<Word>) {
    Sound(slots) && |slots| == SM_MAX * Tables(|Blocks(slots)|)
  }

  lemma {:induction false} BlocksOf(slots: seq<Word>, bs: seq<Block>)
    requires Represents(slots, bs)
    ensures Blocks(slots) == bs
  {
    if bs != [] {
      PackUnpack(bs[0]);
      BlocksOf(slots[1..], bs[1..]);
    }
  }

  lemma SlotAt(slots: seq<Word>, bs: seq<Block>, k: nat)
    requires Represents(slots, bs) && k < |slots|
    ensures Unpack(slots[k]) == if k < |bs| then bs[k] else Block(0, 0, false)
  {
    if k < |bs| { PackUnpack(bs[k]); }
  }

  /** One state per live set: the slots and the table count carry no history. */
  lemma Canonical(s: seq<Word>, t: seq<Word>)
    requires Whole(s) && Whole(t)
    requires LiveSet(s) == LiveSet(t)
    ensures s == t
  {
    SameLiveSameBlocks(Blocks(s), Blocks(t));
  }

  /** Live blocks never overlap and never leave the arena. */
  lemma LiveDisjoint(slots: seq<Word>, b: Block, c: Block)
    requires Whole(slots) && b in LiveSet(slots) && c in LiveSet(slots)
    ensures b.InArena()
    ensures b == c || b.End() <= c.addr || c.End() <= b.addr
  {
    var bs := Blocks(slots);
    var i: nat :| i < |bs| && bs[i] == b;
    var j: nat :| j < |bs| && bs[j] == c;
    if i < j { Ordered(bs, i, j); } else if j < i { Ordered(bs, j, i); }
  }

  /** The last table always has its check slot, and so its last four slots, empty;
      and the chain never passes 108 tables. */
  lemma ChainBounds(slots: seq<Word>)
    requires Whole(slots)
    ensures |Blocks(slots)| + 4 <= |slots|
    ensures slots[|slots| - SM_MAX + SM_CHECK] == 0
    ensures |slots| > SM_MAX ==> slots[|slots| - 2 * SM_MAX + SM_CHECK] != 0
    ensures |slots| / SM_MAX <= 108
  {
    var n := |Blocks(slots)|;
    AtMostOnePerUnit(Blocks(slots));
    assert |slots| > SM_MAX ==> |slots| - 2 * SM_MAX + SM_CHECK < n;
  }

  // ---------------------------------------------------------------------------
  // Placement, on the live set alone
  // ---------------------------------------------------------------------------

  function Units(size: nat): nat { (size + 255) / 256 }

  /** The address a request must return, given only which blocks are live. */
  ghost predicate Placement(flags: int, size: Word, mem: Word, live: set<Block>, r: nat) {
    var n := Units(size);
    if flags == ALLOC_FIRST then
      if r == 0 then n == 0 || forall a: nat :: !Fits(live, a, n)
      else r % 256 == 0 && n > 0 && Fits(live, r / 256, n) && forall a: nat | Fits(live, a, n) :: r / 256 <= a
    else if flags == ALLOC_LAST then
      if r == 0 then n == 0 || forall a: nat :: !Fits(live, a, n)
      else r % 256 == 0 && n > 0 && Fits(live, r / 256, n) && forall a: nat | Fits(live, a, n) :: a <= r / 256
    else if flags == ALLOC_LATER then
      r == if mem % 256 == 0 && n > 0 && Fits(live, mem / 256, n) then mem else 0
    else
      r == 0
  }

  ghost function Extend(live: set<Block>, r: nat, size: nat): set<Block> {
    if r == 0 then live else live + {Block(r / 256, Units(size), true)}
  }

  ghost function Remove(live: set<Block>, mem: nat): set<Block> {
    if mem % 256 == 0 then set b | b in live && b.addr != mem / 256 else live
  }

  /** A request has at most one right answer. */
  lemma PlacementUnique(flags: int, size: Word, mem: Word, live: set<Block>, r: nat, r': nat)
    requires Placement(flags, size, mem, live, r) && Placement(flags, size, mem, live, r')
    ensures r == r'
  {
    var n := Units(size);
    if flags == ALLOC_FIRST || flags == ALLOC_LAST {
      if r != 0 { assert Fits(live, r / 256, n); }
      if r' != 0 { assert Fits(live, r' / 256, n); }
    }
  }

  /** Freeing what an allocation returned gives the live set back. */
  lemma RemoveUndoesExtend(flags: int, size: Word, mem: Word, live: set<Block>, r: nat)
    requires Placement(flags, size, mem, live, r) && r != 0
    requires forall b | b in live :: b.size > 0
    ensures Remove(Extend(live, r, size), r) == live
  {
    assert r % 256 == 0 && Fits(live, r / 256, Units(size));
    assert forall b | b in live :: b.addr != r / 256;
  }

  datatype Call = Alloc(flags: int, size: Word, mem: Word) | Free(mem: Word)

  /** live -> live' is what the call does to the live set. */
  ghost predicate Step(live: set<Block>, call: Call, live': set<Block>) {
    match call
    case Alloc(flags, size, mem) =>
      exists r: nat :: Placement(flags, size, mem, live, r) && live' == Extend(live, r, size)
    case Free(mem) => live' == Remove(live, mem)
  }

  /** lives[i + 1] is what the calls up to the i-th have made of lives[0]. */
  ghost predicate Run(lives: seq<set<Block>>, calls: seq<Call>) {
    |lives| == |calls| + 1 && forall i | 0 <= i < |calls| :: Step(lives[i], calls[i], lives[i + 1])
  }

  lemma RunGrows(lives: seq<set<Block>>, calls: seq<Call>, call: Call, live: set<Block>)
    requires Run(lives, calls) && Step(lives[|calls|], call, live)
    ensures Run(lives + [live], calls + [call])
  {
    var l, c := lives + [live], calls + [call];
    forall i | 0 <= i < |c| ensures Step(l[i], c[i], l[i + 1]) {
      if i < |calls| { assert Step(lives[i], calls[i], lives[i + 1]); }
    }
  }

  /** Two runs of the same calls from the same live set agree throughout. */
  lemma {:induction false} RunDeterministic(p: seq<set<Block>>, q: seq<set<Block>>, calls: seq<Call>, k: nat)
    requires Run(p, calls) && Run(q, calls) && p[0] == q[0] && k <= |calls|
    ensures p[k] == q[k]
  {
    if k > 0 {
      RunDeterministic(p, q, calls, k - 1);
      assert Step(p[k - 1], calls[k - 1], p[k]) && Step(q[k - 1], calls[k - 1], q[k]);
      match calls[k - 1] {
        case Alloc(flags, size, mem) =>
          var r: nat :| Placement(flags, size, mem, p[k - 1], r) && p[k] == Extend(p[k - 1], r, size);
          var r': nat :| Placement(flags, size, mem, q[k - 1], r') && q[k] == Extend(q[k - 1], r', size);
          PlacementUnique(flags, size, mem, p[k - 1], r, r');
        case Free(mem) =>
      }
    }
  }

  // ---------------------------------------------------------------------------
  // Queries on the live set
  // ---------------------------------------------------------------------------

  ghost function FreeUnits(live: set<Block>, hi: nat): set<nat> {
    set u | BASE <= u < hi && u < TOP && Fits(live, u, 1)
  }

  ghost function Interval(lo: nat, hi: nat): (r: set<nat>)
    requires lo <= hi
    ensures forall u :: u in r <==> lo <= u < hi
    ensures |r| == hi - lo
  {
    if lo == hi then {} else Interval(lo, hi - 1) + {hi - 1}
  }

  /** Passing one block adds its units to the free units, or none if it is live. */
  lemma FreeUnitsStep(bs: seq<Block>, k: nat)
    requires Tiles(bs) && k < |bs|
    ensures |FreeUnits(Live(bs), bs[k].End())| ==
            |FreeUnits(Live(bs), bs[k].addr)| + if bs[k].live then 0 else bs[k].size
  {
    var b, live := bs[k], Live(bs);
    assert b in bs;
    if b.live {
      assert b in live;
      assert FreeUnits(live, b.End()) == FreeUnits(live, b.addr);
    } else {
      forall u | b.addr <= u < b.End() ensures Fits(live, u, 1) { FreeBlockFits(bs, k, u, 1); }
      assert FreeUnits(live, b.End()) == FreeUnits(live, b.addr) + Interval(b.addr, b.End());
    }
  }

  ghost function LiveUnits(bs: seq<Block>): nat {
    if bs == [] then 0 else LiveUnits(bs[..|bs| - 1]) + if bs[|bs| - 1].live then bs[|bs| - 1].size else 0
  }

  /** Free and live units always add up to the arena. */
  lemma {:induction false} Conservation(bs: seq<Block>, k: nat)
    requires Tiles(bs) && k < |bs|
    ensures |FreeUnits(Live(bs), bs[k].End())| + LiveUnits(bs[..k + 1]) == bs[k].End() - BASE
  {
    FreeUnitsStep(bs, k);
    assert bs[..k + 1][..k] == bs[..k];
    if k > 0 {
      Conservation(bs, k - 1);
      assert bs[k - 1].End() == bs[k].addr;
    } else {
      assert FreeUnits(Live(bs), BASE) == {};
    }
  }

  /** The word of the block that follows a packed one. */
  lemma WordBehind(b: Block, n: nat, live: bool)
    requires b.InArena() && Block(b.End(), n, live).InArena()
    ensures Info(AddrOf(Pack(b)) + SizeOf(Pack(b)), n, live) == Pack(Block(b.End(), n, live))
  {
    PackUnpack(b);
  }

  /** A block replaced and another inserted behind it. */
  lemma SpliceTwo(bs: seq<Block>, k: nat, front: Block, back: Block)
    requires k < |bs|
    ensures bs[k := front][..k + 1] + [back] + bs[k := front][k + 1..] == Splice(bs, k, k + 1, [front, back])
  {}

  /** Word w put into slot k, and what was there into the next, until an empty word falls out. */
  function Inserted(slots: seq<Word>, k: nat, w: Word): (r: seq<Word>)
    ensures |r| == |slots|
    decreases |slots| - k
  {
    if k >= |slots| || SizeOf(w) == 0 then slots else Inserted(slots[k := w], k + 1, slots[k])
  }

  /** Whether the check slot of the last table, or with back of the one before, is filled. */
  predicate Checked(slots: seq<Word>, back: nat) {
    var check := |slots| - (back + 1) * SM_MAX + SM_CHECK;
    0 <= check < |slots| && SizeOf(slots[check]) > 0
  }

  /** The slots of a new table. */
  function EmptySlots(): (r: seq<Word>)
    ensures |r| == SM_MAX && forall i | 0 <= i < SM_MAX :: r[i] == 0
  {
    seq(SM_MAX, _ => 0)
  }

  /** One table whose first slot is a free block over the whole arena. */
  function FreshSlots(): (r: seq<Word>)
    ensures |r| == SM_MAX
  {
    EmptySlots()[0 := 0xD00 * 0x20000 + BASE * 2]
  }

  /** A table more when the last one's check slot is filled. */
  function Widened(slots: seq<Word>): seq<Word> { if Checked(slots, 0) then slots + EmptySlots() else slots }

  /** A table fewer when the check slot before the last table is empty. */
  function Narrowed(slots: seq<Word>): seq<Word> {
    if |slots| > SM_MAX && !Checked(slots, 1) then slots[..|slots| - SM_MAX] else slots
  }

  function Maintained(slots: seq<Word>): seq<Word> { Narrowed(Widened(slots)) }

  // ---------------------------------------------------------------------------
  // What each call makes of the slots
  // ---------------------------------------------------------------------------

  /** A word with the size of another added to its own. */
  function Joined(w: Word, v: Word): Word { WithSize(w, Short(SizeOf(w) + SizeOf(v))) }

  /** How far a block reaches past a place. */
  function Past(w: Word, at: nat): nat { if AddrOf(w) + SizeOf(w) < at then 0 else AddrOf(w) + SizeOf(w) - at }

  /** A word with n units fewer. */
  function Shortened(w: Word, n: nat): Word { WithSize(w, Short(SizeOf(w) - n)) }

  /** The word of a block of n units right behind another. */
  function Behind(w: Word, n: nat, live: bool): Word { Info(AddrOf(w) + SizeOf(w), n, live) }

  /** The first n units of a word's block, live, and the rest of it. */
  function FrontOf(w: Word, n: nat): Word { WithSize(SetLive(w), Short(n)) }

  function RestOf(w: Word, n: nat): Word { WithSize(WithAddr(w, AddrOf(w) + n), Short(SizeOf(w) - n)) }

  method JoinWords(w: Word, v: Word) returns (r: Word)
    ensures r == Joined(w, v)
  {
    var size, _, _ := ReadInfo(w);
    var more, _, _ := ReadInfo(v);
    r := PutSize(w, size + more);
  }

  /** The same for a block just freed, whose mask leaves the live bit out too. */
  method JoinFree(w: Word, v: Word) returns (r: Word)
    requires !IsLive(w)
    ensures r == Joined(w, v)
  {
    var size, _, _ := ReadInfo(w);
    var more, _, _ := ReadInfo(v);
    r := PutFreeSize(w, size + more);
  }

  method ReadLive(w: Word) returns (live: bool)
    ensures live == IsLive(w)
  {
    var _, _, l := ReadInfo(w);
    live := l;
  }

  method Shorten(w: Word, n: nat) returns (r: Word)
    ensures r == Shortened(w, n)
  {
    var size, _, _ := ReadInfo(w);
    r := PutSize(w, size - n);
  }

  method PutBehind(w: Word, n: nat, live: bool) returns (r: Word)
    ensures r == Behind(w, n, live)
  {
    var size, addr, _ := ReadInfo(w);
    r := MakeInfo(addr + size, n, live);
  }

  method CutWord(w: Word, at: nat) returns (front: Word, back: Word)
    requires at <= AddrOf(w) + SizeOf(w)
    ensures front == Shortened(w, Past(w, at)) && back == Behind(front, Past(w, at), false)
  {
    var size, addr, _ := ReadInfo(w);
    var tmp := addr + size - at;
    front := Shorten(w, tmp);
    back := PutBehind(front, tmp, false);
  }

  method TakeWord(w: Word, n: nat) returns (r: Word)
    ensures r == FrontOf(w, n)
  {
    r := MarkLive(w);
    r := PutSize(r, n);
  }

  method LeaveWord(w: Word, n: nat) returns (r: Word)
    requires n < 0x100_0000
    ensures r == RestOf(w, n)
  {
    var size, addr, _ := ReadInfo(w);
    r := PutAddress(w, addr + n);
    r := PutSize(r, size - n);
  }

  lemma LiveAddress(w: Word)
    ensures AddrOf(SetLive(w)) == AddrOf(w)
  {}

  predicate Roomy(w: Word, n: nat) { !IsLive(w) && SizeOf(w) >= n }

  function FirstFit(slots: seq<Word>, n: nat, a: nat): nat
    decreases |slots| - a
  {
    if a >= |slots| then |slots| else if Roomy(slots[a], n) then a else FirstFit(slots, n, a + 1)
  }

  function LastFit(slots: seq<Word>, n: nat, a: nat): nat
    requires a <= |slots|
  {
    if a == 0 then |slots| else if Roomy(slots[a - 1], n) then a - 1 else LastFit(slots, n, a - 1)
  }

  function LaterFit(slots: seq<Word>, n: nat, at: nat, a: nat): nat
    decreases |slots| - a
  {
    if a >= |slots| || at < AddrOf(slots[a]) then |slots|
    else if !IsLive(slots[a]) && SizeOf(slots[a]) + AddrOf(slots[a]) >= at + n then a
    else LaterFit(slots, n, at, a + 1)
  }

  function FrontTaken(slots: seq<Word>, k: nat, n: nat): (r: seq<Word>)
    requires k < |slots|
    ensures |r| == |slots|
  {
    var w := slots[k];
    if SizeOf(w) == n then slots[k := SetLive(w)]
    else Inserted(slots[k := FrontOf(w, n)], k + 1, RestOf(w, n))
  }

  /** Also the address of the block taken. */
  function BackTaken(slots: seq<Word>, k: nat, n: nat): (nat, seq<Word>)
    requires k < |slots|
  {
    var w := slots[k];
    if SizeOf(w) == n then (AddrOf(w) * 256, slots[k := SetLive(w)]) else
    var front := Shortened(w, n);
    var back := Behind(front, n, true);
    (AddrOf(back) * 256, Inserted(slots[k := front], k + 1, back))
  }

  function SplitSlots(slots: seq<Word>, a: nat, at: nat): (r: seq<Word>)
    requires a < |slots|
    ensures |r| == |slots|
  {
    var w := slots[a];
    var rest := Past(w, at);
    var front := Shortened(w, rest);
    Inserted(slots[a := front], a + 1, Behind(front, rest, false))
  }

  function CarvedAt(slots: seq<Word>, a: nat, at: nat, n: nat): (nat, seq<Word>)
    requires a < |slots|
  {
    if AddrOf(slots[a]) >= at then (AddrOf(slots[a]) * 256, FrontTaken(slots, a, n)) else
    var s := SplitSlots(slots, a, at);
    if a + 1 == |s| then (0, s) else (AddrOf(s[a + 1]) * 256, FrontTaken(s, a + 1, n))
  }

  function FirstAlloc(slots: seq<Word>, n: nat): (nat, seq<Word>) {
    var a := FirstFit(slots, n, 0);
    if a >= |slots| then (0, slots) else (AddrOf(slots[a]) * 256, FrontTaken(slots, a, n))
  }

  function LastAlloc(slots: seq<Word>, n: nat): (nat, seq<Word>) {
    var k := LastFit(slots, n, |slots|);
    if k >= |slots| then (0, slots) else BackTaken(slots, k, n)
  }

  function LaterAlloc(slots: seq<Word>, n: nat, mem: Word): (nat, seq<Word>) {
    if mem % 256 != 0 then (0, slots) else
    var a := LaterFit(slots, n, mem / 256, 0);
    if a >= |slots| then (0, slots) else CarvedAt(slots, a, mem / 256, n)
  }

  /** The size in units, unless it wraps to nothing. */
  lemma RoundedUnits(size: Word)
    ensures var n := Plus(size, 255) / 256; n == Units(size) || (n == 0 && Units(size) > TOP)
  {}

  lemma {:induction false} LastFitAt(slots: seq<Word>, n: nat, a: nat)
    requires a <= |slots|
    ensures var k := LastFit(slots, n, a);
            && (k == |slots| || (k < a && Roomy(slots[k], n)))
            && forall j | 0 <= j < a && (k < j || k == |slots|) :: !Roomy(slots[j], n)
  {
    if a > 0 { LastFitAt(slots, n, a - 1); }
  }

  lemma RoomyBlock(slots: seq<Word>, bs: seq<Block>, n: nat, j: nat)
    requires Represents(slots, bs) && n > 0 && j < |slots|
    ensures Roomy(slots[j], n) <==> j < |bs| && !bs[j].live && bs[j].size >= n
  {
    SlotAt(slots, bs, j);
  }

  /** What fits anywhere ends no later than the last free block that is large enough. */
  lemma LastFitHolds(slots: seq<Word>, n: nat)
    requires Sound(slots) && n > 0
    ensures var k, bs := LastFit(slots, n, |slots|), Blocks(slots);
            && k <= |slots|
            && (k < |slots| ==> k < |bs| && !bs[k].live && bs[k].size >= n)
            && forall c: nat | Fits(Live(bs), c, n) :: k < |slots| && c + n <= bs[k].End()
  {
    var k, bs := LastFit(slots, n, |slots|), Blocks(slots);
    LastFitAt(slots, n, |slots|);
    if k < |slots| { RoomyBlock(slots, bs, n, k); }
    forall c: nat | Fits(Live(bs), c, n) ensures k < |slots| && c + n <= bs[k].End() {
      var i := FitIsInFreeBlock(bs, c, n);
      RoomyBlock(slots, bs, n, i);
      if i < k { Ordered(bs, i, k); assert bs[k] in bs; }
    }
  }

  /** do_alloc: the address returned, and the slots after it. */
  function DoneAlloc(slots: seq<Word>, flags: int, size: Word, mem: Word): (nat, seq<Word>) {
    var n := Plus(size, 255) / 256;
    if n == 0 then (0, slots) else PlacedAlloc(slots, flags, n, mem)
  }

  function PlacedAlloc(slots: seq<Word>, flags: int, n: nat, mem: Word): (nat, seq<Word>) {
    if flags == ALLOC_FIRST then FirstAlloc(slots, n)
    else if flags == ALLOC_LAST then LastAlloc(slots, n)
    else if flags == ALLOC_LATER then LaterAlloc(slots, n, mem)
    else (0, slots)
  }

  function AfterAlloc(slots: seq<Word>, flags: int, size: Word, mem: Word): (nat, seq<Word>) {
    if flags >= 3 then (0, slots) else
    var (r, s) := DoneAlloc(slots, flags, size, mem);
    (r, Maintained(s))
  }

  function Found(slots: seq<Word>, at: nat, a: nat): nat
    decreases |slots| - a
  {
    if a >= |slots| then |slots|
    else if SizeOf(slots[a]) != 0 && AddrOf(slots[a]) == at then a
    else Found(slots, at, a + 1)
  }

  predicate FreeNext(slots: seq<Word>, a: nat) { a + 1 < |slots| && !IsLive(slots[a + 1]) }

  predicate FreeBefore(slots: seq<Word>, a: nat) { 0 < a <= |slots| && !IsLive(slots[a - 1]) }

  function WithNext(slots: seq<Word>, a: nat): (r: seq<Word>)
    requires a < |slots|
    ensures |r| == |slots|
  {
    var w := ClearLive(slots[a]);
    slots[a := if FreeNext(slots, a) then Joined(w, slots[a + 1]) else w]
  }

  function WithBefore(slots: seq<Word>, a: nat): (r: seq<Word>)
    requires a < |slots|
    ensures |r| == |slots|
  {
    if FreeBefore(slots, a)
    then slots[a - 1 := Joined(slots[a - 1], slots[a])]
    else slots
  }

  /** How many slots joining leaves over, and where. */
  function Spare(slots: seq<Word>, a: nat): nat {
    (if FreeNext(slots, a) then 1 else 0) + if FreeBefore(slots, a) then 1 else 0
  }

  function SpareFrom(slots: seq<Word>, a: nat): nat { if FreeBefore(slots, a) then a else a + 1 }

  /** Block a freed and joined with the free slots on either side. */
  function Coalesced(slots: seq<Word>, a: nat): seq<Word>
    requires a < |slots|
  {
    Closed(WithBefore(WithNext(slots, a), a), SpareFrom(slots, a), Spare(slots, a))
  }

  /** do_free: whether it succeeds, and the slots after it. */
  function DoneFree(slots: seq<Word>, mem: Word): (bool, seq<Word>) {
    var a := Found(slots, mem / 256, 0);
    if mem % 256 != 0 || a >= |slots| || !IsLive(slots[a]) then (false, slots) else (true, Coalesced(slots, a))
  }

  function AfterFree(slots: seq<Word>, mem: Word): (int, seq<Word>) {
    var (ok, s) := DoneFree(slots, mem);
    if ok then (0, Maintained(s)) else (-1, slots)
  }

  /** What a call returns, and the slots after it. */
  function AfterCall(slots: seq<Word>, call: Call): (int, seq<Word>) {
    match call
    case Alloc(flags, size, mem) => var (r, s) := AfterAlloc(slots, flags, size, mem); (r, s)
    case Free(mem) => AfterFree(slots, mem)
  }

  class Heap {
    /** list[0..30].info of every table in chain order; element k's next is element k + 1. */
    var slots: seq<Word>

    constructor ()
      ensures Whole(slots) && LiveSet(slots) == {} && slots == FreshSlots()
    {
      slots := FreshSlots();
      new;
      BlocksOf(slots, [Block(BASE, TOP - BASE, false)]);
    }

    /** Inserts a word before slot k, moving the rest forward until an empty word falls out. */
    method Shuffle(k: nat, w: Word, ghost b: Block, ghost bs: seq<Block>)
      requires Represents(slots, bs) && k <= |bs| < |slots|
      requires b.InArena() && w == Pack(b)
      modifies this
      ensures slots == Inserted(old(slots), k, w)
      ensures |slots| == old(|slots|) && Represents(slots, bs[..k] + [b] + bs[k..])
    {
      InsertedRepresents(slots, k, w, b, bs);
      var a, i := k, w;
      while a < |slots| && SizeOf(i) > 0
        invariant 0 <= a && Inserted(slots, a, i) == Inserted(old(slots), k, w)
      {
        slots, i := slots[a := i], slots[a];
        a := a + 1;
      }
    }

    /** A free block of just the right size. */
    method TakeWhole(k: nat, ghost bs: seq<Block>) returns (r: nat)
      requires Represents(slots, bs) && k < |bs| < |slots| && !bs[k].live
      modifies this
      ensures slots == old(slots)[k := SetLive(old(slots)[k])] && r == AddrOf(old(slots)[k]) * 256
      ensures |slots| == old(|slots|) && r == bs[k].addr * 256
      ensures Represents(slots, bs[k := bs[k].(live := true)])
    {
      WholeRepresents(slots, bs, k);
      var w := MarkLive(slots[k]);
      slots := slots[k := w];
      var _, addr, _ := ReadInfo(w);
      return addr * 256;
    }

    /** Marks the first n units of free block k live, splitting off the rest. */
    method TakeFront(k: nat, n: nat, ghost bs: seq<Block>) returns (r: nat)
      requires Represents(slots, bs) && k < |bs| < |slots|
      requires !bs[k].live && 0 < n <= bs[k].size
      modifies this
      ensures slots == FrontTaken(old(slots), k, n) && r == AddrOf(old(slots)[k]) * 256
      ensures |slots| == old(|slots|) && r == bs[k].addr * 256
      ensures Represents(slots, Splice(bs, k, k + 1, Taken(bs[k], n)))
    {
      FrontRepresents(slots, bs, k, n);
      var size, addr, _ := ReadInfo(slots[k]);
      if size == n {
        r := TakeWhole(k, bs);
        return;
      }
      r := addr * 256;
      var i := LeaveWord(slots[k], n);
      var w := TakeWord(slots[k], n);
      slots := slots[k := w];
      ghost var front, back := Block(bs[k].addr, n, true), Block(bs[k].addr + n, bs[k].size - n, false);
      Shuffle(k + 1, i, back, bs[k := front]);
    }

    /** The scan of ALLOC_FIRST: the first free slot of n units or more. */
    method FindFirst(n: nat) returns (a: nat)
      requires Sound(slots) && n > 0
      ensures a == FirstFit(slots, n, 0) && a <= |slots|
      ensures a < |slots| ==> a < |Blocks(slots)| && !Blocks(slots)[a].live && Blocks(slots)[a].size >= n
      ensures forall c: nat | Fits(LiveSet(slots), c, n) :: a < |slots| && Blocks(slots)[a].addr <= c
    {
      ghost var bs := Blocks(slots);
      a := 0;
      while a < |slots|
        invariant a <= |slots| && FirstFit(slots, n, a) == FirstFit(slots, n, 0)
        invariant forall j | 0 <= j < a && j < |bs| :: bs[j].live || bs[j].size < n
      {
        SlotAt(slots, bs, a);
        var size, _, live := ReadInfo(slots[a]);
        if !live && size >= n { break; }
        a := a + 1;
      }
      forall c: nat | Fits(Live(bs), c, n) ensures a < |slots| && bs[a].addr <= c {
        var i := FitIsInFreeBlock(bs, c, n);
        if a < i { Ordered(bs, a, i); assert bs[a] in bs; }
      }
    }

    /** The scan of ALLOC_LAST: the last free slot of n units or more, or the chain length. */
    method FindLast(n: nat) returns (k: nat)
      requires Sound(slots) && n > 0
      ensures k == LastFit(slots, n, |slots|) && k <= |slots|
      ensures k < |slots| ==> k < |Blocks(slots)| && !Blocks(slots)[k].live && Blocks(slots)[k].size >= n
      ensures forall c: nat | Fits(LiveSet(slots), c, n) :: k < |slots| && c + n <= Blocks(slots)[k].End()
    {
      var a := 0;
      k := |slots|;
      while a < |slots|
        invariant a <= |slots| && k == LastFit(slots, n, a)
      {
        var size, _, live := ReadInfo(slots[a]);
        if !live && size >= n { k := a; }
        a := a + 1;
      }
      LastFitHolds(slots, n);
    }

    /** The scan of ALLOC_LATER: the free slot holding the n units at `at`, or the chain length. */
    method FindLater(n: nat, at: nat) returns (a: nat)
      requires Sound(slots) && n > 0
      ensures a == LaterFit(slots, n, at, 0) && a <= |slots|
      ensures a < |slots| <==> Fits(LiveSet(slots), at, n)
      ensures a < |slots| ==> a < |Blocks(slots)| && !Blocks(slots)[a].live
                              && Blocks(slots)[a].addr <= at && at + n <= Blocks(slots)[a].End()
    {
      ghost var bs := Blocks(slots);
      a := 0;
      while a < |slots|
        invariant a <= |slots| && LaterFit(slots, n, at, a) == LaterFit(slots, n, at, 0)
        invariant forall j | 0 <= j < a && j < |bs| :: bs[j].live || bs[j].End() < at + n
      {
        SlotAt(slots, bs, a);
        var size, addr, live := ReadInfo(slots[a]);
        if at < addr {
          NothingLater(bs, a, at, n);
          return |slots|;
        }
        if !live && size + addr >= at + n {
          FreeBlockFits(bs, a, at, n);
          return;
        }
        a := a + 1;
      }
      NothingLater(bs, |bs|, at, n);
    }

    /** Case ALLOC_FIRST. */
    method AllocFirst(n: nat) returns (r: nat)
      requires Sound(slots) && |Blocks(slots)| < |slots| && n > 0
      modifies this
      ensures (r, slots) == FirstAlloc(old(slots), n)
      ensures Carved(old(slots), slots, r, n)
      ensures r == 0 ==> forall a: nat :: !Fits(LiveSet(old(slots)), a, n)
      ensures r != 0 ==> forall a: nat | Fits(LiveSet(old(slots)), a, n) :: r / 256 <= a
    {
      ghost var bs := Blocks(slots);
      var a := FindFirst(n);
      if a == |slots| { return 0; }
      r := TakeFront(a, n, bs);
      CarveSound(old(slots), slots, a, bs[a].addr, n);
    }

    /** Marks the last n units of free block k live, in a slot of their own unless they are all of it. */
    method TakeBack(k: nat, n: nat, ghost bs: seq<Block>) returns (r: nat)
      requires Represents(slots, bs) && k < |bs| < |slots|
      requires !bs[k].live && 0 < n <= bs[k].size
      modifies this
      ensures (r, slots) == BackTaken(old(slots), k, n)
      ensures |slots| == old(|slots|) && r == (bs[k].End() - n) * 256
      ensures Represents(slots, Splice(bs, k, k + 1, Middle(bs[k], bs[k].End() - n, n)))
    {
      BackRepresents(slots, bs, k, n);
      var size, _, _ := ReadInfo(slots[k]);
      if size == n {
        r := TakeWhole(k, bs);
        return;
      }
      var w := Shorten(slots[k], n);
      slots := slots[k := w];
      var i := PutBehind(w, n, true);
      var _, place, _ := ReadInfo(i);
      r := place * 256;
      ghost var front, back := Block(bs[k].addr, bs[k].size - n, false), Block(bs[k].End() - n, n, true);
      Shuffle(k + 1, i, back, bs[k := front]);
    }

    /** Case ALLOC_LAST. */
    method AllocLast(n: nat) returns (r: nat)
      requires Sound(slots) && |Blocks(slots)| < |slots| && n > 0
      modifies this
      ensures (r, slots) == LastAlloc(old(slots), n)
      ensures Carved(old(slots), slots, r, n)
      ensures r == 0 ==> forall a: nat :: !Fits(LiveSet(old(slots)), a, n)
      ensures r != 0 ==> forall a: nat | Fits(LiveSet(old(slots)), a, n) :: a <= r / 256
    {
      var k := FindLast(n);
      if k == |slots| { return 0; }
      ghost var top := Blocks(slots)[k].End() - n;
      r := TakeBack(k, n, Blocks(slots));
      assert r / 256 == top;
      CarveSound(old(slots), slots, k, top, n);
    }

    /** Cuts free block a in two at `at`. */
    method SplitAt(a: nat, at: nat, ghost bs: seq<Block>)
      requires Represents(slots, bs) && a < |bs| < |slots|
      requires !bs[a].live && bs[a].addr < at < bs[a].End()
      modifies this
      ensures slots == SplitSlots(old(slots), a, at) && |slots| == old(|slots|)
      ensures Represents(slots, Splice(bs, a, a + 1, Halves(bs[a], at)))
    {
      SplitRepresents(slots, bs, a, at);
      var w, i := CutWord(slots[a], at);
      slots := slots[a := w];
      ghost var front, back := Block(bs[a].addr, at - bs[a].addr, false), Block(at, bs[a].End() - at, false);
      Shuffle(a + 1, i, back, bs[a := front]);
    }

    /** Case ALLOC_LATER. */
    method AllocLater(n: nat, mem: Word) returns (r: nat)
      requires Sound(slots) && |Blocks(slots)| + 1 < |slots| && n > 0
      modifies this
      ensures (r, slots) == LaterAlloc(old(slots), n, mem)
      ensures Carved(old(slots), slots, r, n)
      ensures r == if mem % 256 == 0 && Fits(LiveSet(old(slots)), mem / 256, n) then mem else 0
    {
      if mem % 256 != 0 { return 0; }
      var at := mem / 256;
      ghost var bs := Blocks(slots);
      var a := FindLater(n, at);
      if a == |slots| { return 0; }
      r := CarveAt(a, at, n, bs);
      CarveSound(old(slots), slots, a, at, n);
    }

    /** Takes n units at a given place in free block a, splitting it there first if need be. */
    method CarveAt(a: nat, at: nat, n: nat, ghost bs: seq<Block>) returns (r: nat)
      requires Represents(slots, bs) && a < |bs| && |bs| + 1 < |slots| && !bs[a].live
      requires n > 0 && bs[a].addr <= at && at + n <= bs[a].End()
      modifies this
      ensures (r, slots) == CarvedAt(old(slots), a, at, n)
      ensures |slots| == old(|slots|) && r == at * 256
      ensures Represents(slots, Splice(bs, a, a + 1, Middle(bs[a], at, n)))
    {
      SlotAt(slots, bs, a);
      var _, addr, _ := ReadInfo(slots[a]);
      if addr < at {
        SplitAt(a, at, bs);
        SplitThenTake(bs, a, at, n);
        r := TakeFront(a + 1, n, Splice(bs, a, a + 1, Halves(bs[a], at)));
      } else {
        r := TakeFront(a, n, bs);
      }
    }

    /** do_maintain: one table more when the last one's check slot fills, one fewer when
        the check slot before it empties. */
    method Maintain(ghost bs: seq<Block>, ghost m: nat)
      requires Represents(slots, bs) && |slots| == SM_MAX * Tables(m)
      requires m - 2 <= |bs| <= m + 2
      modifies this
      ensures slots == Maintained(old(slots))
      ensures Represents(slots, bs) && |slots| == SM_MAX * Tables(|bs|)
    {
      TableSteps(m, |bs|);
      var check := |slots| - SM_MAX + SM_CHECK;
      SlotAt(slots, bs, check);
      if SizeOf(slots[check]) > 0 {
        slots := slots + EmptySlots();
      }
      if |slots| > SM_MAX {
        check := |slots| - 2 * SM_MAX + SM_CHECK;
        SlotAt(slots, bs, check);
        if SizeOf(slots[check]) == 0 {
          slots := slots[..|slots| - SM_MAX];
        }
      }
    }

    /** do_alloc. */
    method DoAlloc(flags: int, size: Word, mem: Word) returns (r: nat)
      requires Sound(slots) && |Blocks(slots)| + 1 < |slots|
      modifies this
      ensures (r, slots) == DoneAlloc(old(slots), flags, size, mem)
      ensures Carved(old(slots), slots, r, Units(size))
      ensures Placement(flags, size, mem, LiveSet(old(slots)), r)
    {
      RoundedUnits(size);
      var n := Plus(size, 255) / 256;
      if n == 0 { return 0; }
      r := Place(flags, n, size, mem);
    }

    /** The three strategies. */
    method Place(flags: int, n: nat, size: Word, mem: Word) returns (r: nat)
      requires Sound(slots) && |Blocks(slots)| + 1 < |slots| && n == Units(size) > 0
      modifies this
      ensures (r, slots) == PlacedAlloc(old(slots), flags, n, mem)
      ensures Carved(old(slots), slots, r, n)
      ensures Placement(flags, size, mem, LiveSet(old(slots)), r)
    {
      if flags == ALLOC_FIRST {
        r := AllocFirst(n);
      } else if flags == ALLOC_LAST {
        r := AllocLast(n);
      } else if flags == ALLOC_LATER {
        r := AllocLater(n, mem);
      } else {
        r := 0;
      }
    }

    /** iop_heap_alloc. */
    method Alloc(flags: int, size: Word, mem: Word) returns (r: nat)
      requires Whole(slots)
      modifies this
      ensures Whole(slots) && (r, slots) == AfterAlloc(old(slots), flags, size, mem)
      ensures Placement(flags, size, mem, old(LiveSet(slots)), r)
      ensures LiveSet(slots) == Extend(old(LiveSet(slots)), r, size)
      ensures r == 0 ==> slots == old(slots)
    {
      if flags >= 3 { return 0; }
      ChainBounds(slots);
      r := DoAlloc(flags, size, mem);
      ghost var bs := Blocks(slots);
      Maintain(bs, |Blocks(old(slots))|);
      BlocksOf(slots, bs);
      if r == 0 { Canonical(slots, old(slots)); }
    }

    /** Copies the slots from n + skip on down to n. */
    method CloseGap(n: nat, skip: nat)
      requires n + skip <= |slots|
      modifies this
      ensures slots == Closed(old(slots), n, skip)
    {
      var a, dst := n + skip, n;
      while a < |slots|
        invariant dst + skip == a <= |slots| == |old(slots)|
        invariant forall j | 0 <= j < n :: slots[j] == old(slots)[j]
        invariant forall j | n <= j < dst :: slots[j] == old(slots)[j + skip]
        invariant forall j | dst <= j < |slots| :: slots[j] == old(slots)[j]
      {
        slots := slots[dst := slots[a]];
        a, dst := a + 1, dst + 1;
      }
    }

    /** The scan of do_free: the slot of the block starting at `at`, or the chain length. */
    method FindBlock(at: nat) returns (a: nat)
      requires Sound(slots)
      ensures a == Found(slots, at, 0) && a <= |slots|
      ensures a < |slots| ==> a < |Blocks(slots)| && Blocks(slots)[a].addr == at
      ensures a == |slots| ==> forall b | b in Blocks(slots) :: b.addr != at
    {
      ghost var bs := Blocks(slots);
      a := 0;
      while a < |slots|
        invariant a <= |slots| && Found(slots, at, a) == Found(slots, at, 0)
        invariant forall j | 0 <= j < a && j < |bs| :: bs[j].addr != at
      {
        SlotAt(slots, bs, a);
        var size, addr, _ := ReadInfo(slots[a]);
        if size != 0 && addr == at { break; }
        a := a + 1;
      }
    }

    /** do_free. */
    method DoFree(mem: Word) returns (ok: bool)
      requires Sound(slots) && |Blocks(slots)| + 2 <= |slots|
      modifies this
      ensures (ok, slots) == DoneFree(old(slots), mem)
      ensures Sound(slots) && |slots| == old(|slots|)
      ensures ok == (mem % 256 == 0 && exists b :: b in old(LiveSet(slots)) && b.addr == mem / 256)
      ensures LiveSet(slots) == Remove(old(LiveSet(slots)), mem)
      ensures !ok ==> slots == old(slots)
      ensures |Blocks(slots)| <= old(|Blocks(slots)|) <= |Blocks(slots)| + 2
    {
      if mem % 256 != 0 { return false; }
      ghost var bs := Blocks(slots);
      var a := FindBlock(mem / 256);
      if a == |slots| { return false; }
      SlotAt(slots, bs, a);
      var _, _, live := ReadInfo(slots[a]);
      if !live {
        FreeAddress(bs, a);
        return false;
      }
      Neighbours(bs, a);
      Coalesce(a, bs);
      assert bs[a] in Live(bs);
      MergeSound(bs, a);
      BlocksOf(slots, Merged(bs, a));
      ok := true;
    }

    /** Clears the live bit of slot a and adds the size of the slot after it unless that is live. */
    method JoinNext(a: nat) returns (skip: nat)
      requires a < |slots|
      modifies this
      ensures slots == WithNext(old(slots), a) && skip == if FreeNext(old(slots), a) then 1 else 0
    {
      var w := MarkFree(slots[a]);
      slots := slots[a := w];
      skip := 0;
      if a + 1 < |slots| {
        var live := ReadLive(slots[a + 1]);
        if !live {
          skip := 1;
          w := JoinFree(w, slots[a + 1]);
          slots := slots[a := w];
        }
      }
    }

    /** Adds the size of slot a to the slot before it unless that is live. */
    method JoinPrevious(a: nat) returns (joined: bool)
      requires a < |slots|
      modifies this
      ensures slots == WithBefore(old(slots), a) && joined == FreeBefore(old(slots), a)
    {
      joined := false;
      if a > 0 {
        var live := ReadLive(slots[a - 1]);
        if !live {
          joined := true;
          var w := JoinWords(slots[a - 1], slots[a]);
          slots := slots[a - 1 := w];
        }
      }
    }

    /** Frees block a and joins it with the free slots on either side. */
    method Coalesce(a: nat, ghost bs: seq<Block>)
      requires Represents(slots, bs)
      requires |bs| + 2 <= |slots| && a < |bs| && Adjacent(bs, a) && bs[a].live
      modifies this
      ensures slots == Coalesced(old(slots), a) && |slots| == old(|slots|)
      ensures Represents(slots, Merged(bs, a))
    {
      CoalescedRepresents(slots, bs, a);
      var skip := JoinNext(a);
      var joined := JoinPrevious(a);
      var n := if joined then a else a + 1;
      if joined { skip := skip + 1; }
      if skip > 0 { CloseGap(n, skip); } else { assert Closed(slots, n, 0) == slots; }
    }

    /** iop_heap_free. */
    method Free(mem: Word) returns (r: int)
      requires Whole(slots)
      modifies this
      ensures Whole(slots) && (r, slots) == AfterFree(old(slots), mem)
      ensures LiveSet(slots) == Remove(old(LiveSet(slots)), mem)
      ensures r == 0 || r == -1
      ensures r == 0 <==> mem % 256 == 0 && exists b :: b in old(LiveSet(slots)) && b.addr == mem / 256
      ensures r == -1 ==> slots == old(slots)
    {
      ChainBounds(slots);
      ghost var m := |Blocks(slots)|;
      var ok := DoFree(mem);
      if ok {
        ghost var bs := Blocks(slots);
        Maintain(bs, m);
        BlocksOf(slots, bs);
      }
      r := if ok then 0 else -1;
    }

    /** A successful allocation followed by the free of its result is the identity. */
    method AllocThenFree(flags: int, size: Word, mem: Word) returns (r: nat, f: int)
      requires Whole(slots)
      modifies this
      ensures r != 0 ==> f == 0
      ensures slots == old(slots)
    {
      ghost var live := LiveSet(slots);
      r := Alloc(flags, size, mem);
      f := -1;
      if r != 0 {
        assert Block(r / 256, Units(size), true) in LiveSet(slots);
        PlacedInArena(flags, size, mem, live, r);
        RemoveUndoesExtend(flags, size, mem, live, r);
        f := Free(r);
        Canonical(slots, old(slots));
      }
    }

    method PerformOne(call: Call) returns (r: int)
      requires Whole(slots)
      modifies this
      ensures Whole(slots)
      ensures Step(old(LiveSet(slots)), call, LiveSet(slots)) && (r, slots) == AfterCall(old(slots), call)
    {
      match call {
        case Alloc(flags, size, mem) => r := Alloc(flags, size, mem);
        case Free(mem) => r := Free(mem);
      }
    }

    /** Any history of calls: the state follows the run of the live set. */
    method Perform(calls: seq<Call>) returns (ghost lives: seq<set<Block>>)
      requires Whole(slots)
      modifies this
      ensures Whole(slots)
      ensures Run(lives, calls) && lives[0] == old(LiveSet(slots)) && lives[|calls|] == LiveSet(slots)
    {
      lives := [LiveSet(slots)];
      for i := 0 to |calls|
        invariant Whole(slots) && Run(lives, calls[..i])
        invariant lives[0] == old(LiveSet(slots)) && lives[i] == LiveSet(slots)
      {
        var _ := PerformOne(calls[i]);
        RunGrows(lives, calls[..i], calls[i], LiveSet(slots));
        assert calls[..i] + [calls[i]] == calls[..i + 1];
        lives := lives + [LiveSet(slots)];
      }
      assert calls[..|calls|] == calls;
    }

    /** iop_heap_query_max_free. */
    method QueryMaxFree() returns (r: nat)
      requires Whole(slots)
      ensures r % 256 == 0
      ensures r > 0 ==> exists a: nat :: Fits(LiveSet(slots), a, r / 256)
      ensures forall a: nat, n: nat | n > r / 256 :: !Fits(LiveSet(slots), a, n)
    {
      ghost var bs := Blocks(slots);
      var max, p := 0, 0;
      ghost var at := 0;
      while p < |slots|
        invariant p <= |slots|
        invariant max > 0 ==> Fits(Live(bs), at, max)
        invariant forall j | 0 <= j < p && j < |bs| :: bs[j].live || bs[j].size <= max
      {
        SlotAt(slots, bs, p);
        var size, _, live := ReadInfo(slots[p]);
        if !live && size > max {
          max, at := size, bs[p].addr;
          FreeBlockFits(bs, p, bs[p].addr, max);
        }
        p := p + 1;
      }
      forall a: nat, n: nat | n > max && Fits(Live(bs), a, n) ensures false {
        var i := FitIsInFreeBlock(bs, a, n);
      }
      r := max * 256;
      assert max > 0 ==> Fits(LiveSet(slots), at, r / 256);
    }

    /** iop_heap_query_total_free. */
    method QueryTotalFree() returns (r: nat)
      requires Whole(slots)
      ensures r == 256 * |FreeUnits(LiveSet(slots), TOP)|
      ensures r == 256 * (TOP - BASE - LiveUnits(Blocks(slots)))
    {
      ghost var bs := Blocks(slots);
      var free, p := 0, 0;
      assert FreeUnits(Live(bs), BASE) == {};
      while p < |slots|
        invariant p <= |slots|
        invariant p <= |bs| ==> free == |FreeUnits(Live(bs), if p < |bs| then bs[p].addr else TOP)|
        invariant p > |bs| ==> free == |FreeUnits(Live(bs), TOP)|
      {
        SlotAt(slots, bs, p);
        if p < |bs| {
          FreeUnitsStep(bs, p);
          assert p + 1 < |bs| ==> bs[p].End() == bs[p + 1].addr;
        }
        var size, _, live := ReadInfo(slots[p]);
        if !live { free := free + size; }
        p := p + 1;
      }
      Conservation(bs, |bs| - 1);
      assert bs[..|bs|] == bs;
      r := free * 256;
    }

    /** iop_heap_query_block_size: the block holding an address, a free one flagged in bit 31. */
    method QueryBlockSize(address: Word) returns (r: int)
      requires Whole(slots)
      ensures !(BASE * 256 <= address < TOP * 256) ==> r == -1
      ensures BASE * 256 <= address < TOP * 256 ==>
                exists b :: b in Blocks(slots) && b.addr * 256 <= address < b.End() * 256 &&
                            r == b.size * 256 - if b.live then 0 else 0x8000_0000
    {
      ghost var bs := Blocks(slots);
      var p := 0;
      while p < |slots|
        invariant p <= |slots|
        invariant forall j | 0 <= j < p && j < |bs| :: !(bs[j].addr * 256 <= address < bs[j].End() * 256)
      {
        SlotAt(slots, bs, p);
        var size, addr, live := ReadInfo(slots[p]);
        if addr * 256 <= address < addr * 256 + size * 256 {
          assert bs[p] in bs;
          return size as int * 256 - if live then 0 else 0x8000_0000;
        }
        p := p + 1;
      }
      if BASE * 256 <= address < TOP * 256 {
        ghost var i := Covering(bs, address / 256, 0);
        assert false;
      }
      r := -1;
    }

    /** iop_heap_snapshot_size. */
    method SnapshotSize() returns (r: nat)
      requires Whole(slots)
      ensures r == 4 + 4 * |slots| <= 13396
    {
      ChainBounds(slots);
      r := 4 + |slots| / SM_MAX * (SM_MAX * 4);
    }

    /** iop_heap_snapshot_save: the table count, then every table's words. */
    method SnapshotSave() returns (buf: seq<Word>)
      requires |slots| % SM_MAX == 0 && |slots| < 0x1_0000_0000
      ensures buf == [|slots| / SM_MAX] + slots
    {
      var count := |slots| / SM_MAX;
      buf := [count];
      for t := 0 to count
        invariant buf == [count] + slots[..t * SM_MAX]
      {
        for i := 0 to SM_MAX
          invariant buf == [count] + slots[..t * SM_MAX + i]
        {
          var k := t * SM_MAX + i;
          assert slots[..k] + [slots[k]] == slots[..k + 1];
          buf := buf + [slots[k]];
        }
      }
      assert slots[..count * SM_MAX] == slots;
    }

    /** iop_heap_snapshot_load: rebuilds the chain table by table. */
    method SnapshotLoad(buf: seq<Word>)
      requires buf != [] && |buf| >= 1 + buf[0] * SM_MAX
      modifies this
      ensures slots == buf[1..1 + buf[0] * SM_MAX]
    {
      var count, p := buf[0], 1;
      slots := [];
      for t := 0 to count
        invariant p == 1 + t * SM_MAX && slots == buf[1..p]
      {
        var table := seq(SM_MAX, _ => 0);
        for i := 0 to SM_MAX
          invariant p == 1 + t * SM_MAX + i && |table| == SM_MAX
          invariant table[..i] == buf[1 + t * SM_MAX..p]
        {
          table := table[i := buf[p]];
          p := p + 1;
          assert table[..i + 1] == buf[1 + t * SM_MAX..p - 1] + [buf[p - 1]];
        }
        slots := slots + table;
      }
    }

    /** Loading a saved snapshot gives the saved state back, whatever came in between. */
    method SaveThenLoad(other: seq<Word>)
      requires Whole(slots)
      modifies this
      ensures slots == old(slots)
    {
      ChainBounds(slots);
      var buf := SnapshotSave();
      slots := other;
      SnapshotLoad(buf);
    }
  }

  // ---------------------------------------------------------------------------
  // The block-level effect of the operations
  // ---------------------------------------------------------------------------

  ghost function Taken(b: Block, n: nat): seq<Block> {
    if b.size <= n then [Block(b.addr, n, true)]
    else [Block(b.addr, n, true), Block(b.addr + n, b.size - n, false)]
  }

  /** Free block b with the n units from `at` made live. */
  ghost function Middle(b: Block, at: nat, n: nat): seq<Block>
    requires b.addr <= at
  {
    if b.addr == at then Taken(b, n)
    else [Block(b.addr, at - b.addr, false)] + Taken(Block(at, if b.End() < at then 0 else b.End() - at, false), n)
  }

  /** before -> after made the n units at r live, or nothing when r is 0. */
  ghost predicate Carved(before: seq<Word>, after: seq<Word>, r: nat, n: nat) {
    && Sound(after)
    && |after| == |before|
    && (r == 0 ==> after == before)
    && (r != 0 ==> r % 256 == 0 && Fits(LiveSet(before), r / 256, n)
                   && LiveSet(after) == LiveSet(before) + {Block(r / 256, n, true)})
    && |Blocks(before)| <= |Blocks(after)| <= |Blocks(before)| + 2
  }

  ghost function Halves(b: Block, at: nat): seq<Block>
    requires b.addr <= at <= b.End()
  {
    [Block(b.addr, at - b.addr, false), Block(at, b.End() - at, false)]
  }

  lemma SplitThenTake(bs: seq<Block>, k: nat, at: nat, n: nat)
    requires k < |bs| && !bs[k].live && bs[k].addr < at && at + n <= bs[k].End()
    ensures var halves := Splice(bs, k, k + 1, Halves(bs[k], at));
            && |halves| == |bs| + 1
            && halves[k + 1] == Block(at, bs[k].End() - at, false)
            && Splice(halves, k + 1, k + 2, Taken(halves[k + 1], n)) == Splice(bs, k, k + 1, Middle(bs[k], at, n))
  {}

  lemma CarveSound(before: seq<Word>, after: seq<Word>, k: nat, at: nat, n: nat)
    requires Sound(before) && |after| == |before|
    requires k < |Blocks(before)| && !Blocks(before)[k].live
    requires n > 0 && Blocks(before)[k].addr <= at && at + n <= Blocks(before)[k].End()
    requires Represents(after, Splice(Blocks(before), k, k + 1, Middle(Blocks(before)[k], at, n)))
    ensures Carved(before, after, at * 256, n)
  {
    var bs := Blocks(before);
    var s := Splice(bs, k, k + 1, Middle(bs[k], at, n));
    BlocksOf(after, s);
    CarveTiles(bs, k, at, n, s);
    assert at * 256 / 256 == at;
  }

  /** Making part of a free block live keeps the tiling and adds exactly that part. */
  lemma CarveTiles(bs: seq<Block>, k: nat, at: nat, n: nat, s: seq<Block>)
    requires Tiles(bs) && k < |bs| && !bs[k].live
    requires n > 0 && bs[k].addr <= at && at + n <= bs[k].End()
    requires s == Splice(bs, k, k + 1, Middle(bs[k], at, n))
    ensures Tiles(s) && Live(s) == Live(bs) + {Block(at, n, true)}
    ensures Fits(Live(bs), at, n)
    ensures |bs| <= |s| <= |bs| + 2
  {
    var mid := Middle(bs[k], at, n);
    FreeBlockFits(bs, k, at, n);
    MiddleCovers(bs, k, at, n);
    SpliceTiles(bs, k, k + 1, mid);
    SpliceLive(bs, k, k + 1, mid);
    assert bs[k..k + 1] == [bs[k]];
  }

  lemma MiddleCovers(bs: seq<Block>, k: nat, at: nat, n: nat)
    requires Tiles(bs) && k < |bs| && !bs[k].live
    requires n > 0 && bs[k].addr <= at && at + n <= bs[k].End()
    ensures Covers(bs, k, k + 1, Middle(bs[k], at, n))
    ensures Live(Middle(bs[k], at, n)) == {Block(at, n, true)}
  {
    Neighbours(bs, k);
    var mid := Middle(bs[k], at, n);
    assert forall b | b in mid :: b.live <==> b == Block(at, n, true);
    assert mid[0] == Block(at, n, true) || mid[1] == Block(at, n, true);
  }

  /** How the table count follows the block count through one call. */
  lemma TableSteps(m: nat, n: nat)
    requires m - 2 <= n <= m + 2
    ensures var len := SM_MAX * Tables(m);
            && n <= len
            && (n > len - SM_MAX + SM_CHECK ==> SM_MAX * Tables(n) == len + SM_MAX)
            && (n <= len - 2 * SM_MAX + SM_CHECK ==> SM_MAX * Tables(n) == len - SM_MAX)
            && (len - 2 * SM_MAX + SM_CHECK < n <= len - SM_MAX + SM_CHECK ==> SM_MAX * Tables(n) == len)
            && (len == SM_MAX && n <= SM_CHECK ==> Tables(n) == 1)
  {}

  lemma NothingLater(bs: seq<Block>, a: nat, at: nat, n: nat)
    requires Tiles(bs) && a <= |bs| && n > 0
    requires a < |bs| ==> at < bs[a].addr
    requires forall j | 0 <= j < a :: bs[j].live || bs[j].End() < at + n
    ensures !Fits(Live(bs), at, n)
  {
    if Fits(Live(bs), at, n) {
      var i := FitIsInFreeBlock(bs, at, n);
      if a < i { Ordered(bs, a, i); }
    }
  }

  // The run of blocks joined when block a is freed.
  ghost function Low(bs: seq<Block>, a: nat): nat
    requires a < |bs|
  {
    if a > 0 && !bs[a - 1].live then a - 1 else a
  }

  ghost function High(bs: seq<Block>, a: nat): nat
    requires a < |bs|
  {
    if a + 1 < |bs| && !bs[a + 1].live then a + 2 else a + 1
  }

  /** Block a touches the blocks on either side of it. */
  ghost predicate Adjacent(bs: seq<Block>, a: nat)
    requires a < |bs|
  {
    && bs[a].InArena()
    && (a + 1 < |bs| ==> bs[a + 1].InArena() && bs[a + 1].addr == bs[a].End())
    && (a > 0 ==> bs[a - 1].InArena() && bs[a - 1].End() == bs[a].addr)
  }

  lemma Neighbours(bs: seq<Block>, a: nat)
    requires Tiles(bs) && a < |bs|
    ensures Adjacent(bs, a)
  {
    assert bs[a] in bs;
    if a + 1 < |bs| { assert bs[a + 1] in bs; }
    if a > 0 { assert bs[a - 1] in bs; }
  }

  /** Block a freed, with the block after it if that is free too. */
  ghost function JoinedUp(bs: seq<Block>, a: nat): (b: Block)
    requires a < |bs| && Adjacent(bs, a)
    ensures b.InArena()
  {
    Block(bs[a].addr, bs[High(bs, a) - 1].End() - bs[a].addr, false)
  }

  ghost function Join(bs: seq<Block>, a: nat): (b: Block)
    requires a < |bs| && Adjacent(bs, a)
    ensures b.InArena()
  {
    Block(bs[Low(bs, a)].addr, bs[High(bs, a) - 1].End() - bs[Low(bs, a)].addr, false)
  }

  ghost function Merged(bs: seq<Block>, a: nat): seq<Block>
    requires a < |bs| && Adjacent(bs, a)
  {
    Splice(bs, Low(bs, a), High(bs, a), [Join(bs, a)])
  }

  ghost function JoinedSlots(s: seq<Word>, bs: seq<Block>, a: nat): seq<Word>
    requires a < |bs| <= |s| && Adjacent(bs, a)
  {
    s[a := Pack(JoinedUp(bs, a))][Low(bs, a) := Pack(Join(bs, a))]
  }

  /** The slots from n + skip on moved down to n; the last skip slots stay as they are. */
  function Closed(s: seq<Word>, n: nat, skip: nat): seq<Word>
    requires n + skip <= |s|
  {
    s[..n] + s[n + skip..] + s[|s| - skip..]
  }

  lemma {:induction false} InsertedRepresents(slots: seq<Word>, k: nat, w: Word, b: Block, bs: seq<Block>)
    requires Represents(slots, bs) && k <= |bs| < |slots| && b.InArena() && w == Pack(b)
    ensures Represents(Inserted(slots, k, w), bs[..k] + [b] + bs[k..])
    decreases |bs| - k
  {
    PackUnpack(b);
    var s := slots[k := w];
    if k == |bs| {
      assert Inserted(s, k + 1, slots[k]) == s;
      assert bs[..k] + [b] + bs[k..] == bs + [b];
    } else {
      InsertedRepresents(s, k + 1, slots[k], bs[k], bs[k := b]);
      assert bs[k := b][..k + 1] + [bs[k]] + bs[k := b][k + 1..] == bs[..k] + [b] + bs[k..];
    }
  }

  lemma WholeRepresents(slots: seq<Word>, bs: seq<Block>, k: nat)
    requires Represents(slots, bs) && k < |bs| < |slots| && !bs[k].live
    ensures Represents(slots[k := SetLive(slots[k])], bs[k := bs[k].(live := true)])
    ensures AddrOf(slots[k]) == AddrOf(SetLive(slots[k])) == bs[k].addr
  {
    PackedEdits(bs[k], bs[k].size);
    PackUnpack(bs[k]);
    PackUnpack(bs[k].(live := true));
  }

  /** Slot k replaced by the word of one block and the word of another inserted behind it. */
  lemma TwoRepresent(slots: seq<Word>, bs: seq<Block>, k: nat, w: Word, front: Block, i: Word, back: Block)
    requires Represents(slots, bs) && k < |bs| < |slots|
    requires front.InArena() && back.InArena() && w == Pack(front) && i == Pack(back)
    ensures Represents(slots[k := w], bs[k := front])
    ensures Represents(Inserted(slots[k := w], k + 1, i), Splice(bs, k, k + 1, [front, back]))
  {
    InsertedRepresents(slots[k := w], k + 1, i, back, bs[k := front]);
    SpliceTwo(bs, k, front, back);
  }

  /** The two words of a block with its first n units taken. */
  lemma FrontWords(b: Block, n: nat)
    requires b.InArena() && !b.live && 0 < n < b.size
    ensures FrontOf(Pack(b), n) == Pack(Block(b.addr, n, true))
    ensures RestOf(Pack(b), n) == Pack(Block(b.addr + n, b.size - n, false))
  {
    PackUnpack(b);
    PackedEdits(b, n);
    PackedEdits(b.(live := true), n);
    PackedMove(b, b.addr + n, b.size - n);
  }

  lemma FrontRepresents(slots: seq<Word>, bs: seq<Block>, k: nat, n: nat)
    requires Represents(slots, bs) && k < |bs| < |slots| && !bs[k].live && 0 < n <= bs[k].size
    ensures Represents(FrontTaken(slots, k, n), Splice(bs, k, k + 1, Taken(bs[k], n)))
    ensures Unpack(slots[k]) == bs[k]
    ensures n < bs[k].size ==>
              var front, back := Block(bs[k].addr, n, true), Block(bs[k].addr + n, bs[k].size - n, false);
              && FrontOf(slots[k], n) == Pack(front) && RestOf(slots[k], n) == Pack(back)
              && Represents(slots[k := Pack(front)], bs[k := front])
  {
    var b := bs[k];
    PackUnpack(b);
    if n == b.size {
      WholeRepresents(slots, bs, k);
      assert Splice(bs, k, k + 1, Taken(b, n)) == bs[k := b.(live := true)];
    } else {
      FrontSplit(slots, bs, k, n);
    }
  }

  lemma FrontSplit(slots: seq<Word>, bs: seq<Block>, k: nat, n: nat)
    requires Represents(slots, bs) && k < |bs| < |slots| && !bs[k].live && 0 < n < bs[k].size
    ensures Represents(FrontTaken(slots, k, n), Splice(bs, k, k + 1, Taken(bs[k], n)))
    ensures var front, back := Block(bs[k].addr, n, true), Block(bs[k].addr + n, bs[k].size - n, false);
            && FrontOf(slots[k], n) == Pack(front) && RestOf(slots[k], n) == Pack(back)
            && Represents(slots[k := Pack(front)], bs[k := front])
  {
    var b := bs[k];
    var front, back := Block(b.addr, n, true), Block(b.addr + n, b.size - n, false);
    PackUnpack(b);
    FrontWords(b, n);
    TwoRepresent(slots, bs, k, Pack(front), front, Pack(back), back);
  }

  /** The two words of a block cut before its last n units. */
  lemma BackWords(b: Block, n: nat, live: bool)
    requires b.InArena() && 0 < n < b.size && !b.live
    ensures var front, back := Block(b.addr, b.size - n, false), Block(b.End() - n, n, live);
            && Shortened(Pack(b), n) == Pack(front)
            && Behind(Pack(front), n, live) == Pack(back)
            && AddrOf(Pack(back)) == back.addr
  {
    PackUnpack(b);
    PackedEdits(b, b.size - n);
    WordBehind(Block(b.addr, b.size - n, false), n, live);
    PackUnpack(Block(b.End() - n, n, live));
  }

  lemma BackRepresents(slots: seq<Word>, bs: seq<Block>, k: nat, n: nat)
    requires Represents(slots, bs) && k < |bs| < |slots| && !bs[k].live && 0 < n <= bs[k].size
    ensures var (r, s) := BackTaken(slots, k, n);
            r == (bs[k].End() - n) * 256 && Represents(s, Splice(bs, k, k + 1, Middle(bs[k], bs[k].End() - n, n)))
    ensures Unpack(slots[k]) == bs[k]
    ensures n < bs[k].size ==>
              var front, back := Block(bs[k].addr, bs[k].size - n, false), Block(bs[k].End() - n, n, true);
              && Shortened(slots[k], n) == Pack(front) && Behind(Pack(front), n, true) == Pack(back)
              && Represents(slots[k := Pack(front)], bs[k := front])
  {
    var b := bs[k];
    PackUnpack(b);
    if n == b.size {
      WholeRepresents(slots, bs, k);
      assert Splice(bs, k, k + 1, Middle(b, b.End() - n, n)) == bs[k := b.(live := true)];
    } else {
      var front, back := Block(b.addr, b.size - n, false), Block(b.End() - n, n, true);
      BackWords(b, n, true);
      TwoRepresent(slots, bs, k, Pack(front), front, Pack(back), back);
    }
  }

  lemma SplitRepresents(slots: seq<Word>, bs: seq<Block>, a: nat, at: nat)
    requires Represents(slots, bs) && a < |bs| < |slots| && !bs[a].live && bs[a].addr < at < bs[a].End()
    ensures Represents(SplitSlots(slots, a, at), Splice(bs, a, a + 1, Halves(bs[a], at)))
    ensures Unpack(slots[a]) == bs[a]
    ensures var front, back := Block(bs[a].addr, at - bs[a].addr, false), Block(at, bs[a].End() - at, false);
            && Shortened(slots[a], back.size) == Pack(front) && Behind(Pack(front), back.size, false) == Pack(back)
            && Represents(slots[a := Pack(front)], bs[a := front])
  {
    var b := bs[a];
    var front, back := Block(b.addr, at - b.addr, false), Block(at, b.End() - at, false);
    PackUnpack(b);
    BackWords(b, b.End() - at, false);
    TwoRepresent(slots, bs, a, Pack(front), front, Pack(back), back);
  }

  /** A freed block with the slot after it, in words. */
  lemma JoinedWord(slots: seq<Word>, bs: seq<Block>, a: nat)
    requires Represents(slots, bs) && |bs| < |slots| && a < |bs| && Adjacent(bs, a) && bs[a].live
    ensures JoinedUp(bs, a).InArena() && WithNext(slots, a) == slots[a := Pack(JoinedUp(bs, a))]
    ensures FreeNext(slots, a) <==> !(a + 1 < |bs| && bs[a + 1].live)
  {
    SlotAt(slots, bs, a + 1);
    var b, up := bs[a].(live := false), JoinedUp(bs, a);
    PackedEdits(bs[a], bs[a].size);
    PackUnpack(b);
    PackedEdits(b, up.size);
  }

  /** The slot before a freed block with it, in words. */
  lemma JoinedBefore(s: seq<Word>, p: Block, b: Block, a: nat)
    requires 0 < a < |s| && p.InArena() && b.InArena() && p.End() == b.addr && s[a - 1] == Pack(p) && s[a] == Pack(b)
    ensures FreeBefore(s, a) <==> !p.live
    ensures !p.live ==> WithBefore(s, a) == s[a - 1 := Pack(p.(size := p.size + b.size))]
  {
    PackUnpack(p);
    PackUnpack(b);
    PackedEdits(p, p.size + b.size);
  }

  lemma JoinedBoth(slots: seq<Word>, bs: seq<Block>, a: nat)
    requires Represents(slots, bs) && |bs| + 2 <= |slots| && a < |bs| && Adjacent(bs, a) && bs[a].live
    ensures WithBefore(WithNext(slots, a), a) == JoinedSlots(slots, bs, a)
    ensures FreeBefore(slots, a) <==> Low(bs, a) < a
  {
    JoinedWord(slots, bs, a);
    if a > 0 {
      JoinedBefore(WithNext(slots, a), bs[a - 1], JoinedUp(bs, a), a);
      PackUnpack(bs[a - 1]);
    }
  }

  lemma CoalescedRepresents(slots: seq<Word>, bs: seq<Block>, a: nat)
    requires Represents(slots, bs) && |bs| + 2 <= |slots| && a < |bs| && Adjacent(bs, a) && bs[a].live
    ensures |Coalesced(slots, a)| == |slots| && Represents(Coalesced(slots, a), Merged(bs, a))
  {
    JoinedBoth(slots, bs, a);
    JoinedWord(slots, bs, a);
    GapClosed(slots, Coalesced(slots, a), bs, a, Skip(bs, a));
  }

  /** The slots that the joined block makes superfluous. */
  ghost function Skip(bs: seq<Block>, a: nat): nat
    requires a < |bs|
  {
    (if Low(bs, a) < a then 1 else 0) + (if a + 1 < |bs| && bs[a + 1].live then 0 else 1)
  }

  lemma GapHead(before: seq<Word>, after: seq<Word>, bs: seq<Block>, a: nat, j: nat)
    requires Represents(before, bs) && a < |bs| && Adjacent(bs, a) && |bs| + 2 <= |before|
    requires after == Closed(JoinedSlots(before, bs, a), Low(bs, a) + 1, Skip(bs, a))
    requires j < |Merged(bs, a)|
    ensures j < |after| && Merged(bs, a)[j].InArena() && after[j] == Pack(Merged(bs, a)[j])
  {
    var lo, hi, s, joined := Low(bs, a), High(bs, a), Merged(bs, a), JoinedSlots(before, bs, a);
    if j > lo { assert s[j] == bs[hi + j - lo - 1] && after[j] == joined[hi + j - lo - 1]; }
  }

  /** Closing the gap behind the joined block leaves the merged blocks. */
  lemma GapClosed(before: seq<Word>, after: seq<Word>, bs: seq<Block>, a: nat, skip: nat)
    requires Represents(before, bs) && a < |bs| && Adjacent(bs, a) && |bs| + 2 <= |before|
    requires skip == Skip(bs, a) && after == Closed(JoinedSlots(before, bs, a), Low(bs, a) + 1, skip)
    ensures |after| == |before| && Represents(after, Merged(bs, a))
  {
    var s, joined := Merged(bs, a), JoinedSlots(before, bs, a);
    forall j | 0 <= j < |s| ensures s[j].InArena() && after[j] == Pack(s[j]) {
      GapHead(before, after, bs, a, j);
    }
    forall j | |s| <= j < |after| ensures after[j] == 0 {
      assert after[j] == if j < |after| - skip then joined[j + skip] else joined[j];
    }
  }

  /** Freeing block a and joining it with its free neighbours. */
  lemma MergeSound(bs: seq<Block>, a: nat)
    requires Tiles(bs) && a < |bs| && bs[a].live
    ensures Adjacent(bs, a) && Tiles(Merged(bs, a))
    ensures Live(Merged(bs, a)) == set b | b in Live(bs) && b.addr != bs[a].addr
  {
    Neighbours(bs, a);
    var lo, hi := Low(bs, a), High(bs, a);
    MergeCovers(bs, a);
    SpliceTiles(bs, lo, hi, [Join(bs, a)]);
    MergeLive(bs, a, Join(bs, a));
  }

  lemma MergeLive(bs: seq<Block>, a: nat, m: Block)
    requires Tiles(bs) && a < |bs| && bs[a].live && !m.live
    ensures Live(Splice(bs, Low(bs, a), High(bs, a), [m])) == set b | b in Live(bs) && b.addr != bs[a].addr
  {
    SpliceLive(bs, Low(bs, a), High(bs, a), [m]);
    assert Live([m]) == {};
    OnlyLiveJoined(bs, a);
    forall b | b in Live(bs) && b.addr == bs[a].addr ensures b == bs[a] {
      var j: nat :| j < |bs| && bs[j] == b;
      SameAddress(bs, a, j);
    }
  }

  lemma MergeCovers(bs: seq<Block>, a: nat)
    requires Tiles(bs) && a < |bs| && bs[a].live
    ensures var lo, hi := Low(bs, a), High(bs, a);
            Adjacent(bs, a) && Covers(bs, lo, hi, [Join(bs, a)])
  {
    Neighbours(bs, a);
    if a > 0 { Neighbours(bs, a - 1); }
    if a + 1 < |bs| { Neighbours(bs, a + 1); }
  }

  /** No live block starts where a free one does. */
  lemma FreeAddress(bs: seq<Block>, a: nat)
    requires Tiles(bs) && a < |bs| && !bs[a].live
    ensures forall b | b in Live(bs) :: b.addr != bs[a].addr
  {
    forall b | b in Live(bs) ensures b.addr != bs[a].addr {
      var j: nat :| j < |bs| && bs[j] == b;
      if bs[j].addr == bs[a].addr { SameAddress(bs, a, j); }
    }
  }

  lemma OnlyLiveJoined(bs: seq<Block>, a: nat)
    requires a < |bs| && bs[a].live
    ensures Live(bs[Low(bs, a)..High(bs, a)]) == {bs[a]}
  {
    var run := bs[Low(bs, a)..High(bs, a)];
    assert run[a - Low(bs, a)] == bs[a];
  }

  lemma PlacedInArena(flags: int, size: Word, mem: Word, live: set<Block>, r: nat)
    requires Placement(flags, size, mem, live, r)
    ensures r < 0x1_0000_0000
  {}
}
