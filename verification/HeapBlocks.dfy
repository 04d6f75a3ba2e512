/** The IOP heap seen as blocks: the packed `info` word of one slot, the tiling of
    the arena by blocks, and the reference meaning of placement on the set of
    live blocks alone. Addresses and sizes are in 256-byte units. */
module HeapBlocks {
  import opened Words
  import opened Bitwise

  const BASE: nat := 0x200   // IOP_HEAP_BASE >> 8
  const TOP: nat := 0xF00    // (IOP_HEAP_BASE + IOP_HEAP_SIZE) >> 8

  datatype Block = Block(addr: nat, size: nat, live: bool) {
    function End(): nat { addr + size }

    predicate InArena() { 0 < size && BASE <= addr && End() <= TOP }
  }

  // ---------------------------------------------------------------------------
  // The packed word: size in bits 17..31, address in bits 1..15, live in bit 0.
  // ---------------------------------------------------------------------------

  function SizeOf(w: Word): nat { w / 0x20000 }

  function AddrOf(w: Word): nat { w / 2 % 0x8000 }

  predicate IsLive(w: Word) { w % 2 == 1 }

  // w & 0x1FFFF | n << 17
  function WithSize(w: Word, n: nat): Word { w % 0x20000 + n % 0x8000 * 0x20000 }

  // w & 0xFFFF0001 | (a & 0x7FFF) << 1
  function WithAddr(w: Word, a: nat): Word { w - w % 0x10000 + w % 2 + a % 0x8000 * 2 }

  // w | 1
  function SetLive(w: Word): Word { w - w % 2 + 1 }

  // w & 0xFFFFFFFE
  function ClearLive(w: Word): Word { w - w % 2 }

  function Unpack(w: Word): Block { Block(AddrOf(w), SizeOf(w), IsLive(w)) }

  function Pack(b: Block): Word
    requires b.InArena()
  {
    b.size * 0x20000 + b.addr * 2 + if b.live then 1 else 0
  }

  /** The reading masks of the code. */
  lemma FieldReads(w: Word)
    ensures AndWord(w, 1) == (if IsLive(w) then 1 else 0) && AndWord(w / 2, 0x7FFF) == AddrOf(w)
  {
    Powers();
    AndLow(w, 1);
    AndLow(w / 2, 15);
  }

  /** Its edits of the live bit. */
  lemma LiveWrites(w: Word)
    ensures OrWord(w, 1) == SetLive(w) && AndWord(w, 0xFFFF_FFFE) == ClearLive(w)
  {
    Pow32();
    OrPow2(w, 0);
    RoundDown(w, 32, 1, 0xFFFF_FFFE);
  }

  /** Its edit of the size. */
  lemma SizeWrite(w: Word, n: nat, mask: Word, unit: nat)
    requires n < 0x8000 && mask == 0x1_FFFF && unit == 0x2_0000
    ensures OrWord(AndWord(w, mask), n * unit) == WithSize(w, n)
  {
    assert unit == Pow2(17) by { Powers(); }
    SizeField(w, n, mask, unit, 17);
    assert n % 0x8000 == n;
  }

  lemma SizeField(w: Word, n: nat, mask: Word, unit: nat, k: nat)
    requires unit == Pow2(k) && mask == unit - 1 && n * unit < 0x1_0000_0000
    ensures OrWord(AndWord(w, mask), n * unit) == w % unit + n * unit
  {
    JoinFields(w, n, k, mask, unit);
  }

  /** Its edit of the address. */
  lemma AddressWrite(w: Word, a: nat)
    ensures OrWord(AndWord(w, 0xFFFF_0001), 2 * (a % 0x8000)) == WithAddr(w, a)
  {
    Powers();
    KeptAround(w, 0xFFFF_0001);
    JoinedAround(w / 0x1_0000, w % 2, a % 0x8000);
  }

  lemma KeptAround(w: Word, mask: Word)
    requires mask == 0xFFFF_0001
    ensures AndWord(w, mask) == w / 0x1_0000 * 0x1_0000 + w % 2
  {
    Powers();
    var half := mask / 2;
    AndStep(w, mask);
    RoundDown(w / 2, 31, 15, half);
    HalfDiv(w, 0x8000);
    Rebuilt(AndWord(w, mask));
  }

  lemma JoinedAround(hi: nat, lo: nat, c: nat)
    requires lo < 2 && c < 0x8000
    ensures Or(hi * 0x1_0000 + lo, 2 * c) == hi * 0x1_0000 + 2 * c + lo
  {
    Powers();
    var x := hi * 0x1_0000 + lo;
    DivMod(x, 2, hi * 0x8000, lo);
    JoinedHalves(x, hi, c, Pow2(15));
  }

  lemma JoinedHalves(x: nat, hi: nat, c: nat, p: nat)
    requires p == Pow2(15) && c < p && x / 2 == hi * p
    ensures Or(x, 2 * c) == 2 * (hi * p + c) + x % 2
  {
    OrDoubled(x, c);
    OrFields(c, hi, 15);
  }

  // ---------------------------------------------------------------------------
  // The macros and expressions of the code, with its masks
  // ---------------------------------------------------------------------------

  /** M_SIZE, M_ADDRESS and M_ALLOCATED. */
  method ReadInfo(w: Word) returns (size: nat, addr: nat, live: bool)
    ensures Unpack(w) == Block(addr, size, live) && size < 0x8000 && addr < 0x8000
  {
    FieldReads(w);
    size, addr, live := w / 0x2_0000, AndWord(w / 2, 0x7FFF), AndWord(w, 1) != 0;
  }

  method MarkLive(w: Word) returns (r: Word)
    ensures r == SetLive(w)
  {
    LiveWrites(w);
    r := OrWord(w, 1);
  }

  method MarkFree(w: Word) returns (r: Word)
    ensures r == ClearLive(w)
  {
    LiveWrites(w);
    r := AndWord(w, 0xFFFF_FFFE);
  }

  /** A size as it is left of `n << 17` in 32 bits. */
  function Short(n: int): nat { n % 0x8000 }

  method PutSize(w: Word, n: int) returns (r: Word)
    ensures r == WithSize(w, Short(n))
  {
    SizeWrite(w, Short(n), 0x1_FFFF, 0x2_0000);
    r := OrWord(AndWord(w, 0x1_FFFF), Short(n) * 0x2_0000);
  }

  /** The size of a free block, whose mask leaves the live bit out too. */
  method PutFreeSize(w: Word, n: int) returns (r: Word)
    requires !IsLive(w)
    ensures r == WithSize(w, Short(n))
  {
    FreeMask(w, 0x1_FFFE, 0x1_FFFF);
    SizeWrite(w, Short(n), 0x1_FFFF, 0x2_0000);
    r := OrWord(AndWord(w, 0x1_FFFE), Short(n) * 0x2_0000);
  }

  method PutAddress(w: Word, a: Word) returns (r: Word)
    ensures r == WithAddr(w, a)
  {
    AddressMask(a);
    AddressWrite(w, a);
    r := OrWord(AndWord(w, 0xFFFF_0001), 2 * AndWord(a, 0x7FFF));
  }

  /** A word made from its parts. */
  function Info(a: nat, n: int, live: bool): Word { a % 0x8000 * 2 + Short(n) * 0x2_0000 + if live then 1 else 0 }

  method MakeInfo(a: Word, n: int, live: bool) returns (r: Word)
    ensures r == Info(a, n, live)
  {
    AddressMask(a);
    SizedWord(a % 0x8000 * 2, Short(n));
    r := OrWord(2 * AndWord(a, 0x7FFF), Short(n) * 0x2_0000);
    if live {
      LiveWrites(r);
      r := OrWord(r, 1);
    }
  }

  lemma AddressMask(a: Word)
    ensures AndWord(a, 0x7FFF) == a % 0x8000
  {
    Powers();
    AndLow(a, 15);
  }

  lemma FreeMask(w: Word, even: Word, mask: Word)
    requires !IsLive(w) && even == 0x1_FFFE && mask == 0x1_FFFF
    ensures AndWord(w, even) == AndWord(w, mask)
  {
    AndStep(w, even);
    AndStep(w, mask);
    Rebuilt(AndWord(w, even));
    Rebuilt(AndWord(w, mask));
  }

  lemma SizedWord(low: Word, n: nat)
    requires low < 0x2_0000 && n < 0x8000
    ensures OrWord(low, n * 0x2_0000) == low + n * 0x2_0000
  {
    assert Pow2(17) == 0x2_0000 by { Powers(); }
    OrFields(low, n, 17);
  }

  // ---------------------------------------------------------------------------
  // Packed blocks
  // ---------------------------------------------------------------------------

  lemma PackUnpack(b: Block)
    requires b.InArena()
    ensures Unpack(Pack(b)) == b
  {
    var live := if b.live then 1 else 0;
    PackedFields(Pack(b), b.size, b.addr, live);
  }

  lemma PackedFields(w: Word, size: nat, addr: nat, live: nat)
    requires addr < 0x8000 && live < 2 && w == size * 0x2_0000 + addr * 2 + live
    ensures SizeOf(w) == size && AddrOf(w) == addr && w % 2 == live
  {
    DivMod(w, 0x2_0000, size, addr * 2 + live);
    DivMod(w, 2, size * 0x1_0000 + addr, live);
    DivMod(w / 2, 0x8000, size * 2, addr);
  }

  /** A word is rebuilt from its block exactly if its unused bit 16 is clear. */
  lemma UnpackPack(w: Word)
    requires Unpack(w).InArena()
    ensures Pack(Unpack(w)) == w <==> w / 0x1_0000 % 2 == 0
  {
    Fields(w, w / 2, w / 0x1_0000);
  }

  lemma Fields(w: Word, half: nat, high: nat)
    requires half == w / 2 && high == w / 0x1_0000
    ensures w == SizeOf(w) * 0x2_0000 + high % 2 * 0x1_0000 + AddrOf(w) * 2 + w % 2
  {
    assert half / 0x8000 == high && high / 2 == SizeOf(w);
  }

  /** The edits of size and live bit, read on packed blocks. */
  lemma PackedEdits(b: Block, n: nat)
    requires b.InArena() && 0 < n < 0x8000 && b.addr + n <= TOP
    ensures WithSize(Pack(b), n) == Pack(b.(size := n))
    ensures SetLive(Pack(b)) == Pack(b.(live := true))
    ensures ClearLive(Pack(b)) == Pack(b.(live := false))
  {}

  lemma PackedMove(b: Block, a: nat, n: nat)
    requires b.InArena() && BASE <= a && 0 < n && a + n <= TOP
    ensures SizeOf(WithAddr(Pack(b), a)) == b.size
    ensures WithSize(WithAddr(Pack(b), a), n) == Pack(Block(a, n, b.live))
  {
    var w, live := Pack(b), if b.live then 1 else 0;
    DivMod(w, 0x1_0000, b.size * 2, b.addr * 2 + live);
    DivMod(w, 2, b.size * 0x1_0000 + b.addr, live);
    MovedWord(WithAddr(w, a), b.size, a, live, n);
  }

  lemma MovedWord(w: Word, size: nat, a: nat, live: nat, n: nat)
    requires w == size * 0x2_0000 + a * 2 + live && a < 0x8000 && live < 2 && n < 0x8000
    ensures SizeOf(w) == size && WithSize(w, n) == n * 0x2_0000 + a * 2 + live
  {
    DivMod(w, 0x2_0000, size, a * 2 + live);
  }

  // ---------------------------------------------------------------------------
  // Tilings
  // ---------------------------------------------------------------------------

  /** The blocks cover the arena in order: no gap, no overlap, no two free neighbours. */
  ghost predicate Tiles(bs: seq<Block>) {
    && bs != []
    && bs[0].addr == BASE
    && bs[|bs| - 1].End() == TOP
    && (forall b | b in bs :: b.InArena())
    && (forall i, j | 0 <= i && j == i + 1 < |bs| :: bs[i].End() == bs[j].addr && (bs[i].live || bs[j].live))
  }

  ghost function Live(bs: seq<Block>): set<Block> { set b | b in bs && b.live }

  /** The units a..a+n lie in the arena and meet no live block. */
  ghost predicate Fits(live: set<Block>, a: nat, n: nat) {
    && BASE <= a
    && a + n <= TOP
    && forall b | b in live :: a + n <= b.addr || b.End() <= a
  }

  lemma {:induction false} Ordered(bs: seq<Block>, i: nat, j: nat)
    requires Tiles(bs)
    requires i < j < |bs|
    ensures bs[i].End() <= bs[j].addr
    decreases j - i
  {
    if i + 1 < j { Ordered(bs, i + 1, j); }
    assert bs[i + 1] in bs;
  }

  /** Blocks are told apart by their addresses. */
  lemma SameAddress(bs: seq<Block>, i: nat, j: nat)
    requires Tiles(bs)
    requires i < |bs| && j < |bs| && bs[i].addr == bs[j].addr
    ensures i == j
  {
    assert bs[i] in bs && bs[j] in bs;
    if i < j { Ordered(bs, i, j); }
    if j < i { Ordered(bs, j, i); }
  }

  lemma {:induction false} CountBound(bs: seq<Block>, i: nat)
    requires Tiles(bs)
    requires i < |bs|
    ensures bs[i].addr >= BASE + i
  {
    if i > 0 {
      CountBound(bs, i - 1);
      assert bs[i - 1] in bs;
    }
  }

  /** An arena of 0xD00 units holds at most that many blocks. */
  lemma AtMostOnePerUnit(bs: seq<Block>)
    requires Tiles(bs)
    ensures |bs| <= TOP - BASE
  {
    CountBound(bs, |bs| - 1);
    assert bs[|bs| - 1] in bs;
  }

  /** Every unit of the arena lies in some block. */
  lemma {:induction false} Covering(bs: seq<Block>, u: nat, from: nat) returns (i: nat)
    requires Tiles(bs)
    requires from < |bs| && bs[from].addr <= u < TOP
    ensures from <= i < |bs| && bs[i].addr <= u < bs[i].End()
    decreases |bs| - from
  {
    if u < bs[from].End() {
      i := from;
    } else {
      assert from + 1 < |bs|;
      assert bs[from].End() == bs[from + 1].addr;
      i := Covering(bs, u, from + 1);
    }
  }

  /** A range fits the live set only inside one free block. */
  lemma FitIsInFreeBlock(bs: seq<Block>, a: nat, n: nat) returns (i: nat)
    requires Tiles(bs)
    requires n > 0 && Fits(Live(bs), a, n)
    ensures i < |bs| && !bs[i].live && bs[i].addr <= a && a + n <= bs[i].End()
  {
    i := Covering(bs, a, 0);
    var b := bs[i];
    assert b.live == (b in Live(bs));
    assert i + 1 < |bs| ==> bs[i + 1] in bs && (bs[i + 1].live ==> bs[i + 1] in Live(bs));
  }

  lemma FreeBlockFits(bs: seq<Block>, i: nat, a: nat, n: nat)
    requires Tiles(bs)
    requires i < |bs| && !bs[i].live && bs[i].addr <= a && a + n <= bs[i].End()
    ensures Fits(Live(bs), a, n)
  {
    assert bs[i] in bs;
    forall b | b in Live(bs) ensures a + n <= b.addr || b.End() <= a {
      var j: nat :| j < |bs| && bs[j] == b;
      if j < i { Ordered(bs, j, i); } else if i < j { Ordered(bs, i, j); }
    }
  }

  /** The blocks are a function of the live set: no history shows in a tiling. */
  lemma SameLiveSameBlocks(p: seq<Block>, q: seq<Block>)
    requires Tiles(p) && Tiles(q)
    requires Live(p) == Live(q)
    ensures p == q
  {
    SamePrefix(p, q, 0);
  }

  lemma {:induction false} SamePrefix(p: seq<Block>, q: seq<Block>, k: nat)
    requires Tiles(p) && Tiles(q)
    requires Live(p) == Live(q)
    requires k < |p| && k < |q| && p[..k] == q[..k] && p[k].addr == q[k].addr
    ensures p == q
    decreases |p| - k
  {
    SameBlockAt(p, q, k);
    assert p[k] in p && q[k] in q;
    assert p[..k + 1] == p[..k] + [p[k]] == q[..k + 1];
    if p[k].End() == TOP {
      EndsAtTop(p, k);
      EndsAtTop(q, k);
    } else {
      assert p[k].End() == p[k + 1].addr && q[k].End() == q[k + 1].addr;
      SamePrefix(p, q, k + 1);
    }
  }

  lemma EndsAtTop(bs: seq<Block>, k: nat)
    requires Tiles(bs)
    requires k < |bs| && bs[k].End() == TOP
    ensures k == |bs| - 1
  {
    assert bs[|bs| - 1] in bs;
    if k < |bs| - 1 { Ordered(bs, k, |bs| - 1); }
  }

  lemma SameBlockAt(p: seq<Block>, q: seq<Block>, k: nat)
    requires Tiles(p) && Tiles(q)
    requires Live(p) == Live(q)
    requires k < |p| && k < |q| && p[k].addr == q[k].addr
    ensures p[k] == q[k]
  {
    if p[k].live {
      LiveBlockAt(p, q, k);
    } else if q[k].live {
      LiveBlockAt(q, p, k);
    } else if p[k].size < q[k].size {
      FreeBlockAt(p, q, k);
    } else if q[k].size < p[k].size {
      FreeBlockAt(q, p, k);
    }
  }

  lemma LiveBlockAt(p: seq<Block>, q: seq<Block>, k: nat)
    requires Tiles(p) && Tiles(q)
    requires Live(p) == Live(q)
    requires k < |p| && k < |q| && p[k].addr == q[k].addr && p[k].live
    ensures p[k] == q[k]
  {
    assert p[k] in Live(p);
    var j: nat :| j < |q| && q[j] == p[k];
    SameAddress(q, j, k);
  }

  lemma FreeBlockAt(p: seq<Block>, q: seq<Block>, k: nat)
    requires Tiles(p) && Tiles(q)
    requires Live(p) == Live(q)
    requires k < |p| && k < |q| && p[k].addr == q[k].addr
    requires !p[k].live && !q[k].live
    ensures p[k].size >= q[k].size
  {
    if p[k].size < q[k].size {
      assert q[k] in q;
      assert k + 1 < |p|;
      assert p[k + 1] in Live(p);
      var j: nat :| j < |q| && q[j] == p[k + 1];
      assert p[k] in p && p[k + 1] in p;
      if j < k { Ordered(q, j, k); } else if k < j { Ordered(q, k, j); }
    }
  }

  // ---------------------------------------------------------------------------
  // Replacing a run of blocks by another cover of the same span
  // ---------------------------------------------------------------------------

  ghost function Splice(bs: seq<Block>, lo: nat, hi: nat, mid: seq<Block>): seq<Block>
    requires lo <= hi <= |bs|
  {
    bs[..lo] + mid + bs[hi..]
  }

  /** mid covers the span of bs[lo..hi] and leaves no two free neighbours, inside or at its ends. */
  ghost predicate Covers(bs: seq<Block>, lo: nat, hi: nat, mid: seq<Block>)
    requires lo < hi <= |bs|
  {
    && mid != []
    && mid[0].addr == bs[lo].addr
    && mid[|mid| - 1].End() == bs[hi - 1].End()
    && (forall b | b in mid :: b.InArena())
    && (forall i, j | 0 <= i && j == i + 1 < |mid| :: mid[i].End() == mid[j].addr && (mid[i].live || mid[j].live))
    && (lo > 0 ==> bs[lo - 1].live || mid[0].live)
    && (hi < |bs| ==> bs[hi].live || mid[|mid| - 1].live)
  }

  lemma SpliceTiles(bs: seq<Block>, lo: nat, hi: nat, mid: seq<Block>)
    requires Tiles(bs)
    requires lo < hi <= |bs| && Covers(bs, lo, hi, mid)
    ensures Tiles(Splice(bs, lo, hi, mid))
  {
    var s := Splice(bs, lo, hi, mid);
    assert hi < |bs| ==> s[|s| - 1] == bs[|bs| - 1];
    assert hi == |bs| ==> s[|s| - 1] == mid[|mid| - 1];
    forall i, j | 0 <= i && j == i + 1 < |s| ensures s[i].End() == s[j].addr && (s[i].live || s[j].live) {
      SpliceJoin(bs, lo, hi, mid, i);
    }
    forall b | b in s ensures b.InArena() {
      assert b in bs || b in mid;
    }
  }

  lemma SpliceJoin(bs: seq<Block>, lo: nat, hi: nat, mid: seq<Block>, i: nat)
    requires Tiles(bs)
    requires lo < hi <= |bs| && Covers(bs, lo, hi, mid)
    requires i + 1 < |Splice(bs, lo, hi, mid)|
    ensures var s := Splice(bs, lo, hi, mid); s[i].End() == s[i + 1].addr && (s[i].live || s[i + 1].live)
  {
    var s := Splice(bs, lo, hi, mid);
    if i + 1 < lo {
      assert s[i] == bs[i] && s[i + 1] == bs[i + 1];
    } else if i + 1 == lo {
      assert s[i] == bs[lo - 1] && s[i + 1] == mid[0] && bs[lo - 1].End() == bs[lo].addr;
    } else if i + 1 < lo + |mid| {
      assert s[i] == mid[i - lo] && s[i + 1] == mid[i + 1 - lo];
    } else if i + 1 == lo + |mid| {
      assert s[i] == mid[|mid| - 1] && s[i + 1] == bs[hi] && bs[hi - 1].End() == bs[hi].addr;
    } else {
      var d := hi - lo - |mid|;
      assert s[i] == bs[i + d] && s[i + 1] == bs[i + 1 + d];
    }
  }

  /** Splicing swaps the live blocks of the run for those of its replacement. */
  lemma SpliceLive(bs: seq<Block>, lo: nat, hi: nat, mid: seq<Block>)
    requires Tiles(bs)
    requires lo < hi <= |bs|
    ensures Live(Splice(bs, lo, hi, mid)) == Live(bs) - Live(bs[lo..hi]) + Live(mid)
  {
    assert bs == bs[..lo] + bs[lo..hi] + bs[hi..];
    forall b | b in bs[lo..hi] ensures b !in bs[..lo] && b !in bs[hi..] {
      var i: nat :| lo <= i < hi && bs[i] == b;
      if b in bs[..lo] {
        var j: nat :| j < lo && bs[j] == b;
        SameAddress(bs, i, j);
      }
      if b in bs[hi..] {
        var j: nat :| hi <= j < |bs| && bs[j] == b;
        SameAddress(bs, i, j);
      }
    }
  }
}
