/** GS local memory in swizzled 32-bit layout: pages of 64x32 pixels, 32 blocks of 8x8 in a
    fixed order within a page, rows within a block. The layout is a bijection, so swizzled
    memory behaves as a map from pixels to values. */
module Swizzle {
  import opened Words

  const PAGE_BYTES := 8192
  const MEM_WORDS := 0x10_0000

  // ---------------------------------------------------------------------------
  // The block order
  // ---------------------------------------------------------------------------

  const TABLE: seq<seq<nat>> := [
    [0, 1, 4, 5, 16, 17, 20, 21],
    [2, 3, 6, 7, 18, 19, 22, 23],
    [8, 9, 12, 13, 24, 25, 28, 29],
    [10, 11, 14, 15, 26, 27, 30, 31]
  ]

  predicate Cell(cx: nat, cy: nat) { cx < 8 && cy < 4 }

  function Block(cx: nat, cy: nat): nat
    requires Cell(cx, cy)
  {
    TABLE[cy][cx]
  }

  const COLUMNS: seq<nat> := [
    0, 1, 0, 1, 2, 3, 2, 3, 0, 1, 0, 1, 2, 3, 2, 3,
    4, 5, 4, 5, 6, 7, 6, 7, 4, 5, 4, 5, 6, 7, 6, 7
  ]

  const ROWS: seq<nat> := [
    0, 0, 1, 1, 0, 0, 1, 1, 2, 2, 3, 3, 2, 2, 3, 3,
    0, 0, 1, 1, 0, 0, 1, 1, 2, 2, 3, 3, 2, 2, 3, 3
  ]

  /** The block order numbers the 32 cells of a page without gap or repetition. */
  lemma BlockOrder(cx: nat, cy: nat)
    requires Cell(cx, cy)
    ensures Block(cx, cy) < 32 && COLUMNS[Block(cx, cy)] == cx && ROWS[Block(cx, cy)] == cy
  {
    assert cy == 0 || cy == 1 || cy == 2 || cy == 3;
    assert cx == 0 || cx == 1 || cx == 2 || cx == 3 || cx == 4 || cx == 5 || cx == 6 || cx == 7;
  }

  lemma BlockOnto(b: nat)
    requires b < 32
    ensures Cell(COLUMNS[b], ROWS[b]) && Block(COLUMNS[b], ROWS[b]) == b
  {
    var h, l := b / 8, b % 8;
    assert b == 8 * h + l;
    assert h == 0 || h == 1 || h == 2 || h == 3;
    assert l == 0 || l == 1 || l == 2 || l == 3 || l == 4 || l == 5 || l == 6 || l == 7;
  }

  /** The block number interleaves the bits of column and row: x0, y0, x1, y1, x2. */
  lemma BlockBits(cx: nat, cy: nat)
    requires Cell(cx, cy)
    ensures Block(cx, cy) == cx % 2 + 2 * (cy % 2) + 4 * (cx / 2 % 2) + 8 * (cy / 2) + 16 * (cx / 4)
  {
    assert cy == 0 || cy == 1 || cy == 2 || cy == 3;
    assert cx == 0 || cx == 1 || cx == 2 || cx == 3 || cx == 4 || cx == 5 || cx == 6 || cx == 7;
  }

  // ---------------------------------------------------------------------------
  // Addresses
  // ---------------------------------------------------------------------------

  datatype Pixel = Pixel(x: nat, y: nat)

  /** Pages to a row of the buffer; a width below one page counts as one. */
  function Pages(bw: nat): (n: nat)
    ensures n >= 1
  {
    if bw / 64 == 0 then 1 else bw / 64
  }

  function Page(bw: nat, p: Pixel): nat { p.y / 32 * Pages(bw) + p.x / 64 }

  /** The word within a page. */
  function Within(p: Pixel): (w: nat)
  {
    64 * Block(p.x % 64 / 8, p.y % 32 / 8) + 8 * (p.y % 8) + p.x % 8
  }

  /** The word offset of a pixel in its buffer. */
  function Offset(bw: nat, p: Pixel): nat { 2048 * Page(bw, p) + Within(p) }

  /** The word address before it is cut to 32 bits of bytes. */
  function WordAddress(bp: nat, bw: nat, p: Pixel): nat { 2048 * bp + Offset(bw, p) }

  function Address(bp: nat, bw: nat, p: Pixel): Word { Wrap(4 * WordAddress(bp, bw, p)) }

  predicate InBuffer(bw: nat, p: Pixel) { p.x < 64 * Pages(bw) }

  /** Inside a block the pixel to the right is the next word and the pixel below is eight words on. */
  lemma BlockSteps(bw: nat, p: Pixel)
    ensures p.x % 8 < 7 ==> Offset(bw, Pixel(p.x + 1, p.y)) == Offset(bw, p) + 1
    ensures p.y % 8 < 7 ==> Offset(bw, Pixel(p.x, p.y + 1)) == Offset(bw, p) + 8
  {
    if p.x % 8 < 7 { SideStep(p.x, 8, p.x / 8); }
    if p.y % 8 < 7 { SideStep(p.y, 4, p.y / 8); }
  }

  /** One step inside a block, on a side of some blocks. */
  lemma SideStep(n: nat, blocks: nat, e: nat)
    requires n % 8 < 7 && (blocks == 8 || blocks == 4) && e == n / 8
    ensures (n + 1) % 8 == n % 8 + 1
    ensures (n + 1) % (8 * blocks) / 8 == n % (8 * blocks) / 8 && (n + 1) / (8 * blocks) == n / (8 * blocks)
  {
    SideParts(n, blocks, e, n % 8);
    SideParts(n + 1, blocks, e, n % 8 + 1);
  }

  lemma SideParts(n: nat, blocks: nat, e: nat, r: nat)
    requires n == 8 * e + r && r < 8 && (blocks == 8 || blocks == 4)
    ensures n % 8 == r && n / (8 * blocks) == e / blocks && n % (8 * blocks) / 8 == e % blocks
  {
    DivMod(n, 8, e, r);
    var q, m := e / blocks, e % blocks;
    assert n == q * (8 * blocks) + (8 * m + r);
    DivMod(n, 8 * blocks, q, 8 * m + r);
    DivMod(8 * m + r, 8, m, r);
  }

  /** A page to the right is the next page, a page below is a row of pages on, and a page starts with the
      blocks in their order. */
  lemma PageSteps(bw: nat, p: Pixel)
    ensures Offset(bw, Pixel(p.x + 64, p.y)) == Offset(bw, p) + 2048
    ensures Offset(bw, Pixel(p.x, p.y + 32)) == Offset(bw, p) + 2048 * Pages(bw)
  {
    assert (p.x + 64) / 64 == p.x / 64 + 1 && (p.x + 64) % 64 == p.x % 64 && (p.x + 64) % 8 == p.x % 8;
    assert (p.y + 32) / 32 == p.y / 32 + 1 && (p.y + 32) % 32 == p.y % 32 && (p.y + 32) % 8 == p.y % 8;
    assert (p.y / 32 + 1) * Pages(bw) == p.y / 32 * Pages(bw) + Pages(bw);
  }

  lemma CornerOffset(bw: nat, cx: nat, cy: nat)
    requires Cell(cx, cy)
    ensures Offset(bw, Pixel(8 * cx, 8 * cy)) == 64 * (cx % 2 + 2 * (cy % 2) + 4 * (cx / 2 % 2) + 8 * (cy / 2) + 16 * (cx / 4))
  {
    BlockBits(cx, cy);
    assert 8 * cx % 64 == 8 * cx && 8 * cy % 32 == 8 * cy && 8 * cx / 64 == 0 && 8 * cy / 32 == 0;
  }

  /** The place within a page of one of its 2048 words. */
  function LocalX(w: nat): nat
    requires w < 2048
  {
    COLUMNS[w / 64] * 8 + w % 8
  }

  function LocalY(w: nat): nat
    requires w < 2048
  {
    ROWS[w / 64] * 8 + w % 64 / 8
  }

  function Combine(column: nat, row: nat, w: nat): Pixel
    requires w < 2048
  {
    Pixel(64 * column + LocalX(w), 32 * row + LocalY(w))
  }

  /** The pixel of a buffer at a word offset. */
  function PixelAt(bw: nat, w: nat): Pixel {
    Combine(w / 2048 % Pages(bw), w / 2048 / Pages(bw), w % 2048)
  }

  /** The three parts of a word within a page. */
  lemma Parts(b: nat, py: nat, px: nat)
    requires py < 8 && px < 8
    ensures var w := 64 * b + 8 * py + px; w / 64 == b && w % 64 / 8 == py && w % 8 == px
  {
    var w := 64 * b + 8 * py + px;
    DivMod(w, 64, b, 8 * py + px);
    DivMod(8 * py + px, 8, py, px);
    DivMod(w, 8, 8 * b + py, px);
  }

  lemma EighthOfSide(n: nat)
    ensures n % 64 % 8 == n % 8 && n % 32 % 8 == n % 8
  {
    DivMod(n, 8, 8 * (n / 64) + n % 64 / 8, n % 64 % 8);
    DivMod(n, 8, 4 * (n / 32) + n % 32 / 8, n % 32 % 8);
  }

  lemma LocalOf(b: nat, py: nat, px: nat)
    requires b < 32 && py < 8 && px < 8
    ensures var w := 64 * b + 8 * py + px;
            w < 2048 && LocalX(w) == COLUMNS[b] * 8 + px && LocalY(w) == ROWS[b] * 8 + py
  {
    Parts(b, py, px);
  }

  lemma Sides(n: nat)
    ensures n % 64 / 8 * 8 + n % 8 == n % 64 && n % 32 / 8 * 8 + n % 8 == n % 32
  {
    EighthOfSide(n);
  }

  /** A cell's number leads back to the cell, with the place inside it kept. */
  lemma LocalOfCell(cx: nat, cy: nat, py: nat, px: nat)
    requires Cell(cx, cy) && py < 8 && px < 8
    ensures var w := 64 * Block(cx, cy) + 8 * py + px;
            w < 2048 && LocalX(w) == cx * 8 + px && LocalY(w) == cy * 8 + py
  {
    BlockOrder(cx, cy);
    LocalOf(Block(cx, cy), py, px);
  }

  lemma SideCells(n: nat)
    ensures n % 64 / 8 < 8 && n % 32 / 8 < 4 && n % 8 < 8
  {}

  lemma WithinPage(p: Pixel)
    ensures Within(p) < 2048
    ensures LocalX(Within(p)) == p.x % 64 && LocalY(Within(p)) == p.y % 32
  {
    SideCells(p.x);
    SideCells(p.y);
    Sides(p.x);
    Sides(p.y);
    WithinCell(p, p.x % 64 / 8, p.y % 32 / 8, p.y % 8, p.x % 8);
  }

  lemma WithinCell(p: Pixel, cx: nat, cy: nat, py: nat, px: nat)
    requires Cell(cx, cy) && py < 8 && px < 8
    requires p.x % 64 / 8 == cx && p.x % 8 == px && p.x % 64 == cx * 8 + px
    requires p.y % 32 / 8 == cy && p.y % 8 == py && p.y % 32 == cy * 8 + py
    ensures Within(p) < 2048
    ensures LocalX(Within(p)) == p.x % 64 && LocalY(Within(p)) == p.y % 32
  {
    LocalOfCell(cx, cy, py, px);
  }

  lemma WithinOnto(w: nat, x: nat, y: nat)
    requires w < 2048 && x % 64 == LocalX(w) && y % 32 == LocalY(w)
    ensures Within(Pixel(x, y)) == w
  {
    BlockOnto(w / 64);
    Eighths(x, 64, COLUMNS[w / 64], w % 8);
    Eighths(y, 32, ROWS[w / 64], w % 64 / 8);
  }

  lemma Eighths(n: nat, side: nat, cell: nat, rest: nat)
    requires (side == 64 || side == 32) && rest < 8 && n % side == cell * 8 + rest
    ensures n % side / 8 == cell && n % 8 == rest
  {
    EighthOfSide(n);
  }

  lemma LocalFits(w: nat)
    requires w < 2048
    ensures LocalX(w) < 64 && LocalY(w) < 32
  {
    BlockOnto(w / 64);
  }

  /** A pixel of a buffer can be read back off its offset, so no two pixels share one. */
  lemma OffsetInjective(bw: nat, p: Pixel)
    requires InBuffer(bw, p)
    ensures PixelAt(bw, Offset(bw, p)) == p
  {
    WithinPage(p);
    DivMod(Offset(bw, p), 2048, Page(bw, p), Within(p));
    DivMod(Page(bw, p), Pages(bw), p.y / 32, p.x / 64);
  }

  lemma Combined(column: nat, row: nat, w: nat)
    requires w < 2048
    ensures var p := Combine(column, row, w); p.x / 64 == column && p.y / 32 == row && Within(p) == w
  {
    var p := Combine(column, row, w);
    LocalFits(w);
    DivMod(p.x, 64, column, LocalX(w));
    DivMod(p.y, 32, row, LocalY(w));
    WithinOnto(w, p.x, p.y);
  }

  lemma ColumnFits(x: nat, n: nat)
    requires x / 64 < n
    ensures x < 64 * n
  {}

  lemma Placed(bw: nat, column: nat, row: nat, w: nat)
    requires column < Pages(bw) && w < 2048
    ensures var p := Combine(column, row, w);
            InBuffer(bw, p) && Offset(bw, p) == 2048 * (row * Pages(bw) + column) + w
  {
    Combined(column, row, w);
    ColumnFits(Combine(column, row, w).x, Pages(bw));
  }

  lemma Euclid(a: nat, n: nat)
    requires n > 0
    ensures a / n * n + a % n == a
  {}

  /** Every word from the base on belongs to a pixel of the buffer. */
  lemma OffsetOnto(bw: nat, w: nat)
    ensures InBuffer(bw, PixelAt(bw, w)) && Offset(bw, PixelAt(bw, w)) == w
  {
    var page, n := w / 2048, Pages(bw);
    var column, row := page % n, page / n;
    Euclid(page, n);
    Placed(bw, column, row, w % 2048);
  }

  /** Each 64x32 page is exactly its own 2048 words. */
  lemma PageExact(bw: nat, p: Pixel, w: nat)
    requires InBuffer(bw, p)
    ensures Offset(bw, p) / 2048 == Page(bw, p)
    ensures w / 2048 == Page(bw, p) ==> PixelAt(bw, w).x / 64 == p.x / 64 && PixelAt(bw, w).y / 32 == p.y / 32
  {
    WithinPage(p);
    DivMod(Offset(bw, p), 2048, Page(bw, p), Within(p));
    DivMod(Page(bw, p), Pages(bw), p.y / 32, p.x / 64);
    LocalFits(w % 2048);
  }

  // ---------------------------------------------------------------------------
  // Memory
  // ---------------------------------------------------------------------------

  /** Local memory as 32-bit words; out of range reads as zero and drops writes. */
  type Store = m: seq<Word> | |m| == MEM_WORDS witness seq(MEM_WORDS, _ => 0)

  predicate Inside(a: Word) { a as int + 4 <= 4 * MEM_WORDS }

  /** The range test in 32-bit arithmetic. */
  predicate Passes(a: Word) { Plus(a, 4) <= 4 * MEM_WORDS }

  predicate InMemory(bp: nat, bw: nat, p: Pixel) { Inside(Address(bp, bw, p)) }

  lemma Aligned(bp: nat, bw: nat, p: Pixel)
    ensures Address(bp, bw, p) % 4 == 0
  {
    WrapFour(WordAddress(bp, bw, p));
  }

  lemma WrapFour(n: nat)
    ensures Wrap(4 * n) % 4 == 0
  {
    assert Wrap(4 * n) == 4 * (n - 0x4000_0000 * (4 * n / 0x1_0000_0000));
  }

  function Get(m: Store, bp: nat, bw: nat, p: Pixel): Word {
    if InMemory(bp, bw, p) then m[Address(bp, bw, p) / 4] else 0
  }

  function Put(m: Store, bp: nat, bw: nat, p: Pixel, v: Word): Store {
    if InMemory(bp, bw, p) then m[Address(bp, bw, p) / 4 := v] else m
  }

  /** The last word of the address space is the one that gets past the test without being in memory. */
  lemma PassesInsideIff(bp: nat, bw: nat, p: Pixel)
    ensures (Passes(Address(bp, bw, p)) ==> InMemory(bp, bw, p)) <==> Address(bp, bw, p) != 0xFFFF_FFFC
    ensures Address(bp, bw, p) == 0xFFFF_FFFC <==> WordAddress(bp, bw, p) % 0x4000_0000 == 0x3FFF_FFFF
  {
    Aligned(bp, bw, p);
    PassesIff(Address(bp, bw, p));
    LastWord(WordAddress(bp, bw, p));
  }

  /** The corner pixel of the last page that a base can name does reach it. */
  lemma LastWordReached()
    ensures Address(0x7_FFFF, 64, Pixel(63, 31)) == 0xFFFF_FFFC
    ensures Passes(0xFFFF_FFFC) && !Inside(0xFFFF_FFFC)
  {
    assert Block(7, 3) == 31;
    assert WordAddress(0x7_FFFF, 64, Pixel(63, 31)) == 0x3FFF_FFFF;
  }

  lemma PassesIff(a: Word)
    requires a % 4 == 0
    ensures (Passes(a) ==> Inside(a)) <==> a != 0xFFFF_FFFC
  {}

  lemma LastWord(n: nat)
    ensures Wrap(4 * n) == 0xFFFF_FFFC <==> n % 0x4000_0000 == 0x3FFF_FFFF
  {}

  // ---------------------------------------------------------------------------
  // Which pixels share a word
  // ---------------------------------------------------------------------------

  /** The number of words after which addresses repeat. */
  const CYCLE := 0x4000_0000

  predicate Alias(bw: nat, p: Pixel, q: Pixel) { (Offset(bw, p) - Offset(bw, q)) % CYCLE == 0 }

  lemma WrappedIff(v: nat, w: nat)
    ensures Wrap(4 * v) == Wrap(4 * w) <==> (v - w) % CYCLE == 0
  {
    WrappedCycle(v);
    WrappedCycle(w);
    CongruentIff(v, w);
  }

  lemma WrappedCycle(v: nat)
    ensures Wrap(4 * v) == 4 * (v % CYCLE)
  {}

  lemma CongruentIff(v: nat, w: nat)
    ensures v % CYCLE == w % CYCLE <==> (v - w) % CYCLE == 0
  {
    if v % CYCLE == w % CYCLE {
      assert v - w == CYCLE * (v / CYCLE - w / CYCLE);
      Multiple(v / CYCLE - w / CYCLE);
    } else {
      NotMultiple(v, w);
    }
  }

  lemma Multiple(k: int)
    ensures (CYCLE * k) % CYCLE == 0
  {}

  lemma NotMultiple(v: nat, w: nat)
    requires v % CYCLE != w % CYCLE
    ensures (v - w) % CYCLE != 0
  {}

  /** Two pixels, of any width and place, have the same address exactly if their offsets are
      congruent modulo 2^30 words. */
  lemma SameAddressIff(bp: nat, bw: nat, p: Pixel, q: Pixel)
    ensures Address(bp, bw, p) == Address(bp, bw, q) <==> Alias(bw, p, q)
  {
    WrappedIff(WordAddress(bp, bw, p), WordAddress(bp, bw, q));
    assert WordAddress(bp, bw, p) - WordAddress(bp, bw, q) == Offset(bw, p) - Offset(bw, q);
  }

  /** The pixels of a buffer of n rows of pages. */
  predicate InRows(bw: nat, n: nat, p: Pixel) { InBuffer(bw, p) && p.y < 32 * n }

  ghost predicate AliasFree(bp: nat, bw: nat, n: nat) {
    forall p, q | InRows(bw, n, p) && InRows(bw, n, q) && p != q :: Address(bp, bw, p) != Address(bp, bw, q)
  }

  lemma RowsEnd(bw: nat, n: nat, p: Pixel)
    requires InRows(bw, n, p)
    ensures Offset(bw, p) < 2048 * (n * Pages(bw))
  {
    WithinPage(p);
    PageBefore(p.y / 32, n, p.x / 64, Pages(bw));
  }

  lemma PageBefore(row: nat, n: nat, column: nat, pages: nat)
    requires row < n && column < pages
    ensures row * pages + column + 1 <= n * pages
  {
    var k := n - 1 - row;
    assert k * pages >= 0 && n * pages == row * pages + k * pages + pages;
  }

  lemma RowsStart(bw: nat, n: nat, w: nat)
    requires w < 2048 * (n * Pages(bw))
    ensures InRows(bw, n, PixelAt(bw, w)) && Offset(bw, PixelAt(bw, w)) == w
  {
    OffsetOnto(bw, w);
    LocalFits(w % 2048);
    Quotient(w / 2048, n, Pages(bw));
  }

  lemma Quotient(a: nat, n: nat, d: nat)
    requires d > 0 && a < n * d
    ensures a / d < n
  {
    var e := a / d - n;
    assert e >= 0 ==> e * d >= 0;
    assert a / d * d == e * d + n * d;
  }

  lemma SameOffset(bw: nat, p: Pixel, q: Pixel)
    requires InBuffer(bw, p) && InBuffer(bw, q)
    ensures Offset(bw, p) == Offset(bw, q) <==> p == q
  {
    OffsetInjective(bw, p);
    OffsetInjective(bw, q);
  }

  lemma OneCycle(v: nat, w: nat)
    requires v < CYCLE && w < CYCLE
    ensures (v - w) % CYCLE == 0 <==> v == w
  {}

  lemma NearAlias(bw: nat, n: nat, p: Pixel, q: Pixel)
    requires n * Pages(bw) <= 0x8_0000 && InRows(bw, n, p) && InRows(bw, n, q)
    ensures Alias(bw, p, q) <==> p == q
  {
    RowsEnd(bw, n, p);
    RowsEnd(bw, n, q);
    OneCycle(Offset(bw, p), Offset(bw, q));
    SameOffset(bw, p, q);
  }

  lemma FarAlias(bw: nat, n: nat) returns (p: Pixel, q: Pixel)
    requires n * Pages(bw) > 0x8_0000
    ensures InRows(bw, n, p) && InRows(bw, n, q) && p != q && Alias(bw, p, q)
  {
    p, q := PixelAt(bw, 0), PixelAt(bw, CYCLE);
    RowsStart(bw, n, 0);
    RowsStart(bw, n, CYCLE);
  }

  /** A buffer has a word for every pixel exactly if its pages fit the 32-bit address space. */
  lemma AliasFreeIff(bp: nat, bw: nat, n: nat)
    ensures AliasFree(bp, bw, n) <==> n * Pages(bw) <= 0x8_0000
  {
    if n * Pages(bw) <= 0x8_0000 {
      forall p, q | InRows(bw, n, p) && InRows(bw, n, q) && p != q
        ensures Address(bp, bw, p) != Address(bp, bw, q)
      {
        NearAlias(bw, n, p, q);
        SameAddressIff(bp, bw, p, q);
      }
    } else {
      var p, q := FarAlias(bw, n);
      SameAddressIff(bp, bw, p, q);
    }
  }

  // ---------------------------------------------------------------------------
  // Memory as a map
  // ---------------------------------------------------------------------------

  lemma GetPut(m: Store, bp: nat, bw: nat, p: Pixel, v: Word, q: Pixel)
    ensures Get(Put(m, bp, bw, p, v), bp, bw, q) ==
            if Alias(bw, p, q) && InMemory(bp, bw, q) then v else Get(m, bp, bw, q)
  {
    SameAddressIff(bp, bw, p, q);
    Aligned(bp, bw, p);
    Aligned(bp, bw, q);
  }

  function PutAll(m: Store, bp: nat, bw: nat, ws: seq<(Pixel, Word)>): Store {
    if ws == [] then m
    else Put(PutAll(m, bp, bw, ws[..|ws| - 1]), bp, bw, ws[|ws| - 1].0, ws[|ws| - 1].1)
  }

  /** The last of the writes that reached the word of pixel q, or else d. */
  function Last(bw: nat, ws: seq<(Pixel, Word)>, q: Pixel, d: Word): Word {
    if ws == [] then d
    else if Alias(bw, ws[|ws| - 1].0, q) then ws[|ws| - 1].1
    else Last(bw, ws[..|ws| - 1], q, d)
  }

  /** After any writes through a buffer, near or past the end of the address space, a pixel in memory
      reads as last written to its word. */
  lemma {:induction false} LastRead(m: Store, bp: nat, bw: nat, ws: seq<(Pixel, Word)>, q: Pixel)
    requires InMemory(bp, bw, q)
    ensures Get(PutAll(m, bp, bw, ws), bp, bw, q) == Last(bw, ws, q, Get(m, bp, bw, q))
  {
    if ws != [] {
      var n := |ws| - 1;
      LastRead(m, bp, bw, ws[..n], q);
      GetPut(PutAll(m, bp, bw, ws[..n]), bp, bw, ws[n].0, ws[n].1, q);
    }
  }

  /** The writes as a map from pixels to the values last written. */
  function Picture(ws: seq<(Pixel, Word)>): map<Pixel, Word> {
    if ws == [] then map[] else Picture(ws[..|ws| - 1])[ws[|ws| - 1].0 := ws[|ws| - 1].1]
  }

  lemma {:induction false} LastInPicture(bw: nat, n: nat, ws: seq<(Pixel, Word)>, q: Pixel, d: Word)
    requires n * Pages(bw) <= 0x8_0000 && InRows(bw, n, q)
    requires forall i | 0 <= i < |ws| :: InRows(bw, n, ws[i].0)
    ensures Last(bw, ws, q, d) == if q in Picture(ws) then Picture(ws)[q] else d
  {
    if ws != [] {
      var k := |ws| - 1;
      LastInPicture(bw, n, ws[..k], q, d);
      NearAlias(bw, n, ws[k].0, q);
    }
  }

  /** After any writes to a buffer that fits, each of its pixels reads as last written, and pixels
      never written read as before. */
  lemma MemoryIsMap(m: Store, bp: nat, bw: nat, n: nat, ws: seq<(Pixel, Word)>, q: Pixel)
    requires n * Pages(bw) <= 0x8_0000 && InRows(bw, n, q) && InMemory(bp, bw, q)
    requires forall i | 0 <= i < |ws| :: InRows(bw, n, ws[i].0)
    ensures Get(PutAll(m, bp, bw, ws), bp, bw, q) == if q in Picture(ws) then Picture(ws)[q] else Get(m, bp, bw, q)
  {
    LastRead(m, bp, bw, ws, q);
    LastInPicture(bw, n, ws, q, Get(m, bp, bw, q));
  }

  // ---------------------------------------------------------------------------
  // The store
  // ---------------------------------------------------------------------------

  class GsMemory {
    const words: array<Word>

    ghost predicate Valid() { words.Length == MEM_WORDS }

    constructor ()
      ensures Valid() && fresh(words)
    {
      words := new Word[MEM_WORDS](_ => 0);
    }

    /** The block and the place in it. */
    static method PageOffset(x: Word, y: Word) returns (n: nat)
      ensures n == 4 * Within(Pixel(x, y))
    {
      SideCells(x);
      SideCells(y);
      var lx, ly := x % 64, y % 32;
      var block := TABLE[ly / 8][lx / 8];
      var within := (ly % 8 * 8 + lx % 8) * 4;
      n := block * 256 + within;
      assert n == 4 * Within(Pixel(x, y)) by { EighthOfSide(x); EighthOfSide(y); }
    }

    /** The address computed step by step in 32-bit arithmetic. */
    static method SwizzleAddress(bp: Word, bw: Word, x: Word, y: Word) returns (a: Word)
      ensures a == Address(bp, bw, Pixel(x, y))
    {
      var pages := bw / 64;
      if pages == 0 { pages := 1; }
      var within := PageOffset(x, y);
      ghost var p, page := Pixel(x, y), (y / 32) as int * pages as int + (x / 64) as int;
      var base := Wrap(Wrap(bp as int * PAGE_BYTES) as int
                       + Wrap(Wrap((y / 32) as int * pages as int + (x / 64) as int) as int * PAGE_BYTES) as int);
      a := Wrap(base as int + within);
      SumWraps(bp, page, 4 * Within(p));
      assert PAGE_BYTES * (bp as int + page) + 4 * Within(p) == 4 * WordAddress(bp, bw, p);
    }

    /** `outside` says that the read was let through to a word that is not in memory. */
    method Read(bp: Word, bw: Word, x: Word, y: Word) returns (v: Word, outside: bool)
      requires Valid()
      ensures outside <==> Address(bp, bw, Pixel(x, y)) == 0xFFFF_FFFC
      ensures !outside ==> v == Get(words[..], bp, bw, Pixel(x, y))
    {
      var a := SwizzleAddress(bp, bw, x, y);
      PassesInsideIff(bp, bw, Pixel(x, y));
      if Plus(a, 4) > 4 * MEM_WORDS { return 0, false; }
      if a / 4 >= words.Length { return 0, true; }
      return words[a / 4], false;
    }

    method Write(bp: Word, bw: Word, x: Word, y: Word, v: Word) returns (outside: bool)
      requires Valid()
      modifies words
      ensures outside <==> Address(bp, bw, Pixel(x, y)) == 0xFFFF_FFFC
      ensures !outside ==> words[..] == Put(old(words[..]), bp, bw, Pixel(x, y), v)
    {
      var a := SwizzleAddress(bp, bw, x, y);
      PassesInsideIff(bp, bw, Pixel(x, y));
      if Plus(a, 4) > 4 * MEM_WORDS { return false; }
      if a / 4 >= words.Length { return true; }
      words[a / 4] := v;
      return false;
    }
  }

  lemma SumWraps(bp: int, page: int, rest: int)
    ensures Wrap(Wrap(Wrap(bp * PAGE_BYTES) as int + Wrap(Wrap(page) as int * PAGE_BYTES) as int) as int + rest)
         == Wrap(PAGE_BYTES * (bp + page) + rest)
  {
    WrapTimes(page);
    WrapSum(bp * PAGE_BYTES, page * PAGE_BYTES);
    WrapSum((bp + page) * PAGE_BYTES, rest);
  }

  lemma WrapSum(a: int, b: int)
    ensures Wrap(Wrap(a) as int + Wrap(b) as int) == Wrap(a + b)
    ensures Wrap(Wrap(a) as int + b) == Wrap(a + b)
  {}

  lemma WrapTimes(page: int)
    ensures Wrap(Wrap(page) as int * PAGE_BYTES) == Wrap(page * PAGE_BYTES)
  {
    var k := page / 0x1_0000_0000;
    WrapCycles(Wrap(page) as int * PAGE_BYTES, k * PAGE_BYTES);
  }

  lemma WrapCycles(n: int, k: int)
    ensures Wrap(n + k * 0x1_0000_0000) == Wrap(n)
  {}
}
