/** The GIF front end: the packet parser, the host-to-local IMAGE transfer and the
    bounded carry that resumes an IMAGE packet across calls. A buffer is a sequence of
    128-bit quadwords; GS memory and the GS registers are logs of the writes made. */
module GifStream {
  import opened Words

  datatype Qword = Qword(w0: Word, w1: Word, w2: Word, w3: Word)

  // ---------------------------------------------------------------------------
  // Tags
  // ---------------------------------------------------------------------------

  datatype Format = Packed | RegList | Image

  function Loops(tag: Qword): (n: nat)
    ensures n < 0x8000
  {
    tag.w0 % 0x8000
  }

  predicate Ends(tag: Qword) { tag.w0 / 0x8000 % 2 == 1 }

  /** The register count; a zero field means 16. */
  function Regs(tag: Qword): (n: nat)
    ensures 1 <= n <= 16
  {
    var raw := tag.w1 / 0x1000_0000;
    if raw == 0 then 16 else raw
  }

  function FormatOf(tag: Qword): Format {
    var flg := tag.w1 / 0x400_0000 % 4;
    if flg == 0 then Packed else if flg == 1 then RegList else Image
  }

  predicate SetsPrim(tag: Qword) { tag.w1 / 0x4000 % 2 == 1 }

  function Prim(tag: Qword): nat { tag.w1 / 0x8000 % 0x800 }

  /** Descriptor nibble i of the REGS field. */
  function RegCode(tag: Qword, i: nat): nat
    requires i < 16
  {
    if i < 8 then tag.w2 / Pow16(i) % 16 else tag.w3 / Pow16(i - 8) % 16
  }

  function Pow16(i: nat): (p: nat)
    ensures p > 0
  {
    if i == 0 then 1 else 16 * Pow16(i - 1)
  }

  /** The size of a whole packet, tag included, in quadwords. */
  function Need(tag: Qword): (n: nat)
    ensures n >= 1
  {
    match FormatOf(tag)
    case Packed => 1 + Loops(tag) * Regs(tag)
    case RegList => 1 + (Loops(tag) * Regs(tag) + 1) / 2
    case Image => 1 + Loops(tag)
  }

  // ---------------------------------------------------------------------------
  // State
  // ---------------------------------------------------------------------------

  /** The host-to-local transfer: destination, rectangle, cursor. */
  datatype Transfer = Transfer(dbp: nat, dbw: nat, dpsm: nat, dsax: nat, dsay: nat, rrw: nat, rrh: nat,
                               x: nat, y: nat, active: bool)

  datatype Pixel = Pixel(bp: nat, bw: nat, x: nat, y: nat, rgba: Word)

  datatype Write = ToPrim(value: nat) | ToPacked(code: nat, data: Qword) | ToRegister(code: nat, lo: Word, hi: Word)

  datatype State = State(trx: Transfer, carry: nat, tag: Qword, ended: bool, pixels: seq<Pixel>, writes: seq<Write>)

  const CARRY_MAX: nat := 4096

  // ---------------------------------------------------------------------------
  // The transfer cursor
  // ---------------------------------------------------------------------------

  function Advance(t: Transfer): Transfer {
    if t.x + 1 < t.rrw then t.(x := t.x + 1)
    else t.(x := 0, y := t.y + 1, active := t.active && t.y + 1 < t.rrh)
  }

  /** One pixel of IMAGE data; nothing once the rectangle is full. */
  function PutPixel(s: State, c: Word): State {
    if !s.trx.active then s
    else s.(trx := Advance(s.trx),
            pixels := s.pixels + [Pixel(s.trx.dbp, s.trx.dbw, s.trx.dsax + s.trx.x, s.trx.dsay + s.trx.y, c)])
  }

  function PutAll(s: State, cs: seq<Word>): State {
    if cs == [] then s else PutPixel(PutAll(s, cs[..|cs| - 1]), cs[|cs| - 1])
  }

  /** The four pixels of each quadword, in order. */
  function Colours(qs: seq<Qword>): (cs: seq<Word>)
    ensures |cs| == 4 * |qs|
  {
    if qs == [] then [] else
      var q := qs[|qs| - 1];
      Colours(qs[..|qs| - 1]) + [q.w0, q.w1, q.w2, q.w3]
  }

  function PutImage(s: State, qs: seq<Qword>): State { PutAll(s, Colours(qs)) }

  lemma {:induction false} ColoursConcat(a: seq<Qword>, b: seq<Qword>)
    ensures Colours(a + b) == Colours(a) + Colours(b)
  {
    if b == [] {
      assert a + b == a;
    } else {
      ColoursConcat(a, b[..|b| - 1]);
      assert (a + b)[..|a + b| - 1] == a + b[..|b| - 1];
    }
  }

  lemma {:induction false} PutConcat(s: State, a: seq<Word>, b: seq<Word>)
    ensures PutAll(s, a + b) == PutAll(PutAll(s, a), b)
  {
    if b == [] {
      assert a + b == a;
    } else {
      PutConcat(s, a, b[..|b| - 1]);
      assert (a + b)[..|a + b| - 1] == a + b[..|b| - 1];
    }
  }

  lemma ImageConcat(s: State, a: seq<Qword>, b: seq<Qword>)
    ensures PutImage(s, a + b) == PutImage(PutImage(s, a), b)
  {
    ColoursConcat(a, b);
    PutConcat(s, Colours(a), Colours(b));
  }

  lemma {:induction false} PutFull(s: State, cs: seq<Word>)
    requires !s.trx.active
    ensures PutAll(s, cs) == s
  {
    if cs != [] { PutFull(s, cs[..|cs| - 1]); }
  }

  /** Pixels touch the cursor and the pixel log only, and never restart a transfer. */
  lemma {:induction false} PutKeeps(s: State, cs: seq<Word>)
    ensures var r := PutAll(s, cs);
            && r == s.(trx := r.trx, pixels := r.pixels)
            && r.trx == s.trx.(x := r.trx.x, y := r.trx.y, active := r.trx.active)
            && (r.trx.active ==> s.trx.active)
  {
    if cs != [] { PutKeeps(s, cs[..|cs| - 1]); }
  }

  // ---------------------------------------------------------------------------
  // Raster order
  // ---------------------------------------------------------------------------

  /** The rectangle as the cursor sees it: a zero side counts as one. */
  function Wide(t: Transfer): (w: nat)
    ensures w >= 1
  {
    if t.rrw == 0 then 1 else t.rrw
  }

  function High(t: Transfer): (h: nat)
    ensures h >= 1
  {
    if t.rrh == 0 then 1 else t.rrh
  }

  predicate InRectangle(t: Transfer) { t.x < Wide(t) && t.y < High(t) }

  /** What is left of the cursor's row. A cursor outside the rectangle, which a later write of its
      size has shrunk, still takes one pixel. */
  function RowLeft(t: Transfer): (n: nat)
    ensures n >= 1
  {
    if t.x < Wide(t) then Wide(t) - t.x else 1
  }

  function RowsBelow(t: Transfer): nat { if t.y + 1 < High(t) then High(t) - t.y - 1 else 0 }

  /** How many pixels the rectangle still takes. */
  function Room(t: Transfer): (n: nat)
    ensures n >= 1
  {
    RowLeft(t) + RowsBelow(t) * Wide(t)
  }

  datatype Point = Point(x: nat, y: nat)

  /** The cursor k pixels on: along its row, then row by row. */
  function At(t: Transfer, k: nat): Point {
    if k < RowLeft(t) then Point(t.x + k, t.y) else
    var j := k - RowLeft(t);
    Point(j % Wide(t), t.y + 1 + j / Wide(t))
  }

  /** Where the k-th pixel from here lands. */
  function Landing(t: Transfer, k: nat, c: Word): Pixel {
    Pixel(t.dbp, t.dbw, t.dsax + At(t, k).x, t.dsay + At(t, k).y, c)
  }

  function Pixels(t: Transfer, cs: seq<Word>, n: nat): (ps: seq<Pixel>)
    requires n <= |cs|
  {
    seq(n, k requires 0 <= k < n => Landing(t, k, cs[k]))
  }

  /** In the rectangle that is raster order, from the cursor to the last pixel. */
  lemma InRasterOrder(t: Transfer, k: nat)
    requires InRectangle(t)
    ensures Room(t) == Wide(t) * High(t) - (t.y * Wide(t) + t.x)
    ensures var p := t.y * Wide(t) + t.x + k; At(t, k) == Point(p % Wide(t), p / Wide(t))
  {
    var w := Wide(t);
    assert w * High(t) == (t.y + 1 + RowsBelow(t)) * w == t.y * w + w + RowsBelow(t) * w;
    if k < RowLeft(t) {
      DivMod(t.y * w + t.x + k, w, t.y, t.x + k);
    } else {
      RowsOn(t.y + 1, k - RowLeft(t), w);
      assert t.y * w + t.x + k == (t.y + 1) * w + (k - RowLeft(t));
    }
  }

  lemma RowsOn(y: nat, j: nat, w: nat)
    requires w > 0
    ensures (y * w + j) % w == j % w && (y * w + j) / w == y + j / w
  {
    assert (y + j / w) * w == y * w + j / w * w;
    DivMod(y * w + j, w, y + j / w, j % w);
  }

  /** The cursor, and whether the transfer is open, after k pixels. */
  function Moved(t: Transfer, k: nat): Transfer { t.(x := At(t, k).x, y := At(t, k).y, active := k < Room(t)) }

  lemma RowEnd(q: nat, r: nat, w: nat, rows: nat)
    requires r < w && q * w + r < rows * w
    ensures q < rows && (q * w + r + 1 < rows * w <==> r + 1 < w || q + 1 < rows)
  {
    var d := rows - q - 1;
    assert d * w == rows * w - q * w - w;
    assert d < 0 ==> d * w + w <= 0;
    assert d > 0 ==> d * w >= w;
  }

  lemma Advanced(t: Transfer, x: nat, y: nat)
    ensures Advance(t.(x := x, y := y, active := true)) ==
            if x + 1 < Wide(t) then t.(x := x + 1, y := y, active := true) else t.(x := 0, y := y + 1, active := y + 1 < High(t))
  {}

  lemma AlongRow(t: Transfer, k: nat)
    requires k < RowLeft(t)
    ensures Advance(Moved(t, k)) == Moved(t, k + 1)
  {
    var w, below := Wide(t), RowsBelow(t);
    assert below == 0 ==> below * w == 0;
    assert below > 0 ==> below * w >= w;
    if k + 1 == RowLeft(t) { assert At(t, k + 1) == Point(0, t.y + 1); }
  }

  /** The cursor in the rows below, by the row and the column. */
  lemma MovedBelow(t: Transfer, q: nat, r: nat)
    requires r < Wide(t)
    ensures var k := RowLeft(t) + (q * Wide(t) + r);
            Moved(t, k) == t.(x := r, y := t.y + 1 + q, active := q * Wide(t) + r < RowsBelow(t) * Wide(t))
  {
    DivMod(q * Wide(t) + r, Wide(t), q, r);
  }

  lemma BelowStep(t: Transfer, q: nat, r: nat)
    requires r < Wide(t) && q * Wide(t) + r < RowsBelow(t) * Wide(t)
    ensures var k := RowLeft(t) + (q * Wide(t) + r); Advance(Moved(t, k)) == Moved(t, k + 1)
  {
    var w := Wide(t);
    RowEnd(q, r, w, RowsBelow(t));
    MovedBelow(t, q, r);
    Advanced(t, r, t.y + 1 + q);
    if r + 1 < w {
      MovedBelow(t, q, r + 1);
    } else {
      assert (q + 1) * w + 0 == q * w + r + 1;
      MovedBelow(t, q + 1, 0);
    }
  }

  lemma BelowRow(t: Transfer, k: nat)
    requires RowLeft(t) <= k < Room(t)
    ensures Advance(Moved(t, k)) == Moved(t, k + 1)
  {
    var j := k - RowLeft(t);
    Euclid(j, Wide(t));
    BelowStep(t, j / Wide(t), j % Wide(t));
  }

  lemma Euclid(j: nat, w: nat)
    requires w > 0
    ensures j == j / w * w + j % w && j % w < w
  {}

  /** One step of the cursor. */
  lemma CursorStep(t: Transfer, k: nat)
    requires k < Room(t)
    ensures Advance(Moved(t, k)) == Moved(t, k + 1)
  {
    if k < RowLeft(t) { AlongRow(t, k); } else { BelowRow(t, k); }
  }

  /** The state after n pixels from a given start. */
  ghost predicate Filled(s: State, cs: seq<Word>, n: nat, r: State)
    requires n <= |cs|
  {
    r == s.(trx := Moved(s.trx, n), pixels := s.pixels + Pixels(s.trx, cs, n))
  }

  lemma FilledStep(s: State, cs: seq<Word>, n: nat, r: State)
    requires n < |cs| && n < Room(s.trx) && Filled(s, cs, n, r)
    ensures Filled(s, cs, n + 1, PutPixel(r, cs[n]))
  {
    CursorStep(s.trx, n);
    assert Pixels(s.trx, cs, n + 1) == Pixels(s.trx, cs, n) + [Landing(s.trx, n, cs[n])];
  }

  function Fewer(n: nat, m: nat): nat { if n < m then n else m }

  /** IMAGE data goes where the cursor goes and stops exactly when the rectangle is full. */
  lemma {:induction false} RasterOrder(s: State, cs: seq<Word>)
    requires s.trx.active
    ensures Filled(s, cs, Fewer(|cs|, Room(s.trx)), PutAll(s, cs))
  {
    if cs == [] {
      assert s.pixels + Pixels(s.trx, cs, 0) == s.pixels;
    } else {
      var m, n := |cs| - 1, Fewer(|cs| - 1, Room(s.trx));
      RasterOrder(s, cs[..m]);
      assert Pixels(s.trx, cs[..m], n) == Pixels(s.trx, cs, n);
      if m < Room(s.trx) { FilledStep(s, cs, m, PutAll(s, cs[..m])); }
    }
  }

  /** The transfer is still open after some pixels exactly while the rectangle has room. */
  lemma OpenIff(s: State, cs: seq<Word>)
    ensures PutAll(s, cs).trx.active <==> s.trx.active && |cs| < Room(s.trx)
  {
    if s.trx.active { RasterOrder(s, cs); } else { PutFull(s, cs); }
  }

  // ---------------------------------------------------------------------------
  // Register writes
  // ---------------------------------------------------------------------------

  const BITBLTBUF := 0x50
  const TRXPOS := 0x51
  const TRXREG := 0x52
  const TRXDIR := 0x53
  const ADDRESS_DATA := 0x0E

  /** The transfer registers; XDIR 0 with a 32-bit destination starts a transfer. */
  function Program(t: Transfer, code: nat, lo: Word, hi: Word): Transfer {
    if code == BITBLTBUF then
      var width := hi / 0x1_0000 % 64 * 64;
      t.(dbp := hi % 0x4000, dbw := if width == 0 then 640 else width, dpsm := hi / 0x40_0000 % 64)
    else if code == TRXPOS then t.(dsax := hi % 0x800, dsay := hi / 0x1_0000 % 0x800)
    else if code == TRXREG then t.(rrw := lo % 0x1000, rrh := hi % 0x1000)
    else if code == TRXDIR then t.(x := 0, y := 0, active := lo % 4 == 0 && t.dpsm == 0)
    else t
  }

  function WriteRegister(s: State, code: nat, lo: Word, hi: Word): State {
    s.(trx := Program(s.trx, code, lo, hi), writes := s.writes + [ToRegister(code, lo, hi)])
  }

  function WritePacked(s: State, code: nat, q: Qword): State {
    if code == ADDRESS_DATA then WriteRegister(s, q.w2 % 256, q.w0, q.w1)
    else s.(writes := s.writes + [ToPacked(code, q)])
  }

  /** The four writes that set up and start an upload. */
  function StartUpload(s: State, dst: Word, pos: Word, w: Word, h: Word): State {
    WriteRegister(WriteRegister(WriteRegister(WriteRegister(s, BITBLTBUF, 0, dst), TRXPOS, 0, pos), TRXREG, w, h), TRXDIR, 0, 0)
  }

  predicate Uploads(dst: Word, w: Word, h: Word) { 0 < w < 0x1000 && 0 < h < 0x1000 && dst / 0x40_0000 % 64 == 0 }

  /** Where pixel k of an upload goes: column k % w and row k / w of its place. */
  function Uploaded(dst: Word, pos: Word, w: Word, k: nat, c: Word): Pixel
    requires w > 0
  {
    var width := dst / 0x1_0000 % 64 * 64;
    Pixel(dst % 0x4000, if width == 0 then 640 else width, pos % 0x800 + k % w, pos / 0x1_0000 % 0x800 + k / w, c)
  }

  lemma UploadStarts(s: State, dst: Word, pos: Word, w: Word, h: Word, k: nat, c: Word)
    requires Uploads(dst, w, h)
    ensures var u := StartUpload(s, dst, pos, w, h);
            && u.trx.active && u.pixels == s.pixels
            && Room(u.trx) == w * h && Landing(u.trx, k, c) == Uploaded(dst, pos, w, k, c)
  {
    InRasterOrder(StartUpload(s, dst, pos, w, h).trx, k);
  }

  /** An upload from any state, whatever was under way: a 32-bit destination takes the next w * h
      pixels, each at its place, and then no more. */
  lemma Upload(s: State, dst: Word, pos: Word, w: Word, h: Word, cs: seq<Word>)
    requires Uploads(dst, w, h)
    ensures var r := PutAll(StartUpload(s, dst, pos, w, h), cs);
            && (r.trx.active <==> |cs| < w * h)
            && r.pixels == s.pixels + seq(Fewer(|cs|, w * h), k requires 0 <= k < |cs| => Uploaded(dst, pos, w, k, cs[k]))
  {
    var u, n := StartUpload(s, dst, pos, w, h), Fewer(|cs|, w * h);
    UploadStarts(s, dst, pos, w, h, 0, 0);
    RasterOrder(u, cs);
    var ps := seq(n, k requires 0 <= k < |cs| => Uploaded(dst, pos, w, k, cs[k]));
    forall k | 0 <= k < n ensures Pixels(u.trx, cs, n)[k] == ps[k] {
      UploadStarts(s, dst, pos, w, h, k, cs[k]);
    }
    assert Pixels(u.trx, cs, n) == ps;
  }

  /** Value i of a REGLIST body: two 64-bit values to a quadword. */
  function Half(data: seq<Qword>, i: nat): (Word, Word)
    requires i < 2 * |data|
  {
    var q := data[i / 2];
    if i % 2 == 0 then (q.w0, q.w1) else (q.w2, q.w3)
  }

  function RegListTo(s: State, tag: Qword, data: seq<Qword>, n: nat): State
    requires n <= 2 * |data|
  {
    if n == 0 then s else
      var (lo, hi) := Half(data, n - 1);
      WriteRegister(RegListTo(s, tag, data, n - 1), RegCode(tag, (n - 1) % Regs(tag)), lo, hi)
  }

  function PackedTo(s: State, tag: Qword, data: seq<Qword>, n: nat): State
    requires n <= |data|
  {
    if n == 0 then s
    else WritePacked(PackedTo(s, tag, data, n - 1), RegCode(tag, (n - 1) % Regs(tag)), data[n - 1])
  }

  // ---------------------------------------------------------------------------
  // Packets and streams
  // ---------------------------------------------------------------------------

  function Min(a: nat, b: nat): nat { if a < b then a else b }

  function Latch(s: State, tag: Qword): State {
    s.(tag := tag, ended := Ends(tag), writes := if SetsPrim(tag) then s.writes + [ToPrim(Prim(tag))] else s.writes)
  }

  /** IMAGE data, with the carry recorded when the buffer is short. */
  function ImagePart(s: State, n: nat, data: seq<Qword>): State {
    if n <= |data| then PutImage(s, data[..n])
    else
      var r := PutImage(s, data);
      r.(carry := if r.trx.active && n - |data| <= CARRY_MAX then n - |data| else 0)
  }

  /** How much of a buffer its first packet takes. */
  function Used(p: seq<Qword>): (n: nat)
    requires p != []
    ensures 1 <= n <= |p|
  {
    Min(Need(p[0]), |p|)
  }

  function Packet(s: State, p: seq<Qword>): State
    requires p != []
  {
    var tag, data, l := p[0], p[1..], Latch(s, p[0]);
    match FormatOf(tag)
    case Packed => PackedTo(l, tag, data, Min(Loops(tag) * Regs(tag), |data|))
    case RegList => RegListTo(l, tag, data, Min(Loops(tag) * Regs(tag), 2 * |data|))
    case Image => ImagePart(l, Loops(tag), data)
  }

  /** Packets up to the first with EOP, or to the end of the buffer. */
  function Stream(s: State, data: seq<Qword>): State
    decreases |data|
  {
    if data == [] then s else
      var r := Packet(s, data);
      if r.ended then r else Stream(r, data[Used(data)..])
  }

  /** The pixels owed by an earlier call, then tags. */
  function Drain(s: State, data: seq<Qword>): State {
    if s.carry == 0 || !s.trx.active then s.(carry := 0)
    else
      var take := Min(s.carry, |data|);
      var r := PutImage(s, data[..take]);
      r.(carry := if r.trx.active then s.carry - take else 0)
  }

  function Taken(s: State, data: seq<Qword>): (n: nat)
    ensures n <= |data|
  {
    if s.carry == 0 || !s.trx.active then 0 else Min(s.carry, |data|)
  }

  function Feed(s: State, data: seq<Qword>): State {
    Stream(Drain(s, data), data[Taken(s, data)..])
  }

  // ---------------------------------------------------------------------------
  // What a packet writes
  // ---------------------------------------------------------------------------

  function PackedWrite(code: nat, q: Qword): Write {
    if code == ADDRESS_DATA then ToRegister(q.w2 % 256, q.w0, q.w1) else ToPacked(code, q)
  }

  function PackedWrites(tag: Qword, data: seq<Qword>, n: nat): seq<Write>
    requires n <= |data|
  {
    seq(n, k requires 0 <= k < n => PackedWrite(RegCode(tag, k % Regs(tag)), data[k]))
  }

  function RegListWrites(tag: Qword, data: seq<Qword>, n: nat): seq<Write>
    requires n <= 2 * |data|
  {
    seq(n, k requires 0 <= k < n => ToRegister(RegCode(tag, k % Regs(tag)), Half(data, k).0, Half(data, k).1))
  }

  /** A PACKED body writes its descriptors cyclically, one quadword each, in order. */
  lemma {:induction false} PackedLog(s: State, tag: Qword, data: seq<Qword>, n: nat)
    requires n <= |data|
    ensures var r := PackedTo(s, tag, data, n);
            && r.writes == s.writes + PackedWrites(tag, data, n)
            && r == s.(trx := r.trx, writes := r.writes)
  {
    if n == 0 {
      assert s.writes + PackedWrites(tag, data, 0) == s.writes;
    } else {
      PackedLog(s, tag, data, n - 1);
      assert PackedWrites(tag, data, n) ==
        PackedWrites(tag, data, n - 1) + [PackedWrite(RegCode(tag, (n - 1) % Regs(tag)), data[n - 1])];
    }
  }

  /** A REGLIST body writes two values to a quadword, and cannot reach the transfer registers. */
  lemma {:induction false} RegListLog(s: State, tag: Qword, data: seq<Qword>, n: nat)
    requires n <= 2 * |data|
    ensures RegListTo(s, tag, data, n) == s.(writes := s.writes + RegListWrites(tag, data, n))
  {
    if n == 0 {
      assert s.writes + RegListWrites(tag, data, 0) == s.writes;
    } else {
      RegListLog(s, tag, data, n - 1);
      assert RegListWrites(tag, data, n) == RegListWrites(tag, data, n - 1) +
        [ToRegister(RegCode(tag, (n - 1) % Regs(tag)), Half(data, n - 1).0, Half(data, n - 1).1)];
    }
  }
}
