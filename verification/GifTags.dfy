/** GIF tags from their fields: an encoder that the parser reads back, what a packet with given fields does,
    and a whole upload from the first tag to the last pixel. */
module GifTags {
  import opened Words
  import opened GifStream

  type Nibble = n: nat | n < 16

  /** The fields of a tag, and the bits of its first two words that do not matter. */
  datatype Fields = Fields(loops: nat, ends: bool, setsPrim: bool, prim: nat, mode: nat, count: nat, regs: seq<Nibble>,
                           spare0: nat, spare1: nat)
  {
    predicate Valid() {
      && loops < 0x8000 && prim < 0x800 && mode < 4 && count < 16 && |regs| == 16 && spare0 < 0x1_0000 && spare1 < 0x4000
    }

    /** A count of zero stands for sixteen. */
    function Registers(): nat { if count == 0 then 16 else count }
  }

  function Digit(b: bool): nat { if b then 1 else 0 }

  /** Nibbles put together, the first one lowest. */
  function Together(ns: seq<Nibble>): nat { if ns == [] then 0 else ns[0] + 16 * Together(ns[1..]) }

  lemma {:induction false} TogetherFits(ns: seq<Nibble>)
    ensures Together(ns) < Pow16(|ns|)
  {
    if ns != [] { TogetherFits(ns[1..]); }
  }

  lemma Pow16Is()
    ensures Pow16(8) == 0x1_0000_0000
  {
    assert Pow16(2) == 0x100 && Pow16(4) == 0x1_0000 && Pow16(6) == 0x100_0000;
  }

  /** NLOOP in bits 0 to 14, EOP in bit 15, PRE in bit 46, PRIM in bits 47 to 57, FLG in bits 58 and 59, NREG in
      bits 60 to 63, and descriptor k in bits 64 + 4k to 67 + 4k. */
  function Encode(f: Fields): Qword
    requires f.Valid()
  {
    TogetherFits(f.regs[..8]);
    TogetherFits(f.regs[8..]);
    Pow16Is();
    Qword(f.loops + 0x8000 * Digit(f.ends) + 0x1_0000 * f.spare0,
          f.spare1 + 0x4000 * Digit(f.setsPrim) + 0x8000 * f.prim + 0x400_0000 * f.mode + 0x1000_0000 * f.count,
          Together(f.regs[..8]), Together(f.regs[8..]))
  }

  // ---------------------------------------------------------------------------
  // Read back
  // ---------------------------------------------------------------------------

  lemma FirstWord(loops: nat, ends: bool, spare: nat, w: nat)
    requires loops < 0x8000 && w == loops + 0x8000 * Digit(ends) + 0x1_0000 * spare
    ensures w % 0x8000 == loops && (w / 0x8000 % 2 == 1 <==> ends)
  {
    DivMod(w, 0x8000, Digit(ends) + 2 * spare, loops);
  }

  lemma SecondWord(spare: nat, pre: nat, prim: nat, mode: nat, count: nat, w: nat)
    requires spare < 0x4000 && pre < 2 && prim < 0x800 && mode < 4 && count < 16
    requires w == spare + 0x4000 * pre + 0x8000 * prim + 0x400_0000 * mode + 0x1000_0000 * count
    ensures w / 0x4000 % 2 == pre && w / 0x8000 % 0x800 == prim && w / 0x400_0000 % 4 == mode && w / 0x1000_0000 == count
  {
    DivMod(w, 0x4000, pre + 2 * (prim + 0x800 * (mode + 4 * count)), spare);
    DivMod(w, 0x8000, prim + 0x800 * (mode + 4 * count), spare + 0x4000 * pre);
    DivMod(w, 0x400_0000, mode + 4 * count, spare + 0x4000 * pre + 0x8000 * prim);
    DivMod(w, 0x1000_0000, count, spare + 0x4000 * pre + 0x8000 * prim + 0x400_0000 * mode);
  }

  lemma Sixteenth(a: nat, p: nat)
    requires p > 0
    ensures a / (16 * p) == a / 16 / p
  {
    var q, r := a / 16 / p, a / 16 % p;
    assert a / 16 == q * p + r && a == 16 * (a / 16) + a % 16;
    assert a == q * (16 * p) + (16 * r + a % 16);
    DivMod(a, 16 * p, q, 16 * r + a % 16);
  }

  lemma {:induction false} NibbleAt(ns: seq<Nibble>, k: nat)
    requires k < |ns|
    ensures Together(ns) / Pow16(k) % 16 == ns[k]
    decreases k
  {
    var n, rest := Together(ns), Together(ns[1..]);
    DivMod(n, 16, rest, ns[0]);
    if k > 0 {
      NibbleAt(ns[1..], k - 1);
      Sixteenth(n, Pow16(k - 1));
    }
  }

  /** Every field of an encoded tag is read back. */
  lemma TagReadBack(f: Fields)
    requires f.Valid()
    ensures var tag := Encode(f);
            && Loops(tag) == f.loops && Ends(tag) == f.ends && SetsPrim(tag) == f.setsPrim && Prim(tag) == f.prim
            && Regs(tag) == f.Registers()
            && FormatOf(tag) == if f.mode == 0 then Packed else if f.mode == 1 then RegList else Image
  {
    var tag := Encode(f);
    FirstWord(f.loops, f.ends, f.spare0, tag.w0);
    SecondWord(f.spare1, Digit(f.setsPrim), f.prim, f.mode, f.count, tag.w1);
  }

  lemma CodeReadBack(f: Fields, k: nat)
    requires f.Valid() && k < 16
    ensures RegCode(Encode(f), k) == f.regs[k]
  {
    if k < 8 { NibbleAt(f.regs[..8], k); } else { NibbleAt(f.regs[8..], k - 8); }
  }

  // ---------------------------------------------------------------------------
  // Packets
  // ---------------------------------------------------------------------------

  /** What a PACKED packet writes: the primitive if PRE is set, and then for each quadword the descriptor whose
      turn it is; 14 makes a quadword name its register itself. */
  function PackedTurn(f: Fields, data: seq<Qword>, k: nat): Write
    requires f.Valid() && k < |data|
  {
    var code := f.regs[k % f.Registers()];
    if code == 14 then ToRegister(data[k].w2 % 256, data[k].w0, data[k].w1) else ToPacked(code, data[k])
  }

  function Header(f: Fields): seq<Write> { if f.setsPrim then [ToPrim(f.prim)] else [] }

  lemma PackedPacket(s: State, f: Fields, data: seq<Qword>)
    requires f.Valid() && f.mode == 0 && |data| == f.loops * f.Registers()
    ensures var r := Packet(s, [Encode(f)] + data);
            && r.writes == s.writes + Header(f) + seq(|data|, k requires 0 <= k < |data| => PackedTurn(f, data, k))
            && r.ended == f.ends && r.pixels == s.pixels && r.carry == s.carry
    ensures Used([Encode(f)] + data) == 1 + |data|
  {
    var tag, p := Encode(f), [Encode(f)] + data;
    TagReadBack(f);
    assert p[1..] == data;
    PackedLog(Latch(s, tag), tag, data, |data|);
    forall k | 0 <= k < |data| ensures PackedWrites(tag, data, |data|)[k] == PackedTurn(f, data, k) {
      CodeReadBack(f, k % f.Registers());
    }
    assert PackedWrites(tag, data, |data|) == seq(|data|, k requires 0 <= k < |data| => PackedTurn(f, data, k));
    assert Latch(s, tag).writes == s.writes + Header(f);
  }

  /** A REGLIST packet: two 64-bit values to a quadword, low half first. */
  function ListTurn(f: Fields, data: seq<Qword>, k: nat): Write
    requires f.Valid() && k < 2 * |data|
  {
    var q, code := data[k / 2], f.regs[k % f.Registers()];
    if k % 2 == 0 then ToRegister(code, q.w0, q.w1) else ToRegister(code, q.w2, q.w3)
  }

  lemma ListPacket(s: State, f: Fields, data: seq<Qword>)
    requires f.Valid() && f.mode == 1 && |data| == (f.loops * f.Registers() + 1) / 2
    ensures var r, n := Packet(s, [Encode(f)] + data), f.loops * f.Registers();
            && r.writes == s.writes + Header(f) + seq(n, k requires 0 <= k < n => ListTurn(f, data, k))
            && r.ended == f.ends && r.pixels == s.pixels && r.trx == s.trx && r.carry == s.carry
    ensures Used([Encode(f)] + data) == 1 + |data|
  {
    var tag, p, n := Encode(f), [Encode(f)] + data, f.loops * f.Registers();
    TagReadBack(f);
    assert p[1..] == data;
    RegListLog(Latch(s, tag), tag, data, n);
    forall k | 0 <= k < n ensures RegListWrites(tag, data, n)[k] == ListTurn(f, data, k) {
      CodeReadBack(f, k % f.Registers());
    }
    assert RegListWrites(tag, data, n) == seq(n, k requires 0 <= k < n => ListTurn(f, data, k));
    assert Latch(s, tag).writes == s.writes + Header(f);
  }

  // ---------------------------------------------------------------------------
  // An upload
  // ---------------------------------------------------------------------------

  /** The four register writes, in order, open a transfer exactly if the direction is host to local and the
      destination format is 32-bit colour; either way the cursor is at the corner of the new rectangle. */
  lemma OpensIff(s: State, dst: Word, pos: Word, w: Word, h: Word, dir: Word)
    ensures var u := WriteRegister(WriteRegister(WriteRegister(WriteRegister(s, 0x50, 0, dst), 0x51, 0, pos), 0x52, w, h), 0x53, dir, 0);
            && (u.trx.active <==> dir % 4 == 0 && dst / 0x40_0000 % 64 == 0)
            && u.trx.x == 0 && u.trx.y == 0 && u.trx.rrw == w % 0x1000 && u.trx.rrh == h % 0x1000
            && u.trx.dsax == pos % 0x800 && u.trx.dsay == pos / 0x1_0000 % 0x800 && u.trx.dbp == dst % 0x4000
  {}

  /** Any other register leaves the transfer alone. */
  lemma OthersSpare(s: State, code: nat, lo: Word, hi: Word)
    requires code < 0x50 || code > 0x53
    ensures WriteRegister(s, code, lo, hi).trx == s.trx
  {}

  const PLAIN: seq<Nibble> := [14, 0, 0, 0, 0, 0, 0, 0, 0, 0, 0, 0, 0, 0, 0, 0]

  /** A quadword that writes a 64-bit value to a register by its number. */
  function Naming(code: Word, lo: Word, hi: Word): Qword { Qword(lo, hi, code, 0) }

  const SETUP := Fields(4, false, false, 0, 0, 1, PLAIN, 0, 0)

  function PixelFields(n: nat): Fields { Fields(n, true, false, 0, 2, 0, PLAIN, 0, 0) }

  function Setup(dst: Word, pos: Word, w: Word, h: Word): seq<Qword> {
    [Naming(0x50, 0, dst), Naming(0x51, 0, pos), Naming(0x52, w, h), Naming(0x53, 0, 0)]
  }

  /** The quadwords of an upload: a packet of four register writes, and a packet of the pixels. */
  function UploadStream(dst: Word, pos: Word, w: Word, h: Word, data: seq<Qword>): seq<Qword>
    requires |data| < 0x8000
  {
    [Encode(SETUP)] + Setup(dst, pos, w, h) + ([Encode(PixelFields(|data|))] + data)
  }

  /** The first w * h pixels of cs at their places. */
  function Rectangle(dst: Word, pos: Word, w: Word, h: Word, cs: seq<Word>): seq<Pixel>
    requires w > 0
  {
    seq(Fewer(|cs|, w * h), k requires 0 <= k < |cs| => Uploaded(dst, pos, w, k, cs[k]))
  }

  lemma FourWrites(s: State, tag: Qword, setup: seq<Qword>, dst: Word, pos: Word, w: Word, h: Word)
    requires RegCode(tag, 0) == 14 && Regs(tag) == 1
    requires setup == Setup(dst, pos, w, h)
    ensures PackedTo(s, tag, setup, 4) == StartUpload(s, dst, pos, w, h)
  {
    assert PackedTo(s, tag, setup, 1) == WriteRegister(s, 0x50, 0, dst);
    assert PackedTo(s, tag, setup, 2) == WriteRegister(PackedTo(s, tag, setup, 1), 0x51, 0, pos);
    assert PackedTo(s, tag, setup, 3) == WriteRegister(PackedTo(s, tag, setup, 2), 0x52, w, h);
    assert PackedTo(s, tag, setup, 4) == WriteRegister(PackedTo(s, tag, setup, 3), 0x53, 0, 0);
  }

  lemma SetupPacket(s: State, tag: Qword, dst: Word, pos: Word, w: Word, h: Word, rest: seq<Qword>, p: seq<Qword>)
    requires Loops(tag) == 4 && Regs(tag) == 1 && FormatOf(tag) == Packed && RegCode(tag, 0) == 14
    requires p == [tag] + Setup(dst, pos, w, h) + rest
    ensures Used(p) == 5 && Packet(s, p) == StartUpload(Latch(s, tag), dst, pos, w, h) && p[5..] == rest
  {
    var setup := Setup(dst, pos, w, h);
    assert p[1..] == setup + rest && p[0] == tag;
    PackedSame(Latch(s, tag), tag, setup, rest, 4);
    FourWrites(Latch(s, tag), tag, setup, dst, pos, w, h);
  }

  lemma {:induction false} PackedSame(s: State, tag: Qword, a: seq<Qword>, b: seq<Qword>, n: nat)
    requires n <= |a|
    ensures PackedTo(s, tag, a + b, n) == PackedTo(s, tag, a, n)
  {
    if n > 0 { PackedSame(s, tag, a, b, n - 1); }
  }

  lemma PixelPacket(s: State, data: seq<Qword>)
    requires |data| < 0x8000
    ensures var tag := Encode(PixelFields(|data|));
            Packet(s, [tag] + data) == PutImage(Latch(s, tag), data) && Latch(s, tag).ended
  {
    TagReadBack(PixelFields(|data|));
    assert ([Encode(PixelFields(|data|))] + data)[1..] == data && data[..|data|] == data;
  }

  lemma StreamTwo(s: State, p: seq<Qword>, rest: seq<Qword>)
    requires p != [] && rest != [] && !Packet(s, p).ended && p[Used(p)..] == rest && Packet(Packet(s, p), rest).ended
    ensures Stream(s, p) == Packet(Packet(s, p), rest)
  {}

  lemma {:induction false} EndedKept(s: State, cs: seq<Word>)
    ensures PutAll(s, cs).ended == s.ended
  {
    if cs != [] { EndedKept(s, cs[..|cs| - 1]); }
  }

  /** A whole upload, tag by tag and register by register: with nothing owed from before, exactly the first
      w * h pixels of the data are drawn, pixel k at column k mod w and row k div w of the place given. */
  lemma UploadDrawn(s: State, dst: Word, pos: Word, w: Word, h: Word, data: seq<Qword>)
    requires Uploads(dst, w, h) && |data| < 0x8000 && s.carry == 0
    ensures var r := Feed(s, UploadStream(dst, pos, w, h, data));
            && r.pixels == s.pixels + Rectangle(dst, pos, w, h, Colours(data))
            && (r.trx.active <==> 4 * |data| < w * h)
  {
    var tag0, tag := Encode(SETUP), Encode(PixelFields(|data|));
    var p, rest := UploadStream(dst, pos, w, h, data), [tag] + data;
    TagReadBack(SETUP);
    CodeReadBack(SETUP, 0);
    SetupPacket(s, tag0, dst, pos, w, h, rest, p);
    var u := StartUpload(Latch(s, tag0), dst, pos, w, h);
    PixelPacket(u, data);
    EndedKept(Latch(u, tag), Colours(data));
    assert Drain(s, p) == s && p[0..] == p;
    StreamTwo(s, p, rest);
    LatchedUpload(s, tag0, tag, dst, pos, w, h, Colours(data));
  }

  /** Latching a tag without a primitive does not matter to an upload. */
  lemma LatchedUpload(s: State, tag0: Qword, tag: Qword, dst: Word, pos: Word, w: Word, h: Word, cs: seq<Word>)
    requires Uploads(dst, w, h)
    ensures var r := PutAll(Latch(StartUpload(Latch(s, tag0), dst, pos, w, h), tag), cs);
            r.pixels == s.pixels + Rectangle(dst, pos, w, h, cs) && (r.trx.active <==> |cs| < w * h)
  {
    var u := StartUpload(Latch(s, tag0), dst, pos, w, h);
    Upload(Latch(s, tag0), dst, pos, w, h, cs);
    LatchIrrelevant(u, tag, cs);
  }

  lemma {:induction false} LatchIrrelevant(u: State, tag: Qword, cs: seq<Word>)
    ensures PutAll(Latch(u, tag), cs).trx == PutAll(u, cs).trx && PutAll(Latch(u, tag), cs).pixels == PutAll(u, cs).pixels
  {
    if cs != [] { LatchIrrelevant(u, tag, cs[..|cs| - 1]); }
  }
}
