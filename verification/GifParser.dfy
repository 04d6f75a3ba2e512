/** The GIF parser as it runs: nested loops over a buffer that update one shared unit,
    proved against the functions of GifStream. */
module GifParser {
  import opened Words
  import opened G = GifStream

  class Gif {
    var trx: Transfer
    var carry: nat
    var tag: Qword
    var ended: bool
    var pixels: seq<Pixel>
    var writes: seq<Write>

    constructor ()
      ensures Snapshot() == State(Transfer(0, 0, 0, 0, 0, 0, 0, 0, 0, false), 0, Qword(0, 0, 0, 0), false, [], [])
    {
      trx := Transfer(0, 0, 0, 0, 0, 0, 0, 0, 0, false);
      carry, tag, ended, pixels, writes := 0, Qword(0, 0, 0, 0), false, [], [];
    }

    ghost function Snapshot(): State
      reads this
    {
      State(trx, carry, tag, ended, pixels, writes)
    }

    method PutPixel(c: Word)
      requires trx.active
      modifies this
      ensures Snapshot() == G.PutPixel(old(Snapshot()), c)
    {
      pixels := pixels + [Pixel(trx.dbp, trx.dbw, trx.dsax + trx.x, trx.dsay + trx.y, c)];
      trx := trx.(x := trx.x + 1);
      if trx.x >= trx.rrw {
        trx := trx.(x := 0, y := trx.y + 1);
        if trx.y >= trx.rrh { trx := trx.(active := false); }
      }
    }

    /** Both loops stop as soon as the rectangle is full. */
    method WritePixelQwords(qs: seq<Qword>)
      modifies this
      ensures Snapshot() == PutImage(old(Snapshot()), qs)
    {
      ghost var start := Snapshot();
      var i := 0;
      while i < |qs| && trx.active
        invariant i <= |qs|
        invariant Snapshot() == PutImage(start, qs[..i])
      {
        var px := [qs[i].w0, qs[i].w1, qs[i].w2, qs[i].w3];
        ghost var before := Snapshot();
        var k := 0;
        while k < 4 && trx.active
          invariant k <= 4
          invariant Snapshot() == PutAll(before, px[..k])
        {
          assert px[..k + 1][..k] == px[..k];
          PutPixel(px[k]);
          k := k + 1;
        }
        RestIgnored(before, px, k);
        QwordStep(start, qs, i);
        i := i + 1;
      }
      ImageRestIgnored(start, qs, i);
    }

    method WriteRegister(code: nat, lo: Word, hi: Word)
      modifies this
      ensures Snapshot() == G.WriteRegister(old(Snapshot()), code, lo, hi)
    {
      writes := writes + [ToRegister(code, lo, hi)];
      if code == BITBLTBUF {
        var width := hi / 0x1_0000 % 64 * 64;
        if width == 0 { width := 640; }
        trx := trx.(dbp := hi % 0x4000, dbw := width, dpsm := hi / 0x40_0000 % 64);
      } else if code == TRXPOS {
        trx := trx.(dsax := hi % 0x800, dsay := hi / 0x1_0000 % 0x800);
      } else if code == TRXREG {
        trx := trx.(rrw := lo % 0x1000, rrh := hi % 0x1000);
      } else if code == TRXDIR {
        trx := trx.(x := 0, y := 0, active := lo % 4 == 0 && trx.dpsm == 0);
      }
    }

    method WritePacked(code: nat, q: Qword)
      modifies this
      ensures Snapshot() == G.WritePacked(old(Snapshot()), code, q)
    {
      if code == ADDRESS_DATA {
        WriteRegister(q.w2 % 256, q.w0, q.w1);
      } else {
        writes := writes + [ToPacked(code, q)];
      }
    }

    method LatchTag(t: Qword)
      modifies this
      ensures Snapshot() == Latch(old(Snapshot()), t)
    {
      tag, ended := t, Ends(t);
      if SetsPrim(t) { writes := writes + [ToPrim(Prim(t))]; }
    }

    method ProcessRegList(t: Qword, data: seq<Qword>) returns (used: nat)
      modifies this
      ensures Snapshot() == RegListTo(old(Snapshot()), t, data, Min(Loops(t) * Regs(t), 2 * |data|))
      ensures used == 1 + Min((Loops(t) * Regs(t) + 1) / 2, |data|)
    {
      used := WriteValues(t, data, Loops(t) * Regs(t));
    }

    /** Two 64-bit values to a quadword, until the values or the buffer run out. */
    method WriteValues(t: Qword, data: seq<Qword>, total: nat) returns (used: nat)
      modifies this
      ensures Snapshot() == RegListTo(old(Snapshot()), t, data, Min(total, 2 * |data|))
      ensures used == 1 + Min((total + 1) / 2, |data|)
    {
      ghost var start := Snapshot();
      var i := 0;
      while i < total
        invariant i <= total && i <= 2 * |data|
        invariant Snapshot() == RegListTo(start, t, data, i)
      {
        if i / 2 >= |data| { return 1 + i / 2; }
        var (lo, hi) := Half(data, i);
        WriteRegister(RegCode(t, i % Regs(t)), lo, hi);
        i := i + 1;
      }
      return 1 + (total + 1) / 2;
    }

    /** NLOOP rounds over the descriptors, one quadword each. */
    method ProcessPacked(t: Qword, data: seq<Qword>) returns (used: nat)
      modifies this
      ensures Snapshot() == PackedTo(old(Snapshot()), t, data, Min(Loops(t) * Regs(t), |data|))
      ensures used == 1 + Min(Loops(t) * Regs(t), |data|)
    {
      ghost var start := Snapshot();
      var n, loop := 0, 0;
      while loop < Loops(t)
        invariant loop <= Loops(t) && n == loop * Regs(t) <= |data|
        invariant Snapshot() == PackedTo(start, t, data, n)
      {
        var reg := 0;
        RoundsFit(loop, Loops(t), Regs(t));
        while reg < Regs(t)
          invariant reg <= Regs(t) && n == loop * Regs(t) + reg <= |data|
          invariant Snapshot() == PackedTo(start, t, data, n)
        {
          if n >= |data| { return 1 + n; }
          DivMod(n, Regs(t), loop, reg);
          WritePacked(RegCode(t, reg), data[n]);
          n, reg := n + 1, reg + 1;
        }
        loop := loop + 1;
      }
      return 1 + n;
    }

    /** Raw pixels; a short buffer leaves the rest owed, within bounds, or drops it. */
    method ProcessImage(n: nat, data: seq<Qword>) returns (used: nat)
      modifies this
      ensures Snapshot() == ImagePart(old(Snapshot()), n, data)
      ensures used == 1 + Min(n, |data|)
    {
      ghost var start := Snapshot();
      if n > |data| {
        if trx.active && |data| > 0 { WritePixelQwords(data); }
        PutFullImage(start, data);
        PutKeeps(start, Colours(data));
        carry := if trx.active && n - |data| <= CARRY_MAX then n - |data| else 0;
        return 1 + |data|;
      }
      if trx.active { WritePixelQwords(data[..n]); }
      PutFullImage(start, data[..n]);
      return 1 + n;
    }

    /** Takes nothing from an empty buffer, and otherwise a tag and what its packet needs. */
    method ProcessOnePacket(p: seq<Qword>) returns (used: nat)
      modifies this
      ensures p == [] ==> used == 0 && Snapshot() == old(Snapshot())
      ensures p != [] ==> used == Used(p) && Snapshot() == Packet(old(Snapshot()), p)
    {
      if p == [] { return 0; }
      var t, data := p[0], p[1..];
      LatchTag(t);
      match FormatOf(t)
      case RegList => used := ProcessRegList(t, data);
      case Image => used := ProcessImage(Loops(t), data);
      case Packed => used := ProcessPacked(t, data);
    }

    method DrainCarry(data: seq<Qword>) returns (taken: nat)
      modifies this
      ensures Snapshot() == Drain(old(Snapshot()), data)
      ensures taken == Taken(old(Snapshot()), data)
    {
      taken := 0;
      if carry > 0 {
        if !trx.active {
          carry := 0;
        } else {
          var owed := carry;
          taken := Min(owed, |data|);
          PutKeeps(Snapshot(), Colours(data[..taken]));
          WritePixelQwords(data[..taken]);
          carry := owed - taken;
          if !trx.active { carry := 0; }
        }
      }
    }

    /** Packets until EOP or the end of the buffer. */
    method ProcessPackets(data: seq<Qword>)
      modifies this
      ensures Snapshot() == Stream(old(Snapshot()), data)
    {
      ghost var goal := Stream(Snapshot(), data);
      var off := 0;
      assert data[0..] == data;
      while off < |data|
        invariant off <= |data|
        invariant Stream(Snapshot(), data[off..]) == goal
      {
        var rest := data[off..];
        var used := ProcessOnePacket(rest);
        if used == 0 { break; }
        off := off + used;
        assert data[off..] == rest[used..];
        if ended { return; }
      }
    }

    /** One call: the owed pixels, then packets. */
    method ProcessQuadwords(data: seq<Qword>)
      modifies this
      ensures Snapshot() == Feed(old(Snapshot()), data)
    {
      var off := DrainCarry(data);
      ProcessPackets(data[off..]);
    }
  }

  lemma RestIgnored(s: State, cs: seq<Word>, k: nat)
    requires k <= |cs| && (k == |cs| || !PutAll(s, cs[..k]).trx.active)
    ensures PutAll(s, cs) == PutAll(s, cs[..k])
  {
    assert cs == cs[..k] + cs[k..];
    PutConcat(s, cs[..k], cs[k..]);
    if k < |cs| { PutFull(PutAll(s, cs[..k]), cs[k..]); }
  }

  lemma ImageRestIgnored(s: State, qs: seq<Qword>, i: nat)
    requires i <= |qs| && (i == |qs| || !PutImage(s, qs[..i]).trx.active)
    ensures PutImage(s, qs) == PutImage(s, qs[..i])
  {
    assert qs == qs[..i] + qs[i..];
    ImageConcat(s, qs[..i], qs[i..]);
    if i < |qs| { PutFull(PutImage(s, qs[..i]), Colours(qs[i..])); }
  }

  lemma QwordStep(s: State, qs: seq<Qword>, i: nat)
    requires i < |qs|
    ensures PutImage(s, qs[..i + 1]) == PutAll(PutImage(s, qs[..i]), [qs[i].w0, qs[i].w1, qs[i].w2, qs[i].w3])
  {
    assert qs[..i + 1][..i] == qs[..i];
    PutConcat(s, Colours(qs[..i]), [qs[i].w0, qs[i].w1, qs[i].w2, qs[i].w3]);
  }

  lemma PutFullImage(s: State, qs: seq<Qword>)
    ensures !s.trx.active ==> PutImage(s, qs) == s
    ensures qs == [] ==> PutImage(s, qs) == s
  {
    if !s.trx.active { PutFull(s, Colours(qs)); }
  }

  lemma RoundsFit(loop: nat, loops: nat, regs: nat)
    requires loop < loops
    ensures (loop + 1) * regs == loop * regs + regs <= loops * regs
  {}
}
