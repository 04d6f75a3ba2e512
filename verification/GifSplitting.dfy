/** Where the buffer is cut does not matter: packets are read one at a time and no
    further than their own size, and an IMAGE packet cut across calls is reassembled. */
module GifSplitting {
  import opened Words
  import opened GifStream

  // ---------------------------------------------------------------------------
  // A stream is its packets
  // ---------------------------------------------------------------------------

  predicate Whole(p: seq<Qword>) { p != [] && |p| == Need(p[0]) }

  lemma {:induction false} PackedPrefix(s: State, tag: Qword, a: seq<Qword>, b: seq<Qword>, n: nat)
    requires n <= |a|
    ensures PackedTo(s, tag, a + b, n) == PackedTo(s, tag, a, n)
  {
    if n > 0 { PackedPrefix(s, tag, a, b, n - 1); }
  }

  lemma {:induction false} RegListPrefix(s: State, tag: Qword, a: seq<Qword>, b: seq<Qword>, n: nat)
    requires n <= 2 * |a|
    ensures RegListTo(s, tag, a + b, n) == RegListTo(s, tag, a, n)
  {
    if n > 0 {
      RegListPrefix(s, tag, a, b, n - 1);
      assert (a + b)[(n - 1) / 2] == a[(n - 1) / 2];
    }
  }

  /** A packet neither takes nor looks at anything beyond its own size. */
  lemma PacketLocal(s: State, p: seq<Qword>, rest: seq<Qword>)
    requires Whole(p)
    ensures Used(p + rest) == |p| && Packet(s, p + rest) == Packet(s, p)
  {
    var tag, data, l := p[0], p[1..], Latch(s, p[0]);
    assert (p + rest)[1..] == data + rest && (p + rest)[0] == tag;
    match FormatOf(tag) {
      case Packed =>
        PackedPrefix(l, tag, data, rest, Loops(tag) * Regs(tag));
      case RegList =>
        EnoughHalves(Loops(tag) * Regs(tag), |data|);
        RegListPrefix(l, tag, data, rest, Loops(tag) * Regs(tag));
      case Image =>
        assert (data + rest)[..Loops(tag)] == data[..Loops(tag)];
    }
  }

  lemma EnoughHalves(n: nat, d: nat)
    requires d == (n + 1) / 2
    ensures n <= 2 * d
  {}

  /** The EOP flag after a packet is that of its tag. */
  lemma PacketEnds(s: State, p: seq<Qword>)
    requires p != []
    ensures Packet(s, p).ended == Ends(p[0]) && Packet(s, p).tag == p[0]
  {
    var tag, data, l := p[0], p[1..], Latch(s, p[0]);
    match FormatOf(tag)
    case Packed => PackedLog(l, tag, data, Min(Loops(tag) * Regs(tag), |data|));
    case RegList => RegListLog(l, tag, data, Min(Loops(tag) * Regs(tag), 2 * |data|));
    case Image =>
      PutKeeps(l, Colours(data));
      if Loops(tag) <= |data| { PutKeeps(l, Colours(data[..Loops(tag)])); }
  }

  function Join(ps: seq<seq<Qword>>): seq<Qword> { if ps == [] then [] else ps[0] + Join(ps[1..]) }

  /** Whole packets, none of them the last of a transfer. */
  predicate Continuing(ps: seq<seq<Qword>>) { forall i | 0 <= i < |ps| :: Whole(ps[i]) && !Ends(ps[i][0]) }

  function Meaning(s: State, ps: seq<seq<Qword>>): State
    requires Continuing(ps)
    decreases |ps|
  {
    if ps == [] then s else Meaning(Packet(s, ps[0]), ps[1..])
  }

  /** Whole packets without EOP are processed one after the other, whatever follows. */
  lemma {:induction false} StreamPackets(s: State, ps: seq<seq<Qword>>, rest: seq<Qword>)
    requires Continuing(ps)
    ensures Stream(s, Join(ps) + rest) == Stream(Meaning(s, ps), rest)
    decreases |ps|
  {
    if ps == [] {
      assert Join(ps) + rest == rest;
    } else {
      var p, tail := ps[0], Join(ps[1..]) + rest;
      assert Join(ps) + rest == p + tail;
      PacketLocal(s, p, tail);
      PacketEnds(s, p);
      assert (p + tail)[|p|..] == tail;
      StreamPackets(Packet(s, p), ps[1..], rest);
    }
  }

  /** A packet with EOP is the last one read: what follows it is ignored. */
  lemma StreamStops(s: State, ps: seq<seq<Qword>>, last: seq<Qword>, rest: seq<Qword>)
    requires Continuing(ps)
    requires Whole(last) && Ends(last[0])
    ensures Stream(s, Join(ps) + (last + rest)) == Packet(Meaning(s, ps), last)
  {
    StreamPackets(s, ps, last + rest);
    PacketLocal(Meaning(s, ps), last, rest);
    PacketEnds(Meaning(s, ps), last);
  }

  // ---------------------------------------------------------------------------
  // The carry
  // ---------------------------------------------------------------------------

  /** Between calls: a bounded carry, and only for a transfer still open. */
  predicate CarrySound(s: State) { s.carry <= CARRY_MAX && (s.carry > 0 ==> s.trx.active) }

  lemma PacketCarry(s: State, p: seq<Qword>)
    requires p != [] && s.carry == 0
    ensures CarrySound(Packet(s, p))
    ensures Packet(s, p).carry > 0 ==> Used(p) == |p|
  {
    var tag, data, l := p[0], p[1..], Latch(s, p[0]);
    match FormatOf(tag)
    case Packed => PackedLog(l, tag, data, Min(Loops(tag) * Regs(tag), |data|));
    case RegList => RegListLog(l, tag, data, Min(Loops(tag) * Regs(tag), 2 * |data|));
    case Image =>
      PutKeeps(l, Colours(data));
      if Loops(tag) <= |data| { PutKeeps(l, Colours(data[..Loops(tag)])); }
  }

  lemma {:induction false} StreamCarry(s: State, data: seq<Qword>)
    requires s.carry == 0
    ensures CarrySound(Stream(s, data))
    decreases |data|
  {
    if data != [] {
      PacketCarry(s, data);
      var r := Packet(s, data);
      if !r.ended {
        if r.carry == 0 { StreamCarry(r, data[Used(data)..]); } else { assert data[Used(data)..] == []; }
      }
    }
  }

  /** Every call keeps the carry bounded and tied to an open transfer. */
  lemma FeedCarry(s: State, data: seq<Qword>)
    requires CarrySound(s)
    ensures CarrySound(Feed(s, data))
  {
    var d, rest := Drain(s, data), data[Taken(s, data)..];
    if d.carry == 0 {
      StreamCarry(d, rest);
    } else {
      PutKeeps(s, Colours(data[..Min(s.carry, |data|)]));
      assert rest == [];
    }
  }

  // ---------------------------------------------------------------------------
  // Splitting an IMAGE packet
  // ---------------------------------------------------------------------------

  function FeedAll(s: State, chunks: seq<seq<Qword>>): State
    decreases |chunks|
  {
    if chunks == [] then s else FeedAll(Feed(s, chunks[0]), chunks[1..])
  }

  /** The transfer is open until the last quadword of data, so no chunk ends after it. */
  ghost predicate OpenTo(s: State, data: seq<Qword>) {
    forall k | 0 <= k < |data| :: PutImage(s, data[..k]).trx.active
  }

  lemma OpenRest(s: State, a: seq<Qword>, b: seq<Qword>)
    requires OpenTo(s, a + b)
    ensures OpenTo(PutImage(s, a), b)
  {
    forall k | 0 <= k < |b| ensures PutImage(PutImage(s, a), b[..k]).trx.active {
      ImageConcat(s, a, b[..k]);
      assert (a + b)[..|a| + k] == a + b[..k];
    }
  }

  /** The carry does not take part in writing pixels. */
  lemma {:induction false} PutIgnoresCarry(s: State, cs: seq<Word>, n: nat)
    ensures PutAll(s.(carry := n), cs) == PutAll(s, cs).(carry := n)
  {
    if cs != [] { PutIgnoresCarry(s, cs[..|cs| - 1], n); }
  }

  /** Data owed to an open transfer, in any number of calls. */
  lemma {:induction false} DrainAll(s: State, chunks: seq<seq<Qword>>)
    requires s.carry == |Join(chunks)| && OpenTo(s, Join(chunks))
    ensures FeedAll(s, chunks) == PutImage(s, Join(chunks)).(carry := 0)
    decreases |chunks|
  {
    if chunks == [] {
    } else {
      var c, rest := chunks[0], Join(chunks[1..]);
      assert Join(chunks) == c + rest;
      ImageConcat(s, c, rest);
      DrainOne(s, c, rest);
      var r := Feed(s, c);
      PutIgnoresCarry(PutImage(s, c), Colours(rest), |rest|);
      OpenRest(s, c, rest);
      OpenIgnoresCarry(PutImage(s, c), rest, |rest|);
      DrainAll(r, chunks[1..]);
    }
  }

  lemma OpenIgnoresCarry(s: State, data: seq<Qword>, n: nat)
    requires OpenTo(s, data)
    ensures OpenTo(s.(carry := n), data)
  {
    forall k | 0 <= k < |data| ensures PutImage(s.(carry := n), data[..k]).trx.active {
      PutIgnoresCarry(s, Colours(data[..k]), n);
    }
  }

  /** One call that only brings owed data. */
  lemma DrainOne(s: State, c: seq<Qword>, rest: seq<Qword>)
    requires s.carry == |c + rest| && OpenTo(s, c + rest)
    ensures Feed(s, c) == PutImage(s, c).(carry := |rest|)
  {
    PutKeeps(s, Colours(c));
    if c + rest == [] {
      assert c == [];
    } else {
      assert (c + rest)[..0] == [] && PutImage(s, []).trx.active;
      assert c[..|c|] == c && c[|c|..] == [];
      if rest != [] { assert (c + rest)[..|c|] == c; }
    }
  }

  /** Room for all but the last quadword keeps the transfer open up to it. */
  lemma RoomOpens(s: State, data: seq<Qword>)
    requires s.trx.active && 4 * (|data| - 1) < Room(s.trx)
    ensures OpenTo(s, data)
  {
    forall k | 0 <= k < |data| ensures PutImage(s, data[..k]).trx.active {
      OpenIff(s, Colours(data[..k]));
    }
  }

  /** A call whose buffer is all taken by one packet. */
  lemma FeedOne(s: State, p: seq<Qword>)
    requires s.carry == 0 && p != [] && Used(p) == |p|
    ensures Feed(s, p) == Packet(s, p)
  {
    assert Drain(s, p) == s && p[Taken(s, p)..] == p;
    var rest := p[Used(p)..];
    assert rest == [] && Stream(Packet(s, p), rest) == Packet(s, p);
  }

  ghost predicate ImageTag(tag: Qword, data: seq<Qword>) { FormatOf(tag) == Image && |data| == Loops(tag) }

  /** The first piece of an IMAGE packet writes what it has and records the rest as owed. */
  lemma FeedFirst(s: State, tag: Qword, a: seq<Qword>, b: seq<Qword>)
    requires ImageTag(tag, a + b) && s.carry == 0
    requires OpenTo(Latch(s, tag), a + b) && |b| <= CARRY_MAX
    ensures Feed(s, [tag] + a) == PutImage(Latch(s, tag), a).(carry := |b|)
  {
    var p, l := [tag] + a, Latch(s, tag);
    assert p[1..] == a && a[..|a|] == a;
    FeedOne(s, p);
    PutKeeps(l, Colours(a));
    if b != [] { assert (a + b)[..|a|] == a; }
  }

  /** The size of the first call that brings anything. */
  function FirstSize(chunks: seq<seq<Qword>>): nat {
    if chunks == [] then 0 else if chunks[0] == [] then FirstSize(chunks[1..]) else |chunks[0]|
  }

  lemma FeedNothing(s: State)
    requires s.carry == 0
    ensures Feed(s, []) == s
  {}

  /** However an IMAGE packet is cut into calls, the outcome is that of a single call: the
      same pixels, the same cursor and the same registers, with nothing left owed. */
  lemma {:induction false} SplitImage(s: State, tag: Qword, data: seq<Qword>, chunks: seq<seq<Qword>>)
    requires ImageTag(tag, data) && s.carry == 0
    requires s.trx.active && 4 * (|data| - 1) < Room(s.trx)
    requires Join(chunks) == [tag] + data && FirstSize(chunks) + CARRY_MAX > |data|
    ensures FeedAll(s, chunks) == Feed(s, [tag] + data) == PutImage(Latch(s, tag), data)
    decreases |chunks|
  {
    var l, p, c, rest := Latch(s, tag), [tag] + data, chunks[0], Join(chunks[1..]);
    RoomOpens(l, data);
    PutKeeps(l, Colours(data));
    assert data + [] == data;
    FeedFirst(s, tag, data, []);
    if c == [] {
      assert Join(chunks[1..]) == p;
      FeedNothing(s);
      SplitImage(s, tag, data, chunks[1..]);
    } else {
      var a := c[1..];
      assert c + rest == p;
      assert c == [tag] + a && data == a + rest;
      FeedFirst(s, tag, a, rest);
      ImageConcat(l, a, rest);
      OpenRest(l, a, rest);
      OpenIgnoresCarry(PutImage(l, a), rest, |rest|);
      PutIgnoresCarry(PutImage(l, a), Colours(rest), |rest|);
      DrainAll(Feed(s, c), chunks[1..]);
    }
  }

  /** What a short IMAGE buffer leaves owed: all that is missing, if the transfer is still
      open and at most 4096 quadwords are missing, and otherwise nothing. */
  lemma CarryIff(s: State, tag: Qword, a: seq<Qword>)
    requires FormatOf(tag) == Image && |a| < Loops(tag) && s.carry == 0
    ensures Feed(s, [tag] + a).carry == if Owes(s, tag, a) then Loops(tag) - |a| else 0
  {
    var p, l := [tag] + a, Latch(s, tag);
    assert p[1..] == a;
    FeedOne(s, p);
    OpenIff(l, Colours(a));
  }

  predicate Owes(s: State, tag: Qword, a: seq<Qword>) {
    s.trx.active && 4 * |a| < Room(s.trx) && Loops(tag) - |a| <= CARRY_MAX
  }

  lemma FeedTag(s: State, p: seq<Qword>)
    requires s.carry == 0 && p != [] && Used(p) == |p|
    ensures Feed(s, p).tag == p[0]
  {
    FeedOne(s, p);
    PacketEnds(s, p);
  }

  lemma FeedOwed(s: State, q: Qword)
    requires s.carry > 0 && s.trx.active
    ensures Feed(s, [q]).tag == s.tag
  {
    PutKeeps(s, Colours([q]));
    assert [q][..1] == [q] && [q][1..] == [];
  }

  /** Exactly when a quadword that comes after a short IMAGE buffer is taken for data: otherwise it
      is read as a tag, whatever it was meant to be. */
  lemma DataOrTag(s: State, tag: Qword, a: seq<Qword>, q: Qword)
    requires FormatOf(tag) == Image && |a| < Loops(tag) && s.carry == 0
    ensures FeedAll(s, [[tag] + a, [q]]).tag == if Owes(s, tag, a) then tag else q
  {
    var p := [tag] + a;
    var chunks, r := [p, [q]], Feed(s, p);
    assert chunks[1..] == [[q]] && FeedAll(r, [[q]]) == Feed(r, [q]);
    CarryIff(s, tag, a);
    FeedTag(s, p);
    if Owes(s, tag, a) {
      FeedCarry(s, p);
      FeedOwed(r, q);
    } else {
      FeedTag(r, [q]);
    }
  }
}
