/** IRX module relocation: the loop over a section's entries patches words, jump targets and
    HI16/LO16 pairs in IOP memory so that each denotes its old value plus the load address. */
module Relocation {
  import opened Words
  import opened Memory
  import opened Options

  // ---------------------------------------------------------------------------
  // Entries and fixups
  // ---------------------------------------------------------------------------

  /** An entry as read from the image, which may be cut short. */
  datatype Entry = Truncated | Entry(offset: Word, kind: nat)

  const R_MIPS_32 := 2
  const R_MIPS_26 := 4
  const R_MIPS_HI16 := 5
  const R_MIPS_LO16 := 6

  datatype Error = TruncatedEntry | HighAtEnd | HighUnpaired | LowUnpaired | Unsupported

  datatype Fixup = Absolute(a: Word) | Jump(a: Word) | Pair(hi: Word, lo: Word)

  datatype Plan = Plan(fixups: seq<Fixup>, error: Option<Error>)

  /** What the next entries ask for, and how many of them that takes. */
  datatype Next = Fault(error: Error) | Fix(fixup: Fixup, width: nat)

  function NextOf(base: Word, es: seq<Entry>): (n: Next)
    requires es != []
    ensures n.Fix? ==> 1 <= n.width <= |es|
  {
    if es[0].Truncated? then Fault(TruncatedEntry)
    else
      var at := Plus(base, es[0].offset);
      if es[0].kind == R_MIPS_32 then Fix(Absolute(at), 1)
      else if es[0].kind == R_MIPS_26 then Fix(Jump(at), 1)
      else if es[0].kind == R_MIPS_HI16 then
        if |es| == 1 then Fault(HighAtEnd)
        else if es[1].Truncated? || es[1].kind != R_MIPS_LO16 then Fault(HighUnpaired)
        else Fix(Pair(at, Plus(base, es[1].offset)), 2)
      else if es[0].kind == R_MIPS_LO16 then Fault(LowUnpaired)
      else Fault(Unsupported)
  }

  /** What a section asks for, up to its first faulty entry. */
  function PlanOf(base: Word, es: seq<Entry>): Plan
    decreases |es|
  {
    if es == [] then Plan([], None) else
      match NextOf(base, es)
      case Fault(e) => Plan([], Some(e))
      case Fix(f, width) =>
        var rest := PlanOf(base, es[width..]);
        rest.(fixups := [f] + rest.fixups)
  }

  // ---------------------------------------------------------------------------
  // Patching
  // ---------------------------------------------------------------------------

  function Signed16(h: nat): int { if h < 0x8000 then h else h - 0x1_0000 }

  /** The value a HI16/LO16 pair of instructions builds: the low half is sign-extended. */
  function PairValue(hi: Word, lo: Word): Word { Wrap(hi % 0x1_0000 * 0x1_0000 + Signed16(lo % 0x1_0000)) }

  function WithLow16(w: Word, h: nat): Word
    requires h < 0x1_0000
  {
    w / 0x1_0000 * 0x1_0000 + h
  }

  /** The high half that makes up for the sign of the low half. */
  function HighFor(v: Word): nat { Plus(v, 0x8000) / 0x1_0000 }

  function JumpPatched(w: Word, base: Word): Word {
    w / 0x400_0000 * 0x400_0000 + Plus(base, w % 0x400_0000 * 4) / 4 % 0x400_0000
  }

  function Apply(ram: Bytes, base: Word, f: Fixup): Bytes {
    match f
    case Absolute(a) => Store(ram, a, Plus(Load(ram, a), base))
    case Jump(a) => Store(ram, a, JumpPatched(Load(ram, a), base))
    case Pair(hi, lo) =>
      var h, l := Load(ram, hi), Load(ram, lo);
      var v := Plus(PairValue(h, l), base);
      Store(Store(ram, hi, WithLow16(h, HighFor(v))), lo, WithLow16(l, v % 0x1_0000))
  }

  function ApplyAll(ram: Bytes, base: Word, fs: seq<Fixup>): Bytes {
    if fs == [] then ram else Apply(ApplyAll(ram, base, fs[..|fs| - 1]), base, fs[|fs| - 1])
  }

  // ---------------------------------------------------------------------------
  // Meaning
  // ---------------------------------------------------------------------------

  function Touched(f: Fixup): seq<Word> { if f.Pair? then [f.hi, f.lo] else [f.a] }

  /** The address a fixup's instructions or word stand for. */
  function Denotes(ram: Bytes, f: Fixup): Word {
    match f
    case Absolute(a) => Load(ram, a)
    case Jump(a) => Load(ram, a) % 0x400_0000 * 4
    case Pair(hi, lo) => PairValue(Load(ram, hi), Load(ram, lo))
  }

  /** What of the touched words a fixup must leave alone. */
  function Kept(ram: Bytes, f: Fixup): seq<nat> {
    match f
    case Absolute(_) => []
    case Jump(a) => [Load(ram, a) / 0x400_0000]
    case Pair(hi, lo) => [Load(ram, hi) / 0x1_0000, Load(ram, lo) / 0x1_0000]
  }

  /** The old value plus the load address; a jump counts in words within 256 megabytes. */
  function Moved(f: Fixup, v: Word, base: Word): Word {
    if f.Jump? then Plus(v, base - base % 4) % 0x1000_0000 else Plus(v, base)
  }

  predicate Sound(ram: Bytes, f: Fixup) {
    && (forall i | 0 <= i < |Touched(f)| :: InRam(ram, Touched(f)[i]))
    && (f.Pair? ==> Apart(f.hi, f.lo))
  }

  /** The carry out of the sign-extended low half is made good in the high half. */
  lemma PairRebuilt(h: Word, l: Word, v: Word)
    ensures PairValue(WithLow16(h, HighFor(v)), WithLow16(l, v % 0x1_0000)) == v
  {
    Low16(h, HighFor(v));
    Low16(l, v % 0x1_0000);
    HalvesRebuilt(v);
  }

  lemma HalvesRebuilt(v: Word)
    ensures Wrap(HighFor(v) * 0x1_0000 + Signed16(v % 0x1_0000)) == v
  {
    var q, r := v / 0x1_0000, v % 0x1_0000;
    if r < 0x8000 {
      DivMod(v as int + 0x8000, 0x1_0000, q, r + 0x8000);
    } else {
      DivMod(v as int + 0x8000, 0x1_0000, q as int + 1, r - 0x8000);
      assert HighFor(v) == if q == 0xFFFF then 0 else q + 1;
    }
  }

  lemma Low16(w: Word, h: nat)
    requires h < 0x1_0000
    ensures WithLow16(w, h) % 0x1_0000 == h && WithLow16(w, h) / 0x1_0000 == w / 0x1_0000
  {}

  lemma WordsOf(s: Word)
    ensures s / 4 % 0x400_0000 * 4 == (s - s % 4) % 0x1000_0000
  {
    var a := s / 4;
    DivMod(4 * a, 0x1000_0000, a / 0x400_0000, a % 0x400_0000 * 4);
  }

  lemma SumAligned(t: int, base: Word)
    requires 0 <= t < 0x1000_0000 && t % 4 == 0
    ensures var s := Plus(base, t); s - s % 4 == Plus(t, base - base % 4)
  {
    var s: int := Plus(base, t);
    assert s == base + t || s == base + t - 0x1_0000_0000;
    assert s % 4 == base % 4;
  }

  lemma JumpMoved(w: Word, base: Word)
    ensures JumpPatched(w, base) % 0x400_0000 * 4 == Plus(w % 0x400_0000 * 4, base - base % 4) % 0x1000_0000
    ensures JumpPatched(w, base) / 0x400_0000 == w / 0x400_0000
  {
    var t := w % 0x400_0000 * 4;
    var s := Plus(base, t);
    DivMod(JumpPatched(w, base), 0x400_0000, w / 0x400_0000, s / 4 % 0x400_0000);
    WordsOf(s);
    SumAligned(t, base);
  }

  /** One fixup moves what it denotes by the load address and keeps the rest of its words. */
  lemma ApplyMoves(ram: Bytes, base: Word, f: Fixup)
    requires Sound(ram, f)
    ensures Denotes(Apply(ram, base, f), f) == Moved(f, Denotes(ram, f), base)
    ensures Kept(Apply(ram, base, f), f) == Kept(ram, f)
  {
    match f
    case Absolute(a) =>
      assert Touched(f)[0] == a;
      LoadStored(ram, a, Plus(Load(ram, a), base));
    case Jump(a) =>
      assert Touched(f)[0] == a;
      LoadStored(ram, a, JumpPatched(Load(ram, a), base));
      JumpMoved(Load(ram, a), base);
    case Pair(hi, lo) =>
      assert Touched(f)[0] == hi && Touched(f)[1] == lo;
      PairMoves(ram, base, hi, lo);
  }

  lemma PairMoves(ram: Bytes, base: Word, hi: Word, lo: Word)
    requires InRam(ram, hi) && InRam(ram, lo) && Apart(hi, lo)
    ensures var r := Apply(ram, base, Pair(hi, lo));
            var v := Plus(PairValue(Load(ram, hi), Load(ram, lo)), base);
            && Load(r, hi) == WithLow16(Load(ram, hi), HighFor(v))
            && Load(r, lo) == WithLow16(Load(ram, lo), v % 0x1_0000)
            && PairValue(Load(r, hi), Load(r, lo)) == v
            && Load(r, hi) / 0x1_0000 == Load(ram, hi) / 0x1_0000 && Load(r, lo) / 0x1_0000 == Load(ram, lo) / 0x1_0000
  {
    var h, l := Load(ram, hi), Load(ram, lo);
    var v := Plus(PairValue(h, l), base);
    var once := Store(ram, hi, WithLow16(h, HighFor(v)));
    LoadStored(ram, hi, WithLow16(h, HighFor(v)));
    LoadStored(once, lo, WithLow16(l, v % 0x1_0000));
    LoadOther(once, lo, WithLow16(l, v % 0x1_0000), hi);
    PairRebuilt(h, l, v);
    Low16(h, HighFor(v));
    Low16(l, v % 0x1_0000);
  }

  predicate Misses(f: Fixup, b: Word) { forall i | 0 <= i < |Touched(f)| :: Apart(Touched(f)[i], b) }

  lemma ApplyMisses(ram: Bytes, base: Word, f: Fixup, b: Word)
    requires Misses(f, b)
    ensures Load(Apply(ram, base, f), b) == Load(ram, b) && |Apply(ram, base, f)| == |ram|
  {
    match f
    case Absolute(a) =>
      assert Touched(f)[0] == a;
      LoadOther(ram, a, Plus(Load(ram, a), base), b);
    case Jump(a) =>
      assert Touched(f)[0] == a;
      LoadOther(ram, a, JumpPatched(Load(ram, a), base), b);
    case Pair(hi, lo) =>
      assert Touched(f)[0] == hi && Touched(f)[1] == lo;
      var h, l := Load(ram, hi), Load(ram, lo);
      var v := Plus(PairValue(h, l), base);
      LoadOther(ram, hi, WithLow16(h, HighFor(v)), b);
      LoadOther(Store(ram, hi, WithLow16(h, HighFor(v))), lo, WithLow16(l, v % 0x1_0000), b);
  }

  /** Words that no fixup touches are not changed. */
  lemma {:induction false} Untouched(ram: Bytes, base: Word, fs: seq<Fixup>, b: Word)
    requires forall i | 0 <= i < |fs| :: Misses(fs[i], b)
    ensures Load(ApplyAll(ram, base, fs), b) == Load(ram, b) && |ApplyAll(ram, base, fs)| == |ram|
  {
    if fs != [] {
      var n := |fs| - 1;
      Untouched(ram, base, fs[..n], b);
      ApplyMisses(ApplyAll(ram, base, fs[..n]), base, fs[n], b);
    }
  }

  /** No other fixup touches a byte of this one. */
  predicate Alone(fs: seq<Fixup>, i: nat)
    requires i < |fs|
  {
    forall j, k | 0 <= j < |fs| && j != i && 0 <= k < |Touched(fs[i])| :: Misses(fs[j], Touched(fs[i])[k])
  }

  lemma SameWords(ram: Bytes, r: Bytes, f: Fixup)
    requires |r| == |ram| && forall k | 0 <= k < |Touched(f)| :: Load(r, Touched(f)[k]) == Load(ram, Touched(f)[k])
    ensures Denotes(r, f) == Denotes(ram, f) && Kept(r, f) == Kept(ram, f) && Sound(r, f) == Sound(ram, f)
  {
    assert f.Pair? ==> Touched(f)[0] == f.hi && Touched(f)[1] == f.lo;
    assert !f.Pair? ==> Touched(f)[0] == f.a;
  }

  /** After the whole loop a fixup that shares no byte with another denotes its old value plus the load
      address, and no other field of its words has changed. */
  lemma {:induction false} Relocated(ram: Bytes, base: Word, fs: seq<Fixup>, i: nat)
    requires i < |fs| && Alone(fs, i) && Sound(ram, fs[i])
    ensures Denotes(ApplyAll(ram, base, fs), fs[i]) == Moved(fs[i], Denotes(ram, fs[i]), base)
    ensures Kept(ApplyAll(ram, base, fs), fs[i]) == Kept(ram, fs[i])
  {
    var n, f := |fs| - 1, fs[i];
    var before := ApplyAll(ram, base, fs[..n]);
    if i == n {
      forall k | 0 <= k < |Touched(f)| ensures Load(before, Touched(f)[k]) == Load(ram, Touched(f)[k]) {
        Untouched(ram, base, fs[..n], Touched(f)[k]);
      }
      Untouched(ram, base, fs[..n], Touched(f)[0]);
      SameWords(ram, before, f);
      ApplyMoves(before, base, f);
    } else {
      Relocated(ram, base, fs[..n], i);
      forall k | 0 <= k < |Touched(f)|
        ensures Load(ApplyAll(ram, base, fs), Touched(f)[k]) == Load(before, Touched(f)[k])
      {
        ApplyMisses(before, base, fs[n], Touched(f)[k]);
      }
      ApplyMisses(before, base, fs[n], Touched(f)[0]);
      SameWords(before, ApplyAll(ram, base, fs), f);
    }
  }

  /** How far a load address moves what a fixup denotes. */
  function Shift(f: Fixup, base: Word): nat { if f.Jump? then (base - base % 4) % 0x1000_0000 else base }

  lemma ApplyTwo(ram: Bytes, base: Word, f: Fixup, once: Bytes)
    requires once == Apply(ram, base, f)
    ensures ApplyAll(ram, base, [f, f]) == Apply(once, base, f) && |once| == |ram|
  {
    assert [f, f][..1] == [f] && [f][..0] == [];
    assert ApplyAll(ram, base, [f]) == once;
  }

  /** A fixup that is listed twice is moved twice. */
  lemma MovesTwice(ram: Bytes, base: Word, f: Fixup, once: Bytes, twice: Bytes)
    requires Sound(ram, f) && once == Apply(ram, base, f) && twice == Apply(once, base, f) && |once| == |ram|
    ensures Denotes(twice, f) == Moved(f, Moved(f, Denotes(ram, f), base), base)
  {
    ApplyMoves(ram, base, f);
    ApplyMoves(once, base, f);
  }

  /** So it ends up where it should exactly if the load address does not move it at all. */
  lemma ListedTwiceIff(ram: Bytes, base: Word, f: Fixup)
    requires Sound(ram, f)
    ensures Denotes(ApplyAll(ram, base, [f, f]), f) == Moved(f, Denotes(ram, f), base) <==> Shift(f, base) == 0
  {
    var once, twice := Apply(ram, base, f), ApplyAll(ram, base, [f, f]);
    ApplyTwo(ram, base, f, once);
    MovesTwice(ram, base, f, once, twice);
    TwiceIff(f, Denotes(ram, f), base, Denotes(twice, f));
  }

  lemma TwiceIff(f: Fixup, v: Word, base: Word, w: Word)
    requires w == Moved(f, Moved(f, v, base), base)
    ensures w == Moved(f, v, base) <==> Shift(f, base) == 0
  {
    if f.Jump? { JumpStays(Moved(f, v, base), base - base % 4); } else { WordStays(Moved(f, v, base), base); }
  }

  lemma WordStays(v: Word, c: Word)
    ensures Plus(v, c) == v <==> c == 0
  {}

  lemma JumpStays(v: Word, c: Word)
    requires v < 0x1000_0000
    ensures Plus(v, c) % 0x1000_0000 == v <==> c % 0x1000_0000 == 0
  {}

  // ---------------------------------------------------------------------------
  // On entries
  // ---------------------------------------------------------------------------

  /** What is wrong with the entry at r, if anything: type 2 is a word and 4 a jump, and 5 a high half, which
      needs a low half, 6, right behind it. */
  function Wrong(es: seq<Entry>, r: nat): Option<Error>
    requires r < |es|
  {
    if es[r].Truncated? then Some(TruncatedEntry)
    else if es[r].kind == 2 || es[r].kind == 4 then None
    else if es[r].kind == 6 then Some(LowUnpaired)
    else if es[r].kind != 5 then Some(Unsupported)
    else if r + 1 == |es| then Some(HighAtEnd)
    else if es[r + 1].Truncated? || es[r + 1].kind != 6 then Some(HighUnpaired)
    else None
  }

  function Width(es: seq<Entry>, r: nat): nat
    requires r < |es|
  {
    if es[r].Entry? && es[r].kind == 5 then 2 else 1
  }

  /** The places where a word, a jump or a pair begins, from r on and up to the first entry that is wrong. */
  function Places(es: seq<Entry>, r: nat): seq<nat>
    decreases |es| - r
  {
    if r >= |es| || Wrong(es, r).Some? then [] else [r] + Places(es, r + Width(es, r))
  }

  function FirstWrong(es: seq<Entry>, r: nat): Option<Error>
    decreases |es| - r
  {
    if r >= |es| then None else if Wrong(es, r).Some? then Wrong(es, r) else FirstWrong(es, r + Width(es, r))
  }

  /** The fixup that begins at r. */
  function FixupAt(base: Word, es: seq<Entry>, r: nat): Fixup
    requires r < |es| && Wrong(es, r).None?
  {
    var at := Plus(base, es[r].offset);
    if es[r].kind == 2 then Absolute(at) else if es[r].kind == 4 then Jump(at) else Pair(at, Plus(base, es[r + 1].offset))
  }

  lemma {:induction false} PlanPlaces(base: Word, es: seq<Entry>, r: nat)
    requires r <= |es|
    ensures PlanOf(base, es[r..]).error == FirstWrong(es, r)
    ensures var fs, ps := PlanOf(base, es[r..]).fixups, Places(es, r);
            |fs| == |ps| && forall k | 0 <= k < |ps| :: ps[k] < |es| && Wrong(es, ps[k]).None? && fs[k] == FixupAt(base, es, ps[k])
    decreases |es| - r
  {
    if r < |es| {
      assert es[r..][0] == es[r] && (r + 1 < |es| ==> es[r..][1] == es[r + 1]);
      if Wrong(es, r).None? {
        PlanPlaces(base, es, r + Width(es, r));
        assert es[r..][Width(es, r)..] == es[r + Width(es, r)..];
      }
    }
  }

  /** The value that the low halves of two instructions build. */
  function Built(h: Word, l: Word): int {
    h % 0x1_0000 * 0x1_0000 + l % 0x1_0000 - if l % 0x1_0000 >= 0x8000 then 0x1_0000 else 0
  }

  /** The word, jump target or pair of the entry at r has moved by the load address from `ram` to `m`: words and
      pairs modulo 2^32, jump targets in whole words modulo 2^28, with the upper bits of instructions kept. */
  ghost predicate MovedAt(ram: Bytes, m: Bytes, base: Word, es: seq<Entry>, r: nat)
    requires r < |es| && Wrong(es, r).None?
  {
    var a := Plus(base, es[r].offset);
    if es[r].kind == 2 then Load(m, a) == Plus(Load(ram, a), base)
    else if es[r].kind == 4 then
      && Load(m, a) / 0x400_0000 == Load(ram, a) / 0x400_0000
      && Load(m, a) % 0x400_0000 * 4 == (Load(ram, a) % 0x400_0000 * 4 + base - base % 4) % 0x1000_0000
    else
      var b := Plus(base, es[r + 1].offset);
      && Wrap(Built(Load(m, a), Load(m, b))) == Wrap(Built(Load(ram, a), Load(ram, b)) + base)
      && Load(m, a) / 0x1_0000 == Load(ram, a) / 0x1_0000 && Load(m, b) / 0x1_0000 == Load(ram, b) / 0x1_0000
  }

  lemma BuiltIs(h: Word, l: Word)
    ensures PairValue(h, l) == Wrap(Built(h, l))
  {}

  lemma PairPlus(h: Word, l: Word, base: Word)
    ensures Plus(PairValue(h, l), base) == Wrap(Built(h, l) + base)
  {
    BuiltIs(h, l);
    PlusPlus(0, Built(h, l), base);
  }

  lemma JumpPlus(t: nat, base: Word)
    requires t < 0x1000_0000
    ensures Plus(t, base - base % 4) % 0x1000_0000 == (t + base - base % 4) % 0x1000_0000
  {}

  lemma MovedIs(ram: Bytes, m: Bytes, base: Word, es: seq<Entry>, r: nat, f: Fixup)
    requires r < |es| && Wrong(es, r).None? && f == FixupAt(base, es, r)
    requires Denotes(m, f) == Moved(f, Denotes(ram, f), base) && Kept(m, f) == Kept(ram, f)
    ensures MovedAt(ram, m, base, es, r)
  {
    match f
    case Absolute(a) =>
    case Jump(a) =>
      JumpPlus(Load(ram, a) % 0x400_0000 * 4, base);
      assert Kept(m, f)[0] == Kept(ram, f)[0];
    case Pair(hi, lo) =>
      PairPlus(Load(ram, hi), Load(ram, lo), base);
      BuiltIs(Load(m, hi), Load(m, lo));
      assert Kept(m, f)[0] == Kept(ram, f)[0] && Kept(m, f)[1] == Kept(ram, f)[1];
  }

  /** Nothing else is patched in the words of the k-th place, and they lie in RAM. */
  ghost predicate Lonely(ram: Bytes, base: Word, es: seq<Entry>, k: nat)
    requires k < |PlanOf(base, es).fixups|
  {
    Alone(PlanOf(base, es).fixups, k) && Sound(ram, PlanOf(base, es).fixups[k])
  }

  /** Entry by entry: after the loop, what the k-th place names has moved by the load address. */
  lemma EntryMoved(ram: Bytes, base: Word, es: seq<Entry>, k: nat)
    requires k < |Places(es, 0)| && k < |PlanOf(base, es).fixups| && Lonely(ram, base, es, k)
    ensures Places(es, 0)[k] < |es| && Wrong(es, Places(es, 0)[k]).None?
    ensures MovedAt(ram, ApplyAll(ram, base, PlanOf(base, es).fixups), base, es, Places(es, 0)[k])
  {
    assert es[0..] == es;
    PlanPlaces(base, es, 0);
    var fs := PlanOf(base, es).fixups;
    Relocated(ram, base, fs, k);
    MovedIs(ram, ApplyAll(ram, base, fs), base, es, Places(es, 0)[k], fs[k]);
  }

  // ---------------------------------------------------------------------------
  // The loop
  // ---------------------------------------------------------------------------

  lemma ApplySnoc(ram: Bytes, base: Word, fs: seq<Fixup>, f: Fixup)
    ensures ApplyAll(ram, base, fs + [f]) == Apply(ApplyAll(ram, base, fs), base, f)
  {
    assert (fs + [f])[..|fs|] == fs;
  }

  /** A plan under way: what has been done, then what the remaining entries ask for. */
  ghost predicate Resumes(base: Word, whole: Plan, done: seq<Fixup>, es: seq<Entry>) {
    whole == PlanOf(base, es).(fixups := done + PlanOf(base, es).fixups)
  }

  lemma ResumesNext(base: Word, whole: Plan, done: seq<Fixup>, es: seq<Entry>)
    requires es != [] && Resumes(base, whole, done, es)
    ensures match NextOf(base, es)
            case Fault(e) => whole == Plan(done, Some(e))
            case Fix(f, width) => Resumes(base, whole, done + [f], es[width..])
  {
    match NextOf(base, es)
    case Fault(_) => assert done + [] == done;
    case Fix(f, width) =>
      var rest := PlanOf(base, es[width..]);
      assert done + ([f] + rest.fixups) == done + [f] + rest.fixups;
  }

  class Loader {
    var ram: Bytes

    constructor (ram: Bytes)
      ensures this.ram == ram
    {
      this.ram := ram;
    }

    method PatchAbsolute(base: Word, a: Word)
      modifies this
      ensures ram == Apply(old(ram), base, Absolute(a))
    {
      var w := Load(ram, a);
      ram := Store(ram, a, Plus(w, base));
    }

    method PatchJump(base: Word, a: Word)
      modifies this
      ensures ram == Apply(old(ram), base, Jump(a))
    {
      var w := Load(ram, a);
      var field := w % 0x400_0000;
      var target := Plus(base, field * 4);
      ram := Store(ram, a, w / 0x400_0000 * 0x400_0000 + target / 4 % 0x400_0000);
    }

    method PatchPair(base: Word, hi: Word, lo: Word)
      modifies this
      ensures ram == Apply(old(ram), base, Pair(hi, lo))
      ensures InRam(ram, hi) && InRam(ram, lo) && Apart(hi, lo) ==>
                PairValue(Load(ram, hi), Load(ram, lo)) == Plus(PairValue(Load(old(ram), hi), Load(old(ram), lo)), base)
    {
      if InRam(ram, hi) && InRam(ram, lo) && Apart(hi, lo) { PairMoves(ram, base, hi, lo); }
      var h, l := Load(ram, hi), Load(ram, lo);
      var v := Plus(PairValue(h, l), base);
      ram := Store(ram, hi, WithLow16(h, HighFor(v)));
      ram := Store(ram, lo, WithLow16(l, v % 0x1_0000));
    }

    /** Patches what the next entries ask for. */
    method PatchNext(base: Word, es: seq<Entry>) returns (n: Next)
      requires es != []
      modifies this
      ensures n == NextOf(base, es)
      ensures ram == if n.Fix? then Apply(old(ram), base, n.fixup) else old(ram)
    {
      var e := es[0];
      if e.Truncated? { return Fault(TruncatedEntry); }
      var at := Plus(base, e.offset);
      if e.kind == R_MIPS_32 {
        PatchAbsolute(base, at);
        return Fix(Absolute(at), 1);
      } else if e.kind == R_MIPS_26 {
        PatchJump(base, at);
        return Fix(Jump(at), 1);
      } else if e.kind == R_MIPS_HI16 {
        if |es| < 2 { return Fault(HighAtEnd); }
        var e2 := es[1];
        if e2.Truncated? || e2.kind != R_MIPS_LO16 { return Fault(HighUnpaired); }
        PatchPair(base, at, Plus(base, e2.offset));
        return Fix(Pair(at, Plus(base, e2.offset)), 2);
      } else if e.kind == R_MIPS_LO16 {
        return Fault(LowUnpaired);
      }
      return Fault(Unsupported);
    }

    /** Patches entry by entry; a fault stops the loop with the earlier patches in place. */
    method Relocate(base: Word, es: seq<Entry>) returns (error: Option<Error>)
      modifies this
      ensures ram == ApplyAll(old(ram), base, PlanOf(base, es).fixups) && error == FirstWrong(es, 0)
      ensures |PlanOf(base, es).fixups| == |Places(es, 0)|
      ensures forall k | 0 <= k < |Places(es, 0)| && Lonely(old(ram), base, es, k) ::
                Places(es, 0)[k] < |es| && Wrong(es, Places(es, 0)[k]).None? && MovedAt(old(ram), ram, base, es, Places(es, 0)[k])
    {
      error := PatchAll(base, es);
      assert es[0..] == es;
      PlanPlaces(base, es, 0);
      forall k | 0 <= k < |Places(es, 0)| && Lonely(old(ram), base, es, k)
        ensures Places(es, 0)[k] < |es| && Wrong(es, Places(es, 0)[k]).None? && MovedAt(old(ram), ram, base, es, Places(es, 0)[k])
      {
        EntryMoved(old(ram), base, es, k);
      }
    }

    method PatchAll(base: Word, es: seq<Entry>) returns (error: Option<Error>)
      modifies this
      ensures ram == ApplyAll(old(ram), base, PlanOf(base, es).fixups) && error == PlanOf(base, es).error
    {
      ghost var done: seq<Fixup> := [];
      var r := 0;
      assert es[0..] == es && [] + PlanOf(base, es).fixups == PlanOf(base, es).fixups;
      while r < |es|
        invariant r <= |es|
        invariant Resumes(base, PlanOf(base, es), done, es[r..]) && ram == ApplyAll(old(ram), base, done)
      {
        ResumesNext(base, PlanOf(base, es), done, es[r..]);
        var n := PatchNext(base, es[r..]);
        if n.Fault? { return Some(n.error); }
        ApplySnoc(old(ram), base, done, n.fixup);
        done := done + [n.fixup];
        assert es[r..][n.width..] == es[r + n.width..];
        r := r + n.width;
      }
      assert es[r..] == [] && done + [] == done;
      return None;
    }
  }
}
