/** The GS vertex queue: a few reused slots and counters that turn a stream of vertex kicks
    into primitives, proved to be the plain list definition of each primitive type. */
module VertexQueue {

  datatype Kind = Points | Lines | LineStrip | Triangles | TriangleStrip | TriangleFan | Sprites | Reserved

  datatype Primitive<V> = Point(a: V) | Line(a: V, b: V) | Triangle(a: V, b: V, c: V) | Sprite(a: V, b: V)

  /** A write to PRIM, or a vertex with or without a drawing kick. */
  datatype Command<V> = Prim(kind: Kind) | Kick(v: V, draw: bool)

  // ---------------------------------------------------------------------------
  // The list definition
  // ---------------------------------------------------------------------------

  /** The primitive that the last of vs completes. */
  function Completed<V>(kind: Kind, vs: seq<V>): seq<Primitive<V>> {
    var n := |vs|;
    match kind
    case Points => if n >= 1 then [Point(vs[n - 1])] else []
    case Lines => if n >= 2 && n % 2 == 0 then [Line(vs[n - 2], vs[n - 1])] else []
    case LineStrip => if n >= 2 then [Line(vs[n - 2], vs[n - 1])] else []
    case Triangles => if n >= 3 && n % 3 == 0 then [Triangle(vs[n - 3], vs[n - 2], vs[n - 1])] else []
    case TriangleStrip => if n >= 3 then [Triangle(vs[n - 3], vs[n - 2], vs[n - 1])] else []
    case TriangleFan => if n >= 3 then [Triangle(vs[0], vs[n - 2], vs[n - 1])] else []
    case Sprites => if n >= 2 && n % 2 == 0 then [Sprite(vs[n - 2], vs[n - 1])] else []
    case Reserved => []
  }

  /** The primitive type in force; POINT before any PRIM write. */
  function KindAfter<V>(cs: seq<Command<V>>): Kind {
    if cs == [] then Points
    else var c := cs[|cs| - 1]; if c.Prim? then c.kind else KindAfter(cs[..|cs| - 1])
  }

  /** The vertices since the last PRIM write. */
  function VerticesAfter<V>(cs: seq<Command<V>>): seq<V> {
    if cs == [] then []
    else var c := cs[|cs| - 1]; if c.Prim? then [] else VerticesAfter(cs[..|cs| - 1]) + [c.v]
  }

  /** The primitives of a whole command stream. */
  function Drawn<V>(cs: seq<Command<V>>): seq<Primitive<V>> {
    if cs == [] then []
    else
      var c := cs[|cs| - 1];
      Drawn(cs[..|cs| - 1]) + if c.Kick? && c.draw then Completed(KindAfter(cs), VerticesAfter(cs)) else []
  }

  // ---------------------------------------------------------------------------
  // The queue
  // ---------------------------------------------------------------------------

  class Queue<V> {
    var kind: Kind
    const tri: array<V>
    const line: array<V>
    var triCount: nat
    var lineCount: nat
    var first: V
    var hasFirst: bool
    var drawn: seq<Primitive<V>>
    ghost var vertices: seq<V>

    /** The live slots hold the latest vertices; nothing is said of the stale ones. */
    ghost predicate Valid()
      reads this, tri, line
    {
      var n := |vertices|;
      && tri.Length == 3 && line.Length == 2 && tri != line
      && match kind
         case Points => true
         case Lines => lineCount == n && (n % 2 == 1 ==> line[0] == vertices[n - 1])
         case LineStrip => lineCount == n && (n >= 1 ==> line[1] == vertices[n - 1])
         case Triangles =>
           && triCount == n
           && (n % 3 == 1 ==> tri[0] == vertices[n - 1])
           && (n % 3 == 2 ==> tri[0] == vertices[n - 2] && tri[1] == vertices[n - 1])
         case TriangleStrip =>
           && triCount == n
           && (n >= 1 ==> tri[2] == vertices[n - 1])
           && (n >= 2 ==> tri[1] == vertices[n - 2])
         case TriangleFan =>
           && triCount == n
           && (n >= 1 ==> tri[0] == vertices[0] && tri[1] == vertices[n - 1])
         case Sprites => hasFirst == (n % 2 == 1) && (hasFirst ==> first == vertices[n - 1])
         case Reserved => hasFirst == (n % 2 == 1)
    }

    constructor (v: V)
      ensures Valid() && fresh(tri) && fresh(line)
      ensures kind == Points && vertices == [] && drawn == []
    {
      kind, triCount, lineCount, first, hasFirst, drawn, vertices := Points, 0, 0, v, false, [], [];
      tri, line := new V[3](_ => v), new V[2](_ => v);
    }

    method Reset(k: Kind)
      requires Valid()
      modifies this
      ensures Valid() && kind == k && vertices == [] && drawn == old(drawn)
    {
      kind, triCount, lineCount, hasFirst, vertices := k, 0, 0, false, [];
    }

    /** A vertex always enters the queue; it draws only with a drawing kick. */
    method Enter(v: V, draw: bool)
      requires Valid()
      modifies this, tri, line
      ensures Valid() && kind == old(kind) && vertices == old(vertices) + [v]
      ensures drawn == old(drawn) + if draw then Completed(kind, vertices) else []
    {
      vertices := vertices + [v];
      match kind
      case Points => if draw { drawn := drawn + [Point(v)]; }
      case Lines | LineStrip => EnterLine(v, draw);
      case Triangles => EnterTriangle(v, draw);
      case TriangleStrip => EnterStrip(v, draw);
      case TriangleFan => EnterFan(v, draw);
      case Sprites | Reserved => EnterSprite(v, draw);
    }

    /** Valid before the last vertex was entered. */
    ghost predicate Pending(v: V)
      reads this, tri, line
    {
      && |vertices| >= 1 && vertices[|vertices| - 1] == v
      && tri.Length == 3 && line.Length == 2 && tri != line
    }

    method EnterLine(v: V, draw: bool)
      requires Pending(v) && (kind.Lines? || kind.LineStrip?)
      requires var m := |vertices| - 1;
               && lineCount == m
               && (kind.Lines? && m % 2 == 1 ==> line[0] == vertices[m - 1])
               && (kind.LineStrip? && m >= 1 ==> line[1] == vertices[m - 1])
      modifies this`lineCount, this`drawn, line
      ensures Valid()
      ensures drawn == old(drawn) + if draw then Completed(kind, vertices) else []
    {
      lineCount := lineCount + 1;
      if kind.Lines? {
        line[(lineCount - 1) % 2] := v;
        if draw && lineCount % 2 == 0 { drawn := drawn + [Line(line[0], line[1])]; }
      } else {
        line[0] := line[1];
        line[1] := v;
        if draw && lineCount >= 2 { drawn := drawn + [Line(line[0], line[1])]; }
      }
    }

    method EnterTriangle(v: V, draw: bool)
      requires Pending(v) && kind.Triangles?
      requires var m := |vertices| - 1;
               && triCount == m
               && (m % 3 == 1 ==> tri[0] == vertices[m - 1])
               && (m % 3 == 2 ==> tri[0] == vertices[m - 2] && tri[1] == vertices[m - 1])
      modifies this`triCount, this`drawn, tri
      ensures Valid()
      ensures drawn == old(drawn) + if draw then Completed(kind, vertices) else []
    {
      triCount := triCount + 1;
      tri[(triCount - 1) % 3] := v;
      if draw && triCount % 3 == 0 { drawn := drawn + [Triangle(tri[0], tri[1], tri[2])]; }
    }

    method EnterStrip(v: V, draw: bool)
      requires Pending(v) && kind.TriangleStrip?
      requires var m := |vertices| - 1;
               && triCount == m
               && (m >= 1 ==> tri[2] == vertices[m - 1])
               && (m >= 2 ==> tri[1] == vertices[m - 2])
      modifies this`triCount, this`drawn, tri
      ensures Valid()
      ensures drawn == old(drawn) + if draw then Completed(kind, vertices) else []
    {
      triCount := triCount + 1;
      tri[0] := tri[1];
      tri[1] := tri[2];
      tri[2] := v;
      if draw && triCount >= 3 { drawn := drawn + [Triangle(tri[0], tri[1], tri[2])]; }
    }

    /** Slot 0 is the anchor; slot 1 follows the latest vertex. */
    method EnterFan(v: V, draw: bool)
      requires Pending(v) && kind.TriangleFan?
      requires var m := |vertices| - 1;
               triCount == m && (m >= 1 ==> tri[0] == vertices[0] && tri[1] == vertices[m - 1])
      modifies this`triCount, this`drawn, tri
      ensures Valid()
      ensures drawn == old(drawn) + if draw then Completed(kind, vertices) else []
    {
      triCount := triCount + 1;
      if triCount == 1 {
        tri[0] := v;
        tri[1] := v;
      } else {
        tri[2] := v;
        if draw && triCount >= 3 { drawn := drawn + [Triangle(tri[0], tri[1], tri[2])]; }
        tri[1] := tri[2];
      }
    }

    /** Also the reserved type, which queues like a sprite but never draws. */
    method EnterSprite(v: V, draw: bool)
      requires Pending(v) && (kind.Sprites? || kind.Reserved?)
      requires var m := |vertices| - 1;
               hasFirst == (m % 2 == 1) && (kind.Sprites? && hasFirst ==> first == vertices[m - 1])
      modifies this`first, this`hasFirst, this`drawn
      ensures Valid()
      ensures drawn == old(drawn) + if draw then Completed(kind, vertices) else []
    {
      if !hasFirst {
        first, hasFirst := v, true;
      } else {
        if kind.Sprites? && draw { drawn := drawn + [Sprite(first, v)]; }
        hasFirst := false;
      }
    }

    /** From a fresh queue, any command stream draws exactly its list definition. */
    method Run(cs: seq<Command<V>>)
      requires Valid() && kind == Points && vertices == [] && drawn == []
      modifies this, tri, line
      ensures Valid() && drawn == Drawn(cs)
    {
      for i := 0 to |cs|
        invariant Valid() && kind == KindAfter(cs[..i]) && vertices == VerticesAfter(cs[..i])
        invariant drawn == Drawn(cs[..i])
      {
        assert cs[..i + 1][..i] == cs[..i];
        match cs[i]
        case Prim(k) => Reset(k);
        case Kick(v, draw) => Enter(v, draw);
      }
      assert cs[..|cs|] == cs;
    }
  }

  // ---------------------------------------------------------------------------
  // Segments
  // ---------------------------------------------------------------------------

  function Kicks<V>(vs: seq<V>, draws: seq<bool>): seq<Command<V>>
    requires |vs| == |draws|
  {
    seq(|vs|, i requires 0 <= i < |vs| => Kick(vs[i], draws[i]))
  }

  /** What a run of kicks draws after a PRIM write: nothing before the write matters. */
  function Segment<V>(kind: Kind, vs: seq<V>, draws: seq<bool>): seq<Primitive<V>>
    requires |vs| == |draws|
  {
    if vs == [] then []
    else
      var m := |vs| - 1;
      Segment(kind, vs[..m], draws[..m]) + if draws[m] then Completed(kind, vs) else []
  }

  lemma {:induction false} FreshStart<V>(before: seq<Command<V>>, kind: Kind, vs: seq<V>, draws: seq<bool>)
    requires |vs| == |draws|
    ensures var cs := before + [Prim(kind)] + Kicks(vs, draws);
            && KindAfter(cs) == kind && VerticesAfter(cs) == vs
            && Drawn(cs) == Drawn(before) + Segment(kind, vs, draws)
    decreases |vs|
  {
    var start := before + [Prim(kind)];
    if vs == [] {
      assert start + Kicks(vs, draws) == start && start[..|before|] == before;
    } else {
      var m := |vs| - 1;
      FreshStart(before, kind, vs[..m], draws[..m]);
      KicksGrow(start, vs, draws);
      assert vs[..m] + [vs[m]] == vs && draws[..m] + [draws[m]] == draws;
      SegmentStep(start + Kicks(vs[..m], draws[..m]), Drawn(before), kind, vs[..m], draws[..m], vs[m], draws[m]);
    }
  }

  /** One more kick within a segment. */
  lemma SegmentStep<V>(cs: seq<Command<V>>, base: seq<Primitive<V>>, kind: Kind, vs: seq<V>, draws: seq<bool>, v: V, draw: bool)
    requires |vs| == |draws| && KindAfter(cs) == kind && VerticesAfter(cs) == vs
    requires Drawn(cs) == base + Segment(kind, vs, draws)
    ensures var ds := cs + [Kick(v, draw)];
            && KindAfter(ds) == kind && VerticesAfter(ds) == vs + [v]
            && Drawn(ds) == base + Segment(kind, vs + [v], draws + [draw])
  {
    DrawnGrows(cs, v, draw);
    SegmentGrows(kind, vs, draws, v, draw);
  }

  lemma SegmentGrows<V>(kind: Kind, vs: seq<V>, draws: seq<bool>, v: V, draw: bool)
    requires |vs| == |draws|
    ensures Segment(kind, vs + [v], draws + [draw]) ==
            Segment(kind, vs, draws) + if draw then Completed(kind, vs + [v]) else []
  {
    assert (vs + [v])[..|vs|] == vs && (draws + [draw])[..|vs|] == draws;
  }

  lemma KicksGrow<V>(start: seq<Command<V>>, vs: seq<V>, draws: seq<bool>)
    requires |vs| == |draws| && vs != []
    ensures var m := |vs| - 1; start + Kicks(vs, draws) == start + Kicks(vs[..m], draws[..m]) + [Kick(vs[m], draws[m])]
  {}

  /** One more kick. */
  lemma DrawnGrows<V>(cs: seq<Command<V>>, v: V, draw: bool)
    ensures var ds := cs + [Kick(v, draw)];
            && KindAfter(ds) == KindAfter(cs) && VerticesAfter(ds) == VerticesAfter(cs) + [v]
            && Drawn(ds) == Drawn(cs) + if draw then Completed(KindAfter(cs), VerticesAfter(cs) + [v]) else []
  {
    assert (cs + [Kick(v, draw)])[..|cs|] == cs;
  }

  function Minus(n: nat, k: nat): nat { if n < k then 0 else n - k }

  function Count(kind: Kind, n: nat): nat {
    match kind
    case Points => n
    case Lines | Sprites => n / 2
    case LineStrip => Minus(n, 1)
    case Triangles => n / 3
    case TriangleStrip | TriangleFan => Minus(n, 2)
    case Reserved => 0
  }

  function Item<V>(kind: Kind, vs: seq<V>, i: nat): Primitive<V>
    requires i < Count(kind, |vs|)
  {
    match kind
    case Points => Point(vs[i])
    case Lines => Line(vs[2 * i], vs[2 * i + 1])
    case LineStrip => Line(vs[i], vs[i + 1])
    case Triangles => Triangle(vs[3 * i], vs[3 * i + 1], vs[3 * i + 2])
    case TriangleStrip => Triangle(vs[i], vs[i + 1], vs[i + 2])
    case TriangleFan => Triangle(vs[0], vs[i + 1], vs[i + 2])
    case Sprites => Sprite(vs[2 * i], vs[2 * i + 1])
  }

  /** Each primitive type written out over its vertices. */
  function Picture<V>(kind: Kind, vs: seq<V>): seq<Primitive<V>> {
    seq(Count(kind, |vs|), i requires 0 <= i < Count(kind, |vs|) => Item(kind, vs, i))
  }

  lemma LastItem<V>(kind: Kind, vs: seq<V>)
    requires vs != []
    ensures Count(kind, |vs|) == Count(kind, |vs| - 1) + |Completed(kind, vs)|
    ensures Completed(kind, vs) == [] || Completed(kind, vs) == [Item(kind, vs, Count(kind, |vs|) - 1)]
  {}

  /** One more vertex adds what it completes. */
  lemma PictureGrows<V>(kind: Kind, vs: seq<V>)
    requires vs != []
    ensures Picture(kind, vs) == Picture(kind, vs[..|vs| - 1]) + Completed(kind, vs)
  {
    LastItem(kind, vs);
    var m := |vs| - 1;
    forall i: nat | i < Count(kind, m) ensures Item(kind, vs, i) == Item(kind, vs[..m], i) {}
  }

  /** With every kick drawing, a segment is the whole picture of its vertices. */
  lemma {:induction false} SegmentPicture<V>(kind: Kind, vs: seq<V>, draws: seq<bool>)
    requires |vs| == |draws| && forall i | 0 <= i < |draws| :: draws[i]
    ensures Segment(kind, vs, draws) == Picture(kind, vs)
    decreases |vs|
  {
    if vs != [] {
      var m := |vs| - 1;
      SegmentPicture(kind, vs[..m], draws[..m]);
      PictureGrows(kind, vs);
    }
  }
}
