/** Walls with door and window openings (scripts/asset-pipeline/townkit/geo.py):
    axis-aligned boxes around the gaps. A cursor runs along the sorted openings and leaves
    full-height pieces between them, and a sill and a head piece at each. Rectangles are
    half-open, so boxes that share a face share no point. */
module WallOpenings {
  import opened Basics

  const SLIVER: real := 0.000001

  /** A missing sill is 0. */
  datatype Opening = Opening(offset: real, width: real, height: real, sill: Option<real>)
  {
    function Start(): real { offset - width / 2.0 }

    function End(): real { offset + width / 2.0 }

    function Sill(): real { if sill.None? then 0.0 else sill.value }

    predicate Spans(along: real) { Start() <= along < End() }
  }

  /** A stretch of wall, in along-axis and vertical coordinates. */
  datatype Piece = Piece(start: real, end: real, bottom: real, top: real)
  {
    predicate Has(along: real, z: real) { start <= along < end && bottom <= z < top }

    predicate Kept() { end - start > SLIVER && top - bottom > SLIVER }

    predicate Empty() { end <= start || top <= bottom }

    function Area(): real { if Empty() then 0.0 else (end - start) * (top - bottom) }
  }

  datatype Wall = Wall(half: real, z0: real, height: real)
  {
    predicate Real() { half > 0.0 && height > 0.0 }

    predicate Has(along: real, z: real) { -half <= along < half && z0 <= z < z0 + height }

    /** The opening lies inside the wall. */
    predicate Holds(o: Opening)
    {
      && o.width > 0.0 && -half <= o.Start() && o.End() <= half
      && o.height >= 0.0 && o.Sill() >= 0.0 && o.Sill() + o.height <= height
    }

    function Hole(o: Opening): Piece { Piece(o.Start(), o.End(), z0 + o.Sill(), z0 + o.Sill() + o.height) }

    function Below(o: Opening): Piece { Piece(o.Start(), o.End(), z0, z0 + o.Sill()) }

    function Above(o: Opening): Piece { Piece(o.Start(), o.End(), z0 + o.Sill() + o.height, z0 + height) }

    function Full(start: real, end: real): Piece { Piece(start, end, z0, z0 + height) }
  }

  predicate AllInside(wall: Wall, os: seq<Opening>)
  {
    wall.Real() && forall i :: 0 <= i < |os| ==> wall.Holds(os[i])
  }

  predicate Disjoint(a: Opening, b: Opening) { a.End() <= b.Start() || b.End() <= a.Start() }

  /** No two openings share a stretch of the wall, however high they sit. */
  predicate Apart(os: seq<Opening>)
  {
    forall i, j :: 0 <= i < j < |os| ==> Disjoint(os[i], os[j])
  }

  // ---- Stable sort by offset ----

  function Insert(s: seq<Opening>, o: Opening): seq<Opening>
  {
    if s == [] || s[|s|-1].offset <= o.offset then s + [o]
    else Insert(s[..|s|-1], o) + [s[|s|-1]]
  }

  function Sorted(os: seq<Opening>): seq<Opening>
  {
    if os == [] then [] else Insert(Sorted(os[..|os|-1]), os[|os|-1])
  }

  predicate Ordered(s: seq<Opening>)
  {
    forall i, j :: 0 <= i < j < |s| ==> s[i].offset <= s[j].offset
  }

  lemma {:induction false} InsertHas(s: seq<Opening>, o: Opening)
    ensures multiset(Insert(s, o)) == multiset(s + [o])
  {
    if s != [] && s[|s|-1].offset > o.offset {
      InsertHas(s[..|s|-1], o);
      assert s == s[..|s|-1] + [s[|s|-1]];
    }
  }

  lemma MemberOf(s: seq<Opening>, t: seq<Opening>, i: nat)
    requires multiset(s) == multiset(t) && i < |s|
    ensures s[i] in t
  {
    assert s[i] in multiset(s);
  }

  lemma {:induction false} InsertOrders(s: seq<Opening>, o: Opening)
    requires Ordered(s)
    ensures Ordered(Insert(s, o))
  {
    if s != [] && s[|s|-1].offset > o.offset {
      var init := s[..|s|-1];
      InsertOrders(init, o);
      InsertHas(init, o);
      forall i | 0 <= i < |Insert(init, o)|
        ensures Insert(init, o)[i].offset <= s[|s|-1].offset
      {
        MemberOf(Insert(init, o), init + [o], i);
      }
    }
  }

  lemma {:induction false} InsertKeepsApart(s: seq<Opening>, o: Opening)
    requires Apart(s + [o])
    ensures Apart(Insert(s, o))
  {
    if s != [] && s[|s|-1].offset > o.offset {
      var (init, last) := (s[..|s|-1], s[|s|-1]);
      assert forall i :: 0 <= i < |init| ==> (s + [o])[i] == init[i];
      assert (s + [o])[|s|-1] == last && (s + [o])[|s|] == o;
      InsertKeepsApart(init, o);
      InsertHas(init, o);
      forall i | 0 <= i < |Insert(init, o)|
        ensures Disjoint(Insert(init, o)[i], last)
      {
        MemberOf(Insert(init, o), init + [o], i);
      }
    }
  }

  lemma {:induction false} SortedHas(os: seq<Opening>)
    ensures multiset(Sorted(os)) == multiset(os) && Ordered(Sorted(os))
  {
    if os != [] {
      var init := os[..|os|-1];
      SortedHas(init);
      InsertHas(Sorted(init), os[|os|-1]);
      InsertOrders(Sorted(init), os[|os|-1]);
      assert os == init + [os[|os|-1]];
    }
  }

  lemma {:induction false} SortedApart(os: seq<Opening>)
    requires Apart(os)
    ensures Apart(Sorted(os))
  {
    if os != [] {
      var (init, last) := (os[..|os|-1], os[|os|-1]);
      SortedApart(init);
      SortedHas(init);
      forall i | 0 <= i < |Sorted(init)|
        ensures Disjoint(Sorted(init)[i], last)
      {
        MemberOf(Sorted(init), init, i);
      }
      InsertKeepsApart(Sorted(init), last);
    }
  }

  lemma SortedInside(wall: Wall, os: seq<Opening>)
    requires AllInside(wall, os)
    ensures AllInside(wall, Sorted(os))
  {
    SortedHas(os);
    forall i | 0 <= i < |Sorted(os)|
      ensures wall.Holds(Sorted(os)[i])
    {
      MemberOf(Sorted(os), os, i);
    }
  }

  /** Sorted and apart: each opening ends before the next starts. */
  lemma Chains(s: seq<Opening>, i: nat, j: nat)
    requires Ordered(s) && Apart(s) && i < j < |s| && s[i].width > 0.0 && s[j].width > 0.0
    ensures s[i].End() <= s[j].Start()
  {
    assert Disjoint(s[i], s[j]);
  }

  // ---- The whole wall in pieces ----

  /** Where the cursor stands after the openings `s`. */
  function Cursor(wall: Wall, s: seq<Opening>): real
  {
    if s == [] then -wall.half else s[|s|-1].End()
  }

  /** Every stretch left of the cursor, slivers and empty ones included. */
  function Pieces(wall: Wall, s: seq<Opening>): seq<Piece>
  {
    if s == [] then []
    else
      var (init, o) := (s[..|s|-1], s[|s|-1]);
      Pieces(wall, init) + [wall.Full(Cursor(wall, init), o.Start()), wall.Below(o), wall.Above(o)]
  }

  function AllPieces(wall: Wall, s: seq<Opening>): seq<Piece>
  {
    Pieces(wall, s) + [wall.Full(Cursor(wall, s), wall.half)]
  }

  function Kept(ps: seq<Piece>): seq<Piece>
  {
    if ps == [] then []
    else if ps[|ps|-1].Kept() then Kept(ps[..|ps|-1]) + [ps[|ps|-1]]
    else Kept(ps[..|ps|-1])
  }

  function Dropped(ps: seq<Piece>): seq<Piece>
  {
    if ps == [] then []
    else if ps[|ps|-1].Kept() then Dropped(ps[..|ps|-1])
    else Dropped(ps[..|ps|-1]) + [ps[|ps|-1]]
  }

  /** How many of the pieces hold a point. */
  function Hits(ps: seq<Piece>, along: real, z: real): nat
  {
    if ps == [] then 0 else Hits(ps[..|ps|-1], along, z) + if ps[|ps|-1].Has(along, z) then 1 else 0
  }

  function Holes(wall: Wall, os: seq<Opening>): (r: seq<Piece>)
    ensures |r| == |os| && forall i :: 0 <= i < |r| ==> r[i] == wall.Hole(os[i])
  {
    seq(|os|, i requires 0 <= i < |os| => wall.Hole(os[i]))
  }

  function Sum<A>(f: A -> real, s: seq<A>): real
  {
    if s == [] then 0.0 else Sum(f, s[..|s|-1]) + f(s[|s|-1])
  }

  lemma KeptStep(ps: seq<Piece>, p: Piece)
    ensures Kept(ps + [p]) == Kept(ps) + if p.Kept() then [p] else []
  {
    assert (ps + [p])[..|ps|] == ps;
  }

  lemma HitsStep(ps: seq<Piece>, p: Piece, along: real, z: real)
    ensures Hits(ps + [p], along, z) == Hits(ps, along, z) + if p.Has(along, z) then 1 else 0
  {
    assert (ps + [p])[..|ps|] == ps;
  }

  lemma SumStep<A>(f: A -> real, s: seq<A>, x: A)
    ensures Sum(f, s + [x]) == Sum(f, s) + f(x)
  {
    assert (s + [x])[..|s|] == s;
  }

  lemma HolesStep(wall: Wall, s: seq<Opening>, o: Opening)
    ensures Holes(wall, s + [o]) == Holes(wall, s) + [wall.Hole(o)]
  {
  }

  lemma PiecesStep(wall: Wall, s: seq<Opening>, o: Opening)
    ensures Pieces(wall, s + [o])
         == Pieces(wall, s) + [wall.Full(Cursor(wall, s), o.Start())] + [wall.Below(o)] + [wall.Above(o)]
  {
    assert (s + [o])[..|s|] == s;
  }

  // ---- The builder ----

  /** A stretch of solid wall, or one with an opening. */
  datatype Segment = Segment(start: real, end: real, opening: Option<Opening>)

  type Vec3 = (real, real, real)

  datatype Box = Box(center: Vec3, size: Vec3)

  /** Where the wall stands and which way it runs. */
  datatype Frame = Frame(center: (real, real), thickness: real, axis: string)
  {
    function BoxOf(p: Piece): Box
    {
      var (along, length, tall) := ((p.start + p.end) / 2.0, p.end - p.start, p.top - p.bottom);
      if axis == "x" then Box((center.0 + along, center.1, p.bottom + tall / 2.0), (length, thickness, tall))
      else Box((center.0, center.1 + along, p.bottom + tall / 2.0), (thickness, length, tall))
    }

    function Along(p: Vec3): real { if axis == "x" then p.0 - center.0 else p.1 - center.1 }

    function Across(p: Vec3): real { if axis == "x" then p.1 - center.1 else p.0 - center.0 }

    predicate Within(p: Vec3) { -thickness / 2.0 <= Across(p) < thickness / 2.0 }
  }

  predicate InBox(b: Box, p: Vec3)
  {
    && b.center.0 - b.size.0 / 2.0 <= p.0 < b.center.0 + b.size.0 / 2.0
    && b.center.1 - b.size.1 / 2.0 <= p.1 < b.center.1 + b.size.1 / 2.0
    && b.center.2 - b.size.2 / 2.0 <= p.2 < b.center.2 + b.size.2 / 2.0
  }

  function Boxes(frame: Frame, ps: seq<Piece>): (r: seq<Box>)
    ensures |r| == |ps| && forall i :: 0 <= i < |r| ==> r[i] == frame.BoxOf(ps[i])
  {
    seq(|ps|, i requires 0 <= i < |ps| => frame.BoxOf(ps[i]))
  }

  /** The pieces one segment stands for. */
  function SegmentPieces(wall: Wall, g: Segment): seq<Piece>
  {
    match g.opening
    case None => [wall.Full(g.start, g.end)]
    case Some(o) =>
      [Piece(g.start, g.end, wall.z0, wall.z0 + o.Sill()),
       Piece(g.start, g.end, wall.z0 + o.Sill() + o.height, wall.z0 + wall.height)]
  }

  function SegmentsPieces(wall: Wall, segments: seq<Segment>): seq<Piece>
  {
    if segments == [] then []
    else SegmentsPieces(wall, segments[..|segments|-1]) + SegmentPieces(wall, segments[|segments|-1])
  }

  lemma SolidStep(wall: Wall, segments: seq<Segment>, start: real, end: real)
    ensures SegmentsPieces(wall, segments + [Segment(start, end, None)])
         == SegmentsPieces(wall, segments) + [wall.Full(start, end)]
  {
    assert (segments + [Segment(start, end, None)])[..|segments|] == segments;
  }

  lemma GapStep(wall: Wall, segments: seq<Segment>, start: real, end: real, o: Opening)
    ensures SegmentsPieces(wall, segments + [Segment(start, end, Some(o))])
         == SegmentsPieces(wall, segments) + [Piece(start, end, wall.z0, wall.z0 + o.Sill())]
          + [Piece(start, end, wall.z0 + o.Sill() + o.height, wall.z0 + wall.height)]
  {
    assert (segments + [Segment(start, end, Some(o))])[..|segments|] == segments;
  }

  /** Left out already as a segment, or kept for the boxes to decide. */
  lemma KeptGap(wall: Wall, segments: seq<Segment>, ps: seq<Piece>, start: real, end: real)
    requires Kept(SegmentsPieces(wall, segments)) == Kept(ps)
    ensures end > start + SLIVER ==>
      Kept(SegmentsPieces(wall, segments + [Segment(start, end, None)])) == Kept(ps + [wall.Full(start, end)])
    ensures end <= start + SLIVER ==> Kept(SegmentsPieces(wall, segments)) == Kept(ps + [wall.Full(start, end)])
  {
    SolidStep(wall, segments, start, end);
    KeptStep(SegmentsPieces(wall, segments), wall.Full(start, end));
    KeptStep(ps, wall.Full(start, end));
  }

  lemma KeptOpening(wall: Wall, segments: seq<Segment>, ps: seq<Piece>, o: Opening)
    requires Kept(SegmentsPieces(wall, segments)) == Kept(ps)
    ensures Kept(SegmentsPieces(wall, segments + [Segment(o.Start(), o.End(), Some(o))]))
         == Kept(ps + [wall.Below(o)] + [wall.Above(o)])
  {
    var qs := SegmentsPieces(wall, segments);
    GapStep(wall, segments, o.Start(), o.End(), o);
    KeptStep(qs, wall.Below(o));
    KeptStep(qs + [wall.Below(o)], wall.Above(o));
    KeptStep(ps, wall.Below(o));
    KeptStep(ps + [wall.Below(o)], wall.Above(o));
  }

  method CutSegments(wall: Wall, ordered: seq<Opening>) returns (segments: seq<Segment>)
    ensures Kept(SegmentsPieces(wall, segments)) == Kept(AllPieces(wall, ordered))
  {
    segments := [];
    var cursor := -wall.half;
    for i := 0 to |ordered|
      invariant cursor == Cursor(wall, ordered[..i])
      invariant Kept(SegmentsPieces(wall, segments)) == Kept(Pieces(wall, ordered[..i]))
    {
      var o := ordered[i];
      ghost var ps := Pieces(wall, ordered[..i]);
      KeptGap(wall, segments, ps, cursor, o.Start());
      if o.Start() > cursor + SLIVER {
        segments := segments + [Segment(cursor, o.Start(), None)];
      }
      KeptOpening(wall, segments, ps + [wall.Full(cursor, o.Start())], o);
      segments := segments + [Segment(o.Start(), o.End(), Some(o))];
      PiecesStep(wall, ordered[..i], o);
      assert ordered[..i+1] == ordered[..i] + [o];
      cursor := o.End();
    }
    assert ordered[..|ordered|] == ordered;
    KeptGap(wall, segments, Pieces(wall, ordered), cursor, wall.half);
    if cursor < wall.half - SLIVER {
      segments := segments + [Segment(cursor, wall.half, None)];
    }
  }

  method AddSegment(frame: Frame, objs: seq<Box>, p: Piece, ghost ps: seq<Piece>) returns (r: seq<Box>)
    requires objs == Boxes(frame, Kept(ps))
    ensures r == Boxes(frame, Kept(ps + [p]))
  {
    KeptStep(ps, p);
    if p.end - p.start <= SLIVER || p.top - p.bottom <= SLIVER {
      return objs;
    }
    r := objs + [frame.BoxOf(p)];
  }

  method AddSegments(frame: Frame, wall: Wall, segments: seq<Segment>) returns (objs: seq<Box>)
    ensures objs == Boxes(frame, Kept(SegmentsPieces(wall, segments)))
  {
    objs := [];
    ghost var ps := [];
    for i := 0 to |segments|
      invariant ps == SegmentsPieces(wall, segments[..i])
      invariant objs == Boxes(frame, Kept(ps))
    {
      var g := segments[i];
      assert segments[..i+1] == segments[..i] + [g];
      match g.opening {
        case None =>
          SolidStep(wall, segments[..i], g.start, g.end);
          objs := AddSegment(frame, objs, wall.Full(g.start, g.end), ps);
          ps := ps + [wall.Full(g.start, g.end)];
        case Some(o) =>
          GapStep(wall, segments[..i], g.start, g.end, o);
          var below := Piece(g.start, g.end, wall.z0, wall.z0 + o.Sill());
          var above := Piece(g.start, g.end, wall.z0 + o.Sill() + o.height, wall.z0 + wall.height);
          objs := AddSegment(frame, objs, below, ps);
          objs := AddSegment(frame, objs, above, ps + [below]);
          ps := ps + [below] + [above];
      }
    }
    assert segments[..|segments|] == segments;
  }

  /** The boxes are the wall's pieces around the sorted openings, slivers left out. */
  method WallWithOpenings(frame: Frame, wall: Wall, openings: seq<Opening>) returns (objs: seq<Box>)
    ensures objs == Boxes(frame, Kept(AllPieces(wall, Sorted(openings))))
  {
    var segments := CutSegments(wall, Sorted(openings));
    objs := AddSegments(frame, wall, segments);
  }
}
