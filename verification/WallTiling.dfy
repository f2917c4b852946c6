/** Boxes, slivers and openings tile the wall (scripts/asset-pipeline/townkit/geo.py). */
module WallTiling {
  import opened Basics
  import opened WallOpenings

  predicate PiecesApart(wall: Wall, s: seq<Opening>)
  {
    AllInside(wall, s) && Ordered(s) && Apart(s)
  }

  lemma PrefixApart(wall: Wall, s: seq<Opening>)
    requires PiecesApart(wall, s) && s != []
    ensures PiecesApart(wall, s[..|s|-1])
    ensures Cursor(wall, s[..|s|-1]) <= s[|s|-1].Start()
  {
    if |s| > 1 {
      assert wall.Holds(s[|s|-1]) && wall.Holds(s[|s|-2]);
      Chains(s, |s|-2, |s|-1);
    }
  }

  /** Left of the cursor each point of the wall lies in exactly one piece or opening. */
  lemma {:induction false} TilesLeft(wall: Wall, s: seq<Opening>, along: real, z: real)
    requires PiecesApart(wall, s)
    ensures -wall.half <= Cursor(wall, s) <= wall.half
    ensures Hits(Pieces(wall, s), along, z) + Hits(Holes(wall, s), along, z)
         == if wall.Has(along, z) && along < Cursor(wall, s) then 1 else 0
  {
    if s != [] {
      var (init, o) := (s[..|s|-1], s[|s|-1]);
      assert s == init + [o] && wall.Holds(o);
      PrefixApart(wall, s);
      TilesLeft(wall, init, along, z);
      OpeningHits(wall, init, o, along, z);
    }
  }

  lemma OpeningHits(wall: Wall, init: seq<Opening>, o: Opening, along: real, z: real)
    requires wall.Holds(o) && wall.Real()
    ensures Hits(Pieces(wall, init + [o]), along, z) + Hits(Holes(wall, init + [o]), along, z)
         == Hits(Pieces(wall, init), along, z) + Hits(Holes(wall, init), along, z)
          + (if wall.Full(Cursor(wall, init), o.Start()).Has(along, z) then 1 else 0)
          + (if o.Spans(along) && wall.z0 <= z < wall.z0 + wall.height then 1 else 0)
  {
    var ps := Pieces(wall, init);
    var gap := wall.Full(Cursor(wall, init), o.Start());
    PiecesStep(wall, init, o);
    HolesStep(wall, init, o);
    HitsStep(ps, gap, along, z);
    HitsStep(ps + [gap], wall.Below(o), along, z);
    HitsStep(ps + [gap] + [wall.Below(o)], wall.Above(o), along, z);
    HitsStep(Holes(wall, init), wall.Hole(o), along, z);
  }

  /** Pieces and openings together tile the wall: each of its points in exactly one. */
  lemma Tiles(wall: Wall, s: seq<Opening>, along: real, z: real)
    requires PiecesApart(wall, s)
    ensures Hits(AllPieces(wall, s), along, z) + Hits(Holes(wall, s), along, z) == if wall.Has(along, z) then 1 else 0
  {
    TilesLeft(wall, s, along, z);
    HitsStep(Pieces(wall, s), wall.Full(Cursor(wall, s), wall.half), along, z);
  }

  // ---- Any input order ----

  /** How many openings span a point along the wall. */
  function Spanning(os: seq<Opening>, along: real): nat
  {
    if os == [] then 0 else Spanning(os[..|os|-1], along) + if os[|os|-1].Spans(along) then 1 else 0
  }

  function HoleHits(wall: Wall, os: seq<Opening>, along: real, z: real): nat { Hits(Holes(wall, os), along, z) }

  lemma HoleHitsStep(wall: Wall, s: seq<Opening>, o: Opening, along: real, z: real)
    ensures HoleHits(wall, s + [o], along, z) == HoleHits(wall, s, along, z) + if wall.Hole(o).Has(along, z) then 1 else 0
    ensures Spanning(s + [o], along) == Spanning(s, along) + if o.Spans(along) then 1 else 0
  {
    HolesStep(wall, s, o);
    HitsStep(Holes(wall, s), wall.Hole(o), along, z);
    assert (s + [o])[..|s|] == s;
  }

  lemma {:induction false} InsertHits(wall: Wall, s: seq<Opening>, o: Opening, along: real, z: real)
    ensures HoleHits(wall, Insert(s, o), along, z) == HoleHits(wall, s + [o], along, z)
    ensures Spanning(Insert(s, o), along) == Spanning(s + [o], along)
  {
    if s != [] && s[|s|-1].offset > o.offset {
      var (init, last) := (s[..|s|-1], s[|s|-1]);
      InsertHits(wall, init, o, along, z);
      assert s == init + [last];
      HoleHitsStep(wall, init, last, along, z);
      HoleHitsStep(wall, s, o, along, z);
      HoleHitsStep(wall, init, o, along, z);
      HoleHitsStep(wall, Insert(init, o), last, along, z);
    }
  }

  lemma {:induction false} SortedHits(wall: Wall, os: seq<Opening>, along: real, z: real)
    ensures HoleHits(wall, Sorted(os), along, z) == HoleHits(wall, os, along, z)
    ensures Spanning(Sorted(os), along) == Spanning(os, along)
  {
    if os != [] {
      var (init, o) := (os[..|os|-1], os[|os|-1]);
      assert os == init + [o];
      SortedHits(wall, init, along, z);
      InsertHits(wall, Sorted(init), o, along, z);
      HoleHitsStep(wall, Sorted(init), o, along, z);
      HoleHitsStep(wall, init, o, along, z);
    }
  }

  // ---- Exactly when the pieces tile ----

  lemma {:induction false} ColumnFull(wall: Wall, s: seq<Opening>, along: real, z: real)
    requires AllInside(wall, s) && wall.z0 <= z < wall.z0 + wall.height
    ensures Hits(Pieces(wall, s), along, z) + HoleHits(wall, s, along, z) >= Spanning(s, along)
  {
    if s != [] {
      var (init, o) := (s[..|s|-1], s[|s|-1]);
      assert s == init + [o] && wall.Holds(o);
      ColumnFull(wall, init, along, z);
      OpeningHits(wall, init, o, along, z);
      HoleHitsStep(wall, init, o, along, z);
    }
  }

  lemma {:induction false} TwoSpan(os: seq<Opening>, i: nat, j: nat, along: real)
    requires i < j < |os| && os[i].Spans(along) && os[j].Spans(along)
    ensures Spanning(os, along) >= 2
  {
    if j < |os|-1 {
      TwoSpan(os[..|os|-1], i, j, along);
    } else {
      OneSpans(os[..|os|-1], i, along);
    }
  }

  lemma {:induction false} OneSpans(os: seq<Opening>, i: nat, along: real)
    requires i < |os| && os[i].Spans(along)
    ensures Spanning(os, along) >= 1
  {
    if i < |os|-1 {
      OneSpans(os[..|os|-1], i, along);
    }
  }

  /** Every point of the wall in exactly one piece or opening. */
  ghost predicate Tiled(wall: Wall, os: seq<Opening>)
  {
    forall along: real, z: real :: HitsOnce(wall, os, along, z)
  }

  ghost predicate HitsOnce(wall: Wall, os: seq<Opening>, along: real, z: real)
  {
    Hits(AllPieces(wall, Sorted(os)), along, z) + HoleHits(wall, os, along, z) == if wall.Has(along, z) then 1 else 0
  }

  lemma OverlapBreaks(wall: Wall, os: seq<Opening>, i: nat, j: nat)
    requires AllInside(wall, os) && i < j < |os| && !Disjoint(os[i], os[j])
    ensures !Tiled(wall, os)
  {
    var along := if os[i].Start() < os[j].Start() then os[j].Start() else os[i].Start();
    assert wall.Holds(os[i]) && wall.Holds(os[j]);
    TwoSpan(os, i, j, along);
    SortedHits(wall, os, along, wall.z0);
    SortedInside(wall, os);
    ColumnFull(wall, Sorted(os), along, wall.z0);
    HitsStep(Pieces(wall, Sorted(os)), wall.Full(Cursor(wall, Sorted(os)), wall.half), along, wall.z0);
    assert !HitsOnce(wall, os, along, wall.z0);
  }

  /** For openings inside the wall, in any order: the pieces tile the rest of the wall
      exactly when no two openings share a stretch along it. */
  lemma TilesIffApart(wall: Wall, os: seq<Opening>)
    requires AllInside(wall, os)
    ensures Tiled(wall, os) <==> Apart(os)
  {
    if Apart(os) {
      forall along: real, z: real ensures HitsOnce(wall, os, along, z)
      {
        SortedInside(wall, os);
        SortedHas(os);
        SortedApart(os);
        Tiles(wall, Sorted(os), along, z);
        SortedHits(wall, os, along, z);
      }
    } else {
      var i, j :| 0 <= i < j < |os| && !Disjoint(os[i], os[j]);
      OverlapBreaks(wall, os, i, j);
    }
  }

  /** Stacked openings are disjoint as rectangles, yet a box fills the upper one. */
  lemma StackedBreaks()
    ensures var wall := Wall(2.0, 0.0, 4.0);
      var (low, high) := (Opening(0.0, 1.0, 1.0, Some(0.0)), Opening(0.0, 1.0, 1.0, Some(2.0)));
      && AllInside(wall, [low, high])
      && (forall along: real, z: real :: !(wall.Hole(low).Has(along, z) && wall.Hole(high).Has(along, z)))
      && wall.Above(low) in Kept(AllPieces(wall, Sorted([low, high])))
      && wall.Above(low).Has(0.0, 2.5) && wall.Hole(high).Has(0.0, 2.5)
  {
    var wall := Wall(2.0, 0.0, 4.0);
    var (low, high) := (Opening(0.0, 1.0, 1.0, Some(0.0)), Opening(0.0, 1.0, 1.0, Some(2.0)));
    SortedPair(low, high);
    FirstColumn(wall, low, high);
  }

  lemma SortedPair(a: Opening, b: Opening)
    requires a.offset <= b.offset
    ensures Sorted([a, b]) == [a, b]
  {
    assert Sorted([a]) == [a] by { assert [a][..0] == []; }
    assert [a, b][..1] == [a];
  }

  lemma FirstColumn(wall: Wall, a: Opening, b: Opening)
    requires wall.Above(a).Kept()
    ensures wall.Above(a) in Kept(AllPieces(wall, [a, b]))
  {
    PiecesStep(wall, [], a);
    PiecesStep(wall, [a], b);
    assert [] + [a] == [a] && [a] + [b] == [a, b];
    KeptHas(AllPieces(wall, [a, b]), 2);
  }

  lemma {:induction false} KeptHas(ps: seq<Piece>, i: nat)
    requires i < |ps| && ps[i].Kept()
    ensures ps[i] in Kept(ps)
  {
    if i < |ps|-1 {
      KeptHas(ps[..|ps|-1], i);
    }
  }

  // ---- Slivers ----

  lemma {:induction false} KeptOrDropped(ps: seq<Piece>, along: real, z: real)
    ensures Hits(ps, along, z) == Hits(Kept(ps), along, z) + Hits(Dropped(ps), along, z)
  {
    if ps != [] {
      var (init, p) := (ps[..|ps|-1], ps[|ps|-1]);
      KeptOrDropped(init, along, z);
      HitsStep(Kept(init), p, along, z);
      HitsStep(Dropped(init), p, along, z);
    }
  }

  /** The boxes the builder makes, as pieces of wall. */
  function Built(wall: Wall, os: seq<Opening>): seq<Piece> { Kept(AllPieces(wall, Sorted(os))) }

  function Slivers(wall: Wall, os: seq<Opening>): seq<Piece> { Dropped(AllPieces(wall, Sorted(os))) }

  /** Every gap is nothing at all or wide enough for a box. */
  predicate NoSlivers(wall: Wall, os: seq<Opening>)
  {
    forall i :: 0 <= i < |AllPieces(wall, Sorted(os))| ==>
      AllPieces(wall, Sorted(os))[i].Kept() || AllPieces(wall, Sorted(os))[i].Empty()
  }

  lemma {:induction false} DroppedAreSlivers(ps: seq<Piece>, i: nat)
    requires i < |Dropped(ps)|
    ensures var p := Dropped(ps)[i]; p in ps && (p.end - p.start <= SLIVER || p.top - p.bottom <= SLIVER)
  {
    if i < |Dropped(ps[..|ps|-1])| {
      DroppedAreSlivers(ps[..|ps|-1], i);
    }
  }

  lemma {:induction false} HitsMeansIn(ps: seq<Piece>, along: real, z: real)
    ensures Hits(ps, along, z) > 0 <==> exists i :: 0 <= i < |ps| && ps[i].Has(along, z)
  {
    if ps != [] {
      var init := ps[..|ps|-1];
      HitsMeansIn(init, along, z);
      if i :| 0 <= i < |init| && init[i].Has(along, z) {
        assert ps[i].Has(along, z);
      }
      if i :| 0 <= i < |ps| && ps[i].Has(along, z) && i < |ps|-1 {
        assert init[i].Has(along, z);
      }
    }
  }

  /** No point is built twice or built over an opening, nothing is built outside the wall,
      and a point of the wall left bare lies in an opening or in a sliver. */
  lemma BuiltIsDisjoint(wall: Wall, os: seq<Opening>, along: real, z: real)
    requires AllInside(wall, os) && Apart(os)
    ensures Hits(Built(wall, os), along, z) + HoleHits(wall, os, along, z) + Hits(Slivers(wall, os), along, z)
         == if wall.Has(along, z) then 1 else 0
  {
    TilesIffApart(wall, os);
    assert HitsOnce(wall, os, along, z);
    KeptOrDropped(AllPieces(wall, Sorted(os)), along, z);
  }

  /** A point of the wall in no box and no opening lies in a piece too narrow or too low
      to build. */
  lemma BareIsSliver(wall: Wall, os: seq<Opening>, along: real, z: real) returns (p: Piece)
    requires AllInside(wall, os) && Apart(os) && wall.Has(along, z)
    requires Hits(Built(wall, os), along, z) == 0 && HoleHits(wall, os, along, z) == 0
    ensures p in Slivers(wall, os) && p.Has(along, z)
    ensures p.end - p.start <= SLIVER || p.top - p.bottom <= SLIVER
  {
    var slivers := Slivers(wall, os);
    BuiltIsDisjoint(wall, os, along, z);
    HitsMeansIn(slivers, along, z);
    var i :| 0 <= i < |slivers| && slivers[i].Has(along, z);
    DroppedAreSlivers(AllPieces(wall, Sorted(os)), i);
    p := slivers[i];
  }

  ghost predicate Exact(wall: Wall, os: seq<Opening>)
  {
    forall along: real, z: real :: BuiltOnce(wall, os, along, z)
  }

  ghost predicate BuiltOnce(wall: Wall, os: seq<Opening>, along: real, z: real)
  {
    Hits(Built(wall, os), along, z) + HoleHits(wall, os, along, z) == if wall.Has(along, z) then 1 else 0
  }

  lemma {:induction false} DroppedEmpty(ps: seq<Piece>, along: real, z: real)
    requires forall i :: 0 <= i < |ps| ==> ps[i].Kept() || ps[i].Empty()
    ensures Hits(Dropped(ps), along, z) == 0
  {
    if ps != [] {
      DroppedEmpty(ps[..|ps|-1], along, z);
      HitsStep(Dropped(ps[..|ps|-1]), ps[|ps|-1], along, z);
    }
  }

  lemma {:induction false} DroppedHas(ps: seq<Piece>, i: nat)
    requires i < |ps| && !ps[i].Kept()
    ensures exists k :: 0 <= k < |Dropped(ps)| && Dropped(ps)[k] == ps[i]
  {
    if i == |ps|-1 {
      assert Dropped(ps)[|Dropped(ps)|-1] == ps[i];
    } else {
      DroppedHas(ps[..|ps|-1], i);
      var k :| 0 <= k < |Dropped(ps[..|ps|-1])| && Dropped(ps[..|ps|-1])[k] == ps[i];
      assert Dropped(ps)[k] == ps[i];
    }
  }

  /** Boxes and openings are the whole wall exactly when no gap is a sliver. */
  lemma ExactIffNoSlivers(wall: Wall, os: seq<Opening>)
    requires AllInside(wall, os) && Apart(os)
    ensures Exact(wall, os) <==> NoSlivers(wall, os)
  {
    var all := AllPieces(wall, Sorted(os));
    if NoSlivers(wall, os) {
      forall along: real, z: real ensures BuiltOnce(wall, os, along, z)
      {
        BuiltIsDisjoint(wall, os, along, z);
        DroppedEmpty(all, along, z);
      }
    } else {
      var i :| 0 <= i < |all| && !all[i].Kept() && !all[i].Empty();
      DroppedHas(all, i);
      HitsMeansIn(Slivers(wall, os), all[i].start, all[i].bottom);
      HitsMeansIn(all, all[i].start, all[i].bottom);
      BuiltIsDisjoint(wall, os, all[i].start, all[i].bottom);
      assert !BuiltOnce(wall, os, all[i].start, all[i].bottom);
    }
  }

  // ---- Exactly when every opening is a gap ----

  ghost predicate BothHold(wall: Wall, a: Opening, b: Opening, along: real, z: real)
  {
    wall.Hole(a).Has(along, z) && wall.Hole(b).Has(along, z)
  }

  /** No point of the wall lies in two openings. */
  ghost predicate HolesApart(wall: Wall, os: seq<Opening>)
  {
    forall i, j, along: real, z: real :: 0 <= i < j < |os| ==> !BothHold(wall, os[i], os[j], along, z)
  }

  predicate AllLarge(os: seq<Opening>)
  {
    forall i :: 0 <= i < |os| ==> os[i].width > SLIVER && os[i].height > SLIVER
  }

  /** No box reaches into an opening. */
  ghost predicate AllClear(wall: Wall, os: seq<Opening>)
  {
    forall along: real, z: real :: ClearAt(wall, os, along, z)
  }

  ghost predicate ClearAt(wall: Wall, os: seq<Opening>, along: real, z: real)
  {
    Hits(Built(wall, os), along, z) == 0 || HoleHits(wall, os, along, z) == 0
  }

  lemma {:induction false} HeadIsPiece(wall: Wall, s: seq<Opening>, i: nat)
    requires i < |s|
    ensures exists k :: 0 <= k < |AllPieces(wall, s)| && AllPieces(wall, s)[k] == wall.Above(s[i])
  {
    HeadAmong(wall, s, i);
    var k :| 0 <= k < |Pieces(wall, s)| && Pieces(wall, s)[k] == wall.Above(s[i]);
    assert AllPieces(wall, s)[k] == wall.Above(s[i]);
  }

  lemma {:induction false} HeadAmong(wall: Wall, s: seq<Opening>, i: nat)
    requires i < |s|
    ensures exists k :: 0 <= k < |Pieces(wall, s)| && Pieces(wall, s)[k] == wall.Above(s[i])
  {
    var init := s[..|s|-1];
    if i == |init| {
      assert Pieces(wall, s)[|Pieces(wall, init)| + 2] == wall.Above(s[i]);
    } else {
      HeadAmong(wall, init, i);
      var k :| 0 <= k < |Pieces(wall, init)| && Pieces(wall, init)[k] == wall.Above(init[i]);
      assert Pieces(wall, s)[k] == wall.Above(s[i]);
    }
  }

  lemma KeptHits(ps: seq<Piece>, p: Piece, along: real, z: real)
    requires p in ps && p.Kept() && p.Has(along, z)
    ensures Hits(Kept(ps), along, z) > 0
  {
    var i :| 0 <= i < |ps| && ps[i] == p;
    KeptHas(ps, i);
    HitsMeansIn(Kept(ps), along, z);
  }

  lemma HeadIsBuilt(wall: Wall, os: seq<Opening>, o: Opening, along: real, z: real)
    requires o in os && wall.Above(o).Kept() && wall.Above(o).Has(along, z)
    ensures Hits(Built(wall, os), along, z) > 0
  {
    var s := Sorted(os);
    SortedHas(os);
    assert o in multiset(os);
    assert o in s;
    var i :| 0 <= i < |s| && s[i] == o;
    HeadIsPiece(wall, s, i);
    KeptHits(AllPieces(wall, s), wall.Above(o), along, z);
  }

  /** Over a common stretch one opening sits wholly above the other, and the lower one's
      head holds the upper one's foot. */
  lemma StackedMeet(wall: Wall, os: seq<Opening>, low: nat, high: nat, along: real)
    requires AllInside(wall, os) && AllLarge(os) && low < |os| && high < |os|
    requires os[low].Spans(along) && os[high].Spans(along)
    requires wall.Hole(os[low]).top <= wall.Hole(os[high]).bottom
    ensures !AllClear(wall, os)
  {
    var (o, z) := (os[low], wall.Hole(os[high]).bottom);
    assert wall.Holds(os[low]) && wall.Holds(os[high]);
    HeadIsBuilt(wall, os, o, along, z);
    HitsMeansIn(Holes(wall, os), along, z);
    assert Holes(wall, os)[high].Has(along, z);
    assert !ClearAt(wall, os, along, z);
  }

  lemma SharedStretchMeets(wall: Wall, os: seq<Opening>, i: nat, j: nat)
    requires AllInside(wall, os) && AllLarge(os) && HolesApart(wall, os)
    requires i < j < |os| && !Disjoint(os[i], os[j])
    ensures !AllClear(wall, os)
  {
    var (a, b) := (wall.Hole(os[i]), wall.Hole(os[j]));
    assert wall.Holds(os[i]) && wall.Holds(os[j]);
    var along := if a.start < b.start then b.start else a.start;
    var z := if a.bottom < b.bottom then b.bottom else a.bottom;
    assert !BothHold(wall, os[i], os[j], along, z);
    if a.top <= b.bottom {
      StackedMeet(wall, os, i, j, along);
    } else {
      StackedMeet(wall, os, j, i, along);
    }
  }

  /** For openings inside the wall that do not meet one another and are no slivers: every
      one of them is left open exactly when no two share a stretch along the wall. */
  lemma ClearIffApart(wall: Wall, os: seq<Opening>)
    requires AllInside(wall, os) && AllLarge(os) && HolesApart(wall, os)
    ensures AllClear(wall, os) <==> Apart(os)
  {
    if Apart(os) {
      forall along: real, z: real ensures ClearAt(wall, os, along, z)
      {
        BuiltIsDisjoint(wall, os, along, z);
      }
    } else {
      var i, j :| 0 <= i < j < |os| && !Disjoint(os[i], os[j]);
      SharedStretchMeets(wall, os, i, j);
    }
  }

  // ---- Area ----

  function PieceArea(): Piece -> real { (p: Piece) => p.Area() }

  function OpeningArea(): Opening -> real { (o: Opening) => o.width * o.height }

  /** The area of the wall up to `along`, up to a constant. */
  function AreaUpTo(height: real): real -> real { (along: real) => along * height }

  /** `area` and `hole` measure pieces and openings so that each full-height stretch
      measures `upTo` its end less `upTo` its start. */
  ghost predicate Measures(wall: Wall, area: Piece -> real, hole: Opening -> real, upTo: real -> real)
  {
    && (forall a: real, b: real :: a <= b ==> MeasuresFull(wall, area, upTo, a, b))
    && (forall o: Opening :: wall.Holds(o) ==> MeasuresColumn(wall, area, hole, upTo, o))
  }

  ghost predicate MeasuresFull(wall: Wall, area: Piece -> real, upTo: real -> real, a: real, b: real)
  {
    area(wall.Full(a, b)) == upTo(b) - upTo(a)
  }

  ghost predicate MeasuresColumn(wall: Wall, area: Piece -> real, hole: Opening -> real, upTo: real -> real, o: Opening)
  {
    area(wall.Below(o)) + area(wall.Above(o)) + hole(o) == upTo(o.End()) - upTo(o.Start())
  }

  lemma FullArea(wall: Wall, a: real, b: real)
    requires a <= b && wall.Real()
    ensures wall.Full(a, b).Area() == b * wall.height - a * wall.height
  {
    if a < b {
      assert wall.Full(a, b).top - wall.Full(a, b).bottom == wall.height;
      assert (b - a) * wall.height == b * wall.height - a * wall.height;
    }
  }

  lemma ColumnArea(wall: Wall, o: Opening)
    requires wall.Holds(o) && wall.Real()
    ensures wall.Below(o).Area() + wall.Above(o).Area() + o.width * o.height == o.End() * wall.height - o.Start() * wall.height
  {
    var (w, s, h) := (o.width, o.Sill(), o.height);
    assert wall.Below(o).Area() == w * s;
    assert wall.Above(o).Area() == w * (wall.height - s - h);
    assert w * s + w * (wall.height - s - h) + w * h == w * wall.height;
    assert (o.Start() + w) * wall.height == o.Start() * wall.height + w * wall.height;
  }

  lemma AreaMeasures(wall: Wall)
    requires wall.Real()
    ensures Measures(wall, PieceArea(), OpeningArea(), AreaUpTo(wall.height))
  {
    forall a: real, b: real | a <= b
      ensures MeasuresFull(wall, PieceArea(), AreaUpTo(wall.height), a, b)
    {
      FullArea(wall, a, b);
    }
    forall o: Opening | wall.Holds(o)
      ensures MeasuresColumn(wall, PieceArea(), OpeningArea(), AreaUpTo(wall.height), o)
    {
      ColumnArea(wall, o);
    }
  }

  lemma {:induction false} MeasureLeft(wall: Wall, s: seq<Opening>, area: Piece -> real, hole: Opening -> real, upTo: real -> real)
    requires PiecesApart(wall, s) && Measures(wall, area, hole, upTo)
    ensures -wall.half <= Cursor(wall, s) <= wall.half
    ensures Sum(area, Pieces(wall, s)) + Sum(hole, s) == upTo(Cursor(wall, s)) - upTo(-wall.half)
  {
    if s != [] {
      var (init, o) := (s[..|s|-1], s[|s|-1]);
      assert s == init + [o] && wall.Holds(o);
      PrefixApart(wall, s);
      MeasureLeft(wall, init, area, hole, upTo);
      PiecesMeasure(wall, init, o, area);
      assert MeasuresFull(wall, area, upTo, Cursor(wall, init), o.Start()) && MeasuresColumn(wall, area, hole, upTo, o);
    }
  }

  lemma PiecesMeasure(wall: Wall, init: seq<Opening>, o: Opening, area: Piece -> real)
    ensures Sum(area, Pieces(wall, init + [o]))
         == Sum(area, Pieces(wall, init)) + area(wall.Full(Cursor(wall, init), o.Start()))
          + area(wall.Below(o)) + area(wall.Above(o))
  {
    var ps := Pieces(wall, init);
    var gap := wall.Full(Cursor(wall, init), o.Start());
    PiecesStep(wall, init, o);
    SumStep(area, ps, gap);
    SumStep(area, ps + [gap], wall.Below(o));
    SumStep(area, ps + [gap] + [wall.Below(o)], wall.Above(o));
  }

  lemma InsertUnfold(s: seq<Opening>, o: Opening)
    requires s != [] && s[|s|-1].offset > o.offset
    ensures Insert(s, o) == Insert(s[..|s|-1], o) + [s[|s|-1]]
  {
  }

  lemma {:induction false} InsertSum(hole: Opening -> real, s: seq<Opening>, o: Opening)
    ensures Sum(hole, Insert(s, o)) == Sum(hole, s + [o])
  {
    if s != [] && s[|s|-1].offset > o.offset {
      var (init, last) := (s[..|s|-1], s[|s|-1]);
      InsertSum(hole, init, o);
      InsertUnfold(s, o);
      assert s == init + [last];
      SumStep(hole, init, last);
      SumStep(hole, s, o);
      SumStep(hole, init, o);
      SumStep(hole, Insert(init, o), last);
    }
  }

  lemma {:induction false} SortedSum(hole: Opening -> real, os: seq<Opening>)
    ensures Sum(hole, Sorted(os)) == Sum(hole, os)
  {
    if os != [] {
      var (init, o) := (os[..|os|-1], os[|os|-1]);
      assert os == init + [o];
      SortedSum(hole, init);
      InsertSum(hole, Sorted(init), o);
      SumStep(hole, Sorted(init), o);
      SumStep(hole, init, o);
    }
  }

  lemma {:induction false} KeptSum(area: Piece -> real, ps: seq<Piece>)
    ensures Sum(area, ps) == Sum(area, Kept(ps)) + Sum(area, Dropped(ps))
  {
    if ps != [] {
      var (init, p) := (ps[..|ps|-1], ps[|ps|-1]);
      KeptSum(area, init);
      SumStep(area, Kept(init), p);
      SumStep(area, Dropped(init), p);
    }
  }

  lemma MeasuresAddUp(wall: Wall, os: seq<Opening>, area: Piece -> real, hole: Opening -> real, upTo: real -> real)
    requires AllInside(wall, os) && Apart(os) && Measures(wall, area, hole, upTo)
    ensures Sum(area, Built(wall, os)) + Sum(area, Slivers(wall, os)) + Sum(hole, os) == upTo(wall.half) - upTo(-wall.half)
  {
    var s := Sorted(os);
    SortedInside(wall, os);
    SortedHas(os);
    SortedApart(os);
    SortedSum(hole, os);
    MeasureLeft(wall, s, area, hole, upTo);
    SumStep(area, Pieces(wall, s), wall.Full(Cursor(wall, s), wall.half));
    KeptSum(area, AllPieces(wall, s));
    assert MeasuresFull(wall, area, upTo, Cursor(wall, s), wall.half);
  }

  function BuiltArea(wall: Wall, os: seq<Opening>): real { Sum(PieceArea(), Built(wall, os)) }

  function SliverArea(wall: Wall, os: seq<Opening>): real { Sum(PieceArea(), Slivers(wall, os)) }

  function HoleArea(os: seq<Opening>): real { Sum(OpeningArea(), os) }

  lemma AreaBalance(wall: Wall, os: seq<Opening>, total: real)
    requires AllInside(wall, os) && Apart(os)
    requires total == BuiltArea(wall, os) + SliverArea(wall, os) + HoleArea(os)
    ensures total == AreaUpTo(wall.height)(wall.half) - AreaUpTo(wall.height)(-wall.half)
  {
    AreaMeasures(wall);
    MeasuresAddUp(wall, os, PieceArea(), OpeningArea(), AreaUpTo(wall.height));
  }

  lemma WholeArea(total: real, half: real, height: real)
    requires total == AreaUpTo(height)(half) - AreaUpTo(height)(-half)
    ensures total == 2.0 * half * height
  {
  }

  function TotalArea(wall: Wall, os: seq<Opening>): real { BuiltArea(wall, os) + SliverArea(wall, os) + HoleArea(os) }

  /** Boxes, slivers and openings add up to the wall. */
  lemma AreasAddUp(wall: Wall, os: seq<Opening>)
    requires AllInside(wall, os) && Apart(os)
    ensures TotalArea(wall, os) == 2.0 * wall.half * wall.height
  {
    var total := TotalArea(wall, os);
    AreaBalance(wall, os, total);
    WholeArea(total, wall.half, wall.height);
  }

  predicate FitsWall(wall: Wall, p: Piece)
  {
    p.end - p.start <= 2.0 * wall.half && p.top - p.bottom <= wall.height
  }

  ghost predicate AllFit(wall: Wall, ps: seq<Piece>)
  {
    forall i :: 0 <= i < |ps| ==> FitsWall(wall, ps[i])
  }

  lemma CursorInWall(wall: Wall, s: seq<Opening>)
    requires PiecesApart(wall, s)
    ensures -wall.half <= Cursor(wall, s) <= wall.half
  {
    TilesLeft(wall, s, 0.0, 0.0);
  }

  lemma {:induction false} PiecesFit(wall: Wall, s: seq<Opening>)
    requires PiecesApart(wall, s)
    ensures |Pieces(wall, s)| == 3 * |s| && AllFit(wall, Pieces(wall, s))
  {
    if s != [] {
      var (init, o) := (s[..|s|-1], s[|s|-1]);
      assert wall.Holds(o);
      PrefixApart(wall, s);
      PiecesFit(wall, init);
      CursorInWall(wall, init);
    }
  }

  lemma {:induction false} DroppedFit(wall: Wall, ps: seq<Piece>)
    requires AllFit(wall, ps)
    ensures |Dropped(ps)| <= |ps| && AllFit(wall, Dropped(ps))
  {
    if ps != [] {
      DroppedFit(wall, ps[..|ps|-1]);
    }
  }

  function Longer(a: real, b: real): real { if a < b then b else a }

  lemma ThinArea(a: real, b: real, long: real)
    requires 0.0 < a && 0.0 < b <= long
    requires a <= SLIVER
    ensures a * b <= SLIVER * long
  {
    assert a * b <= SLIVER * b <= SLIVER * long;
  }

  lemma SliverIsSmall(wall: Wall, p: Piece)
    requires wall.Real() && FitsWall(wall, p) && (p.end - p.start <= SLIVER || p.top - p.bottom <= SLIVER)
    ensures p.Area() <= SLIVER * Longer(2.0 * wall.half, wall.height)
  {
    var long := Longer(2.0 * wall.half, wall.height);
    assert SLIVER * long >= 0.0;
    if !p.Empty() {
      if p.end - p.start <= SLIVER {
        ThinArea(p.end - p.start, p.top - p.bottom, long);
      } else {
        ThinArea(p.top - p.bottom, p.end - p.start, long);
      }
    }
  }

  /** `b` added `n` times. */
  function Repeated(n: nat, b: real): real
  {
    if n == 0 then 0.0 else Repeated(n-1, b) + b
  }

  lemma {:induction false} RepeatedIs(n: nat, b: real)
    ensures Repeated(n, b) == n as real * b
  {
    if n > 0 {
      RepeatedIs(n-1, b);
      assert (n-1) as real * b + b == n as real * b;
    }
  }

  lemma {:induction false} RepeatedMore(m: nat, n: nat, b: real)
    requires m <= n && b >= 0.0
    ensures Repeated(m, b) <= Repeated(n, b)
  {
    if m < n {
      RepeatedMore(m, n-1, b);
    }
  }

  ghost predicate Bounded<A>(f: A -> real, s: seq<A>, b: real)
  {
    forall i :: 0 <= i < |s| ==> f(s[i]) <= b
  }

  lemma {:induction false} SumBound<A>(f: A -> real, s: seq<A>, b: real)
    requires Bounded(f, s, b)
    ensures Sum(f, s) <= Repeated(|s|, b)
  {
    if s != [] {
      SumBound(f, s[..|s|-1], b);
    }
  }

  function SliverBound(wall: Wall): real { SLIVER * Longer(2.0 * wall.half, wall.height) }

  lemma SliversAreSmall(wall: Wall, ps: seq<Piece>)
    requires wall.Real() && AllFit(wall, ps)
    ensures |Dropped(ps)| <= |ps| && Bounded(PieceArea(), Dropped(ps), SliverBound(wall)) && SliverBound(wall) >= 0.0
  {
    DroppedFit(wall, ps);
    forall i | 0 <= i < |Dropped(ps)|
      ensures PieceArea()(Dropped(ps)[i]) <= SliverBound(wall)
    {
      DroppedAreSlivers(ps, i);
      SliverIsSmall(wall, Dropped(ps)[i]);
    }
  }

  lemma AllFits(wall: Wall, s: seq<Opening>)
    requires PiecesApart(wall, s)
    ensures |AllPieces(wall, s)| == 3 * |s| + 1 && AllFit(wall, AllPieces(wall, s))
  {
    PiecesFit(wall, s);
    CursorInWall(wall, s);
  }

  lemma BoundedSum<A>(f: A -> real, s: seq<A>, b: real, count: nat, total: real)
    requires Bounded(f, s, b) && |s| <= count && b >= 0.0 && total == Sum(f, s)
    ensures total <= count as real * b
  {
    SumBound(f, s, b);
    RepeatedMore(|s|, count, b);
    RepeatedIs(count, b);
  }

  lemma SliversBounded(wall: Wall, os: seq<Opening>)
    requires AllInside(wall, os) && Apart(os)
    ensures |Slivers(wall, os)| <= 3 * |os| + 1
    ensures Bounded(PieceArea(), Slivers(wall, os), SliverBound(wall)) && SliverBound(wall) >= 0.0
  {
    SortedInside(wall, os);
    SortedHas(os);
    SortedApart(os);
    SortedSize(os);
    AllFits(wall, Sorted(os));
    SliversAreSmall(wall, AllPieces(wall, Sorted(os)));
  }

  lemma SliverTotal(wall: Wall, os: seq<Opening>, total: real, b: real)
    requires AllInside(wall, os) && Apart(os) && total == SliverArea(wall, os) && b == SliverBound(wall)
    ensures total <= (3 * |os| + 1) as real * b
  {
    SliversBounded(wall, os);
    BoundedSum(PieceArea(), Slivers(wall, os), b, 3 * |os| + 1, total);
  }

  /** What is left bare beside the openings is at most three slivers an opening and one
      more, each no longer than the wall. */
  lemma SliverAreaBound(wall: Wall, os: seq<Opening>)
    requires AllInside(wall, os) && Apart(os)
    ensures SliverArea(wall, os) <= (3 * |os| + 1) as real * SliverBound(wall)
  {
    SliverTotal(wall, os, SliverArea(wall, os), SliverBound(wall));
  }

  lemma SortedSize(os: seq<Opening>)
    ensures |Sorted(os)| == |os|
  {
    SortedHas(os);
    assert |multiset(Sorted(os))| == |multiset(os)|;
  }

  // ---- In the world ----

  /** A box holds exactly the points of its piece, through the wall's full thickness. */
  lemma BoxIsPiece(frame: Frame, p: Piece, at: Vec3)
    ensures InBox(frame.BoxOf(p), at) <==> p.Has(frame.Along(at), at.2) && frame.Within(at)
  {
  }

  /** Outside a sliver, a point of the wall's solid is in some box exactly when it is in no opening. */
  lemma BoxesFillTheWall(frame: Frame, wall: Wall, os: seq<Opening>, at: Vec3)
    requires AllInside(wall, os) && Apart(os) && frame.Within(at) && wall.Has(frame.Along(at), at.2)
    requires Hits(Slivers(wall, os), frame.Along(at), at.2) == 0
    ensures var boxes := Boxes(frame, Built(wall, os));
      (exists i :: 0 <= i < |boxes| && InBox(boxes[i], at))
      <==> (forall i :: 0 <= i < |os| ==> !wall.Hole(os[i]).Has(frame.Along(at), at.2))
  {
    var (along, ps) := (frame.Along(at), Built(wall, os));
    BuiltIsDisjoint(wall, os, along, at.2);
    HitsMeansIn(ps, along, at.2);
    HitsMeansIn(Holes(wall, os), along, at.2);
    forall i | 0 <= i < |ps| ensures InBox(Boxes(frame, ps)[i], at) <==> ps[i].Has(along, at.2)
    {
      BoxIsPiece(frame, ps[i], at);
    }
  }
}
