/** Where the pieces, boxes and openings of a wall lie, in coordinates
    (scripts/asset-pipeline/townkit/geo.py). */
module WallPieces {
  import opened Basics
  import opened WallOpenings

  // ---- Openings ----

  /** An opening is centred on its offset and stands on its sill; without one, on the floor. */
  lemma HoleIs(wall: Wall, o: Opening, along: real, z: real)
    ensures var sill := if o.sill.Some? then o.sill.value else 0.0;
      wall.Hole(o).Has(along, z) <==>
        -o.width <= 2.0 * (along - o.offset) < o.width && sill <= z - wall.z0 < sill + o.height
  {
  }

  function At(offset: real): Opening -> bool { (o: Opening) => o.offset == offset }

  lemma {:induction false} InsertStable(s: seq<Opening>, o: Opening, offset: real)
    requires Ordered(s)
    ensures Filter(At(offset), Insert(s, o)) == Filter(At(offset), s + [o])
  {
    FilterAppends(At(offset), s, o);
    if s != [] && s[|s|-1].offset > o.offset {
      var (init, last) := (s[..|s|-1], s[|s|-1]);
      InsertStable(init, o, offset);
      FilterAppends(At(offset), init, o);
      FilterAppends(At(offset), Insert(init, o), last);
      assert s == init + [last];
    }
  }

  /** Openings with one offset keep their order. */
  lemma {:induction false} SortedStable(os: seq<Opening>, offset: real)
    ensures Filter(At(offset), Sorted(os)) == Filter(At(offset), os)
  {
    if os != [] {
      var (init, o) := (os[..|os|-1], os[|os|-1]);
      assert os == init + [o];
      SortedStable(init, offset);
      SortedHas(init);
      InsertStable(Sorted(init), o, offset);
      FilterAppends(At(offset), Sorted(init), o);
      FilterAppends(At(offset), init, o);
    }
  }

  // ---- Pieces ----

  ghost predicate IsPiece(p: Piece, start: real, end: real, bottom: real, top: real)
  {
    p.start == start && p.end == end && p.bottom == bottom && p.top == top
  }

  /** The three pieces at opening `i`: full height from where the one before ended, whatever
      that is, below its sill, and above its head. */
  lemma {:induction false} PiecesAre(wall: Wall, s: seq<Opening>, i: nat)
    requires i < |s|
    ensures |Pieces(wall, s)| == 3 * |s|
    ensures var (ps, o) := (Pieces(wall, s), s[i]);
      var (left, right) := (o.offset - o.width / 2.0, o.offset + o.width / 2.0);
      var sill := if o.sill.Some? then o.sill.value else 0.0;
      && IsPiece(ps[3*i], if i == 0 then -wall.half else s[i-1].offset + s[i-1].width / 2.0, left,
                 wall.z0, wall.z0 + wall.height)
      && IsPiece(ps[3*i+1], left, right, wall.z0, wall.z0 + sill)
      && IsPiece(ps[3*i+2], left, right, wall.z0 + sill + o.height, wall.z0 + wall.height)
  {
    PiecesCount(wall, s[..|s|-1]);
    if i < |s| - 1 {
      PiecesAre(wall, s[..|s|-1], i);
    }
  }

  lemma {:induction false} PiecesCount(wall: Wall, s: seq<Opening>)
    ensures |Pieces(wall, s)| == 3 * |s|
  {
    if s != [] {
      PiecesCount(wall, s[..|s|-1]);
    }
  }

  /** And the last one, to the far end of the wall. */
  lemma LastPieceIs(wall: Wall, s: seq<Opening>)
    ensures |AllPieces(wall, s)| == 3 * |s| + 1 && AllPieces(wall, s)[..3*|s|] == Pieces(wall, s)
    ensures IsPiece(AllPieces(wall, s)[3*|s|], if s == [] then -wall.half else s[|s|-1].offset + s[|s|-1].width / 2.0,
                    wall.half, wall.z0, wall.z0 + wall.height)
  {
    PiecesCount(wall, s);
  }

  function Large(): Piece -> bool { (p: Piece) => p.end - p.start > 0.000001 && p.top - p.bottom > 0.000001 }

  function Small(): Piece -> bool { (p: Piece) => !Large()(p) }

  lemma {:induction false} KeptFilters(ps: seq<Piece>)
    ensures Kept(ps) == Filter(Large(), ps) && Dropped(ps) == Filter(Small(), ps)
  {
    if ps != [] {
      KeptFilters(ps[..|ps|-1]);
    }
  }

  /** Exactly the pieces longer and taller than a micrometre are built, in order; the rest
      are the slivers. */
  lemma KeptAre(ps: seq<Piece>) returns (f: seq<nat>, g: seq<nat>)
    ensures Picks(ps, f, Kept(ps)) && Picks(ps, g, Dropped(ps))
    ensures forall k: nat :: k in f <==> k < |ps| && ps[k].end - ps[k].start > 0.000001 && ps[k].top - ps[k].bottom > 0.000001
    ensures forall k: nat :: k in g <==> k < |ps| && k !in f
  {
    KeptFilters(ps);
    f := FilterSelects(Large(), ps);
    g := FilterSelects(Small(), ps);
  }

  ghost function Holding(ps: seq<Piece>, along: real, z: real): set<nat>
  {
    set i | 0 <= i < |ps| && ps[i].Has(along, z)
  }

  lemma HoldingStep(ps: seq<Piece>, p: Piece, along: real, z: real)
    ensures Holding(ps + [p], along, z) == Holding(ps, along, z) + if p.Has(along, z) then {|ps|} else {}
    ensures |ps| !in Holding(ps, along, z)
  {
  }

  /** How many pieces hold a point. */
  lemma {:induction false} HitsAre(ps: seq<Piece>, along: real, z: real)
    ensures Hits(ps, along, z) == |Holding(ps, along, z)|
  {
    if ps != [] {
      var (init, p) := (ps[..|ps|-1], ps[|ps|-1]);
      HitsAre(init, along, z);
      HoldingStep(init, p, along, z);
      assert ps == init + [p];
    }
  }

  // ---- Boxes ----

  ghost predicate Extends(center: real, size: real, low: real, high: real)
  {
    center - size / 2.0 == low && center + size / 2.0 == high
  }

  /** A box stands from the piece's bottom to its top, along the wall's axis from its start to
      its end, and across it half the thickness either way. */
  lemma BoxExtends(frame: Frame, p: Piece)
    ensures var (b, half) := (frame.BoxOf(p), frame.thickness / 2.0);
      var (cx, cy) := frame.center;
      && Extends(b.center.2, b.size.2, p.bottom, p.top)
      && (frame.axis == "x" ==> Extends(b.center.0, b.size.0, cx + p.start, cx + p.end)
                                && Extends(b.center.1, b.size.1, cy - half, cy + half))
      && (frame.axis != "x" ==> Extends(b.center.1, b.size.1, cy + p.start, cy + p.end)
                                && Extends(b.center.0, b.size.0, cx - half, cx + half))
  {
  }

  /** A point of the world is in a box exactly when it is in the piece, seen along the axis. */
  lemma InBoxIs(frame: Frame, p: Piece, at: Vec3)
    ensures var (along, across) := if frame.axis == "x" then (at.0 - frame.center.0, at.1 - frame.center.1)
                                   else (at.1 - frame.center.1, at.0 - frame.center.0);
      InBox(frame.BoxOf(p), at) <==>
        p.start <= along < p.end && p.bottom <= at.2 < p.top && -frame.thickness <= 2.0 * across < frame.thickness
  {
  }
}
