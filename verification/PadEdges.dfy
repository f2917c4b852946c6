/** Colour padding past a silhouette (scripts/ai-pipeline/proptex/atlas.py). */
module PadEdges {
  // `pad_edges` is an in-place four-neighbour dilation, shown to paint exactly the L1 ball
  // around the mask, each texel with the colour of a nearest mask texel.

  import opened Basics

  datatype Cell = Cell(row: int, col: int)

  datatype Canvas<C> = Canvas(colour: map<Cell, C>, mask: set<Cell>)

  ghost function Grid(h: nat, w: nat): (g: set<Cell>)
    ensures forall t :: t in g <==> 0 <= t.row < h && 0 <= t.col < w
  {
    set r, c | 0 <= r < h && 0 <= c < w :: Cell(r, c)
  }

  function Shift(t: Cell, dr: int, dc: int): Cell { Cell(t.row + dr, t.col + dc) }

  /** The neighbour a texel is painted from: the first masked one, tried in the
      order below, above, right, left. */
  function Source(mask: set<Cell>, t: Cell): Option<Cell>
  {
    if Shift(t, 1, 0) in mask then Some(Shift(t, 1, 0))
    else if Shift(t, -1, 0) in mask then Some(Shift(t, -1, 0))
    else if Shift(t, 0, 1) in mask then Some(Shift(t, 0, 1))
    else if Shift(t, 0, -1) in mask then Some(Shift(t, 0, -1))
    else None
  }

  /** One iteration. */
  function Dilate<C>(p: Canvas<C>): (q: Canvas<C>)
    requires p.mask <= p.colour.Keys
    ensures q.colour.Keys == p.colour.Keys && p.mask <= q.mask <= q.colour.Keys
  {
    Canvas(map t | t in p.colour :: if t in p.mask then p.colour[t] else
             match Source(p.mask, t) case Some(n) => p.colour[n] case None => p.colour[t],
           set t | t in p.colour && (t in p.mask || Source(p.mask, t).Some?))
  }

  /** One direction of an iteration: texels not yet grown take the colour of their
      (dr, dc) neighbour if the iteration's mask holds it. */
  function Toward<C>(p: Canvas<C>, mask: set<Cell>, dr: int, dc: int): (q: Canvas<C>)
    requires mask <= p.mask <= p.colour.Keys
    ensures q.colour.Keys == p.colour.Keys && p.mask <= q.mask <= q.colour.Keys
  {
    Canvas(map t | t in p.colour :: if t !in p.mask && Shift(t, dr, dc) in mask
                                    then p.colour[Shift(t, dr, dc)] else p.colour[t],
           set t | t in p.colour && (t in p.mask || Shift(t, dr, dc) in mask))
  }

  lemma FourDirections<C>(p: Canvas<C>)
    requires p.mask <= p.colour.Keys
    ensures Toward(Toward(Toward(Toward(p, p.mask, 1, 0), p.mask, -1, 0), p.mask, 0, 1), p.mask, 0, -1) == Dilate(p)
  {
    var a := Toward(p, p.mask, 1, 0);
    var b := Toward(a, p.mask, -1, 0);
    var c := Toward(b, p.mask, 0, 1);
    assert forall t :: t in p.mask ==> a.colour[t] == b.colour[t] == c.colour[t] == p.colour[t];
  }

  /** A texel next to the mask is painted from below if the mask is there, else from above,
      else from the right, else from the left. */
  lemma PaintedFrom<C>(p: Canvas<C>, t: Cell)
    requires p.mask <= p.colour.Keys && t in p.colour && t !in p.mask
    ensures var (below, above, right, left) := (Cell(t.row + 1, t.col), Cell(t.row - 1, t.col), Cell(t.row, t.col + 1), Cell(t.row, t.col - 1));
      var now := Dilate(p).colour[t];
      && (below in p.mask ==> now == p.colour[below])
      && (below !in p.mask && above in p.mask ==> now == p.colour[above])
      && (below !in p.mask && above !in p.mask && right in p.mask ==> now == p.colour[right])
      && (below !in p.mask && above !in p.mask && right !in p.mask && left in p.mask ==> now == p.colour[left])
  {
  }

  function Padded<C>(p: Canvas<C>, iterations: nat): (q: Canvas<C>)
    requires p.mask <= p.colour.Keys
    ensures q.colour.Keys == p.colour.Keys && q.mask <= q.colour.Keys
  {
    if iterations == 0 then p else Dilate(Padded(p, iterations-1))
  }

  // ---- The in-place algorithm ----

  ghost predicate SameSize<C>(colors: array2<C>, mask: array2<bool>)
  {
    colors.Length0 == mask.Length0 && colors.Length1 == mask.Length1
  }

  ghost predicate On(a: array2<bool>, r: int, c: int)
    reads a
  {
    0 <= r < a.Length0 && 0 <= c < a.Length1 && a[r, c]
  }

  ghost function Colours<C>(a: array2<C>): (m: map<Cell, C>)
    reads a
  {
    map t | t in Grid(a.Length0, a.Length1) :: a[t.row, t.col]
  }

  ghost function Masked(a: array2<bool>): (s: set<Cell>)
    reads a
  {
    set t | t in Grid(a.Length0, a.Length1) && a[t.row, t.col]
  }

  /** One of the four slice assignments, texel by texel. */
  method AssignSlice<C>(colors: array2<C>, mask: array2<bool>, grown: array2<bool>, dr: int, dc: int)
    requires SameSize(colors, mask) && SameSize(colors, grown) && mask != grown
    requires colors as object != mask && colors as object != grown
    modifies colors, grown
    ensures forall r, c :: 0 <= r < grown.Length0 && 0 <= c < grown.Length1 ==>
      grown[r, c] == (old(grown[r, c]) || On(mask, r + dr, c + dc))
    ensures forall r, c :: 0 <= r < grown.Length0 && 0 <= c < grown.Length1 ==>
      colors[r, c] == if !old(grown[r, c]) && On(mask, r + dr, c + dc)
                      then old(colors[r + dr, c + dc]) else old(colors[r, c])
  {
    var h, w := colors.Length0, colors.Length1;
    forall r, c | 0 <= r < h && 0 <= c < w && 0 <= r + dr < h && 0 <= c + dc < w
                  && mask[r + dr, c + dc] && !grown[r, c]
    {
      colors[r, c] := colors[r + dr, c + dc];
    }
    forall r, c | 0 <= r < h && 0 <= c < w && 0 <= r + dr < h && 0 <= c + dc < w
    {
      grown[r, c] := grown[r, c] || mask[r + dr, c + dc];
    }
  }

  method Spread<C>(colors: array2<C>, mask: array2<bool>, grown: array2<bool>, dr: int, dc: int)
    requires SameSize(colors, mask) && SameSize(colors, grown) && mask != grown
    requires colors as object != mask && colors as object != grown
    requires Masked(mask) <= Masked(grown)
    modifies colors, grown
    ensures Canvas(Colours(colors), Masked(grown))
         == Toward(Canvas(old(Colours(colors)), old(Masked(grown))), Masked(mask), dr, dc)
  {
    ghost var before, was, m := Colours(colors), Masked(grown), Masked(mask);
    AssignSlice(colors, mask, grown, dr, dc);
    forall t | t in before
      ensures (t in Masked(grown)) == (t in was || Shift(t, dr, dc) in m)
      ensures Colours(colors)[t] == if t !in was && Shift(t, dr, dc) in m then before[Shift(t, dr, dc)] else before[t]
    {
      assert On(mask, t.row + dr, t.col + dc) == (Shift(t, dr, dc) in m);
      assert (t in was) == old(grown[t.row, t.col]);
    }
    assert Masked(grown) == Toward(Canvas(before, was), m, dr, dc).mask;
    assert Colours(colors) == Toward(Canvas(before, was), m, dr, dc).colour;
  }

  /** One iteration in place: the four directions in order, into a copied mask. */
  method Grow<C>(colors: array2<C>, mask: array2<bool>) returns (grown: array2<bool>)
    requires SameSize(colors, mask) && colors as object != mask
    modifies colors
    ensures fresh(grown) && SameSize(colors, grown)
    ensures Canvas(Colours(colors), Masked(grown)) == Dilate(Canvas(old(Colours(colors)), Masked(mask)))
  {
    grown := new bool[mask.Length0, mask.Length1];
    forall r, c | 0 <= r < grown.Length0 && 0 <= c < grown.Length1 {
      grown[r, c] := mask[r, c];
    }
    assert Masked(grown) == Masked(mask);
    Spread(colors, mask, grown, 1, 0);
    Spread(colors, mask, grown, -1, 0);
    Spread(colors, mask, grown, 0, 1);
    Spread(colors, mask, grown, 0, -1);
    FourDirections(Canvas(old(Colours(colors)), Masked(mask)));
  }

  method PadEdges<C>(colors: array2<C>, mask: array2<bool>, iterations: nat)
    requires SameSize(colors, mask) && colors as object != mask
    modifies colors
    ensures Colours(colors) == Padded(Canvas(old(Colours(colors)), Masked(mask)), iterations).colour
  {
    ghost var start := Canvas(Colours(colors), Masked(mask));
    var current := mask;
    for k := 0 to iterations
      invariant SameSize(colors, current) && colors as object != current
      invariant Canvas(Colours(colors), Masked(current)) == Padded(start, k)
    {
      current := Grow(colors, current);
    }
  }

  // ---- The L1 ball ----

  function Abs(x: int): nat { if x < 0 then -x else x }

  function L1(a: Cell, b: Cell): nat { Abs(a.row - b.row) + Abs(a.col - b.col) }

  ghost predicate Within(mask: set<Cell>, t: Cell, d: nat)
  {
    exists c :: c in mask && L1(t, c) <= d
  }

  ghost predicate Nearest(mask: set<Cell>, t: Cell, c: Cell)
  {
    c in mask && forall x :: x in mask ==> L1(t, c) <= L1(t, x)
  }

  ghost predicate OnGrid<C>(p: Canvas<C>, h: nat, w: nat)
  {
    p.colour.Keys == Grid(h, w) && p.mask <= p.colour.Keys
  }

  ghost function Toward1(t: Cell, c: Cell): Cell
  {
    if c.row > t.row then Shift(t, 1, 0)
    else if c.row < t.row then Shift(t, -1, 0)
    else if c.col > t.col then Shift(t, 0, 1)
    else Shift(t, 0, -1)
  }

  lemma StepToward(h: nat, w: nat, t: Cell, c: Cell)
    requires t in Grid(h, w) && c in Grid(h, w) && t != c
    ensures Toward1(t, c) in Grid(h, w)
    ensures L1(Toward1(t, c), c) == L1(t, c) - 1
  {
  }

  lemma SourceIsNeighbour(mask: set<Cell>, t: Cell)
    ensures Source(mask, t).Some? ==> Source(mask, t).value in mask && L1(t, Source(mask, t).value) == 1
    ensures Source(mask, t).None? ==> forall c :: Toward1(t, c) !in mask
  {
  }

  lemma BallMoves(mask: set<Cell>, t: Cell, n: Cell, d: nat)
    requires Within(mask, n, d) && L1(t, n) == 1
    ensures Within(mask, t, d+1)
  {
    var c :| c in mask && L1(n, c) <= d;
    assert L1(t, c) <= d+1;
  }

  ghost function Ball(mask: set<Cell>, h: nat, w: nat, d: nat): set<Cell>
  {
    set t | t in Grid(h, w) && Within(mask, t, d)
  }

  /** A texel just outside the ball of radius `d` touches it exactly when it lies at
      distance d + 1. */
  lemma TouchesBall(mask: set<Cell>, h: nat, w: nat, d: nat, t: Cell)
    requires mask <= Grid(h, w) && t in Grid(h, w) && !Within(mask, t, d)
    ensures Source(Ball(mask, h, w, d), t).Some? <==> Within(mask, t, d+1)
  {
    var ball := Ball(mask, h, w, d);
    SourceIsNeighbour(ball, t);
    if Source(ball, t).Some? {
      BallMoves(mask, t, Source(ball, t).value, d);
    }
    if Within(mask, t, d+1) {
      var c :| c in mask && L1(t, c) <= d+1;
      assert L1(t, c) == d+1;
      StepToward(h, w, t, c);
      assert Within(mask, Toward1(t, c), d);
    }
  }

  lemma WithinMore(mask: set<Cell>, t: Cell, d: nat)
    requires Within(mask, t, d)
    ensures Within(mask, t, d+1)
  {
    var c :| c in mask && L1(t, c) <= d;
    assert L1(t, c) <= d+1;
  }

  lemma PaddedStep<C>(p: Canvas<C>, j: nat, k: nat)
    requires p.mask <= p.colour.Keys && k == j+1
    ensures Padded(p, k) == Dilate(Padded(p, j))
  {
  }

  lemma DilateGrowsBall<C>(q: Canvas<C>, mask: set<Cell>, h: nat, w: nat, j: nat, k: nat)
    requires OnGrid(q, h, w) && mask <= Grid(h, w) && q.mask == Ball(mask, h, w, j) && k == j+1
    ensures Dilate(q).mask == Ball(mask, h, w, k)
  {
    forall t | t in Grid(h, w)
      ensures t in Dilate(q).mask <==> Within(mask, t, k)
    {
      if Within(mask, t, j) {
        WithinMore(mask, t, j);
      } else {
        TouchesBall(mask, h, w, j, t);
      }
    }
  }

  lemma {:induction false} MaskIsBall<C>(p: Canvas<C>, h: nat, w: nat, k: nat)
    requires OnGrid(p, h, w)
    ensures Padded(p, k).mask == Ball(p.mask, h, w, k)
  {
    if k == 0 {
      forall t
        ensures t in p.mask <==> t in Ball(p.mask, h, w, 0)
      {
        assert L1(t, t) == 0;
      }
    } else {
      var j: nat := k-1;
      var q := Padded(p, j);
      PaddedStep(p, j, k);
      MaskIsBall(p, h, w, j);
      DilateGrowsBall(q, p.mask, h, w, j, k);
    }
  }

  /** What `k` iterations leave in texel `t`: inside the ball, the original colour of
      some nearest mask texel; outside, what was there. */
  ghost predicate PaintedRight<C>(p: Canvas<C>, q: Canvas<C>, k: nat, t: Cell)
    requires p.mask <= p.colour.Keys && t in p.colour && t in q.colour
  {
    if Within(p.mask, t, k)
    then exists c :: Nearest(p.mask, t, c) && q.colour[t] == p.colour[c]
    else q.colour[t] == p.colour[t]
  }

  lemma DilatePaintsRight<C>(p: Canvas<C>, q: Canvas<C>, h: nat, w: nat, j: nat, k: nat, t: Cell)
    requires OnGrid(p, h, w) && OnGrid(q, h, w) && q.mask == Ball(p.mask, h, w, j) && k == j+1
    requires t in p.colour && forall u :: u in p.colour ==> PaintedRight(p, q, j, u)
    ensures PaintedRight(p, Dilate(q), k, t)
  {
    if Within(p.mask, t, j) {
      WithinMore(p.mask, t, j);
      assert PaintedRight(p, q, j, t);
    } else {
      TouchesBall(p.mask, h, w, j, t);
      if Within(p.mask, t, k) {
        SourceIsNeighbour(q.mask, t);
        var n := Source(q.mask, t).value;
        assert PaintedRight(p, q, j, n);
        var c :| Nearest(p.mask, n, c) && q.colour[n] == p.colour[c];
        NearestThrough(p.mask, t, n, c, k);
      }
    }
  }

  /** After `k` iterations exactly the texels at L1 distance 1..k have been rewritten,
      each with the original colour of a mask texel at exactly its own distance. */
  lemma {:induction false} PaddedIsBall<C>(p: Canvas<C>, h: nat, w: nat, k: nat)
    requires OnGrid(p, h, w)
    ensures forall t :: t in p.colour ==> PaintedRight(p, Padded(p, k), k, t)
  {
    if k == 0 {
      forall t | t in p.colour && Within(p.mask, t, 0)
        ensures Nearest(p.mask, t, t)
      {
      }
    } else {
      var j: nat := k-1;
      var q := Padded(p, j);
      PaddedStep(p, j, k);
      PaddedIsBall(p, h, w, j);
      MaskIsBall(p, h, w, j);
      forall t | t in p.colour
        ensures PaintedRight(p, Dilate(q), k, t)
      {
        DilatePaintsRight(p, q, h, w, j, k, t);
      }
    }
  }

  lemma NearestThrough(mask: set<Cell>, t: Cell, n: Cell, c: Cell, k: nat)
    requires k > 0 && L1(t, n) == 1 && Within(mask, n, k-1) && !Within(mask, t, k-1) && Nearest(mask, n, c)
    ensures Nearest(mask, t, c)
  {
    assert L1(n, c) <= k-1;
    assert L1(t, c) <= k;
    forall x | x in mask
      ensures L1(t, c) <= L1(t, x)
    {
      assert L1(t, x) > k-1;
    }
  }

  /** Masked texels keep their colour through any number of iterations. */
  lemma MaskKept<C>(p: Canvas<C>, h: nat, w: nat, k: nat, t: Cell)
    requires OnGrid(p, h, w) && t in p.mask
    ensures Padded(p, k).colour[t] == p.colour[t]
  {
    PaddedIsBall(p, h, w, k);
    assert PaintedRight(p, Padded(p, k), k, t) && L1(t, t) == 0;
    assert forall c :: Nearest(p.mask, t, c) ==> c == t;
  }
}
