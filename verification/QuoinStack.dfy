/** Corner quoins (scripts/asset-pipeline/townkit/buildings.py): courses of uneven height,
    bonded to their neighbours, long and short faces alternating, every outer face flush.
    A course starts a bond below its level and, unless it is the last, ends a bond above the
    next one; courses too low to see are not built. What the generator draws is a parameter
    within the ranges the source asks for. */
module QuoinStack {
  import opened Basics

  const PROUD: real := 0.05
  const BOND: real := 0.012
  const LEAST: real := 0.05
  const SLACK: real := 0.000001

  datatype Block = Block(center: (real, real, real), size: (real, real, real))

  /** The corner, the wall, and what the generator drew for each course. */
  datatype Corner = Corner(x: real, y: real, z0: real, height: real, thickness: real, block: real,
                           pitch: nat -> real, long: nat -> real, short: nat -> real)
  {
    /** The ranges the draws come from. */
    ghost predicate Drawn()
    {
      && block > 0.0
      && (forall i: nat :: 0.75 <= pitch(i) <= 1.35)
      && (forall i: nat :: 1.15 <= long(i) <= 1.35)
      && (forall i: nat :: 0.75 <= short(i) <= 0.9)
    }

    function Crown(): real { z0 + height }

    /** The height of one course before it is cut to the wall. */
    function Rise(i: nat): real { block * pitch(i) }

    /** Where course `i` starts. */
    function Level(i: nat): real { if i == 0 then z0 else Level(i-1) + Rise(i-1) }

    /** The top and bottom of a course that starts at `z` and rises by `rise`. */
    function Cut(z: real, rise: real): real { if z + rise < Crown() then z + rise else Crown() }

    function Foot(z: real): real { if z - BOND > z0 then z - BOND else z0 }

    function Tall(z: real, rise: real): real
    {
      Cut(z, rise) - Foot(z) + if Cut(z, rise) < Crown() then BOND else 0.0
    }

    function Bottom(i: nat): real { Foot(Level(i)) }

    function Height(i: nat): real { Tall(Level(i), Rise(i)) }

    function Top(i: nat): real { Bottom(i) + Height(i) }

    function WidthX(i: nat): real { block * if i % 2 == 0 then long(i) else short(i) }

    function WidthY(i: nat): real { block * if i % 2 == 0 then short(i) else long(i) }

    function Sign(v: real): real { if v >= 0.0 then 1.0 else -1.0 }

    function BlockOf(i: nat): Block
    {
      Block((x + Sign(x) * (thickness / 2.0 + PROUD - WidthX(i) / 2.0),
             y + Sign(y) * (thickness / 2.0 + PROUD - WidthY(i) / 2.0),
             Bottom(i) + Height(i) / 2.0),
            (WidthX(i), WidthY(i), Height(i)))
    }

    /** The blocks of the first `n` courses; courses no taller than `LEAST` are left out. */
    function Blocks(n: nat): seq<Block>
    {
      if n == 0 then []
      else if Height(n-1) > LEAST then Blocks(n-1) + [BlockOf(n-1)]
      else Blocks(n-1)
    }

    /** Courses start one on top of the other, and each reaches a bond into the one below. */
    lemma CoursesAre(i: nat)
      requires Drawn() && 0.75 * block >= BOND
      ensures Level(0) == z0 && Level(i+1) == Level(i) + block * pitch(i)
      ensures Bottom(i) == if i == 0 then z0 else Level(i) - 0.012
    {
      if i > 0 {
        LevelsRise(0, i-1);
        RiseIsPositive(i-1);
      }
    }

    /** `n` courses reach the crown, and no fewer do. */
    ghost predicate Courses(n: nat)
    {
      Level(n) >= Crown() - SLACK && forall i: nat :: i < n ==> Level(i) < Crown() - SLACK
    }

    lemma RiseIsPositive(i: nat)
      requires Drawn()
      ensures Rise(i) >= 0.75 * block > 0.0
    {
      assert pitch(i) >= 0.75;
      Scales(block, 0.75, pitch(i));
    }

    static lemma Scales(k: real, a: real, b: real)
      requires k > 0.0 && a <= b
      ensures k * a <= k * b
    {
    }

    /** A course that is not the last keeps its whole rise and a bond above. */
    lemma InnerCourse(n: nat, i: nat)
      requires Drawn() && Courses(n) && i + 1 < n
      ensures Cut(Level(i), Rise(i)) == Level(i+1)
      ensures Top(i) == Level(i+1) + BOND && Height(i) >= Rise(i) + BOND
    {
      RiseIsPositive(i);
      LevelsRise(0, i);
      assert Level(i+1) < Crown() - SLACK;
    }

    lemma {:induction false} LevelsRise(i: nat, j: nat)
      requires Drawn() && i <= j
      ensures Level(i) <= Level(j)
    {
      if i < j {
        LevelsRise(i, j-1);
        RiseIsPositive(j-1);
      }
    }

    /** Successive courses overlap by two bonds, one from each side. */
    lemma Bonded(n: nat, i: nat)
      requires Drawn() && Courses(n) && i + 1 < n && 0.75 * block >= BOND
      ensures Top(i) - Bottom(i+1) == 0.024
    {
      InnerCourse(n, i);
      LevelsRise(0, i);
      RiseIsPositive(i);
    }

    /** Every course but the last is tall enough to be built, if blocks are. */
    lemma InnerIsBuilt(n: nat, i: nat)
      requires Drawn() && Courses(n) && i + 1 < n && 0.75 * block > LEAST
      ensures Height(i) > LEAST
    {
      InnerCourse(n, i);
      RiseIsPositive(i);
    }

    /** The last course starts within the wall and ends at the crown or a bond above its own top. */
    lemma LastCourse(n: nat)
      requires Drawn() && Courses(n) && n > 0
      ensures Top(n-1) >= Crown() && Top(n-1) < Crown() + BOND
    {
      RiseIsPositive(n-1);
    }

    lemma CourseAt(n: nat, z: real) returns (i: nat)
      requires Drawn() && n > 0 && z0 <= z
      ensures i < n && Level(i) <= z && (z < Level(i+1) || i == n-1)
    {
      i := 0;
      while i + 1 < n && Level(i+1) <= z
        invariant i < n && Level(i) <= z
      {
        i := i + 1;
      }
    }

    ghost predicate BuiltAt(n: nat, z: real)
    {
      exists i: nat :: i < n && Height(i) > LEAST && Bottom(i) <= z <= Top(i)
    }

    /** Every height of the wall lies in a built course, but for a void under the crown
        lower than `LEAST` less two bonds, left when the last course is too low to build. */
    lemma VoidIsBounded(n: nat, z: real)
      requires Drawn() && Courses(n) && 0.75 * block > LEAST && height > LEAST && z0 <= z <= Crown()
      ensures BuiltAt(n, z) || (Height(n-1) <= LEAST && z > Crown() - 0.026)
    {
      assert n > 0;
      var i := CourseAt(n, z);
      LastCourse(n);
      if i + 1 < n {
        InnerCourse(n, i);
        InnerIsBuilt(n, i);
      } else if Height(i) <= LEAST && z <= Crown() - (LEAST - 2.0 * BOND) {
        OnlyCourseIsBuilt(n);
        InnerCourse(n, n-2);
        InnerIsBuilt(n, n-2);
        LevelsRise(0, n-2);
        assert Bottom(n-2) <= z <= Top(n-2);
      }
    }

    /** A wall taller than `LEAST` is never left to one unbuilt course. */
    lemma OnlyCourseIsBuilt(n: nat)
      requires Drawn() && Courses(n) && height > LEAST && n > 0 && Height(n-1) <= LEAST
      ensures n > 1
    {
      if n == 1 {
        LastCourse(1);
      }
    }

    /** No course stands past the crown by a bond or more, nor below the foot. */
    lemma StaysOnTheWall(n: nat, i: nat)
      requires Drawn() && Courses(n) && i < n
      ensures z0 <= Bottom(i) && Top(i) < Crown() + BOND
    {
      if i + 1 < n {
        InnerCourse(n, i);
        assert Level(i+1) < Crown() - SLACK;
      } else {
        LastCourse(n);
      }
    }

    /** Whatever a course's face lengths, its outer faces stand equally proud of the wall, on
        the side away from the middle of the building. */
    lemma FacesAreFlush(i: nat)
      ensures var b := BlockOf(i);
        && (x >= 0.0 ==> b.center.0 + b.size.0 / 2.0 == x + (thickness / 2.0 + 0.05))
        && (x < 0.0 ==> b.center.0 - b.size.0 / 2.0 == x - (thickness / 2.0 + 0.05))
        && (y >= 0.0 ==> b.center.1 + b.size.1 / 2.0 == y + (thickness / 2.0 + 0.05))
        && (y < 0.0 ==> b.center.1 - b.size.1 / 2.0 == y - (thickness / 2.0 + 0.05))
    {
    }

    /** A block reaches from its course's bottom to its top, and is a long face wide one way
        and a short one the other. */
    lemma BlockSpansCourse(i: nat)
      ensures var b := BlockOf(i);
        && b.center.2 - b.size.2 / 2.0 == Bottom(i) && b.center.2 + b.size.2 / 2.0 == Top(i)
        && b.size.0 == block * (if i % 2 == 0 then long(i) else short(i))
        && b.size.1 == block * (if i % 2 == 0 then short(i) else long(i))
    {
    }

    function Courseful(n: nat): (r: seq<Block>)
      ensures |r| == n && forall i :: 0 <= i < n ==> r[i] == BlockOf(i)
    {
      seq(n, i requires 0 <= i < n => BlockOf(i))
    }

    static function Visible(): Block -> bool { (b: Block) => b.size.2 > LEAST }

    lemma BlocksStep(n: nat)
      ensures Blocks(n+1) == Blocks(n) + if Visible()(BlockOf(n)) then [BlockOf(n)] else []
      ensures Courseful(n+1) == Courseful(n) + [BlockOf(n)]
    {
      assert BlockOf(n).size.2 == Height(n);
    }

    lemma {:induction false} BlocksFilter(n: nat)
      ensures Blocks(n) == Filter(Visible(), Courseful(n))
    {
      if n > 0 {
        BlocksFilter(n-1);
        BlocksStep(n-1);
        FilterAppends(Visible(), Courseful(n-1), BlockOf(n-1));
      }
    }

    /** Exactly the courses taller than five centimetres are built, lowest first. */
    lemma BlocksAre(n: nat) returns (f: seq<nat>)
      ensures |f| == |Blocks(n)| && forall i, j :: 0 <= i < j < |f| ==> f[i] < f[j]
      ensures forall j :: 0 <= j < |f| ==> Blocks(n)[j] == BlockOf(f[j])
      ensures forall k: nat :: k in f <==> k < n && Height(k) > 0.05
    {
      BlocksFilter(n);
      f := FilterSelects(Visible(), Courseful(n));
    }

    /** Long and short faces alternate. */
    lemma FacesAlternate(i: nat)
      requires Drawn()
      ensures i % 2 == 0 ==> WidthX(i) > WidthY(i) && WidthX(i+1) < WidthY(i+1)
      ensures i % 2 == 1 ==> WidthX(i) < WidthY(i) && WidthX(i+1) > WidthY(i+1)
    {
      forall j: nat ensures block * long(j) > block * short(j)
      {
        assert long(j) >= 1.15 && short(j) <= 0.9;
        ScalesStrictly(block, short(j), long(j));
      }
    }

    static lemma ScalesStrictly(k: real, a: real, b: real)
      requires k > 0.0 && a < b
      ensures k * a < k * b
    {
    }

    /** The loop of the builder: it ends because every course rises by three quarters of a
        block at least. */
    method Build() returns (blocks: seq<Block>, n: nat)
      requires Drawn()
      ensures Courses(n) && blocks == Blocks(n)
    {
      blocks, n := [], 0;
      var z := z0;
      while z < Crown() - SLACK
        invariant z == Level(n) && blocks == Blocks(n)
        invariant forall i: nat :: i < n ==> Level(i) < Crown() - SLACK
        decreases if z < Crown() then ((Crown() - z) / (0.75 * block)).Floor + 1 else 0
      {
        RiseIsPositive(n);
        FewerLeft(Crown() - z, Rise(n), 0.75 * block);
        if Tall(z, Rise(n)) > LEAST {
          blocks := blocks + [BlockOf(n)];
        }
        z := z + Rise(n);
        n := n + 1;
      }
    }

    static lemma FewerLeft(left: real, rise: real, least: real)
      requires left > 0.0 && rise >= least > 0.0
      ensures left - rise > 0.0 ==> ((left - rise) / least).Floor < (left / least).Floor
      ensures (left / least).Floor >= 0
    {
      assert (left - rise) / least == left / least - rise / least;
      assert rise / least >= 1.0;
      assert left / least > 0.0;
    }
  }
}
