/** Sums over whole-number ranges, and how much of a unit square a rectangle covers. */
module Areas {
  import opened Flood
  import opened Reals

  function Sum(lo: int, hi: int, f: int -> real): real
    decreases hi - lo
  {
    if lo >= hi then 0.0 else Sum(lo, hi - 1, f) + f(hi - 1)
  }

  lemma {:induction false} SumEqual(lo: int, hi: int, f: int -> real, g: int -> real)
    requires forall i | lo <= i < hi :: f(i) == g(i)
    ensures Sum(lo, hi, f) == Sum(lo, hi, g)
    decreases hi - lo
  {
    if lo < hi { SumEqual(lo, hi - 1, f, g); }
  }

  lemma {:induction false} SumPlus(lo: int, hi: int, f: int -> real, g: int -> real, h: int -> real)
    requires forall i | lo <= i < hi :: h(i) == f(i) + g(i)
    ensures Sum(lo, hi, h) == Sum(lo, hi, f) + Sum(lo, hi, g)
    decreases hi - lo
  {
    if lo < hi { SumPlus(lo, hi - 1, f, g, h); }
  }

  lemma {:induction false} SumSplit(lo: int, mid: int, hi: int, f: int -> real)
    requires lo <= mid <= hi
    ensures Sum(lo, hi, f) == Sum(lo, mid, f) + Sum(mid, hi, f)
    decreases hi - mid
  {
    if mid < hi { SumSplit(lo, mid, hi - 1, f); }
  }

  lemma {:induction false} SumOfZeros(lo: int, hi: int, f: int -> real)
    requires forall i | lo <= i < hi :: f(i) == 0.0
    ensures Sum(lo, hi, f) == 0.0
    decreases hi - lo
  {
    if lo < hi { SumOfZeros(lo, hi - 1, f); }
  }

  /** A range may be widened where the terms are zero. */
  lemma SumWidens(lo: int, a: int, b: int, hi: int, f: int -> real)
    requires lo <= a <= b <= hi
    requires forall i | lo <= i < a || b <= i < hi :: f(i) == 0.0
    ensures Sum(lo, hi, f) == Sum(a, b, f)
  {
    SumSplit(lo, a, hi, f);
    SumSplit(a, b, hi, f);
    SumOfZeros(lo, a, f);
    SumOfZeros(b, hi, f);
  }

  // ----- One axis -----

  /** How much of the unit from `x` lies between `a` and `b`. */
  function Overlap(a: real, b: real, x: int): real {
    Max(0.0, Min(b, x as real + 1.0) - Max(a, x as real))
  }

  lemma OverlapAdds(a: real, b: real, c: real, x: int)
    requires a <= b <= c
    ensures Overlap(a, b, x) + Overlap(b, c, x) == Overlap(a, c, x)
  {
  }

  /** Inside the rounded-out range the difference the sampler takes is the overlap; outside it there is none. */
  lemma OverlapInRange(a: real, b: real, x: int)
    requires a < b
    ensures Floor(a) <= x < Ceil(b) ==> Overlap(a, b, x) == Min(b, x as real + 1.0) - Max(a, x as real)
    ensures !(Floor(a) <= x < Ceil(b)) ==> Overlap(a, b, x) == 0.0
    ensures Floor(a) < Ceil(b)
  {
  }

  lemma {:induction false} OverlapsUpTo(a: real, b: real, n: int)
    requires a < b && Floor(a) < n <= Ceil(b)
    ensures Sum(Floor(a), n, x => Overlap(a, b, x)) == Min(b, n as real) - a
    decreases n - Floor(a)
  {
    OverlapInRange(a, b, n - 1);
    if n - 1 > Floor(a) {
      OverlapsUpTo(a, b, n - 1);
    } else {
      assert Sum(Floor(a), n - 1, x => Overlap(a, b, x)) == 0.0;
    }
  }

  /** The units cover the interval. */
  lemma OverlapsCover(a: real, b: real)
    requires a < b
    ensures Sum(Floor(a), Ceil(b), x => Overlap(a, b, x)) == b - a
  {
    OverlapInRange(a, b, Floor(a));
    OverlapsUpTo(a, b, Ceil(b));
  }

  // ----- Rectangles -----

  datatype Box = Box(x0: int, x1: int, y0: int, y1: int)

  datatype Rect = Rect(xa: real, xb: real, ya: real, yb: real)

  function Share(r: Rect, x: int, y: int): real {
    Overlap(r.xa, r.xb, x) * Overlap(r.ya, r.yb, y)
  }

  /** The part of pixel (x, y) in the rectangle, if the pixel is in `region`. */
  function PartShare(region: set<Point>, r: Rect, x: int, y: int): real {
    if Point(x, y) in region then Share(r, x, y) else 0.0
  }

  function RowArea(region: set<Point>, r: Rect, lo: int, hi: int, y: int): real {
    Sum(lo, hi, x => PartShare(region, r, x, y))
  }

  /** The area of the region's pixels in a rectangle, over the pixels of a box. */
  function BoxArea(region: set<Point>, r: Rect, box: Box): real {
    Sum(box.y0, box.y1, y => RowArea(region, r, box.x0, box.x1, y))
  }

  /** The pixels a rectangle reaches. */
  function Reach(r: Rect): Box {
    Box(Floor(r.xa), Ceil(r.xb), Floor(r.ya), Ceil(r.yb))
  }

  predicate Proper(r: Rect) {
    r.xa < r.xb && r.ya < r.yb
  }

  predicate Within(r: Rect, box: Box) {
    box.x0 as real <= r.xa && r.xb <= box.x1 as real && box.y0 as real <= r.ya && r.yb <= box.y1 as real
  }

  /** A rectangle's area over the pixels it reaches is its area over any box that holds it. */
  lemma AreaOverBox(region: set<Point>, r: Rect, box: Box)
    requires Proper(r) && Within(r, box)
    ensures BoxArea(region, r, Reach(r)) == BoxArea(region, r, box)
  {
    var reach := Reach(r);
    assert box.x0 <= reach.x0 <= reach.x1 <= box.x1 && box.y0 <= reach.y0 <= reach.y1 <= box.y1;
    forall y: int ensures RowArea(region, r, box.x0, box.x1, y) == RowArea(region, r, reach.x0, reach.x1, y) {
      forall x | !(reach.x0 <= x < reach.x1) ensures PartShare(region, r, x, y) == 0.0 {
        OverlapInRange(r.xa, r.xb, x);
      }
      SumWidens(box.x0, reach.x0, reach.x1, box.x1, x => PartShare(region, r, x, y));
    }
    var f := y => RowArea(region, r, box.x0, box.x1, y);
    var g := y => RowArea(region, r, reach.x0, reach.x1, y);
    SumEqual(reach.y0, reach.y1, f, g);
    forall y | !(reach.y0 <= y < reach.y1) ensures f(y) == 0.0 {
      OverlapInRange(r.ya, r.yb, y);
      SumOfZeros(box.x0, box.x1, x => PartShare(region, r, x, y));
    }
    SumWidens(box.y0, reach.y0, reach.y1, box.y1, f);
  }

  /** A rectangle's part of one row of pixels. */
  function WholeRow(r: Rect, y: int): real {
    Sum(Floor(r.xa), Ceil(r.xb), x => Share(r, x, y))
  }

  lemma {:induction false} ScaledRow(lo: int, hi: int, r: Rect, y: int)
    ensures Sum(lo, hi, x => Share(r, x, y)) == Sum(lo, hi, x => Overlap(r.xa, r.xb, x)) * Overlap(r.ya, r.yb, y)
    decreases hi - lo
  {
    hide Overlap;
    if lo < hi {
      ScaledRow(lo, hi - 1, r, y);
      var s := Sum(lo, hi - 1, x => Overlap(r.xa, r.xb, x));
      Distribute(s, Overlap(r.xa, r.xb, hi - 1), Overlap(r.ya, r.yb, y));
    }
  }

  function Across(r: Rect): real {
    r.xb - r.xa
  }

  function Down(r: Rect): real {
    r.yb - r.ya
  }

  lemma SidesAreCovered(r: Rect)
    requires Proper(r)
    ensures Sum(Floor(r.xa), Ceil(r.xb), x => Overlap(r.xa, r.xb, x)) == Across(r)
    ensures Sum(Floor(r.ya), Ceil(r.yb), y => Overlap(r.ya, r.yb, y)) == Down(r)
  {
    OverlapsCover(r.xa, r.xb);
    OverlapsCover(r.ya, r.yb);
  }

  lemma WholeRowArea(r: Rect, y: int)
    requires Proper(r)
    ensures WholeRow(r, y) == Across(r) * Overlap(r.ya, r.yb, y)
  {
    hide Overlap, Sum, Across, Down, Floor, Ceil;
    SidesAreCovered(r);
    ScaledRow(Floor(r.xa), Ceil(r.xb), r, y);
  }

  lemma {:induction false} ScaledColumn(lo: int, hi: int, r: Rect)
    requires Proper(r)
    ensures Sum(lo, hi, y => WholeRow(r, y)) == Across(r) * Sum(lo, hi, y => Overlap(r.ya, r.yb, y))
    decreases hi - lo
  {
    hide Overlap, WholeRow, Across;
    if lo < hi {
      ScaledColumn(lo, hi - 1, r);
      WholeRowArea(r, hi - 1);
      var s := Sum(lo, hi - 1, y => Overlap(r.ya, r.yb, y));
      Distribute(s, Overlap(r.ya, r.yb, hi - 1), Across(r));
    }
  }

  /** The whole of a rectangle, pixel by pixel, is its width times its height. */
  lemma WholeArea(r: Rect)
    requires Proper(r)
    ensures Sum(Floor(r.ya), Ceil(r.yb), y => WholeRow(r, y)) == Across(r) * Down(r)
  {
    hide Overlap, WholeRow, Sum, Across, Down, Floor, Ceil;
    SidesAreCovered(r);
    ScaledColumn(Floor(r.ya), Ceil(r.yb), r);
  }

  lemma Distribute(a: real, b: real, c: real)
    ensures (a + b) * c == a * c + b * c && c * (a + b) == c * a + c * b
  {
  }

  /** Rectangles side by side add up. */
  lemma AreaAddsAcross(region: set<Point>, xa: real, xb: real, xc: real, ya: real, yb: real, box: Box)
    requires xa <= xb <= xc
    ensures BoxArea(region, Rect(xa, xc, ya, yb), box)
         == BoxArea(region, Rect(xa, xb, ya, yb), box) + BoxArea(region, Rect(xb, xc, ya, yb), box)
  {
    var r, s, t := Rect(xa, xb, ya, yb), Rect(xb, xc, ya, yb), Rect(xa, xc, ya, yb);
    forall y: int
      ensures RowArea(region, t, box.x0, box.x1, y)
          == RowArea(region, r, box.x0, box.x1, y) + RowArea(region, s, box.x0, box.x1, y)
    {
      forall x: int ensures PartShare(region, t, x, y) == PartShare(region, r, x, y) + PartShare(region, s, x, y) {
        OverlapAdds(xa, xb, xc, x);
        Distribute(Overlap(xa, xb, x), Overlap(xb, xc, x), Overlap(ya, yb, y));
      }
      SumPlus(box.x0, box.x1, x => PartShare(region, r, x, y), x => PartShare(region, s, x, y),
          x => PartShare(region, t, x, y));
    }
    SumPlus(box.y0, box.y1, y => RowArea(region, r, box.x0, box.x1, y), y => RowArea(region, s, box.x0, box.x1, y),
            y => RowArea(region, t, box.x0, box.x1, y));
  }

  /** Rectangles one under another add up. */
  lemma AreaAddsDown(region: set<Point>, xa: real, xb: real, ya: real, yb: real, yc: real, box: Box)
    requires ya <= yb <= yc
    ensures BoxArea(region, Rect(xa, xb, ya, yc), box)
         == BoxArea(region, Rect(xa, xb, ya, yb), box) + BoxArea(region, Rect(xa, xb, yb, yc), box)
  {
    var r, s, t := Rect(xa, xb, ya, yb), Rect(xa, xb, yb, yc), Rect(xa, xb, ya, yc);
    forall y: int
      ensures RowArea(region, t, box.x0, box.x1, y)
          == RowArea(region, r, box.x0, box.x1, y) + RowArea(region, s, box.x0, box.x1, y)
    {
      forall x: int ensures PartShare(region, t, x, y) == PartShare(region, r, x, y) + PartShare(region, s, x, y) {
        OverlapAdds(ya, yb, yc, y);
        Distribute(Overlap(ya, yb, y), Overlap(yb, yc, y), Overlap(xa, xb, x));
      }
      SumPlus(box.x0, box.x1, x => PartShare(region, r, x, y), x => PartShare(region, s, x, y),
          x => PartShare(region, t, x, y));
    }
    SumPlus(box.y0, box.y1, y => RowArea(region, r, box.x0, box.x1, y), y => RowArea(region, s, box.x0, box.x1, y),
            y => RowArea(region, t, box.x0, box.x1, y));
  }

  /** Disjoint regions add up. */
  lemma AreaOfUnion(a: set<Point>, b: set<Point>, r: Rect, box: Box)
    requires a !! b
    ensures BoxArea(a + b, r, box) == BoxArea(a, r, box) + BoxArea(b, r, box)
  {
    forall y: int
      ensures RowArea(a + b, r, box.x0, box.x1, y)
          == RowArea(a, r, box.x0, box.x1, y) + RowArea(b, r, box.x0, box.x1, y)
    {
      SumPlus(box.x0, box.x1, x => PartShare(a, r, x, y), x => PartShare(b, r, x, y), x => PartShare(a + b, r, x, y));
    }
    SumPlus(box.y0, box.y1, y => RowArea(a, r, box.x0, box.x1, y), y => RowArea(b, r, box.x0, box.x1, y),
            y => RowArea(a + b, r, box.x0, box.x1, y));
  }

  // ----- Counting pixels by area -----

  function WholeBox(box: Box): Rect {
    Rect(box.x0 as real, box.x1 as real, box.y0 as real, box.y1 as real)
  }

  function InBox(region: set<Point>, box: Box): set<Point> {
    set p <- region | box.x0 <= p.x < box.x1 && box.y0 <= p.y < box.y1
  }

  lemma FullOverlap(lo: int, hi: int, x: int)
    requires lo <= x < hi
    ensures Overlap(lo as real, hi as real, x) == 1.0
  {
  }

  lemma {:induction false} RowCount(region: set<Point>, box: Box, hi: int, y: int)
    requires box.x0 <= hi <= box.x1 && box.y0 <= y < box.y1
    ensures RowArea(region, WholeBox(box), box.x0, hi, y) == |InBox(region, Box(box.x0, hi, y, y + 1))| as real
    decreases hi - box.x0
  {
    if hi == box.x0 {
      assert InBox(region, Box(box.x0, hi, y, y + 1)) == {};
    } else {
      RowCount(region, box, hi - 1, y);
      FullOverlap(box.x0, box.x1, hi - 1);
      FullOverlap(box.y0, box.y1, y);
      var before, p := InBox(region, Box(box.x0, hi - 1, y, y + 1)), Point(hi - 1, y);
      if p in region {
        assert InBox(region, Box(box.x0, hi, y, y + 1)) == before + {p};
      } else {
        assert InBox(region, Box(box.x0, hi, y, y + 1)) == before;
      }
    }
  }

  lemma {:induction false} BoxCount(region: set<Point>, box: Box, hi: int)
    requires box.x0 <= box.x1 && box.y0 <= hi <= box.y1
    ensures Sum(box.y0, hi, y => RowArea(region, WholeBox(box), box.x0, box.x1, y))
         == |InBox(region, Box(box.x0, box.x1, box.y0, hi))| as real
    decreases hi - box.y0
  {
    if hi == box.y0 {
      assert InBox(region, Box(box.x0, box.x1, box.y0, hi)) == {};
    } else {
      BoxCount(region, box, hi - 1);
      RowCount(region, box, box.x1, hi - 1);
      var before, row := InBox(region, Box(box.x0, box.x1, box.y0, hi - 1)),
          InBox(region, Box(box.x0, box.x1, hi - 1, hi));
      assert InBox(region, Box(box.x0, box.x1, box.y0, hi)) == before + row && before !! row;
    }
  }

  /** Over its own box, the area of a region is the number of its pixels there. */
  lemma AreaIsCount(region: set<Point>, box: Box)
    requires box.x0 <= box.x1 && box.y0 <= box.y1
    ensures BoxArea(region, WholeBox(box), box) == |InBox(region, box)| as real
  {
    BoxCount(region, box, box.y1);
  }

  // ----- A grid of rectangles -----

  /** The `i`th of `n` cuts of the range from `lo` to `hi`. */
  function CutAt(lo: int, hi: int, i: int, n: nat): real
    requires n > 0
  {
    lo as real + (hi - lo) as real * i as real / n as real
  }

  lemma CutsRise(lo: int, hi: int, i: int, n: nat)
    requires n > 0 && lo < hi
    ensures CutAt(lo, hi, 0, n) == lo as real && CutAt(lo, hi, n, n) == hi as real
    ensures CutAt(lo, hi, i + 1, n) == CutAt(lo, hi, i, n) + (hi - lo) as real / n as real
    ensures CutAt(lo, hi, i, n) < CutAt(lo, hi, i + 1, n)
    ensures 0 <= i < n ==> lo as real <= CutAt(lo, hi, i, n) && CutAt(lo, hi, i + 1, n) <= hi as real
  {
    var w, m := (hi - lo) as real, n as real;
    Fraction(w, i as real, m);
    assert w * m / m == w;
    assert w / m > 0.0;
    if 0 <= i < n {
      Between(w, i as real, m);
      Between(w, (i + 1) as real, m);
    }
  }

  lemma Fraction(w: real, i: real, m: real)
    requires m > 0.0
    ensures w * (i + 1.0) / m == w * i / m + w / m
  {
  }

  lemma Between(w: real, i: real, m: real)
    requires m > 0.0 && w > 0.0 && 0.0 <= i <= m
    ensures 0.0 <= w * i / m <= w
  {
    assert w * i <= w * m;
    assert w * i / m * m == w * i;
  }

  function GridRect(box: Box, i: int, columns: nat, j: int, lines: nat): Rect
    requires columns > 0 && lines > 0
  {
    Rect(CutAt(box.x0, box.x1, i, columns), CutAt(box.x0, box.x1, i + 1, columns),
         CutAt(box.y0, box.y1, j, lines), CutAt(box.y0, box.y1, j + 1, lines))
  }

  /** The cells of a line up to column `n` make the rectangle from the left edge. */
  lemma {:induction false} LineOfCells(region: set<Point>, box: Box, n: nat, columns: nat, j: int, lines: nat)
    requires columns > 0 && lines > 0 && n <= columns && box.x0 < box.x1
    ensures Sum(0, n, i => BoxArea(region, GridRect(box, i, columns, j, lines), box))
         == BoxArea(region, Rect(box.x0 as real, CutAt(box.x0, box.x1, n, columns),
                                 CutAt(box.y0, box.y1, j, lines), CutAt(box.y0, box.y1, j + 1, lines)), box)
    decreases n
  {
    var ya, yb := CutAt(box.y0, box.y1, j, lines), CutAt(box.y0, box.y1, j + 1, lines);
    CutsRise(box.x0, box.x1, 0, columns);
    if n == 0 {
      EmptyAcross(region, box.x0 as real, ya, yb, box);
    } else {
      LineOfCells(region, box, n - 1, columns, j, lines);
      CutsRise(box.x0, box.x1, n - 1, columns);
      AreaAddsAcross(region, box.x0 as real, CutAt(box.x0, box.x1, n - 1, columns), CutAt(box.x0, box.x1, n, columns),
          ya, yb, box);
      hide BoxArea, CutAt;
    }
  }

  lemma EmptyAcross(region: set<Point>, x: real, ya: real, yb: real, box: Box)
    ensures BoxArea(region, Rect(x, x, ya, yb), box) == 0.0
  {
    AreaAddsAcross(region, x, x, x, ya, yb, box);
  }

  lemma EmptyDown(region: set<Point>, xa: real, xb: real, y: real, box: Box)
    ensures BoxArea(region, Rect(xa, xb, y, y), box) == 0.0
  {
    AreaAddsDown(region, xa, xb, y, y, y, box);
  }

  function LineSum(region: set<Point>, box: Box, columns: nat, j: int, lines: nat): real
    requires columns > 0 && lines > 0
  {
    Sum(0, columns, i => BoxArea(region, GridRect(box, i, columns, j, lines), box))
  }

  lemma {:induction false} LinesOfCells(region: set<Point>, box: Box, columns: nat, m: nat, lines: nat)
    requires columns > 0 && lines > 0 && m <= lines && box.x0 < box.x1 && box.y0 < box.y1
    ensures Sum(0, m, j => LineSum(region, box, columns, j, lines))
         == BoxArea(region, Rect(box.x0 as real, box.x1 as real, box.y0 as real, CutAt(box.y0, box.y1, m, lines)), box)
    decreases m
  {
    CutsRise(box.x0, box.x1, 0, columns);
    CutsRise(box.y0, box.y1, 0, lines);
    if m == 0 {
      EmptyDown(region, box.x0 as real, box.x1 as real, box.y0 as real, box);
    } else {
      LinesOfCells(region, box, columns, m - 1, lines);
      LineOfCells(region, box, columns, columns, m - 1, lines);
      CutsRise(box.y0, box.y1, m - 1, lines);
      AreaAddsDown(region, box.x0 as real, box.x1 as real, box.y0 as real, CutAt(box.y0, box.y1, m - 1, lines),
                   CutAt(box.y0, box.y1, m, lines), box);
      assert LineSum(region, box, columns, m - 1, lines)
          == BoxArea(region, Rect(box.x0 as real, box.x1 as real, CutAt(box.y0, box.y1, m - 1, lines),
            CutAt(box.y0, box.y1, m, lines)), box);
      if m > 1 { CutMonotone(box.y0, box.y1, m - 1, lines); }
      hide BoxArea, CutAt, LineSum;
    }
  }

  lemma CutMonotone(lo: int, hi: int, i: nat, n: nat)
    requires n > 0 && lo < hi && i < n
    ensures lo as real <= CutAt(lo, hi, i, n)
  {
    CutsRise(lo, hi, i, n);
  }

  /** Summed over every cell of the grid, the area of a region is the number of its pixels in the box. */
  lemma GridConserves(region: set<Point>, box: Box, columns: nat, lines: nat)
    requires columns > 0 && lines > 0 && box.x0 < box.x1 && box.y0 < box.y1
    ensures Sum(0, lines, j => LineSum(region, box, columns, j, lines)) == |InBox(region, box)| as real
  {
    LinesOfCells(region, box, columns, lines, lines);
    CutsRise(box.y0, box.y1, 0, lines);
    AreaIsCount(region, box);
    hide BoxArea, CutAt;
  }
}
