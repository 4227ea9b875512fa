/** The terminal mark: the head of the face picture cut into cells, each counted by the share of every pixel it
    covers. `Kind` is what `classify` sorts a pixel into. */
module HeadSampler {
  import opened Flood
  import opened Areas
  import opened Reals

  datatype Kind = Clear | Dark | Fur | Cream | Shade

  datatype Cell = Cell(all: real, head: real, inside: real, k: real, o: real, c: real, b: real)

  const COLUMNS := 12
  const LINES := 10

  // ----- One cell -----

  /** What a cell is counted from. */
  datatype Picture = Picture(inside: set<Point>, outline: set<Point>, kinds: map<Point, Kind>)

  const NOTHING := Cell(0.0, 0.0, 0.0, 0.0, 0.0, 0.0, 0.0)

  /** One pixel's share added to the counts it belongs to. */
  function AddPixel(pic: Picture, cell: Cell, p: Point, share: real): Cell {
    var in_ := p in pic.inside;
    var kind := if in_ && p in pic.kinds then pic.kinds[p] else Clear;
    Cell(cell.all + share,
         cell.head + (if in_ || p in pic.outline then share else 0.0),
         cell.inside + (if in_ then share else 0.0),
         cell.k + (if kind.Dark? then share else 0.0),
         cell.o + (if kind.Fur? then share else 0.0),
         cell.c + (if kind.Cream? then share else 0.0),
         cell.b + (if kind.Shade? then share else 0.0))
  }

  /** The counts after the pixels of row `y` from `lo` up to `hi`. */
  function AddRow(pic: Picture, cell: Cell, r: Rect, y: int, lo: int, hi: int): Cell
    decreases hi - lo
  {
    if lo >= hi then cell
    else AddPixel(pic, AddRow(pic, cell, r, y, lo, hi - 1), Point(hi - 1, y), Share(r, hi - 1, y))
  }

  function AddRows(pic: Picture, r: Rect, lo: int, hi: int): Cell
    decreases hi - lo
  {
    if lo >= hi then NOTHING
    else AddRow(pic, AddRows(pic, r, lo, hi - 1), r, hi - 1, Floor(r.xa), Ceil(r.xb))
  }

  function CellOf(pic: Picture, r: Rect): Cell {
    AddRows(pic, r, Floor(r.ya), Ceil(r.yb))
  }

  /** A clear pixel inside the head has no count to go to. */
  predicate Countable(pic: Picture, p: Point) {
    p in pic.inside ==> p in pic.kinds && pic.kinds[p] != Clear
  }

  /** The product the loop takes, for a pixel the cell reaches. */
  function TakenShare(r: Rect, x: int, y: int): real {
    (Min(r.xb, x as real + 1.0) - Max(r.xa, x as real)) * (Min(r.yb, y as real + 1.0) - Max(r.ya, y as real))
  }

  lemma TakenIsShare(r: Rect, x: int, y: int)
    requires Proper(r) && Floor(r.xa) <= x < Ceil(r.xb) && Floor(r.ya) <= y < Ceil(r.yb)
    ensures TakenShare(r, x, y) == Share(r, x, y)
  {
    OverlapInRange(r.xa, r.xb, x);
    OverlapInRange(r.ya, r.yb, y);
    hide Overlap, Min, Max, Floor, Ceil;
  }

  /** The two inner loops over the pixels a cell reaches; false where a clear pixel stops them. */
  method CountCell(pic: Picture, r: Rect) returns (ok: bool, cell: Cell)
    requires Proper(r)
    ensures ok <==> forall x, y | Floor(r.xa) <= x < Ceil(r.xb) && Floor(r.ya) <= y < Ceil(r.yb) ::
                      Countable(pic, Point(x, y))
    ensures ok ==> cell == CellOf(pic, r)
  {
    cell := NOTHING;
    var x0, x1, y0, y1 := Floor(r.xa), Ceil(r.xb), Floor(r.ya), Ceil(r.yb);
    OverlapInRange(r.xa, r.xb, x0);
    OverlapInRange(r.ya, r.yb, y0);
    hide Floor, Ceil, Share, TakenShare, AddPixel;
    for y := y0 to y1
      invariant cell == AddRows(pic, r, y0, y)
      invariant forall u, v | x0 <= u < x1 && y0 <= v < y :: Countable(pic, Point(u, v))
    {
      ghost var before := cell;
      for x := x0 to x1
        invariant cell == AddRow(pic, before, r, y, x0, x)
        invariant forall u | x0 <= u < x :: Countable(pic, Point(u, y))
      {
        var p := Point(x, y);
        if p in pic.inside && (p !in pic.kinds || pic.kinds[p] == Clear) {
          assert !Countable(pic, Point(x, y));
          return false, cell;
        }
        TakenIsShare(r, x, y);
        cell := AddPixel(pic, cell, p, TakenShare(r, x, y));
      }
    }
    return true, cell;
  }

  // ----- What a cell's counts are -----

  function OfKind(pic: Picture, kind: Kind): set<Point> {
    set p <- pic.inside | p in pic.kinds && pic.kinds[p] == kind
  }

  predicate RowIsAreas(pic: Picture, before: Cell, after: Cell, r: Rect, y: int, lo: int, hi: int) {
    && after.all == before.all + Sum(lo, hi, x => Share(r, x, y))
    && after.head == before.head + RowArea(pic.inside + pic.outline, r, lo, hi, y)
    && after.inside == before.inside + RowArea(pic.inside, r, lo, hi, y)
    && after.k == before.k + RowArea(OfKind(pic, Dark), r, lo, hi, y)
    && after.o == before.o + RowArea(OfKind(pic, Fur), r, lo, hi, y)
    && after.c == before.c + RowArea(OfKind(pic, Cream), r, lo, hi, y)
    && after.b == before.b + RowArea(OfKind(pic, Shade), r, lo, hi, y)
  }

  lemma {:induction false} RowAddsAreas(pic: Picture, cell: Cell, r: Rect, y: int, lo: int, hi: int)
    ensures RowIsAreas(pic, cell, AddRow(pic, cell, r, y, lo, hi), r, y, lo, hi)
    decreases hi - lo
  {
    if lo < hi {
      RowAddsAreas(pic, cell, r, y, lo, hi - 1);
      hide Share;
    }
  }

  /** The column of areas of one region up to a row. */
  function AreaUpTo(region: set<Point>, r: Rect, lo: int, hi: int): real {
    Sum(lo, hi, y => RowArea(region, r, Floor(r.xa), Ceil(r.xb), y))
  }

  lemma {:induction false} RowsAddAreas(pic: Picture, r: Rect, lo: int, hi: int)
    ensures var cell := AddRows(pic, r, lo, hi);
            && cell.all == Sum(lo, hi, y => WholeRow(r, y))
            && cell.head == AreaUpTo(pic.inside + pic.outline, r, lo, hi)
            && cell.inside == AreaUpTo(pic.inside, r, lo, hi)
            && cell.k == AreaUpTo(OfKind(pic, Dark), r, lo, hi)
            && cell.o == AreaUpTo(OfKind(pic, Fur), r, lo, hi)
            && cell.c == AreaUpTo(OfKind(pic, Cream), r, lo, hi)
            && cell.b == AreaUpTo(OfKind(pic, Shade), r, lo, hi)
    decreases hi - lo
  {
    if lo < hi {
      RowsAddAreas(pic, r, lo, hi - 1);
      RowAddsAreas(pic, AddRows(pic, r, lo, hi - 1), r, hi - 1, Floor(r.xa), Ceil(r.xb));
      hide Share, AddRow, RowArea, OfKind, Floor, Ceil;
    }
  }

  /** A cell's counts are exact: "all" is the cell's area, "head", "in" and each kind the areas of those pixels in it,
      and where every inside pixel has a kind the four kinds add up to "in". */
  lemma CellIsExact(pic: Picture, r: Rect)
    requires Proper(r)
    ensures var cell := CellOf(pic, r);
            && cell.all == Across(r) * Down(r)
            && cell.head == BoxArea(pic.inside + pic.outline, r, Reach(r))
            && cell.inside == BoxArea(pic.inside, r, Reach(r))
            && cell.k == BoxArea(OfKind(pic, Dark), r, Reach(r)) && cell.o == BoxArea(OfKind(pic, Fur), r, Reach(r))
            && cell.c == BoxArea(OfKind(pic, Cream), r, Reach(r)) && cell.b == BoxArea(OfKind(pic, Shade), r, Reach(r))
            && ((forall p <- pic.inside :: Countable(pic, p)) ==> cell.k + cell.o + cell.c + cell.b == cell.inside)
  {
    RowsAddAreas(pic, r, Floor(r.ya), Ceil(r.yb));
    WholeArea(r);
    if forall p <- pic.inside :: Countable(pic, p) {
      KindsCover(pic, r, Reach(r));
    }
    hide Share, AddRows, RowArea, OfKind, WholeRow, Sum, Across, Down;
  }

  lemma KindsCover(pic: Picture, r: Rect, box: Box)
    requires forall p <- pic.inside :: Countable(pic, p)
    ensures BoxArea(pic.inside, r, box) == BoxArea(OfKind(pic, Dark), r, box) + BoxArea(OfKind(pic, Fur), r, box)
                                           + BoxArea(OfKind(pic, Cream), r, box) + BoxArea(OfKind(pic, Shade), r, box)
  {
    hide BoxArea;
    var k, o, c, b := OfKind(pic, Dark), OfKind(pic, Fur), OfKind(pic, Cream), OfKind(pic, Shade);
    forall p <- pic.inside ensures p in k + o + c + b {
      assert Countable(pic, p);
    }
    assert k + o + c + b == pic.inside;
    AreaOfUnion(k + o + c, b, r, box);
    AreaOfUnion(k + o, c, r, box);
    AreaOfUnion(k, o, r, box);
  }

  // ----- The grid -----

  function GridCell(pic: Picture, box: Box, i: int, j: int): Cell {
    CellOf(pic, GridRect(box, i, COLUMNS, j, LINES))
  }

  lemma GridRectIsProper(box: Box, i: int, j: int)
    requires box.x0 < box.x1 && box.y0 < box.y1
    ensures Proper(GridRect(box, i, COLUMNS, j, LINES))
    ensures 0 <= i < COLUMNS && 0 <= j < LINES ==> Within(GridRect(box, i, COLUMNS, j, LINES), box)
  {
    CutsRise(box.x0, box.x1, i, COLUMNS);
    CutsRise(box.y0, box.y1, j, LINES);
    hide CutAt;
  }

  /** "in" over the whole grid. */
  function InsideTotal(pic: Picture, box: Box): real {
    Sum(0, LINES, j => InsideLine(pic, box, j))
  }

  function InsideLine(pic: Picture, box: Box, j: int): real {
    Sum(0, COLUMNS, i => GridCell(pic, box, i, j).inside)
  }

  /** Summed over the 12 by 10 cells, "in" is the number of inside pixels in the box. */
  lemma InsideIsConserved(pic: Picture, box: Box)
    requires box.x0 < box.x1 && box.y0 < box.y1
    ensures InsideTotal(pic, box) == |InBox(pic.inside, box)| as real
  {
    forall j | 0 <= j < LINES ensures InsideLine(pic, box, j) == LineSum(pic.inside, box, COLUMNS, j, LINES) {
      LineIsLineSum(pic, box, j);
    }
    SumEqual(0, LINES, j => InsideLine(pic, box, j), j => LineSum(pic.inside, box, COLUMNS, j, LINES));
    GridConserves(pic.inside, box, COLUMNS, LINES);
    hide Sum, LineSum, InsideLine, InBox;
  }

  lemma LineIsLineSum(pic: Picture, box: Box, j: int)
    requires box.x0 < box.x1 && box.y0 < box.y1 && 0 <= j < LINES
    ensures InsideLine(pic, box, j) == LineSum(pic.inside, box, COLUMNS, j, LINES)
  {
    hide CutAt, BoxArea, GridRect, CellOf, Sum, Across, Down;
    forall i | 0 <= i < COLUMNS
      ensures GridCell(pic, box, i, j).inside == BoxArea(pic.inside, GridRect(box, i, COLUMNS, j, LINES), box)
    {
      var r := GridRect(box, i, COLUMNS, j, LINES);
      GridRectIsProper(box, i, j);
      CellIsExact(pic, r);
      AreaOverBox(pic.inside, r, box);
    }
    hide GridCell;
    SumEqual(0, COLUMNS, i => GridCell(pic, box, i, j).inside,
             i => BoxArea(pic.inside, GridRect(box, i, COLUMNS, j, LINES), box));
  }

  /** Every pixel of the box is reached by some cell. */
  lemma EveryPixelIsReached(box: Box, p: Point) returns (i: int, j: int)
    requires box.x0 <= p.x < box.x1 && box.y0 <= p.y < box.y1
    ensures 0 <= i < COLUMNS && 0 <= j < LINES
    ensures var reach := Reach(GridRect(box, i, COLUMNS, j, LINES));
            reach.x0 <= p.x < reach.x1 && reach.y0 <= p.y < reach.y1
  {
    i := CutHolding(box.x0, box.x1, COLUMNS, p.x);
    j := CutHolding(box.y0, box.y1, LINES, p.y);
    hide CutAt;
  }

  lemma CutHolding(lo: int, hi: int, n: nat, x: int) returns (i: int)
    requires n > 0 && lo <= x < hi
    ensures 0 <= i < n && CutAt(lo, hi, i, n) <= x as real < CutAt(lo, hi, i + 1, n)
  {
    hide CutAt;
    CutsRise(lo, hi, 0, n);
    i := 0;
    while CutAt(lo, hi, i + 1, n) <= x as real
      invariant 0 <= i < n && CutAt(lo, hi, i, n) <= x as real
      decreases n - i
    {
      i := i + 1;
      if i == n { assert false; }
    }
  }

  // ----- The rows of text -----

  function Average(a: Cell, b: Cell): Cell {
    Cell((a.all + b.all) / 2.0, (a.head + b.head) / 2.0, (a.inside + b.inside) / 2.0, (a.k + b.k) / 2.0,
         (a.o + b.o) / 2.0, (a.c + b.c) / 2.0, (a.b + b.b) / 2.0)
  }

  /** The character of a cell averaged with its mirror; the first of "ocb" that covers most. */
  function Mark(both: Cell): char {
    if both.head < 0.4 * both.all then '.'
    else if both.inside != 0.0 && both.k >= 0.3 * both.inside then 'k'
    else if both.o >= both.c && both.o >= both.b then 'o'
    else if both.c >= both.b then 'c' else 'b'
  }

  function TextRow(row: seq<Cell>): (line: string)
    ensures |line| == |row|
  {
    seq(|row|, i requires 0 <= i < |row| => Mark(Average(row[i], row[|row| - 1 - i])))
  }

  /** Every row of the mark reads the same both ways. */
  lemma RowsArePalindromes(row: seq<Cell>, i: nat)
    requires i < |row|
    ensures TextRow(row)[i] == TextRow(row)[|row| - 1 - i]
  {
    var a, b := row[i], row[|row| - 1 - i];
    assert Average(a, b) == Average(b, a);
    hide Mark, Average;
  }

  /** Every pixel a rectangle reaches is in the region, or none is. */
  predicate Fills(region: set<Point>, r: Rect) {
    forall x, y | Floor(r.xa) <= x < Ceil(r.xb) && Floor(r.ya) <= y < Ceil(r.yb) :: Point(x, y) in region
  }

  predicate Misses(region: set<Point>, r: Rect) {
    forall x, y | Floor(r.xa) <= x < Ceil(r.xb) && Floor(r.ya) <= y < Ceil(r.yb) :: Point(x, y) !in region
  }

  lemma FilledArea(region: set<Point>, r: Rect)
    requires Proper(r)
    ensures Fills(region, r) ==> BoxArea(region, r, Reach(r)) == Across(r) * Down(r) > 0.0
    ensures Misses(region, r) ==> BoxArea(region, r, Reach(r)) == 0.0
  {
    hide Share, Floor, Ceil;
    var x0, x1, y0, y1 := Floor(r.xa), Ceil(r.xb), Floor(r.ya), Ceil(r.yb);
    WholeArea(r);
    if Fills(region, r) {
      forall y | y0 <= y < y1 ensures RowArea(region, r, x0, x1, y) == WholeRow(r, y) {
        SumEqual(x0, x1, x => PartShare(region, r, x, y), x => Share(r, x, y));
      }
      SumEqual(y0, y1, y => RowArea(region, r, x0, x1, y), y => WholeRow(r, y));
    }
    if Misses(region, r) {
      forall y | y0 <= y < y1 ensures RowArea(region, r, x0, x1, y) == 0.0 {
        SumOfZeros(x0, x1, x => PartShare(region, r, x, y));
      }
      SumOfZeros(y0, y1, y => RowArea(region, r, x0, x1, y));
    }
  }

  /** A cell of one kind, as its character. */
  function CharOf(kind: Kind): char {
    match kind
    case Clear => '.'
    case Dark => 'k'
    case Fur => 'o'
    case Cream => 'c'
    case Shade => 'b'
  }

  lemma OneKindFills(pic: Picture, kind: Kind, r: Rect)
    requires Proper(r) && Fills(OfKind(pic, kind), r)
    ensures Fills(pic.inside, r) && Fills(pic.inside + pic.outline, r)
    ensures forall other: Kind :: other != kind ==> Misses(OfKind(pic, other), r)
  {
    hide Floor, Ceil;
  }

  lemma PureCell(pic: Picture, kind: Kind, r: Rect)
    requires Proper(r) && kind != Clear && Fills(OfKind(pic, kind), r)
    ensures var cell, area := CellOf(pic, r), Across(r) * Down(r);
      && cell.all == cell.head == cell.inside == area > 0.0
      && cell.k == (if kind == Dark then area else 0.0) && cell.o == (if kind == Fur then area else 0.0)
      && cell.c == (if kind == Cream then area else 0.0) && cell.b == (if kind == Shade then area else 0.0)
  {
    OneKindFills(pic, kind, r);
    CellIsExact(pic, r);
    hide Fills, Misses, CellOf, BoxArea, OfKind, Reach, Across, Down, Proper;
    FilledArea(pic.inside, r);
    FilledArea(pic.inside + pic.outline, r);
    FilledArea(OfKind(pic, Dark), r);
    FilledArea(OfKind(pic, Fur), r);
    FilledArea(OfKind(pic, Cream), r);
    FilledArea(OfKind(pic, Shade), r);
  }

  /** Where a cell and its mirror lie wholly on inside pixels of one kind, the mark shows that kind. */
  lemma PureCellShowsItsKind(pic: Picture, kind: Kind, r: Rect, mirror: Rect)
    requires Proper(r) && Proper(mirror) && kind != Clear
    requires Fills(OfKind(pic, kind), r) && Fills(OfKind(pic, kind), mirror)
    ensures Mark(Average(CellOf(pic, r), CellOf(pic, mirror))) == CharOf(kind)
  {
    PureCell(pic, kind, r);
    PureCell(pic, kind, mirror);
    hide Fills, OfKind, CellOf, Proper, Across, Down;
  }

  /** Where both lie wholly off the head, it shows nothing. */
  lemma EmptyCellShowsNothing(pic: Picture, r: Rect, mirror: Rect)
    requires Proper(r) && Proper(mirror)
    requires Misses(pic.inside + pic.outline, r) && Misses(pic.inside + pic.outline, mirror)
    ensures Mark(Average(CellOf(pic, r), CellOf(pic, mirror))) == '.'
  {
    CellIsExact(pic, r);
    CellIsExact(pic, mirror);
    FilledArea(pic.inside + pic.outline, r);
    FilledArea(pic.inside + pic.outline, mirror);
    AreasArePositive(r);
    AreasArePositive(mirror);
    hide Misses, CellOf, BoxArea, OfKind, Reach, Across, Down, Proper;
  }

  lemma AreasArePositive(r: Rect)
    requires Proper(r)
    ensures Across(r) * Down(r) > 0.0
  {
  }

  // ----- The whole mark -----

  function GridRow(pic: Picture, box: Box, j: int): (row: seq<Cell>)
    ensures |row| == COLUMNS
  {
    seq(COLUMNS, i requires 0 <= i < COLUMNS => GridCell(pic, box, i, j))
  }

  function GridText(pic: Picture, box: Box): seq<string> {
    seq(LINES, j requires 0 <= j < LINES => TextRow(GridRow(pic, box, j)))
  }

  /** The grid loops; nothing when a clear pixel is inside. */
  method CountGrid(pic: Picture, box: Box) returns (ok: bool, text: seq<string>)
    requires box.x0 < box.x1 && box.y0 < box.y1
    requires forall p <- pic.inside :: p in InBox(pic.inside, box)
    ensures ok <==> forall p <- pic.inside :: Countable(pic, p)
    ensures ok ==> text == GridText(pic, box)
  {
    text := [];
    for j := 0 to LINES
      invariant text == GridText(pic, box)[..j]
      invariant forall u, v | 0 <= u < COLUMNS && 0 <= v < j :: AllCountable(pic, box, u, v)
    {
      var row: seq<Cell> := [];
      for i := 0 to COLUMNS
        invariant row == GridRow(pic, box, j)[..i]
        invariant forall u | 0 <= u < COLUMNS && u < i :: AllCountable(pic, box, u, j)
      {
        GridRectIsProper(box, i, j);
        hide CutAt, GridRect, CellOf, Countable;
        var fine, cell := CountCell(pic, GridRect(box, i, COLUMNS, j, LINES));
        if !fine {
          var r := GridRect(box, i, COLUMNS, j, LINES);
          var x, y :| Floor(r.xa) <= x < Ceil(r.xb) && Floor(r.ya) <= y < Ceil(r.yb) && !Countable(pic, Point(x, y));
          UncountableIsInside(pic, Point(x, y));
          return false, [];
        }
        assert AllCountable(pic, box, i, j);
        row := row + [cell];
      }
      assert row == GridRow(pic, box, j);
      text := text + [TextRow(row)];
    }
    forall p <- pic.inside ensures Countable(pic, p) {
      var i, j := EveryPixelIsReached(box, p);
      assert AllCountable(pic, box, i, j);
    }
    ok := true;
  }

  lemma UncountableIsInside(pic: Picture, p: Point)
    requires !Countable(pic, p)
    ensures p in pic.inside
  {
  }

  predicate AllCountable(pic: Picture, box: Box, i: int, j: int) {
    var reach := Reach(GridRect(box, i, COLUMNS, j, LINES));
    forall x, y | reach.x0 <= x < reach.x1 && reach.y0 <= y < reach.y1 :: Countable(pic, Point(x, y))
  }

  // ----- Finding the head -----

  function Classified(kinds: map<Point, Kind>, kind: Kind): set<Point> {
    set p <- kinds | kinds[p] == kind
  }

  predicate OnEdge(p: Point, width: nat, height: nat) {
    p.x == 0 || p.x == width - 1 || p.y == 0 || p.y == height - 1
  }

  /** Every pixel of a picture has a kind. */
  ghost predicate Whole(kinds: map<Point, Kind>, width: nat, height: nat) {
    forall p: Point :: p in kinds <==> 0 <= p.x < width && 0 <= p.y < height
  }

  predicate AboveNeck(p: Point, height: nat) {
    p.y as real < 0.65 * height as real
  }

  /** The clear background: joined to a pixel of the edge through clear pixels. */
  ghost predicate IsOutside(kinds: map<Point, Kind>, width: nat, height: nat, p: Point) {
    exists path :: Path(path, Classified(kinds, Clear)) && OnEdge(path[0], width, height) && path[|path| - 1] == p
  }

  /** Joined through dark pixels to one beside the background, above the neck. */
  ghost predicate IsOutline(kinds: map<Point, Kind>, width: nat, height: nat, p: Point) {
    AboveNeck(p, height) &&
    exists path :: Path(path, Classified(kinds, Dark)) && Touches(kinds, width, height, path[0])
        && path[|path| - 1] == p
  }

  ghost predicate Touches(kinds: map<Point, Kind>, width: nat, height: nat, p: Point) {
    exists i :: 0 <= i < 4 && IsOutside(kinds, width, height, Around(p)[i])
  }

  ghost predicate IsInside(kinds: map<Point, Kind>, width: nat, height: nat, p: Point) {
    p in kinds && AboveNeck(p, height) && !IsOutside(kinds, width, height, p) && !IsOutline(kinds, width, height, p)
  }

  method EdgeOf(width: nat, height: nat) returns (edge: seq<Point>)
    ensures forall p: Point :: p in edge <==> 0 <= p.x < width && 0 <= p.y < height && OnEdge(p, width, height)
  {
    edge := [];
    for y := 0 to height
      invariant forall p: Point :: p in edge <==> 0 <= p.x < width && 0 <= p.y < y && OnEdge(p, width, height)
    {
      ghost var before := edge;
      for x := 0 to width
        invariant forall p: Point ::
                    p in edge <==> p in before || (0 <= p.x < x && p.y == y && OnEdge(p, width, height))
      {
        if OnEdge(Point(x, y), width, height) { edge := edge + [Point(x, y)]; }
      }
    }
  }

  /** The dark pixels with a neighbour in the background. */
  method TouchingOf(dark: set<Point>, outside: set<Point>) returns (touching: seq<Point>)
    ensures forall p: Point :: p in touching <==> p in dark && exists i :: 0 <= i < 4 && Around(p)[i] in outside
  {
    touching := [];
    var rest := dark;
    while rest != {}
      invariant rest <= dark
      invariant forall p: Point ::
                  p in touching <==> p in dark && p !in rest && exists i :: 0 <= i < 4 && Around(p)[i] in outside
      decreases |rest|
    {
      var p :| p in rest;
      rest := rest - {p};
      if exists i :: 0 <= i < 4 && Around(p)[i] in outside { touching := touching + [p]; }
    }
  }

  /** The three regions of the picture. */
  method FindHead(kinds: map<Point, Kind>, width: nat, height: nat) returns (pic: Picture)
    requires Whole(kinds, width, height)
    ensures pic.kinds == kinds
    ensures forall p :: p in pic.outline <==> IsOutline(kinds, width, height, p)
    ensures forall p :: p in pic.inside <==> IsInside(kinds, width, height, p)
  {
    var edge := EdgeOf(width, height);
    var clear, dark := Classified(kinds, Clear), Classified(kinds, Dark);
    var outside := FloodFrom(edge, clear);
    forall p ensures p in outside <==> IsOutside(kinds, width, height, p) {
      EdgeStarts(kinds, width, height, edge, p);
    }
    hide IsOutside, Around;
    var touching := TouchingOf(dark, outside);
    var joined := FloodFrom(touching, dark);
    var outline := set p <- joined | AboveNeck(p, height);
    forall p ensures p in outline <==> IsOutline(kinds, width, height, p) {
      TouchStarts(kinds, width, height, touching, p);
    }
    hide IsOutline, AboveNeck;
    var inside := set p <- kinds.Keys | p !in outside && p !in outline && AboveNeck(p, height);
    pic := Picture(inside, outline, kinds);
  }

  lemma EdgeStarts(kinds: map<Point, Kind>, width: nat, height: nat, edge: seq<Point>, p: Point)
    requires Whole(kinds, width, height)
    requires forall p: Point :: p in edge <==> 0 <= p.x < width && 0 <= p.y < height && OnEdge(p, width, height)
    ensures Joined(edge, Classified(kinds, Clear), p) <==> IsOutside(kinds, width, height, p)
  {
    var clear := Classified(kinds, Clear);
    if Joined(edge, clear, p) {
      var path :| Path(path, clear) && path[0] in edge && path[|path| - 1] == p;
      assert OnEdge(path[0], width, height);
    }
    if IsOutside(kinds, width, height, p) {
      var path :| Path(path, clear) && OnEdge(path[0], width, height) && path[|path| - 1] == p;
      assert path[0] in kinds;
      assert path[0] in edge;
    }
  }

  lemma TouchStarts(kinds: map<Point, Kind>, width: nat, height: nat, touching: seq<Point>, p: Point)
    requires forall p: Point :: p in touching <==> p in Classified(kinds, Dark) && Touches(kinds, width, height, p)
    ensures Joined(touching, Classified(kinds, Dark), p) && AboveNeck(p, height) <==> IsOutline(kinds, width, height, p)
  {
    var dark := Classified(kinds, Dark);
    hide Touches, AboveNeck;
    if Joined(touching, dark, p) && AboveNeck(p, height) {
      var path :| Path(path, dark) && path[0] in touching && path[|path| - 1] == p;
      assert Touches(kinds, width, height, path[0]);
    }
    if IsOutline(kinds, width, height, p) {
      var path :| Path(path, dark) && Touches(kinds, width, height, path[0]) && path[|path| - 1] == p;
      assert path[0] in touching;
    }
  }

  /** The least box round a region, one pixel wider on every side. */
  predicate IsBoxOf(box: Box, region: set<Point>) {
    && (forall p <- region :: box.x0 < p.x < box.x1 - 1 && box.y0 < p.y < box.y1 - 1)
    && (exists p <- region :: p.x == box.x0 + 1) && (exists p <- region :: p.x == box.x1 - 2)
    && (exists p <- region :: p.y == box.y0 + 1) && (exists p <- region :: p.y == box.y1 - 2)
  }

  method BoxOf(region: set<Point>) returns (box: Box)
    requires region != {}
    ensures IsBoxOf(box, region)
  {
    var first :| first in region;
    var rest := region - {first};
    var l, r, t, b := first, first, first, first;
    while rest != {}
      invariant rest <= region && l in region && r in region && t in region && b in region
      invariant forall p <- region :: p in rest || (l.x <= p.x <= r.x && t.y <= p.y <= b.y)
      decreases |rest|
    {
      var p :| p in rest;
      rest := rest - {p};
      if p.x < l.x { l := p; }
      if p.x > r.x { r := p; }
      if p.y < t.y { t := p; }
      if p.y > b.y { b := p; }
    }
    box := Box(l.x - 1, r.x + 2, t.y - 1, b.y + 2);
  }

  /** The picture has a head to sample, and every clear pixel above the neck is reached from the edge. */
  ghost predicate Samplable(kinds: map<Point, Kind>, width: nat, height: nat) {
    && (exists p :: IsInside(kinds, width, height, p))
    && (forall p <- kinds | kinds[p] == Clear && AboveNeck(p, height) :: IsOutside(kinds, width, height, p))
  }

  /** `pixels`: the mark's rows if and only if the picture can be sampled; then each of the ten rows has twelve
      characters and reads the same both ways, and is drawn from exact cells of the box round the head. */
  method HeadPixels(kinds: map<Point, Kind>, width: nat, height: nat)
      returns (ok: bool, text: seq<string>, ghost pic: Picture, ghost box: Box)
    requires Whole(kinds, width, height)
    ensures ok <==> Samplable(kinds, width, height)
    ensures ok ==> |text| == LINES && forall j | 0 <= j < LINES :: |text[j]| == COLUMNS
    ensures ok ==> forall j, i | 0 <= j < LINES && 0 <= i < COLUMNS :: text[j][i] == text[j][COLUMNS - 1 - i]
    ensures ok ==> (forall p :: p in pic.inside <==> IsInside(kinds, width, height, p)) && IsBoxOf(box, pic.inside)
    ensures ok ==> text == GridText(pic, box) && InsideTotal(pic, box) == |pic.inside| as real
  {
    hide IsInside, IsOutline, IsOutside, InsideTotal, GridRow;
    var p0 := FindHead(kinds, width, height);
    pic := p0;
    box := Box(0, 0, 0, 0);
    if p0.inside == {} {
      return false, [], pic, box;
    }
    var b0 := BoxOf(p0.inside);
    box := b0;
    BoxHoldsAll(b0, p0.inside);
    ClearIsUncountable(kinds, width, height, p0);
    ok, text := CountGrid(p0, b0);
    if ok {
      InsideIsConserved(p0, b0);
      forall j, i | 0 <= j < LINES && 0 <= i < COLUMNS ensures text[j][i] == text[j][COLUMNS - 1 - i] {
        RowsArePalindromes(GridRow(p0, b0, j), i);
      }
    }
  }

  lemma BoxHoldsAll(box: Box, region: set<Point>)
    requires IsBoxOf(box, region) && region != {}
    ensures box.x0 < box.x1 && box.y0 < box.y1 && InBox(region, box) == region
  {
  }

  lemma ClearIsUncountable(kinds: map<Point, Kind>, width: nat, height: nat, pic: Picture)
    requires pic.kinds == kinds && pic.inside != {}
    requires forall p :: p in pic.inside <==> IsInside(kinds, width, height, p)
    ensures (forall p <- pic.inside :: Countable(pic, p)) <==> Samplable(kinds, width, height)
  {
    var some :| some in pic.inside;
    assert IsInside(kinds, width, height, some);
    if forall p <- pic.inside :: Countable(pic, p) {
      forall p <- kinds | kinds[p] == Clear && AboveNeck(p, height) ensures IsOutside(kinds, width, height, p) {
        assert p !in pic.inside;
        OutlineIsDark(kinds, width, height, p);
      }
    }
    if Samplable(kinds, width, height) {
      forall p <- pic.inside ensures Countable(pic, p) {
        assert IsInside(kinds, width, height, p);
      }
    }
  }

  lemma OutlineIsDark(kinds: map<Point, Kind>, width: nat, height: nat, p: Point)
    ensures IsOutline(kinds, width, height, p) ==> p in kinds && kinds[p] == Dark
  {
    if IsOutline(kinds, width, height, p) {
      var path :| Path(path, Classified(kinds, Dark)) && Touches(kinds, width, height, path[0])
          && path[|path| - 1] == p;
    }
  }
}
