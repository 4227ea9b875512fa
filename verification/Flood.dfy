/** The flood fill of the head picture: a worklist over points. */
module Flood {

  datatype Point = Point(x: int, y: int)

  /** In the order the fill puts them on its list. */
  function Around(p: Point): seq<Point> {
    [Point(p.x + 1, p.y), Point(p.x - 1, p.y), Point(p.x, p.y + 1), Point(p.x, p.y - 1)]
  }

  /** A path inside `keep`, each point next to the one before. */
  predicate Path(path: seq<Point>, keep: set<Point>) {
    && path != []
    && (forall i | 0 <= i < |path| :: path[i] in keep)
    && (forall i | 0 <= i < |path| - 1 :: path[i + 1] in Around(path[i]))
  }

  ghost predicate Joined(starts: seq<Point>, keep: set<Point>, p: Point) {
    exists path :: Path(path, keep) && path[0] in starts && path[|path| - 1] == p
  }

  lemma JoinedStart(starts: seq<Point>, keep: set<Point>, p: Point)
    requires p in starts && p in keep
    ensures Joined(starts, keep, p)
  {
    assert Path([p], keep);
  }

  lemma JoinedNext(starts: seq<Point>, keep: set<Point>, p: Point, q: Point)
    requires Joined(starts, keep, p) && q in Around(p) && q in keep
    ensures Joined(starts, keep, q)
  {
    var path :| Path(path, keep) && path[0] in starts && path[|path| - 1] == p;
    var longer := path + [q];
    assert forall i | 0 <= i < |path| :: longer[i] == path[i];
    assert Path(longer, keep);
  }

  /** Holds every start in `keep`, and with a point each neighbour in `keep`. */
  predicate Closed(seen: set<Point>, starts: seq<Point>, keep: set<Point>) {
    && (forall i | 0 <= i < |starts| :: starts[i] in keep ==> starts[i] in seen)
    && (forall p <- seen :: forall i | 0 <= i < 4 :: Around(p)[i] in keep ==> Around(p)[i] in seen)
  }

  /** A closed set holds every joined point: it is the least such set. */
  lemma {:induction false} ClosedHoldsPaths(seen: set<Point>, starts: seq<Point>, keep: set<Point>, path: seq<Point>)
    requires Closed(seen, starts, keep) && Path(path, keep) && path[0] in starts
    ensures path[|path| - 1] in seen
    decreases |path|
  {
    if |path| > 1 {
      var shorter := path[..|path| - 1];
      assert path[|path| - 2 + 1] in Around(path[|path| - 2]);
      ClosedHoldsPaths(seen, starts, keep, shorter);
      var p, q := path[|path| - 2], path[|path| - 1];
      assert shorter[|shorter| - 1] == p;
      var i :| 0 <= i < 4 && Around(p)[i] == q;
    }
  }

  /** Every start and every neighbour of a seen point, if in `keep`, is seen or still on the list. */
  predicate Covered(seen: set<Point>, todo: seq<Point>, starts: seq<Point>, keep: set<Point>) {
    && (forall i | 0 <= i < |starts| :: starts[i] in keep ==> starts[i] in seen || starts[i] in todo)
    && (forall p <- seen :: forall i | 0 <= i < 4 ::
          Around(p)[i] in keep ==> Around(p)[i] in seen || Around(p)[i] in todo)
  }

  lemma DroppedStaysCovered(seen: set<Point>, todo: seq<Point>, point: Point, starts: seq<Point>, keep: set<Point>)
    requires Covered(seen, todo + [point], starts, keep) && (point in seen || point !in keep)
    ensures Covered(seen, todo, starts, keep)
  {
    assert forall q: Point :: q in todo + [point] <==> q in todo || q == point;
    hide Around;
  }

  lemma SeenStaysCovered(seen: set<Point>, todo: seq<Point>, point: Point, starts: seq<Point>, keep: set<Point>)
    requires Covered(seen, todo + [point], starts, keep)
    ensures Covered(seen + {point}, todo + Around(point), starts, keep)
  {
    assert forall q: Point :: q in todo + [point] <==> q in todo || q == point;
    assert forall q: Point :: q in todo + Around(point) <==> q in todo || q in Around(point);
    assert |Around(point)| == 4;
    hide Around;
  }

  /** Every point of the list that is in `keep` is joined. */
  ghost predicate AllJoined(todo: seq<Point>, starts: seq<Point>, keep: set<Point>) {
    forall i | 0 <= i < |todo| :: todo[i] in keep ==> Joined(starts, keep, todo[i])
  }

  lemma AroundIsJoined(todo: seq<Point>, point: Point, starts: seq<Point>, keep: set<Point>)
    requires AllJoined(todo, starts, keep) && Joined(starts, keep, point)
    ensures AllJoined(todo + Around(point), starts, keep)
  {
    var a := Around(point);
    forall i | 0 <= i < |a| && a[i] in keep ensures Joined(starts, keep, a[i]) {
      JoinedNext(starts, keep, point, a[i]);
    }
    hide Joined, Around;
  }

  lemma StartsAreJoined(starts: seq<Point>, keep: set<Point>)
    ensures AllJoined(starts, starts, keep)
  {
    forall i | 0 <= i < |starts| && starts[i] in keep ensures Joined(starts, keep, starts[i]) {
      JoinedStart(starts, keep, starts[i]);
    }
  }

  /** `_flood`: exactly the points of `keep` joined to a start by a path inside `keep`. */
  method FloodFrom(starts: seq<Point>, keep: set<Point>) returns (seen: set<Point>)
    ensures forall p :: p in seen <==> Joined(starts, keep, p)
    ensures seen <= keep && Closed(seen, starts, keep)
  {
    hide Joined, Around;
    seen := {};
    var todo := starts;
    StartsAreJoined(starts, keep);
    while todo != []
      invariant seen <= keep && Covered(seen, todo, starts, keep)
      invariant forall p <- seen :: Joined(starts, keep, p)
      invariant AllJoined(todo, starts, keep)
      decreases |keep - seen|, |todo|
    {
      var point := todo[|todo| - 1];
      assert todo == todo[..|todo| - 1] + [point];
      todo := todo[..|todo| - 1];
      if point in seen || point !in keep {
        DroppedStaysCovered(seen, todo, point, starts, keep);
        continue;
      }
      AroundIsJoined(todo, point, starts, keep);
      SeenStaysCovered(seen, todo, point, starts, keep);
      assert keep - (seen + {point}) == (keep - seen) - {point};
      seen := seen + {point};
      todo := todo + Around(point);
      hide Covered, AllJoined;
    }
    assert Closed(seen, starts, keep);
    forall p | Joined(starts, keep, p) ensures p in seen {
      JoinedIsSeen(seen, starts, keep, p);
    }
  }

  lemma JoinedIsSeen(seen: set<Point>, starts: seq<Point>, keep: set<Point>, p: Point)
    requires Closed(seen, starts, keep) && Joined(starts, keep, p)
    ensures p in seen
  {
    var path :| Path(path, keep) && path[0] in starts && path[|path| - 1] == p;
    ClosedHoldsPaths(seen, starts, keep, path);
  }
}
