/** Whole numbers in rising order: a sequence sorted by insertion, the same for every order it comes in. */
module Sorting {

  function Insert(x: int, sorted: seq<int>): seq<int> {
    if sorted == [] || x <= sorted[0] then [x] + sorted else [sorted[0]] + Insert(x, sorted[1..])
  }

  function Sorted(values: seq<int>): seq<int> {
    if values == [] then [] else Insert(values[0], Sorted(values[1..]))
  }

  lemma {:induction false} InsertKeeps(x: int, sorted: seq<int>)
    ensures multiset(Insert(x, sorted)) == multiset(sorted) + multiset{x}
    decreases |sorted|
  {
    if sorted != [] && x > sorted[0] {
      InsertKeeps(x, sorted[1..]);
      assert sorted == [sorted[0]] + sorted[1..];
    }
  }

  lemma {:induction false} SortedKeeps(values: seq<int>)
    ensures multiset(Sorted(values)) == multiset(values)
    decreases |values|
  {
    if values != [] {
      SortedKeeps(values[1..]);
      InsertKeeps(values[0], Sorted(values[1..]));
      assert values == [values[0]] + values[1..];
    }
  }

  predicate Rises(s: seq<int>) {
    forall i, j :: 0 <= i < j < |s| ==> s[i] <= s[j]
  }

  lemma {:induction false} InsertStaysSorted(x: int, sorted: seq<int>)
    requires Rises(sorted)
    ensures Rises(Insert(x, sorted))
    decreases |sorted|
  {
    if sorted != [] && x > sorted[0] {
      InsertStaysSorted(x, sorted[1..]);
      InsertKeeps(x, sorted[1..]);
      var rest := Insert(x, sorted[1..]);
      forall i | 0 <= i < |rest| ensures sorted[0] <= rest[i] {
        assert rest[i] in multiset(rest);
      }
    }
  }

  /** The values in rising order. */
  lemma {:induction false} SortedRises(values: seq<int>)
    ensures Rises(Sorted(values))
    decreases |values|
  {
    if values != [] {
      SortedRises(values[1..]);
      InsertStaysSorted(values[0], Sorted(values[1..]));
    }
  }

  /** Swapping two insertions changes nothing. */
  lemma {:induction false} InsertsCommute(x: int, y: int, sorted: seq<int>)
    ensures Insert(x, Insert(y, sorted)) == Insert(y, Insert(x, sorted))
    decreases |sorted|
  {
    if sorted == [] {
      assert [x][1..] == [] && [y][1..] == [];
    } else {
      InsertsCommute(x, y, sorted[1..]);
      assert ([x] + sorted)[1..] == sorted && ([y] + sorted)[1..] == sorted;
      var a, b := [sorted[0]] + Insert(x, sorted[1..]), [sorted[0]] + Insert(y, sorted[1..]);
      assert a[1..] == Insert(x, sorted[1..]) && b[1..] == Insert(y, sorted[1..]);
    }
  }

  /** Taking one element out of the middle. */
  lemma Pick<T>(a: seq<T>, b: seq<T>) returns (u: seq<T>, v: seq<T>)
    requires a != [] && multiset(a) == multiset(b)
    ensures b == u + [a[0]] + v && multiset(a[1..]) == multiset(u + v)
  {
    var x := a[0];
    assert a == [x] + a[1..];
    assert x in multiset(b);
    var i :| 0 <= i < |b| && b[i] == x;
    u, v := b[..i], b[i + 1..];
    assert b == u + [x] + v;
    assert multiset(a) == multiset{x} + multiset(a[1..]);
    assert multiset(b) == multiset{x} + multiset(u + v);
    assert multiset(a[1..]) == multiset(a) - multiset{x};
  }

  lemma {:induction false} SortedTakes(u: seq<int>, x: int, v: seq<int>)
    ensures Sorted(u + [x] + v) == Insert(x, Sorted(u + v))
    decreases |u|
  {
    if u == [] {
      assert u + [x] + v == [x] + v && u + v == v && ([x] + v)[1..] == v;
    } else {
      assert (u + [x] + v)[1..] == u[1..] + [x] + v && (u + v)[1..] == u[1..] + v;
      SortedTakes(u[1..], x, v);
      InsertsCommute(u[0], x, Sorted(u[1..] + v));
    }
  }

  lemma {:induction false} SortedPermutes(a: seq<int>, b: seq<int>)
    requires multiset(a) == multiset(b)
    ensures Sorted(a) == Sorted(b)
    decreases |a|
  {
    if a == [] {
      assert |multiset(b)| == 0;
    } else {
      var u, v := Pick(a, b);
      SortedPermutes(a[1..], u + v);
      SortedTakes(u, a[0], v);
    }
  }
}
