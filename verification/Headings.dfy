/** The ids of a page's headings: a slug, or the slug with the first free number. */
module Headings {
  import opened Numerals

  /** The `k`th name tried: the slug itself, then the slug with a hyphen and a number. */
  function Candidate(base: string, k: nat): string {
    if k == 0 then base else base + "-" + Digits(k)
  }

  /** No two numbers give the same name. */
  lemma CandidatesDiffer(base: string, a: nat, b: nat)
    requires Candidate(base, a) == Candidate(base, b)
    ensures a == b
  {
    if a > 0 && b > 0 {
      var s, t := base + "-" + Digits(a), base + "-" + Digits(b);
      assert s[|base| + 1..] == Digits(a) && t[|base| + 1..] == Digits(b);
      DigitsDiffer(a, b);
    }
  }

  /** The first `k` names tried. */
  function Tried(base: string, k: nat): set<string> {
    set i | 0 <= i < k :: Candidate(base, i)
  }

  /** The names are all different, so `k` of them among the used ones need `k` used ones. */
  lemma {:induction false} TriedCount(base: string, k: nat)
    ensures |Tried(base, k)| == k
  {
    hide Candidate;
    if k == 0 {
      assert Tried(base, 0) == {};
    } else {
      TriedCount(base, k - 1);
      assert Tried(base, k) == Tried(base, k - 1) + {Candidate(base, k - 1)};
      if Candidate(base, k - 1) in Tried(base, k - 1) {
        var i :| 0 <= i < k - 1 && Candidate(base, i) == Candidate(base, k - 1);
        CandidatesDiffer(base, i, k - 1);
      }
    }
  }

  lemma SubsetIsSmaller(a: set<string>, b: set<string>)
    requires a <= b
    ensures |a| <= |b|
  {
    assert b == a + (b - a);
    assert |a + (b - a)| == |a| + |b - a|;
  }

  /** If the first `k` names are all used, no more than `k` are. */
  lemma Pigeonhole(base: string, k: nat, used: set<string>)
    requires Tried(base, k) <= used
    ensures k <= |used|
  {
    TriedCount(base, k);
    SubsetIsSmaller(Tried(base, k), used);
  }

  /** The least number whose name is free. */
  ghost predicate FirstFree(base: string, used: set<string>, k: nat) {
    Candidate(base, k) !in used && forall i | 0 <= i < k :: Candidate(base, i) in used
  }

  /** The loop that looks for a free name: it ends within one try more than there are names used. */
  method FreshName(base: string, used: set<string>) returns (name: string, count: nat)
    ensures name == Candidate(base, count) && FirstFree(base, used, count)
    ensures count <= |used|
    ensures base !in used ==> name == base
  {
    name, count := base, 0;
    Pigeonhole(base, 0, used);
    while name in used
      invariant name == Candidate(base, count)
      invariant forall i | 0 <= i < count :: Candidate(base, i) in used
      invariant count <= |used|
      decreases |used| - count
    {
      assert Tried(base, count + 1) <= used;
      Pigeonhole(base, count + 1, used);
      count := count + 1;
      name := base + "-" + Digits(count);
    }
  }

  predicate AllDifferent(ids: seq<string>) {
    forall i, j | 0 <= i < j < |ids| :: ids[i] != ids[j]
  }

  function Elements(ids: seq<string>): set<string> {
    set id <- ids
  }

  /** The `n`th id is its slug, or the slug with the first number, whose name no earlier heading of the page has. */
  ghost predicate AssignedAt(slugs: seq<string>, ids: seq<string>, n: nat)
    requires n < |ids| <= |slugs|
  {
    exists k :: FirstFree(slugs[n], Elements(ids[..n]), k) && ids[n] == Candidate(slugs[n], k)
  }

  ghost predicate Assigned(slugs: seq<string>, ids: seq<string>) {
    |ids| <= |slugs| && forall n | 0 <= n < |ids| :: AssignedAt(slugs, ids, n)
  }

  lemma OneMoreId(slugs: seq<string>, ids: seq<string>, name: string, count: nat)
    requires Assigned(slugs, ids) && |ids| < |slugs|
    requires FirstFree(slugs[|ids|], Elements(ids), count) && name == Candidate(slugs[|ids|], count)
    ensures Assigned(slugs, ids + [name]) && Elements(ids + [name]) == Elements(ids) + {name}
  {
    hide FirstFree, Candidate;
    var more := ids + [name];
    forall n | 0 <= n < |more| ensures AssignedAt(slugs, more, n) {
      if n < |ids| {
        assert more[..n] == ids[..n] && more[n] == ids[n];
        assert AssignedAt(slugs, ids, n);
      } else {
        assert more[..n] == ids;
      }
    }
  }

  /** `headings_and_links` over the headings of one page, given their slugs. */
  method Ids(slugs: seq<string>) returns (ids: seq<string>)
    ensures |ids| == |slugs| && Assigned(slugs, ids)
  {
    hide FirstFree, Assigned, Elements;
    ids := [];
    var used: set<string> := {};
    NoIds(slugs);
    for n := 0 to |slugs|
      invariant |ids| == n && used == Elements(ids) && Assigned(slugs, ids)
    {
      var name, count := FreshName(slugs[n], used);
      OneMoreId(slugs, ids, name, count);
      ids := ids + [name];
      used := used + {name};
    }
  }

  lemma NoIds(slugs: seq<string>)
    ensures Assigned(slugs, []) && Elements([]) == {}
  {
  }

  /** The ids of a page are pairwise different, and a slug no earlier heading has as its id is kept plain. */
  lemma IdsAreFresh(slugs: seq<string>, ids: seq<string>)
    requires Assigned(slugs, ids)
    ensures AllDifferent(ids)
    ensures forall n | 0 <= n < |ids| :: slugs[n] !in ids[..n] ==> ids[n] == slugs[n]
  {
    forall i, j | 0 <= i < j < |ids| ensures ids[i] != ids[j] {
      assert AssignedAt(slugs, ids, j);
      assert ids[..j][i] == ids[i];
    }
    forall n | 0 <= n < |ids| ensures slugs[n] !in ids[..n] ==> ids[n] == slugs[n] {
      assert AssignedAt(slugs, ids, n);
      var k :| FirstFree(slugs[n], Elements(ids[..n]), k) && ids[n] == Candidate(slugs[n], k);
      if k > 0 { assert Candidate(slugs[n], 0) in Elements(ids[..n]); }
    }
  }

  /** The ids are the only ones the rule allows. */
  lemma {:induction false} IdsAreDetermined(slugs: seq<string>, a: seq<string>, b: seq<string>, n: nat)
    requires Assigned(slugs, a) && Assigned(slugs, b) && n <= |a| == |b|
    ensures a[..n] == b[..n]
    decreases n
  {
    if n > 0 {
      var m := n - 1;
      IdsAreDetermined(slugs, a, b, m);
      assert AssignedAt(slugs, a, m) && AssignedAt(slugs, b, m);
      var i :| FirstFree(slugs[m], Elements(a[..m]), i) && a[m] == Candidate(slugs[m], i);
      var j :| FirstFree(slugs[m], Elements(b[..m]), j) && b[m] == Candidate(slugs[m], j);
      FirstIsOne(slugs[m], Elements(a[..m]), i, j);
      assert a[..n] == a[..m] + [a[m]] && b[..n] == b[..m] + [b[m]];
    }
  }

  lemma FirstIsOne(base: string, used: set<string>, i: nat, j: nat)
    requires FirstFree(base, used, i) && FirstFree(base, used, j)
    ensures i == j
  {
  }
}
