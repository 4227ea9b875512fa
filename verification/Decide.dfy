/** The paired outcomes of the probes, the three rules and the verdict. */
module Decide {
  import opened McNemar
  import opened Options
  import opened Sorting

  datatype Probe = Probe(task: int, interrupt: string, arm: string, success: bool, toolFact: bool,
                         answerFact: Option<bool>, promptTokens: Option<int>)

  datatype Stored = Stored(task: int, interrupt: string)

  const PAIRS: string := "pairs"
  const WINDOW: string := "window"

  datatype Outcome = WindowOnly | PairsOnly | Both | Neither

  /** A share of states: how many, out of how many. */
  datatype Share = Share(hits: nat, of: nat)

  datatype Verdict = Verdict(
    states: nat, windowOnly: nat, pairsOnly: nat, both: nat, neither: nat, p: real,
    answerPairs: Share, answerWindow: Share, toolPairs: Share, toolWindow: Share,
    tokensPairs: Option<real>, tokensWindow: Option<real>,
    rule1: bool, rule2: bool, rule3: bool, window: bool, secondRun: bool)

  // ----- Counting probes -----

  function StoredOf(p: Probe): Stored {
    Stored(p.task, p.interrupt)
  }

  /** The probes of one state and arm, in order. */
  function Group(probes: seq<Probe>, s: Stored, arm: string): seq<Probe> {
    if probes == [] then []
    else (if StoredOf(probes[0]) == s && probes[0].arm == arm then [probes[0]] else []) + Group(probes[1..], s, arm)
  }

  function Trues(values: seq<bool>): nat {
    if values == [] then 0 else (if values[0] then 1 else 0) + Trues(values[1..])
  }

  predicate Majority(values: seq<bool>) {
    Trues(values) * 2 > |values|
  }

  function Successes(group: seq<Probe>): seq<bool> {
    seq(|group|, i requires 0 <= i < |group| => group[i].success)
  }

  function ToolFacts(group: seq<Probe>): seq<bool> {
    seq(|group|, i requires 0 <= i < |group| => group[i].toolFact)
  }

  function AnswerFacts(group: seq<Probe>): seq<bool> {
    if group == [] then []
    else (match group[0].answerFact case Some(b) => [b] case None => []) + AnswerFacts(group[1..])
  }

  /** The token counts of an arm's probes that have one; zero counts as none. */
  function Tokens(probes: seq<Probe>, arm: string): seq<int> {
    if probes == [] then []
    else (if probes[0].arm == arm && probes[0].promptTokens.Some? && probes[0].promptTokens.value != 0
          then [probes[0].promptTokens.value] else []) + Tokens(probes[1..], arm)
  }

  function StatesOf(probes: seq<Probe>): set<Stored> {
    set p <- probes :: StoredOf(p)
  }

  function ArmsOf(probes: seq<Probe>, s: Stored): set<string> {
    set p <- probes | StoredOf(p) == s :: p.arm
  }

  /** The states that were resumed by exactly the two arms. */
  function Paired(probes: seq<Probe>): set<Stored> {
    set s <- StatesOf(probes) | ArmsOf(probes, s) == {PAIRS, WINDOW}
  }

  function OutcomeOf(probes: seq<Probe>, s: Stored): Outcome {
    var window := Majority(Successes(Group(probes, s, WINDOW)));
    var pairs := Majority(Successes(Group(probes, s, PAIRS)));
    if window && !pairs then WindowOnly else if pairs && !window then PairsOnly else if window then Both else Neither
  }

  function WithOutcome(probes: seq<Probe>, o: Outcome): set<Stored> {
    set s <- Paired(probes) | OutcomeOf(probes, s) == o
  }

  function Answered(probes: seq<Probe>, arm: string): set<Stored> {
    set s <- Paired(probes) | AnswerFacts(Group(probes, s, arm)) != []
  }

  function AnsweredRight(probes: seq<Probe>, arm: string): set<Stored> {
    set s <- Answered(probes, arm) | Majority(AnswerFacts(Group(probes, s, arm)))
  }

  function ToolRight(probes: seq<Probe>, arm: string): set<Stored> {
    set s <- Paired(probes) | Majority(ToolFacts(Group(probes, s, arm)))
  }

  // ----- The median -----

  function Median(values: seq<int>): Option<real> {
    if values == [] then None
    else
      SortedKeeps(values);
      assert |Sorted(values)| == |multiset(Sorted(values))| == |values|;
      var s, h := Sorted(values), |values| / 2;
      if |values| % 2 == 1 then Some(s[h] as real) else Some((s[h - 1] + s[h]) as real / 2.0)
  }

  // ----- The verdict -----

  function Percent(s: Share): real {
    if s.of == 0 then 0.0 else 100.0 * s.hits as real / s.of as real
  }

  function Judge(states: nat, windowOnly: nat, pairsOnly: nat, both: nat, neither: nat,
                 answerPairs: Share, answerWindow: Share, toolPairs: Share, toolWindow: Share,
                 tokensPairs: Option<real>, tokensWindow: Option<real>): Verdict
  {
    var p := PValue(windowOnly, pairsOnly);
    var rule1 := p < 0.05 && windowOnly > pairsOnly;
    var rule2 := Percent(answerWindow) >= Percent(answerPairs) - 5.0;
    var rule3 := tokensWindow.Some? && tokensPairs.Some? && tokensWindow.value <= 1.5 * tokensPairs.value;
    var window := rule1 && rule2 && rule3;
    Verdict(states, windowOnly, pairsOnly, both, neither, p, answerPairs, answerWindow, toolPairs, toolWindow,
            tokensPairs, tokensWindow, rule1, rule2, rule3, window, !window && 0.05 <= p < 0.2)
  }

  function AnswerShare(probes: seq<Probe>, arm: string): Share {
    Share(|AnsweredRight(probes, arm)|, |Answered(probes, arm)|)
  }

  function ToolShare(probes: seq<Probe>, arm: string): Share {
    Share(|ToolRight(probes, arm)|, |Paired(probes)|)
  }

  /** What the probes say, as a set of states rather than a list of probes. */
  function Decision(probes: seq<Probe>): Verdict {
    Judge(|StatesOf(probes)|, |WithOutcome(probes, WindowOnly)|, |WithOutcome(probes, PairsOnly)|,
          |WithOutcome(probes, Both)|, |WithOutcome(probes, Neither)|,
          AnswerShare(probes, PAIRS), AnswerShare(probes, WINDOW), ToolShare(probes, PAIRS), ToolShare(probes, WINDOW),
          Median(Tokens(probes, PAIRS)), Median(Tokens(probes, WINDOW)))
  }

  // ----- The order of the probes does not matter -----

  function Count(probes: seq<Probe>, f: Probe -> bool): nat {
    if probes == [] then 0 else (if f(probes[0]) then 1 else 0) + Count(probes[1..], f)
  }

  lemma {:induction false} CountAppend(a: seq<Probe>, b: seq<Probe>, f: Probe -> bool)
    ensures Count(a + b, f) == Count(a, f) + Count(b, f)
    decreases |a|
  {
    if a == [] {
      assert a + b == b;
    } else {
      assert (a + b)[1..] == a[1..] + b;
      CountAppend(a[1..], b, f);
    }
  }

  lemma {:induction false} CountPermutes(a: seq<Probe>, b: seq<Probe>, f: Probe -> bool)
    requires multiset(a) == multiset(b)
    ensures Count(a, f) == Count(b, f)
    decreases |a|
  {
    if a == [] {
      assert |multiset(b)| == 0;
    } else {
      var u, v := Pick(a, b);
      CountPermutes(a[1..], u + v, f);
      CountAppend(u, v, f);
      CountAppend(u + [a[0]], v, f);
      CountAppend(u, [a[0]], f);
      assert [a[0]][1..] == [];
    }
  }

  predicate InGroup(p: Probe, s: Stored, arm: string) {
    StoredOf(p) == s && p.arm == arm
  }

  function Member(s: Stored, arm: string): Probe -> bool {
    (p: Probe) => InGroup(p, s, arm)
  }

  function Success(s: Stored, arm: string): Probe -> bool {
    (p: Probe) => InGroup(p, s, arm) && p.success
  }

  function ToolHit(s: Stored, arm: string): Probe -> bool {
    (p: Probe) => InGroup(p, s, arm) && p.toolFact
  }

  function HasAnswer(s: Stored, arm: string): Probe -> bool {
    (p: Probe) => InGroup(p, s, arm) && p.answerFact.Some?
  }

  function AnswerHit(s: Stored, arm: string): Probe -> bool {
    (p: Probe) => InGroup(p, s, arm) && p.answerFact == Some(true)
  }

  function HasTokens(arm: string, v: int): Probe -> bool {
    (p: Probe) => p.arm == arm && p.promptTokens == Some(v) && v != 0
  }

  lemma {:induction false} GroupCounts(probes: seq<Probe>, s: Stored, arm: string)
    ensures var g := Group(probes, s, arm);
            && |g| == Count(probes, Member(s, arm))
            && Trues(Successes(g)) == Count(probes, Success(s, arm))
            && Trues(ToolFacts(g)) == Count(probes, ToolHit(s, arm))
    decreases |probes|
  {
    if probes != [] {
      GroupCounts(probes[1..], s, arm);
      var g, rest := Group(probes, s, arm), Group(probes[1..], s, arm);
      if InGroup(probes[0], s, arm) {
        assert g == [probes[0]] + rest && g[1..] == rest;
        assert Successes(g)[1..] == Successes(rest) && ToolFacts(g)[1..] == ToolFacts(rest);
      } else {
        assert g == [] + rest == rest;
      }
    }
  }

  lemma {:induction false} AnswerCounts(probes: seq<Probe>, s: Stored, arm: string)
    ensures var facts := AnswerFacts(Group(probes, s, arm));
            && |facts| == Count(probes, HasAnswer(s, arm))
            && Trues(facts) == Count(probes, AnswerHit(s, arm))
    decreases |probes|
  {
    if probes != [] {
      AnswerCounts(probes[1..], s, arm);
      var g, rest := Group(probes, s, arm), Group(probes[1..], s, arm);
      if InGroup(probes[0], s, arm) {
        assert g == [probes[0]] + rest && g[1..] == rest;
        var facts := AnswerFacts(rest);
        match probes[0].answerFact
        case None => assert AnswerFacts(g) == [] + facts == facts;
        case Some(b) => assert AnswerFacts(g) == [b] + facts && ([b] + facts)[1..] == facts;
      } else {
        assert g == [] + rest == rest;
      }
    }
  }

  lemma GroupPermutes(a: seq<Probe>, b: seq<Probe>, s: Stored, arm: string)
    requires multiset(a) == multiset(b)
    ensures var g, h := Group(a, s, arm), Group(b, s, arm);
            && (Majority(Successes(g)) <==> Majority(Successes(h)))
            && (Majority(ToolFacts(g)) <==> Majority(ToolFacts(h)))
            && (AnswerFacts(g) == [] <==> AnswerFacts(h) == [])
            && (Majority(AnswerFacts(g)) <==> Majority(AnswerFacts(h)))
  {
    GroupCounts(a, s, arm);
    GroupCounts(b, s, arm);
    AnswerCounts(a, s, arm);
    AnswerCounts(b, s, arm);
    CountPermutes(a, b, Member(s, arm));
    CountPermutes(a, b, Success(s, arm));
    CountPermutes(a, b, ToolHit(s, arm));
    CountPermutes(a, b, HasAnswer(s, arm));
    CountPermutes(a, b, AnswerHit(s, arm));
  }

  lemma {:induction false} TokenCounts(probes: seq<Probe>, arm: string, v: int)
    ensures multiset(Tokens(probes, arm))[v] == Count(probes, HasTokens(arm, v))
    decreases |probes|
  {
    if probes != [] {
      TokenCounts(probes[1..], arm, v);
    }
  }

  lemma TokensPermute(a: seq<Probe>, b: seq<Probe>, arm: string)
    requires multiset(a) == multiset(b)
    ensures Median(Tokens(a, arm)) == Median(Tokens(b, arm))
  {
    hide Median, Count;
    forall v: int ensures multiset(Tokens(a, arm))[v] == multiset(Tokens(b, arm))[v] {
      TokenCounts(a, arm, v);
      TokenCounts(b, arm, v);
      CountPermutes(a, b, HasTokens(arm, v));
    }
    MedianPermutes(Tokens(a, arm), Tokens(b, arm));
  }

  lemma MedianPermutes(a: seq<int>, b: seq<int>)
    requires multiset(a) == multiset(b)
    ensures Median(a) == Median(b)
  {
    SortedPermutes(a, b);
    assert |a| == |multiset(a)| == |b|;
    hide Sorted;
  }

  lemma SameProbes(a: seq<Probe>, b: seq<Probe>)
    requires multiset(a) == multiset(b)
    ensures StatesOf(a) == StatesOf(b) && Paired(a) == Paired(b)
  {
    assert forall p: Probe :: p in a <==> p in multiset(a);
    assert forall p: Probe :: p in b <==> p in multiset(b);
    assert StatesOf(a) == StatesOf(b);
    forall s ensures ArmsOf(a, s) == ArmsOf(b, s) {
    }
  }

  /** Any two orders of the same probes give the same verdict. */
  lemma OrderDoesNotMatter(a: seq<Probe>, b: seq<Probe>)
    requires multiset(a) == multiset(b)
    ensures Decision(a) == Decision(b)
  {
    SameProbes(a, b);
    hide Group, Majority, Successes, ToolFacts, AnswerFacts, StatesOf, Paired, Median, Tokens, Judge;
    forall s, arm ensures SameGroups(a, b, s, arm) {
      GroupPermutes(a, b, s, arm);
    }
    forall s ensures OutcomeOf(a, s) == OutcomeOf(b, s) {
      assert SameGroups(a, b, s, PAIRS) && SameGroups(a, b, s, WINDOW);
    }
    forall o ensures WithOutcome(a, o) == WithOutcome(b, o) {}
    forall arm ensures Answered(a, arm) == Answered(b, arm) && AnsweredRight(a, arm) == AnsweredRight(b, arm)
                       && ToolRight(a, arm) == ToolRight(b, arm)
    {
      SameSets(a, b, arm);
    }
    TokensPermute(a, b, PAIRS);
    TokensPermute(a, b, WINDOW);
  }

  predicate SameGroups(a: seq<Probe>, b: seq<Probe>, s: Stored, arm: string) {
    var g, h := Group(a, s, arm), Group(b, s, arm);
    && (Majority(Successes(g)) <==> Majority(Successes(h)))
    && (Majority(ToolFacts(g)) <==> Majority(ToolFacts(h)))
    && (AnswerFacts(g) == [] <==> AnswerFacts(h) == [])
    && (Majority(AnswerFacts(g)) <==> Majority(AnswerFacts(h)))
  }

  lemma SameSets(a: seq<Probe>, b: seq<Probe>, arm: string)
    requires Paired(a) == Paired(b) && forall s :: SameGroups(a, b, s, arm)
    ensures Answered(a, arm) == Answered(b, arm) && AnsweredRight(a, arm) == AnsweredRight(b, arm)
    ensures ToolRight(a, arm) == ToolRight(b, arm)
  {
    hide Group, Majority, Successes, ToolFacts, AnswerFacts, Paired;
    forall s ensures s in Answered(a, arm) <==> s in Answered(b, arm) { assert SameGroups(a, b, s, arm); }
    forall s ensures s in AnsweredRight(a, arm) <==> s in AnsweredRight(b, arm) { assert SameGroups(a, b, s, arm); }
    forall s ensures s in ToolRight(a, arm) <==> s in ToolRight(b, arm) { assert SameGroups(a, b, s, arm); }
  }

  /** Every state resumed by both arms is in exactly one of the four counts. */
  lemma OutcomesAddUp(probes: seq<Probe>)
    ensures var d := Decision(probes); d.windowOnly + d.pairsOnly + d.both + d.neither == |Paired(probes)|
  {
    hide Paired, OutcomeOf, Median, Tokens, AnswerShare, ToolShare, StatesOf;
    var a, b, c, d := WithOutcome(probes, WindowOnly), WithOutcome(probes, PairsOnly), WithOutcome(probes, Both),
        WithOutcome(probes, Neither);
    assert a !! b && a + b !! c && a + b + c !! d;
    assert a + b + c + d == Paired(probes);
    assert |a + b| == |a| + |b|;
    assert |a + b + c| == |a + b| + |c|;
    assert |a + b + c + d| == |a + b + c| + |d|;
  }

  lemma Scaled(a: real, b: real, c: real)
    requires c > 0.0
    ensures a >= b <==> a * c >= b * c
  {
  }

  lemma SharesScale(s: Share, other: nat)
    requires s.of > 0
    ensures Percent(s) * (s.of as real * other as real) == 100.0 * s.hits as real * other as real
  {
    var n, h := s.of as real, 100.0 * s.hits as real;
    assert h / n * n == h;
    assert Percent(s) * (n * other as real) == (h / n * n) * other as real;
  }

  lemma ToReals(a: nat, b: nat, c: nat, d: nat)
    ensures (a * b) as real == a as real * b as real
        && (20 * a * b + c * d) as real == 20.0 * a as real * b as real + c as real * d as real
  {
  }

  lemma SharesCompare(w: Share, p: Share)
    requires w.of > 0 && p.of > 0
    ensures Percent(w) >= Percent(p) - 5.0 <==> 20 * w.hits * p.of + w.of * p.of >= 20 * p.hits * w.of
  {
    var c := w.of as real * p.of as real;
    SharesScale(w, p.of);
    SharesScale(p, w.of);
    Scaled(Percent(w), Percent(p) - 5.0, c);
    ToReals(w.hits, p.of, w.of, p.of);
    ToReals(p.hits, w.of, 0, 0);
  }

  /** No answers rate like none right of one. */
  function Rated(s: Share): Share {
    if s.of == 0 then Share(0, 1) else s
  }

  /** Rule 2 in whole numbers: of the two shares of right answers, the window's is at most a twentieth below. */
  lemma RecallRuleExactly(window: Share, pairs: Share)
    ensures var w, p := Rated(window), Rated(pairs);
            Percent(window) >= Percent(pairs) - 5.0
            <==> 20 * w.hits * p.of + w.of * p.of >= 20 * p.hits * w.of
  {
    var w, p := Rated(window), Rated(pairs);
    assert Percent(w) == Percent(window) && Percent(p) == Percent(pairs) && w.of > 0 && p.of > 0;
    hide *;
    SharesCompare(w, p);
  }

  /** The window becomes the default only with at least six states gained among those both arms resumed, and only if
      both arms have their tokens counted; a second run is offered only while it is not. */
  lemma WindowNeedsSixStates(probes: seq<Probe>)
    ensures var d := Decision(probes);
      && (d.window ==> d.windowOnly >= d.pairsOnly + 6 && |Paired(probes)| >= 6)
      && (d.window ==> Tokens(probes, WINDOW) != [] && Tokens(probes, PAIRS) != [])
      && (d.secondRun ==> !d.window && !d.rule1)
  {
    hide PValue, WithOutcome, Paired, AnswerShare, ToolShare, StatesOf, Tokens;
    var d := Decision(probes);
    OutcomesAddUp(probes);
    if d.window { PassingNeedsALeadOfSix(d.windowOnly, d.pairsOnly); }
  }

  // ----- The loops -----

  /** One entry of `by_state`: the probes of each arm. */
  type Arms = map<string, seq<Probe>>

  predicate Grouped(probes: seq<Probe>, byState: map<Stored, Arms>) {
    && byState.Keys == StatesOf(probes)
    && (forall s <- byState :: byState[s].Keys == ArmsOf(probes, s)
          && forall arm <- byState[s] :: byState[s][arm] == Group(probes, s, arm))
  }

  function WithProbe(group: seq<Probe>, p: Probe, s: Stored, arm: string): seq<Probe> {
    if InGroup(p, s, arm) then group + [p] else group
  }

  lemma OneMoreProbe(probes: seq<Probe>, i: nat)
    requires i < |probes|
    ensures var p := probes[i];
            && StatesOf(probes[..i + 1]) == StatesOf(probes[..i]) + {StoredOf(p)}
            && (forall s ::
                  ArmsOf(probes[..i + 1], s) == ArmsOf(probes[..i], s) + (if s == StoredOf(p) then {p.arm} else {}))
            && (forall s, arm :: Group(probes[..i + 1], s, arm) == WithProbe(Group(probes[..i], s, arm), p, s, arm))
  {
    var p, before, after := probes[i], probes[..i], probes[..i + 1];
    assert after == before + [p];
    forall s, arm ensures Group(after, s, arm) == WithProbe(Group(before, s, arm), p, s, arm) {
      GroupAppend(before, [p], s, arm);
      assert [p][1..] == [];
    }
    assert forall q: Probe :: q in after <==> q in before || q == p;
    assert StatesOf(after) == StatesOf(before) + {StoredOf(p)};
    forall s ensures ArmsOf(after, s) == ArmsOf(before, s) + if s == StoredOf(p) then {p.arm} else {} {}
  }

  lemma {:induction false} GroupAppend(a: seq<Probe>, b: seq<Probe>, s: Stored, arm: string)
    ensures Group(a + b, s, arm) == Group(a, s, arm) + Group(b, s, arm)
    decreases |a|
  {
    if a == [] {
      assert a + b == b;
    } else {
      assert (a + b)[1..] == a[1..] + b;
      GroupAppend(a[1..], b, s, arm);
    }
  }

  lemma {:induction false} NotGrouped(probes: seq<Probe>, s: Stored, arm: string)
    requires arm !in ArmsOf(probes, s)
    ensures Group(probes, s, arm) == []
    decreases |probes|
  {
    if probes != [] {
      assert probes[0] in probes;
      assert forall q <- probes[1..] :: q in probes;
      NotGrouped(probes[1..], s, arm);
    }
  }

  function Elements(keys: seq<Stored>): set<Stored> {
    set i | 0 <= i < |keys| :: keys[i]
  }

  predicate NoRepeats(keys: seq<Stored>) {
    forall i, j | 0 <= i < j < |keys| :: keys[i] != keys[j]
  }

  /** `setdefault` twice, then `append`. */
  function AddProbe(byState: map<Stored, Arms>, p: Probe): map<Stored, Arms> {
    var s := StoredOf(p);
    var arms: Arms := if s in byState then byState[s] else map[];
    byState[s := arms[p.arm := (if p.arm in arms then arms[p.arm] else []) + [p]]]
  }

  lemma StillGroupedAt(probes: seq<Probe>, i: nat, byState: map<Stored, Arms>, t: Stored)
    requires i < |probes| && Grouped(probes[..i], byState)
    requires t in AddProbe(byState, probes[i])
    ensures var arms := AddProbe(byState, probes[i])[t];
            arms.Keys == ArmsOf(probes[..i + 1], t) && forall arm <- arms :: arms[arm] == Group(probes[..i + 1], t, arm)
  {
    OneMoreProbe(probes, i);
    if t == StoredOf(probes[i]) {
      ProbeIsGrouped(probes, i, byState);
    } else {
      hide StatesOf, ArmsOf, Group;
    }
    hide StatesOf, ArmsOf, Group;
  }

  lemma ProbeIsGrouped(probes: seq<Probe>, i: nat, byState: map<Stored, Arms>)
    requires i < |probes| && Grouped(probes[..i], byState)
    ensures var s := StoredOf(probes[i]);
            var arms := AddProbe(byState, probes[i])[s];
            arms.Keys == ArmsOf(probes[..i + 1], s) && forall arm <- arms :: arms[arm] == Group(probes[..i + 1], s, arm)
  {
    hide Group;
    var p, before := probes[i], probes[..i];
    var s := StoredOf(p);
    OneMoreProbe(probes, i);
    var was: Arms := if s in byState then byState[s] else map[];
    assert was.Keys == ArmsOf(before, s);
    hide StatesOf, ArmsOf;
    if p.arm !in was { NotGrouped(before, s, p.arm); }
    var group := if p.arm in was then was[p.arm] else [];
    assert group == Group(before, s, p.arm);
    assert AddProbe(byState, p)[s] == was[p.arm := group + [p]];
    hide AddProbe, Grouped;
  }

  lemma StillGrouped(probes: seq<Probe>, i: nat, byState: map<Stored, Arms>)
    requires i < |probes| && Grouped(probes[..i], byState)
    ensures Grouped(probes[..i + 1], AddProbe(byState, probes[i]))
  {
    OneMoreProbe(probes, i);
    hide StatesOf, ArmsOf, Group;
    var next := AddProbe(byState, probes[i]);
    assert next.Keys == StatesOf(probes[..i + 1]);
    forall t <- next ensures next[t].Keys == ArmsOf(probes[..i + 1], t)
                       && forall arm <- next[t] :: next[t][arm] == Group(probes[..i + 1], t, arm)
    {
      StillGroupedAt(probes, i, byState, t);
    }
    hide AddProbe;
  }

  lemma MoreElements(keys: seq<Stored>, s: Stored)
    requires NoRepeats(keys) && s !in Elements(keys)
    ensures Elements(keys + [s]) == Elements(keys) + {s} && NoRepeats(keys + [s])
  {
    var more := keys + [s];
    assert more[|keys|] == s;
    forall t ensures t in Elements(more) <==> t in Elements(keys) + {s} {
      if t in Elements(keys) {
        var i :| 0 <= i < |keys| && keys[i] == t;
        assert more[i] == t;
      }
    }
  }

  method GroupByState(probes: seq<Probe>) returns (byState: map<Stored, Arms>, keys: seq<Stored>)
    ensures Grouped(probes, byState) && Elements(keys) == byState.Keys && NoRepeats(keys)
  {
    byState, keys := map[], [];
    for i := 0 to |probes|
      invariant Grouped(probes[..i], byState) && Elements(keys) == byState.Keys && NoRepeats(keys)
    {
      StillGrouped(probes, i, byState);
      hide Grouped;
      var s := StoredOf(probes[i]);
      if s !in byState {
        MoreElements(keys, s);
        keys := keys + [s];
      }
      byState := AddProbe(byState, probes[i]);
    }
    assert probes[..|probes|] == probes;
  }

  /** The number of a state's first `n` keys in a set. */
  function Among(keys: seq<Stored>, n: nat, states: set<Stored>): nat
    requires n <= |keys|
  {
    if n == 0 then 0 else Among(keys, n - 1, states) + if keys[n - 1] in states then 1 else 0
  }

  lemma OneMoreElement(states: set<Stored>, e: set<Stored>, k: Stored)
    requires k !in e
    ensures |states * (e + {k})| == |states * e| + One(k in states)
  {
    if k in states {
      assert states * (e + {k}) == states * e + {k};
    } else {
      assert states * (e + {k}) == states * e;
    }
  }

  lemma {:induction false} AmongAll(keys: seq<Stored>, n: nat, states: set<Stored>)
    requires n <= |keys| && NoRepeats(keys)
    ensures Among(keys, n, states) == |states * Elements(keys[..n])|
    decreases n
  {
    hide Elements;
    if n == 0 {
      NoElements();
      assert states * {} == {};
    } else {
      AmongAll(keys, n - 1, states);
      KeyIsNew(keys, n - 1);
      MoreElements(keys[..n - 1], keys[n - 1]);
      assert keys[..n] == keys[..n - 1] + [keys[n - 1]];
      OneMoreElement(states, Elements(keys[..n - 1]), keys[n - 1]);
    }
  }

  lemma NoElements()
    ensures Elements([]) == {}
  {
  }

  lemma KeyIsNew(keys: seq<Stored>, n: nat)
    requires n < |keys| && NoRepeats(keys)
    ensures NoRepeats(keys[..n]) && keys[n] !in Elements(keys[..n])
  {
  }

  /** What one state adds to each count, read off its groups. */
  lemma StateCounts(probes: seq<Probe>, byState: map<Stored, Arms>, s: Stored)
    requires Grouped(probes, byState) && s in byState
    ensures s in Paired(probes) <==> byState[s].Keys == {PAIRS, WINDOW}
    ensures s in Paired(probes) ==>
              && byState[s][PAIRS] == Group(probes, s, PAIRS) && byState[s][WINDOW] == Group(probes, s, WINDOW)
    ensures forall o :: s in WithOutcome(probes, o) <==> s in Paired(probes) && OutcomeOf(probes, s) == o
    ensures forall arm :: s in Answered(probes, arm) <==>
              s in Paired(probes) && AnswerFacts(Group(probes, s, arm)) != []
    ensures forall arm :: s in AnsweredRight(probes, arm) <==>
              s in Answered(probes, arm) && Majority(AnswerFacts(Group(probes, s, arm)))
    ensures forall arm :: s in ToolRight(probes, arm) <==>
              s in Paired(probes) && Majority(ToolFacts(Group(probes, s, arm)))
  {
    hide ArmsOf, Group, Majority, AnswerFacts, ToolFacts, OutcomeOf;
  }

  /** The counters and lists of the loop. */
  datatype Tally = Tally(windowOnly: nat, pairsOnly: nat, both: nat, neither: nat,
                         answerPairs: Share, answerWindow: Share, toolPairs: Share, toolWindow: Share)

  /** The tally of the first `i` keys. */
  function TallyUpTo(probes: seq<Probe>, keys: seq<Stored>, i: nat): Tally
    requires i <= |keys|
  {
    Tally(Among(keys, i, WithOutcome(probes, WindowOnly)), Among(keys, i, WithOutcome(probes, PairsOnly)),
          Among(keys, i, WithOutcome(probes, Both)), Among(keys, i, WithOutcome(probes, Neither)),
          Share(Among(keys, i, AnsweredRight(probes, PAIRS)), Among(keys, i, Answered(probes, PAIRS))),
          Share(Among(keys, i, AnsweredRight(probes, WINDOW)), Among(keys, i, Answered(probes, WINDOW))),
          Share(Among(keys, i, ToolRight(probes, PAIRS)), Among(keys, i, Paired(probes))),
          Share(Among(keys, i, ToolRight(probes, WINDOW)), Among(keys, i, Paired(probes))))
  }

  function AddTo(share: Share, counted: bool, hit: bool): Share {
    if counted then Share(share.hits + (if hit then 1 else 0), share.of + 1) else share
  }

  function One(b: bool): nat {
    if b then 1 else 0
  }

  /** A state that both arms resumed, with what each of its groups says. */
  function AddState(t: Tally, pairs: seq<Probe>, window: seq<Probe>): Tally {
    var w, p := Majority(Successes(window)), Majority(Successes(pairs));
    var aw, ap := AnswerFacts(window), AnswerFacts(pairs);
    Tally(t.windowOnly + One(w && !p), t.pairsOnly + One(p && !w), t.both + One(w && p), t.neither + One(!w && !p),
          AddTo(t.answerPairs, ap != [], Majority(ap)), AddTo(t.answerWindow, aw != [], Majority(aw)),
          AddTo(t.toolPairs, true, Majority(ToolFacts(pairs))), AddTo(t.toolWindow, true, Majority(ToolFacts(window))))
  }

  lemma TallyOneMore(probes: seq<Probe>, byState: map<Stored, Arms>, keys: seq<Stored>, i: nat)
    requires Grouped(probes, byState) && i < |keys| && keys[i] in byState
    ensures var arms := byState[keys[i]];
            TallyUpTo(probes, keys, i + 1) ==
            if arms.Keys == {PAIRS, WINDOW} then AddState(TallyUpTo(probes, keys, i), arms[PAIRS], arms[WINDOW])
            else TallyUpTo(probes, keys, i)
  {
    StateCounts(probes, byState, keys[i]);
    hide StatesOf, ArmsOf, Group, Majority, Successes, ToolFacts, AnswerFacts, Paired, WithOutcome, Answered,
         AnsweredRight, ToolRight, Grouped, Among;
    AmongOneMore(keys, i);
    var s := keys[i];
    var o := OutcomeOf(probes, s);
    if s in Paired(probes) {
      assert s in WithOutcome(probes, o);
    }
  }

  lemma AmongOneMore(keys: seq<Stored>, i: nat)
    requires i < |keys|
    ensures forall states :: Among(keys, i + 1, states) == Among(keys, i, states) + One(keys[i] in states)
  {
  }

  method TallyStates(probes: seq<Probe>, byState: map<Stored, Arms>, keys: seq<Stored>)
    returns (windowOnly: nat, pairsOnly: nat, both: nat, neither: nat,
             answerPairs: seq<bool>, answerWindow: seq<bool>, toolPairs: seq<bool>, toolWindow: seq<bool>)
    requires Grouped(probes, byState) && forall i | 0 <= i < |keys| :: keys[i] in byState
    ensures Tally(windowOnly, pairsOnly, both, neither, ShareOf(answerPairs), ShareOf(answerWindow),
                  ShareOf(toolPairs), ShareOf(toolWindow))
         == TallyUpTo(probes, keys, |keys|)
  {
    windowOnly, pairsOnly, both, neither := 0, 0, 0, 0;
    answerPairs, answerWindow, toolPairs, toolWindow := [], [], [], [];
    assert TallyUpTo(probes, keys, 0) == Tally(0, 0, 0, 0, Share(0, 0), Share(0, 0), Share(0, 0), Share(0, 0));
    assert ShareOf([]) == Share(0, 0);
    hide Majority, Successes, ToolFacts, AnswerFacts, Grouped, TallyUpTo, ShareOf;
    for i := 0 to |keys|
      invariant Tally(windowOnly, pairsOnly, both, neither, ShareOf(answerPairs), ShareOf(answerWindow),
                      ShareOf(toolPairs), ShareOf(toolWindow))
                == TallyUpTo(probes, keys, i)
    {
      var arms := byState[keys[i]];
      TallyOneMore(probes, byState, keys, i);
      if arms.Keys == {PAIRS, WINDOW} {
        var pairs, window := arms[PAIRS], arms[WINDOW];
        windowOnly, pairsOnly, both, neither :=
          AddOutcome(windowOnly, pairsOnly, both, neither, Majority(Successes(window)), Majority(Successes(pairs)));
        answerPairs := AddAnswer(answerPairs, pairs);
        answerWindow := AddAnswer(answerWindow, window);
        toolPairs := AddFact(toolPairs, Majority(ToolFacts(pairs)));
        toolWindow := AddFact(toolWindow, Majority(ToolFacts(window)));
      }
    }
  }

  function ShareOf(facts: seq<bool>): Share {
    Share(Trues(facts), |facts|)
  }

  method ComputeDecision(probes: seq<Probe>) returns (v: Verdict)
    ensures v == Decision(probes)
  {
    var byState, keys := GroupByState(probes);
    assert forall i | 0 <= i < |keys| :: keys[i] in Elements(keys);
    var windowOnly, pairsOnly, both, neither, answerPairs, answerWindow, toolPairs, toolWindow :=
      TallyStates(probes, byState, keys);
    hide StatesOf, Paired, WithOutcome, AnswerShare, ToolShare, TallyUpTo, Median, Tokens, Judge, Elements;
    WholeTally(probes, keys);
    CountKeys(keys);
    v := Judge(|keys|, windowOnly, pairsOnly, both, neither, ShareOf(answerPairs), ShareOf(answerWindow),
               ShareOf(toolPairs), ShareOf(toolWindow), Median(Tokens(probes, PAIRS)), Median(Tokens(probes, WINDOW)));
  }

  lemma WholeTally(probes: seq<Probe>, keys: seq<Stored>)
    requires Elements(keys) == StatesOf(probes) && NoRepeats(keys)
    ensures TallyUpTo(probes, keys, |keys|) ==
            Tally(|WithOutcome(probes, WindowOnly)|, |WithOutcome(probes, PairsOnly)|, |WithOutcome(probes, Both)|,
                  |WithOutcome(probes, Neither)|, AnswerShare(probes, PAIRS), AnswerShare(probes, WINDOW),
                  ToolShare(probes, PAIRS), ToolShare(probes, WINDOW))
  {
    AllAmong(probes, keys);
    hide StatesOf, Paired, WithOutcome, Answered, AnsweredRight, ToolRight, Among;
  }

  method AddFact(facts: seq<bool>, b: bool) returns (r: seq<bool>)
    ensures ShareOf(r) == AddTo(ShareOf(facts), true, b) && r == facts + [b]
  {
    TruesAppend(facts, b);
    r := facts + [b];
  }

  lemma {:induction false} CountKeys(keys: seq<Stored>)
    requires NoRepeats(keys)
    ensures |Elements(keys)| == |keys|
    decreases |keys|
  {
    if keys == [] {
      assert Elements(keys) == {};
    } else {
      var n := |keys| - 1;
      CountKeys(keys[..n]);
      assert keys == keys[..n] + [keys[n]];
      assert Elements(keys) == Elements(keys[..n]) + {keys[n]};
      assert keys[n] !in Elements(keys[..n]);
    }
  }

  method AddOutcome(a: nat, b: nat, c: nat, d: nat, wonWindow: bool, wonPairs: bool)
    returns (windowOnly: nat, pairsOnly: nat, both: nat, neither: nat)
    ensures windowOnly == a + One(wonWindow && !wonPairs) && pairsOnly == b + One(wonPairs && !wonWindow)
    ensures both == c + One(wonWindow && wonPairs) && neither == d + One(!wonWindow && !wonPairs)
  {
    windowOnly, pairsOnly, both, neither := a, b, c, d;
    if wonWindow && !wonPairs {
      windowOnly := windowOnly + 1;
    } else if wonPairs && !wonWindow {
      pairsOnly := pairsOnly + 1;
    } else if wonWindow {
      both := both + 1;
    } else {
      neither := neither + 1;
    }
  }

  method AddAnswer(answers: seq<bool>, group: seq<Probe>) returns (r: seq<bool>)
    ensures ShareOf(r) == AddTo(ShareOf(answers), AnswerFacts(group) != [], Majority(AnswerFacts(group)))
  {
    var facts := AnswerFacts(group);
    if facts == [] { return answers; }
    r := AddFact(answers, Majority(facts));
  }

  lemma {:induction false} TruesAppend(values: seq<bool>, b: bool)
    ensures Trues(values + [b]) == Trues(values) + if b then 1 else 0
    decreases |values|
  {
    if values == [] {
      assert values + [b] == [b];
    } else {
      assert (values + [b])[1..] == values[1..] + [b];
      TruesAppend(values[1..], b);
    }
  }

  /** Counting over all the keys is counting the set. */
  lemma AllAmong(probes: seq<Probe>, keys: seq<Stored>)
    requires Elements(keys) == StatesOf(probes) && NoRepeats(keys)
    ensures forall o :: Among(keys, |keys|, WithOutcome(probes, o)) == |WithOutcome(probes, o)|
    ensures forall arm :: Among(keys, |keys|, Answered(probes, arm)) == |Answered(probes, arm)|
    ensures forall arm :: Among(keys, |keys|, AnsweredRight(probes, arm)) == |AnsweredRight(probes, arm)|
    ensures forall arm :: Among(keys, |keys|, ToolRight(probes, arm)) == |ToolRight(probes, arm)|
    ensures Among(keys, |keys|, Paired(probes)) == |Paired(probes)|
  {
    hide Among, OutcomeOf, Majority, AnswerFacts, ToolFacts, ArmsOf;
    forall o { AmongSubset(keys, WithOutcome(probes, o)); }
    forall arm { AmongSubset(keys, Answered(probes, arm)); }
    forall arm { AmongSubset(keys, AnsweredRight(probes, arm)); }
    forall arm { AmongSubset(keys, ToolRight(probes, arm)); }
    AmongSubset(keys, Paired(probes));
  }

  lemma AmongSubset(keys: seq<Stored>, states: set<Stored>)
    requires states <= Elements(keys) && NoRepeats(keys)
    ensures Among(keys, |keys|, states) == |states|
  {
    AmongAll(keys, |keys|, states);
    assert keys[..|keys|] == keys;
    assert states * Elements(keys) == states;
  }
}
