/** The exact two-sided McNemar test of a discordant split, and what it takes to pass it. */
module McNemar {

  function Choose(n: nat, k: nat): nat {
    if k == 0 then 1 else if n == 0 then 0 else Choose(n - 1, k - 1) + Choose(n - 1, k)
  }

  function Factorial(n: nat): nat {
    if n == 0 then 1 else n * Factorial(n - 1)
  }

  function Pow2(n: nat): (p: nat)
    ensures p > 0
  {
    if n == 0 then 1 else 2 * Pow2(n - 1)
  }

  /** The sum of `Choose(n, i)` over the `i` up to `k`. */
  function Tail(n: nat, k: nat): (t: nat)
    ensures t > 0
  {
    Choose(n, k) + if k == 0 then 0 else Tail(n, k - 1)
  }

  function Smaller(a: nat, b: nat): nat {
    if a <= b then a else b
  }

  /** The p-value. */
  function PValue(windowOnly: nat, pairsOnly: nat): real {
    var n := windowOnly + pairsOnly;
    if n == 0 then 1.0
    else
      var p := 2.0 * Tail(n, Smaller(windowOnly, pairsOnly)) as real / Pow2(n) as real;
      if p < 1.0 then p else 1.0
  }

  /** Rule 1 of the decision. */
  predicate Passes(windowOnly: nat, pairsOnly: nat) {
    PValue(windowOnly, pairsOnly) < 0.05 && windowOnly > pairsOnly
  }

  // ----- The binomial coefficients are what `math.comb` counts -----

  lemma {:induction false} ChooseBeyond(n: nat, k: nat)
    requires k > n
    ensures Choose(n, k) == 0
    decreases n
  {
    if n > 0 {
      ChooseBeyond(n - 1, k - 1);
      ChooseBeyond(n - 1, k);
    }
  }

  lemma {:induction false} ChooseByFactorials(n: nat, k: nat)
    requires k <= n
    ensures Choose(n, k) * Factorial(k) * Factorial(n - k) == Factorial(n)
    decreases n
  {
    if k == n {
      ChooseAll(n);
    } else if k > 0 {
      ChooseByFactorials(n - 1, k - 1);
      ChooseByFactorials(n - 1, k);
      var a, b, f, g, h := Choose(n - 1, k - 1), Choose(n - 1, k), Factorial(k - 1), Factorial(n - k - 1),
          Factorial(n - 1);
      assert Choose(n, k) == a + b && Factorial(k) == k * f && Factorial(n - k) == (n - k) * g && Factorial(n) == n * h;
      assert n - 1 - (k - 1) == n - k && n - 1 - k == n - k - 1;
      hide Choose, Factorial;
      SumOfProducts(a, b, f, g, h, k, n - k);
    }
  }

  lemma SumOfProducts(a: nat, b: nat, f: nat, g: nat, h: nat, k: nat, m: nat)
    requires a * f * (m * g) == h && b * (k * f) * g == h
    ensures (a + b) * (k * f) * (m * g) == (k + m) * h
  {
    calc {
      (a + b) * (k * f) * (m * g);
      a * (k * f) * (m * g) + b * (k * f) * (m * g);
      { assert a * (k * f) * (m * g) == k * (a * f * (m * g)); }
      k * h + b * (k * f) * (m * g);
      { assert b * (k * f) * (m * g) == m * (b * (k * f) * g); }
      k * h + m * h;
      (k + m) * h;
    }
  }

  // ----- Pascal's identities for tails -----

  lemma {:induction false} TailPascal(n: nat, k: nat)
    ensures Tail(n + 1, k) + Choose(n, k) == 2 * Tail(n, k)
    decreases k
  {
    if k > 0 {
      TailPascal(n, k - 1);
    }
  }

  /** Before the middle the coefficients rise. */
  lemma {:induction false} ChooseRises(n: nat, k: nat)
    requires 2 * k + 1 <= n
    ensures Choose(n, k) <= Choose(n, k + 1)
    decreases n
  {
    if n == 2 * k + 1 {
      ChooseSymmetric(n, k);
    } else if k == 0 {
      ChooseOne(n);
    } else {
      ChooseRises(n - 1, k);
      ChooseRises(n - 1, k - 1);
    }
  }

  lemma {:induction false} ChooseOne(n: nat)
    ensures Choose(n, 1) == n
  {
    if n > 0 { ChooseOne(n - 1); }
  }

  lemma {:induction false} ChooseSymmetric(n: nat, k: nat)
    requires k <= n
    ensures Choose(n, k) == Choose(n, n - k)
    decreases n
  {
    if k == n {
      ChooseAll(n);
    } else if k == 0 {
      ChooseAll(n);
    } else {
      ChooseSymmetric(n - 1, k - 1);
      ChooseSymmetric(n - 1, k);
    }
  }

  lemma {:induction false} ChooseAll(n: nat)
    ensures Choose(n, n) == 1
  {
    if n > 0 {
      ChooseBeyond(n - 1, n);
      ChooseAll(n - 1);
    }
  }

  /** A coefficient from the one before. */
  lemma {:induction false} ChooseNext(n: nat, k: nat)
    requires k <= n
    ensures (k + 1) * Choose(n, k + 1) == (n - k) * Choose(n, k)
    decreases n
  {
    if k == n {
      ChooseBeyond(n, n + 1);
    } else if k == 0 {
      ChooseOne(n);
    } else {
      ChooseNext(n - 1, k);
      ChooseNext(n - 1, k - 1);
      var a, b, c := Choose(n - 1, k - 1), Choose(n - 1, k), Choose(n - 1, k + 1);
      assert Choose(n, k) == a + b && Choose(n, k + 1) == b + c;
      hide Choose;
      NextOfSums(a, b, c, n, k);
    }
  }

  lemma NextOfSums(a: nat, b: nat, c: nat, n: nat, k: nat)
    requires k <= n && (k + 1) * c == (n - 1 - k) * b && k * b == (n - k) * a
    ensures (k + 1) * (b + c) == (n - k) * (a + b)
  {
    assert (k + 1) * (b + c) == (k + 1) * b + (k + 1) * c == (k + 1) * b + (n - 1 - k) * b == n * b;
    assert (n - k) * (a + b) == (n - k) * a + (n - k) * b == k * b + (n - k) * b == n * b;
  }

  /** One more win on each side: the tail is four times as large but for the two coefficients at its end. */
  lemma TailAlongDifference(n: nat, k: nat)
    ensures Tail(n + 2, k + 1) == 4 * Tail(n, k) + Choose(n, k + 1) - Choose(n, k)
  {
    TailPascal(n, k);
    TailPascal(n, k + 1);
    TailPascal(n + 1, k + 1);
    assert Choose(n + 1, k + 1) == Choose(n, k) + Choose(n, k + 1);
    assert Tail(n, k + 1) == Choose(n, k + 1) + Tail(n, k);
  }

  lemma FourTimes(t: nat, x: nat)
    ensures t * (4 * x) == 4 * (t * x)
  {
  }

  lemma TimesRises(x: real, y: real, z: real)
    requires z > 0.0
    ensures x < y <==> x * z < y * z
  {
  }

  lemma NatTimesRises(x: nat, y: nat, z: nat)
    requires x <= y
    ensures x * z <= y * z
  {
  }

  /** Along a fixed lead of one or more the share of the tail never falls. */
  lemma {:induction false} ShareNeverFalls(losses: nat, more: nat, difference: nat)
    requires difference > 0
    ensures Tail(2 * losses + difference, losses) * Pow2(2 * more)
         <= Tail(2 * (losses + more) + difference, losses + more)
    decreases more
  {
    if more > 0 {
      hide Tail;
      ShareNeverFalls(losses, more - 1, difference);
      TailAlongDifference(2 * (losses + more - 1) + difference, losses + more - 1);
      ChooseRises(2 * (losses + more - 1) + difference, losses + more - 1);
      assert Pow2(2 * more) == 2 * Pow2(2 * more - 1) == 4 * Pow2(2 * (more - 1));
      FourTimes(Tail(2 * losses + difference, losses), Pow2(2 * (more - 1)));
    }
  }

  lemma TieIsHighest(k: nat)
    ensures Choose(2 * k, k + 1) < Choose(2 * k, k)
  {
    ChooseNext(2 * k, k);
    ChooseIsPositive(2 * k, k);
    if Choose(2 * k, k + 1) >= Choose(2 * k, k) {
      NatTimesRises(Choose(2 * k, k), Choose(2 * k, k + 1), k + 1);
    }
  }

  lemma {:induction false} ChooseIsPositive(n: nat, k: nat)
    requires k <= n
    ensures Choose(n, k) > 0
    decreases n
  {
    if k > 0 { ChooseIsPositive(n - 1, k - 1); }
  }

  /** At a tie it falls with every win of both sides. */
  lemma {:induction false} ShareFallsAtATie(losses: nat, more: nat)
    ensures Tail(2 * (losses + more), losses + more) + more <= Tail(2 * losses, losses) * Pow2(2 * more)
    decreases more
  {
    if more > 0 {
      hide Tail;
      var l := losses + more - 1;
      ShareFallsAtATie(losses, more - 1);
      TailAlongDifference(2 * l, l);
      TieIsHighest(l);
      assert Pow2(2 * more) == 2 * Pow2(2 * more - 1) == 4 * Pow2(2 * (more - 1));
      FourTimes(Tail(2 * losses, losses), Pow2(2 * (more - 1)));
    }
  }

  /** So the share keeps up along a fixed lead exactly when there is one. */
  lemma ShareNeverFallsIff(losses: nat, more: nat, lead: nat)
    ensures Tail(2 * losses + lead, losses) * Pow2(2 * more) <= Tail(2 * (losses + more) + lead, losses + more)
       <==> lead > 0 || more == 0
  {
    hide Tail;
    if lead > 0 { ShareNeverFalls(losses, more, lead); } else { ShareFallsAtATie(losses, more); }
  }

  // ----- Passing rule 1 -----

  lemma RatioBelow(t: real, d: real)
    requires d > 0.0
    ensures 2.0 * t / d < 0.05 <==> 40.0 * t < d
  {
    var p := 2.0 * t / d;
    assert p * d == 2.0 * t;
    TimesRises(p, 0.05, d);
  }

  /** Rule 1 in whole numbers. */
  lemma PassesExactly(windowOnly: nat, pairsOnly: nat)
    ensures Passes(windowOnly, pairsOnly) <==>
            windowOnly > pairsOnly && 40 * Tail(windowOnly + pairsOnly, pairsOnly) < Pow2(windowOnly + pairsOnly)
  {
    hide Tail, Pow2;
    var n := windowOnly + pairsOnly;
    RatioBelow(Tail(n, pairsOnly) as real, Pow2(n) as real);
  }

  lemma {:induction false} Pow2Adds(a: nat, b: nat)
    ensures Pow2(a + b) == Pow2(a) * Pow2(b)
    decreases a
  {
    if a > 0 {
      Pow2Adds(a - 1, b);
      assert Pow2(a) * Pow2(b) == 2 * (Pow2(a - 1) * Pow2(b));
    }
  }

  lemma Pow2UpToFive(d: nat)
    requires d <= 5
    ensures Pow2(d) <= 32
  {
    assert Pow2(1) == 2 && Pow2(2) == 4 && Pow2(3) == 8;
    assert Pow2(4) == 16 && Pow2(5) == 32;
  }

  lemma SmallLeadFails(pairsOnly: nat, lead: nat)
    requires 0 < lead <= 5
    ensures 40 * Tail(2 * pairsOnly + lead, pairsOnly) >= Pow2(2 * pairsOnly + lead)
  {
    ShareNeverFalls(0, pairsOnly, lead);
    assert Tail(lead, 0) == 1;
    hide Tail;
    Pow2Adds(lead, 2 * pairsOnly);
    Pow2UpToFive(lead);
    hide Pow2;
    NatTimesRises(Pow2(lead), 32, Pow2(2 * pairsOnly));
  }

  /** Whatever the number of losses, a lead of five or less never passes: the fewest wins for none lost, six, bound
      the lead for every split. */
  lemma PassingNeedsALeadOfSix(windowOnly: nat, pairsOnly: nat)
    requires Passes(windowOnly, pairsOnly)
    ensures windowOnly >= pairsOnly + 6
  {
    PassesExactly(windowOnly, pairsOnly);
    if windowOnly < pairsOnly + 6 {
      SmallLeadFails(pairsOnly, windowOnly - pairsOnly);
    }
  }

  lemma FewLosses(windowOnly: nat, pairsOnly: nat)
    requires windowOnly > pairsOnly && pairsOnly <= 2
    ensures var n := windowOnly + pairsOnly;
            var tail := if pairsOnly == 0 then 1 else if pairsOnly == 1 then 1 + n else 1 + n + n * (n - 1) / 2;
            Passes(windowOnly, pairsOnly) <==> 40 * tail < Pow2(n)
  {
    var n := windowOnly + pairsOnly;
    hide Pow2, Passes, Choose, Tail;
    PassesExactly(windowOnly, pairsOnly);
    TailUpToTwo(n);
    ChooseOne(n);
    ChooseTwo(n);
    HalfOf(Choose(n, 2), n * (n - 1));
  }

  lemma HalfOf(c: int, x: int)
    requires 2 * c == x
    ensures c == x / 2
  {
  }

  lemma TailUpToTwo(n: nat)
    ensures Tail(n, 0) == 1 && Tail(n, 1) == 1 + Choose(n, 1) && Tail(n, 2) == 1 + Choose(n, 1) + Choose(n, 2)
  {
    assert Choose(n, 0) == 1;
  }

  lemma {:induction false} ChooseTwo(n: nat)
    ensures 2 * Choose(n, 2) == n * (n - 1)
  {
    if n > 0 {
      ChooseTwo(n - 1);
      ChooseOne(n - 1);
    }
  }

  /** Twice the share `t` of `d`, but at most 1. */
  function Doubled(t: nat, d: nat): real
    requires d > 0
  {
    var p := 2.0 * t as real / d as real;
    if p < 1.0 then p else 1.0
  }

  lemma PValueIsDoubled(windowOnly: nat, pairsOnly: nat)
    requires windowOnly >= pairsOnly
    ensures var n := windowOnly + pairsOnly; PValue(windowOnly, pairsOnly) == Doubled(Tail(n, pairsOnly), Pow2(n))
  {
    if windowOnly == 0 { TailOfNothing(0); }
    hide Tail;
  }

  lemma HalvedShare(t: real, u: real, d: real)
    requires d > 0.0 && u <= 2.0 * t
    ensures 2.0 * u / (2.0 * d) <= 2.0 * t / d
  {
    assert 2.0 * u / (2.0 * d) == u / d;
    TimesRises(2.0 * t / d, u / d, d);
  }

  lemma DoubledFalls(t: nat, u: nat, d: nat)
    requires d > 0 && u <= 2 * t
    ensures Doubled(u, 2 * d) <= Doubled(t, d)
  {
    assert (2 * d) as real == 2.0 * (d as real);
    HalvedShare(t as real, u as real, d as real);
  }

  /** One more win for the leader never raises the p-value, so a passing split stays passing. */
  lemma LeaderWinNeverRaises(windowOnly: nat, pairsOnly: nat)
    requires windowOnly >= pairsOnly
    ensures PValue(windowOnly + 1, pairsOnly) <= PValue(windowOnly, pairsOnly)
    ensures Passes(windowOnly, pairsOnly) ==> Passes(windowOnly + 1, pairsOnly)
  {
    hide PValue, Doubled;
    var n := windowOnly + pairsOnly;
    PValueIsDoubled(windowOnly, pairsOnly);
    PValueIsDoubled(windowOnly + 1, pairsOnly);
    TailPascal(n, pairsOnly);
    assert Pow2(n + 1) == 2 * Pow2(n);
    hide Tail, Pow2;
    DoubledFalls(Tail(n, pairsOnly), Tail(n + 1, pairsOnly), Pow2(n));
  }

  /** One more win for the other side never lowers it, so a split that passes does with one loss fewer. */
  lemma LoserWinNeverLowers(windowOnly: nat, pairsOnly: nat)
    requires Passes(windowOnly, pairsOnly + 1)
    ensures Passes(windowOnly, pairsOnly)
  {
    var n := windowOnly + pairsOnly;
    PassesExactly(windowOnly, pairsOnly);
    PassesExactly(windowOnly, pairsOnly + 1);
    TailPascal(n, pairsOnly + 1);
    assert Tail(n, pairsOnly + 1) == Choose(n, pairsOnly + 1) + Tail(n, pairsOnly);
    assert Pow2(n + 1) == 2 * Pow2(n);
    hide Tail, Passes;
  }

  lemma {:induction false} PassingStays(windowOnly: nat, more: nat, pairsOnly: nat)
    requires Passes(windowOnly, pairsOnly)
    ensures Passes(windowOnly + more, pairsOnly)
    decreases more
  {
    if more > 0 {
      PassingStays(windowOnly, more - 1, pairsOnly);
      assert windowOnly + more - 1 >= pairsOnly;
      hide Passes;
      LeaderWinNeverRaises(windowOnly + more - 1, pairsOnly);
    }
  }

  /** Without a loss it takes six wins, with one loss eight, with two ten, and neither more nor fewer. */
  lemma WinsForFewLosses(wins: nat)
    ensures Passes(wins, 0) <==> wins >= 6
    ensures Passes(wins, 1) <==> wins >= 8
    ensures Passes(wins, 2) <==> wins >= 10
  {
    FirstPassing();
    hide Passes;
    ThresholdIs(6, 0, wins);
    ThresholdIs(8, 1, wins);
    ThresholdIs(10, 2, wins);
  }

  lemma FirstPassing()
    ensures Passes(6, 0) && !Passes(5, 0) && Passes(8, 1) && !Passes(7, 1) && Passes(10, 2) && !Passes(9, 2)
  {
    hide Passes, Tail, Choose;
    FewLosses(6, 0);
    FewLosses(5, 0);
    FewLosses(8, 1);
    FewLosses(7, 1);
    FewLosses(10, 2);
    FewLosses(9, 2);
    assert Pow2(5) == 32 && Pow2(6) == 64 && Pow2(7) == 128 && Pow2(8) == 256 && Pow2(9) == 512;
    assert Pow2(10) == 1024 && Pow2(11) == 2048 && Pow2(12) == 4096;
  }

  lemma ThresholdIs(least: nat, losses: nat, wins: nat)
    requires least > 0 && Passes(least, losses) && !Passes(least - 1, losses)
    ensures Passes(wins, losses) <==> wins >= least
  {
    hide Passes;
    if wins >= least {
      PassingStays(least, wins - least, losses);
    } else if Passes(wins, losses) {
      PassingStays(wins, least - 1 - wins, losses);
    }
  }

  // ----- Every number of losses can be outweighed -----

  lemma {:induction false} TailBelowPow2(n: nat, k: nat)
    ensures Tail(n, k) <= Pow2(n)
    decreases n
  {
    if n == 0 {
      TailOfNothing(k);
    } else {
      TailBelowPow2(n - 1, k);
      TailPascal(n - 1, k);
    }
  }

  lemma {:induction false} TailOfNothing(k: nat)
    ensures Tail(0, k) == 1
  {
    if k > 0 { TailOfNothing(k - 1); }
  }

  /** Up to the middle the last coefficient is the largest of its tail. */
  lemma {:induction false} TailByItsLast(n: nat, k: nat)
    requires 2 * k <= n
    ensures Tail(n, k) <= (k + 1) * Choose(n, k)
    decreases k
  {
    if k > 0 {
      TailByItsLast(n, k - 1);
      ChooseRises(n, k - 1);
      NatTimesRises(Choose(n, k - 1), Choose(n, k), k);
    }
  }

  /** So every further win takes a fixed part of the share away. */
  lemma TailGrowsSlower(n: nat, k: nat)
    requires 2 * k <= n
    ensures (k + 1) * Tail(n + 1, k) <= (2 * k + 1) * Tail(n, k)
  {
    TailByItsLast(n, k);
    TailPascal(n, k);
    var t, u, c := Tail(n, k), Tail(n + 1, k), Choose(n, k);
    hide Tail, Choose;
    Lessened(t, u, c, k + 1);
  }

  lemma Lessened(t: nat, u: nat, c: nat, q: nat)
    requires u + c == 2 * t && t <= q * c
    ensures q * u <= (2 * q - 1) * t
  {
    assert q * u + q * c == q * (u + c) == q * (2 * t) == 2 * (q * t);
    assert (2 * q - 1) * t == 2 * (q * t) - t;
  }

  lemma DividedOut(q: nat, x: nat, y: nat)
    requires q > 0 && q * x <= q * y
    ensures x <= y
  {
    if x > y { NatTimesRises(y + 1, x, q); }
  }

  /** If every step leaves at most `a` of `2 * q` parts of the share, `m` steps leave at most `a` of `a + m`. */
  lemma Decays(t: nat, u: nat, p: nat, q: nat, a: nat, m: nat)
    requires q > 0 && a == 2 * q - 1
    requires q * u <= a * t && t * (a + m) <= a * p
    ensures u * (a + m + 1) <= a * (2 * p)
  {
    var x := t * (a + m);
    NatTimesRises(q * u, a * t, a + m + 1);
    assert (q * u) * (a + m + 1) == q * (u * (a + m + 1));
    OneMorePart(t, a, m);
    NatTimesRises(x, a * p, 2 * q);
    assert (a * p) * (2 * q) == q * (a * (2 * p));
    DividedOut(q, u * (a + m + 1), a * (2 * p));
  }

  lemma OneMorePart(t: nat, a: nat, m: nat)
    ensures (a * t) * (a + m + 1) <= (t * (a + m)) * (a + 1)
  {
    var x := t * (a + m);
    assert x == t * a + t * m;
    assert (a * t) * (a + m + 1) == (a * t) * (a + m) + a * t;
    assert (a * t) * (a + m) == a * x;
    assert x * (a + 1) == a * x + x;
  }

  lemma {:induction false} ShareDecays(k: nat, m: nat)
    ensures Tail(2 * k + m, k) * (2 * k + 1 + m) <= (2 * k + 1) * Pow2(2 * k + m)
    decreases m
  {
    if m == 0 {
      TailBelowPow2(2 * k, k);
      NatTimesRises(Tail(2 * k, k), Pow2(2 * k), 2 * k + 1);
    } else {
      ShareDecays(k, m - 1);
      TailGrowsSlower(2 * k + m - 1, k);
      assert Pow2(2 * k + m) == 2 * Pow2(2 * k + m - 1);
      hide Tail, Pow2;
      Decays(Tail(2 * k + m - 1, k), Tail(2 * k + m, k), Pow2(2 * k + m - 1), k + 1, 2 * k + 1, m - 1);
    }
  }

  lemma ManyWinsPass(losses: nat)
    ensures Passes(losses + 39 * (2 * losses + 1) + 1, losses)
  {
    var a := 2 * losses + 1;
    var m := 39 * a + 1;
    ShareDecays(losses, m);
    PassesExactly(losses + m, losses);
    var t, p := Tail(2 * losses + m, losses), Pow2(2 * losses + m);
    assert losses + m + losses == 2 * losses + m && a + m == 40 * a + 1;
    hide Tail, Pow2, Passes;
    Outweighed(t, p, a);
  }

  lemma Outweighed(t: nat, p: nat, a: nat)
    requires t > 0 && t * (40 * a + 1) <= a * p
    ensures 40 * t < p
  {
    assert t * (40 * a + 1) == (40 * t) * a + t;
    if p <= 40 * t { NatTimesRises(p, 40 * t, a); }
  }

  lemma {:induction false} LeastPassing(losses: nat, wins: nat) returns (least: nat)
    requires Passes(wins, losses)
    ensures 0 < least <= wins && Passes(least, losses) && !Passes(least - 1, losses)
    decreases wins
  {
    if Passes(wins - 1, losses) { least := LeastPassing(losses, wins - 1); } else { least := wins; }
  }

  /** For every number of losses there is a number of wins from which on the split passes, and below which it does
      not: at least six more than the losses, at most forty to one. */
  lemma EveryLossHasItsWins(losses: nat) returns (least: nat)
    ensures forall wins: nat :: Passes(wins, losses) <==> wins >= least
    ensures losses + 6 <= least <= losses + 39 * (2 * losses + 1) + 1
  {
    ManyWinsPass(losses);
    least := LeastPassing(losses, losses + 39 * (2 * losses + 1) + 1);
    PassingNeedsALeadOfSix(least, losses);
    hide Passes;
    forall wins: nat
      ensures Passes(wins, losses) <==> wins >= least
    {
      ThresholdIs(least, losses, wins);
    }
  }

  /** The p-value is a probability, and does not depend on which side leads. */
  lemma PValueIsAProbability(a: nat, b: nat)
    ensures 0.0 < PValue(a, b) <= 1.0
    ensures PValue(a, b) == PValue(b, a)
  {
    var t, d := Tail(a + b, Smaller(a, b)) as real, Pow2(a + b) as real;
    hide Tail, Pow2;
    TimesRises(0.0, 2.0 * t / d, d);
  }
}
