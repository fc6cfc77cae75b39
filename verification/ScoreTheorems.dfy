/** What the score promises about any list of triggers (crates/scoring/src/lib.rs:40-77). */
module ScoreTheorems {
  import opened Common
  import opened Sorting
  import opened Scoring

  lemma CappedMonotone(x: real, y: real, critical: real)
    requires x <= y && critical > 0.0
    ensures Capped(x, critical) <= Capped(y, critical)
  {
    var saturation := critical * 3.0;
    assert x / saturation <= y / saturation;
  }

  lemma CappedAdditive(x: real, y: real, critical: real)
    requires x >= 0.0 && y >= 0.0 && critical > 0.0
    ensures Capped(x + y, critical) <= Capped(x, critical) + Capped(y, critical)
    ensures 0.0 <= Capped(x, critical) <= 100.0
  {
    var saturation := critical * 3.0;
    assert x / saturation >= 0.0 && y / saturation >= 0.0;
    assert (x + y) / saturation == x / saturation + y / saturation;
  }

  /** The score is the capped discounted sum of the best arrangement of the triggers, so it
      lies between 0 and 100 and does not depend on the order they are given in. */
  lemma ScoreIsBestArrangement(r: nat -> real, ts: seq<TriggeredRule>, w: ScoringWeights)
    requires InverseRoot(r) && Ordered(w)
    ensures 0.0 <= ComputeScore(r, ts, w) <= 100.0
    ensures forall other :: multiset(other) == multiset(ts) ==>
                              && Capped(Discounted(r, Weights(w, other), 1), w.critical) <= ComputeScore(r, ts, w)
                              && ComputeScore(r, other, w) == ComputeScore(r, ts, w)
    ensures exists best :: multiset(best) == multiset(ts)
                           && ComputeScore(r, ts, w) == Capped(Discounted(r, Weights(w, best), 1), w.critical)
  {
    var ws := Weights(w, ts);
    ScoreFromRaw(r, ts, w);
    RawNonNegative(r, ws);
    CappedAdditive(Raw(r, ws), 0.0, w.critical);
    forall other | multiset(other) == multiset(ts)
      ensures Capped(Discounted(r, Weights(w, other), 1), w.critical) <= ComputeScore(r, ts, w)
      ensures ComputeScore(r, other, w) == ComputeScore(r, ts, w)
    {
      WeightsArranged(w, other, ts);
      RawDominates(r, ws, Weights(w, other));
      CappedMonotone(Discounted(r, Weights(w, other), 1), Raw(r, ws), w.critical);
      SameRaw(r, Weights(w, other), ws);
      ScoreFromRaw(r, other, w);
    }
    HeavierFirstIsPreorder(w);
    SortSorts(HeavierFirst(w), ts);
    var best := Sort(HeavierFirst(w), ts);
    SortCommutesWithWeights(w, ts);
    assert multiset(best) == multiset(ts)
        && ComputeScore(r, ts, w) == Capped(Discounted(r, Weights(w, best), 1), w.critical);
  }

  lemma HeavierFirstIsPreorder(w: ScoringWeights)
    ensures TotalPreorder(HeavierFirst(w))
  {
  }

  /** Rearranging triggers rearranges their weights. */
  lemma {:induction false} WeightsArranged(w: ScoringWeights, a: seq<TriggeredRule>, b: seq<TriggeredRule>)
    requires multiset(a) == multiset(b)
    ensures Arrangement(Weights(w, a), Weights(w, b))
  {
    assert |multiset(a)| == |multiset(b)|;
    if a != [] {
      var i := RemoveSame(a, b);
      WeightsArranged(w, a[1..], Without(b, i));
      WeightsWithout(w, a, 0);
      WeightsWithout(w, b, i);
      WithoutMultiset(Weights(w, a), 0);
      WithoutMultiset(Weights(w, b), i);
      assert Without(a, 0) == a[1..];
    } else {
      assert b == [];
    }
  }

  lemma WeightsWithout(w: ScoringWeights, ts: seq<TriggeredRule>, i: nat)
    requires i < |ts|
    ensures Weights(w, Without(ts, i)) == Without(Weights(w, ts), i)
  {
  }

  /** A further trigger never lowers the score. */
  lemma TriggerNeverLowers(r: nat -> real, ts: seq<TriggeredRule>, t: TriggeredRule, w: ScoringWeights)
    requires InverseRoot(r) && Ordered(w)
    ensures ComputeScore(r, ts + [t], w) >= ComputeScore(r, ts, w)
  {
    var ws := Weights(w, ts);
    assert Weights(w, ts + [t]) == ws + [WeightFor(w, t.severity)];
    AddingRaises(r, ws, WeightFor(w, t.severity));
    CappedMonotone(Raw(r, ws), Raw(r, Weights(w, ts + [t])), w.critical);
    ScoreFromRaw(r, ts, w);
    ScoreFromRaw(r, ts + [t], w);
  }

  function Rank(s: Severity): nat {
    match s
    case Low => 0
    case Medium => 1
    case High => 2
    case Critical => 3
  }

  /** A trigger that becomes more severe never lowers the score. */
  lemma SeverityNeverLowers(r: nat -> real, ts: seq<TriggeredRule>, i: nat, t: TriggeredRule, w: ScoringWeights)
    requires InverseRoot(r) && Ordered(w)
    requires i < |ts| && Rank(ts[i].severity) <= Rank(t.severity)
    ensures ComputeScore(r, ts[i := t], w) >= ComputeScore(r, ts, w)
  {
    var ws := Weights(w, ts);
    assert Weights(w, ts[i := t]) == ws[i := WeightFor(w, t.severity)];
    RaisingRaises(r, ws, i, WeightFor(w, t.severity));
    CappedMonotone(Raw(r, ws), Raw(r, Weights(w, ts[i := t])), w.critical);
    ScoreFromRaw(r, ts, w);
    ScoreFromRaw(r, ts[i := t], w);
  }

  /** Stacked triggers score at most what they would score in separate alerts. */
  lemma ScoreSubadditive(r: nat -> real, a: seq<TriggeredRule>, b: seq<TriggeredRule>, w: ScoringWeights)
    requires InverseRoot(r) && Ordered(w)
    ensures ComputeScore(r, a + b, w) <= ComputeScore(r, a, w) + ComputeScore(r, b, w)
  {
    var wa, wb := Weights(w, a), Weights(w, b);
    assert Weights(w, a + b) == wa + wb;
    RawSubadditive(r, wa, wb);
    RawNonNegative(r, wa);
    RawNonNegative(r, wb);
    CappedMonotone(Raw(r, wa + wb), Raw(r, wa) + Raw(r, wb), w.critical);
    CappedAdditive(Raw(r, wa), Raw(r, wb), w.critical);
    ScoreFromRaw(r, a, w);
    ScoreFromRaw(r, b, w);
    ScoreFromRaw(r, a + b, w);
  }

  /** Any one trigger alone accounts for a floor under the score. */
  lemma ScoreAtLeastAnyTrigger(r: nat -> real, ts: seq<TriggeredRule>, t: TriggeredRule, w: ScoringWeights)
    requires InverseRoot(r) && Ordered(w) && t in ts
    ensures ComputeScore(r, ts, w) >= Capped(WeightFor(w, t.severity), w.critical)
  {
    var i :| 0 <= i < |ts| && ts[i] == t;
    var ws := Weights(w, ts);
    RawAtLeastAny(r, ws, i);
    CappedMonotone(ws[i], Raw(r, ws), w.critical);
    ScoreFromRaw(r, ts, w);
  }

  // ---------- Many equal triggers ----------

  function Equal(t: TriggeredRule, n: nat): (ts: seq<TriggeredRule>)
    ensures |ts| == n
    ensures forall i :: 0 <= i < n ==> ts[i] == t
  {
    seq(n, i => t)
  }

  function Copies(x: real, n: nat): (ws: seq<real>)
    ensures |ws| == n
    ensures forall i :: 0 <= i < n ==> ws[i] == x
  {
    if n == 0 then [] else Copies(x, n - 1) + [x]
  }

  /** r(1) + ... + r(n) */
  function RootSum(r: nat -> real, n: nat): real {
    if n == 0 then 0.0 else RootSum(r, n - 1) + r(n)
  }

  lemma {:induction false} SortCopies(x: real, n: nat)
    ensures Sort(Descending(), Copies(x, n)) == Copies(x, n)
  {
    SortSorts(Descending(), Copies(x, n));
    SortedUnique(Descending(), Sort(Descending(), Copies(x, n)), Copies(x, n));
  }

  /** Each further equal trigger adds its weight over the root of its rank. */
  lemma RawOfOneMore(r: nat -> real, x: real, n: nat)
    ensures Raw(r, Copies(x, n + 1)) == Raw(r, Copies(x, n)) + Share(x, r(n + 1))
  {
    SortCopies(x, n);
    SortCopies(x, n + 1);
    DiscountedSnoc(r, Copies(x, n), x, 1);
  }

  /** So the increments shrink strictly. */
  lemma IncrementsShrink(r: nat -> real, x: real, n: nat)
    requires InverseRoot(r) && x > 0.0
    ensures Raw(r, Copies(x, n + 2)) - Raw(r, Copies(x, n + 1)) < Raw(r, Copies(x, n + 1)) - Raw(r, Copies(x, n))
  {
    RawOfOneMore(r, x, n);
    RawOfOneMore(r, x, n + 1);
    RootsDecrease(r, n + 1);
    StrictShare(x, r(n + 2), r(n + 1));
  }

  lemma StrictShare(x: real, far: real, near: real)
    requires x > 0.0 && far < near
    ensures Share(x, far) < Share(x, near)
  {
  }

  lemma {:induction false} RawOfOnes(r: nat -> real, n: nat)
    ensures Raw(r, Copies(1.0, n)) == RootSum(r, n)
  {
    if n > 0 {
      RawOfOnes(r, n - 1);
      RawOfOneMore(r, 1.0, n - 1);
    }
  }

  // ---------- How many Low triggers outweigh one Critical ----------

  /** The square root of `k`. */
  function Root(r: nat -> real, k: nat): real {
    k as real * r(k)
  }

  lemma RootSquared(r: nat -> real, k: nat)
    requires InverseRoot(r) && k > 0
    ensures Root(r, k) > 0.0 && Root(r, k) * Root(r, k) == k as real && r(k) * Root(r, k) == 1.0
  {
    assert InverseRootAt(r, k);
    var a, n := r(k), k as real;
    assert n * a > 0.0;
    assert (n * a) * (n * a) == n * (a * a * n);
    assert a * (n * a) == a * a * n;
  }

  lemma NonNegativeFactor(x: real, y: real)
    requires y > 0.0 && x * y >= 0.0
    ensures x >= 0.0
  {
  }

  lemma RootOrder(x: real, y: real)
    requires x > 0.0 && y > 0.0 && x * x <= y * y
    ensures x <= y
  {
    assert (y - x) * (y + x) == y * y - x * x;
    NonNegativeFactor(y - x, y + x);
  }

  /** With a = sqrt(4k-2), b = sqrt(4k+2), c = sqrt(k): 1/c <= b - a. */
  lemma MidpointStep(a: real, b: real, c: real, inverse: real)
    requires a > 0.0 && b > 0.0 && c > 0.0 && inverse * c == 1.0
    requires b * b - a * a == 4.0 && a * a + b * b == 8.0 * (c * c)
    ensures inverse <= b - a
  {
    assert (a - b) * (a - b) == a * a + b * b - 2.0 * (a * b);
    assert (a + b) * (a + b) == a * a + b * b + 2.0 * (a * b);
    RootOrder(a + b, 4.0 * c);
    assert (b - a) * (a + b) == 4.0;
    PositiveFactor(b - a, a + b);
    ShareMonotone(b - a, b - a, a + b, 4.0 * c);
    assert (b - a - inverse) * c == (b - a) * (4.0 * c) / 4.0 - inverse * c;
    NonNegativeFactor(b - a - inverse, c);
  }

  /** With a = sqrt(k), b = sqrt(k+1): 2(b - a) <= (1/a + 1/b) / 2. */
  lemma TrapezoidStep(a: real, b: real, inverseA: real, inverseB: real)
    requires a > 0.0 && b > 0.0 && inverseA * a == 1.0 && inverseB * b == 1.0
    requires b * b - a * a == 1.0
    ensures 4.0 * (b - a) <= inverseA + inverseB
  {
    var p := a * b;
    assert (inverseA + inverseB) * p == a + b by {
      assert inverseA * p == (inverseA * a) * b;
      assert inverseB * p == (inverseB * b) * a;
    }
    assert (b - a) * (b + a) == 1.0;
    assert (a + b) * (a + b) - 4.0 * p == (b - a) * (b - a);
    // (inverseA + inverseB - 4(b-a)) * p * (a+b) == (a+b)^2 - 4p >= 0
    assert (inverseA + inverseB - 4.0 * (b - a)) * (p * (a + b))
        == ((inverseA + inverseB) * p) * (a + b) - 4.0 * p * ((b - a) * (b + a));
    NonNegativeFactor(inverseA + inverseB - 4.0 * (b - a), p * (a + b));
  }

  lemma {:induction false} RootSumAtMost(r: nat -> real, n: nat)
    requires InverseRoot(r) && n > 0
    ensures RootSum(r, n) <= 1.0 + Root(r, 4 * n + 2) - Root(r, 6)
  {
    if n == 1 {
      RootOfOne(r);
      assert RootSum(r, 1) == RootSum(r, 0) + r(1);
    } else {
      RootSumAtMost(r, n - 1);
      RootSquared(r, n);
      RootSquared(r, 4 * n - 2);
      RootSquared(r, 4 * n + 2);
      MidpointStep(Root(r, 4 * n - 2), Root(r, 4 * n + 2), Root(r, n), r(n));
    }
  }

  lemma {:induction false} RootSumAtLeast(r: nat -> real, n: nat)
    requires InverseRoot(r) && n >= 2
    ensures RootSum(r, n) >= 1.0 + (r(2) + r(n)) / 2.0 + 2.0 * (Root(r, n) - Root(r, 2))
  {
    if n == 2 {
      RootOfOne(r);
      assert RootSum(r, 2) == RootSum(r, 0) + r(1) + r(2);
    } else {
      RootSumAtLeast(r, n - 1);
      RootSquared(r, n - 1);
      RootSquared(r, n);
      TrapezoidStep(Root(r, n - 1), Root(r, n), r(n - 1), r(n));
    }
  }

  lemma {:induction false} RootSumGrows(r: nat -> real, m: nat, n: nat)
    requires InverseRoot(r) && m <= n
    ensures RootSum(r, m) <= RootSum(r, n)
    decreases n - m
  {
    if m < n {
      assert InverseRootAt(r, n);
      RootSumGrows(r, m, n - 1);
    }
  }

  lemma FortyFourLows(r: nat -> real)
    requires InverseRoot(r)
    ensures RootSum(r, 44) < 12.0
  {
    RootSumAtMost(r, 44);
    RootSquared(r, 178);
    RootSquared(r, 6);
    RootOrder(Root(r, 178), 13.342);
    RootOrder(2.449, Root(r, 6));
  }

  lemma FortyFiveLows(r: nat -> real)
    requires InverseRoot(r)
    ensures RootSum(r, 45) > 12.0
  {
    RootSumAtLeast(r, 45);
    RootSquared(r, 45);
    RootSquared(r, 2);
    RootOrder(6.708, Root(r, 45));
    RootOrder(Root(r, 2), 1.4143);
    RootOrder(1.4142, Root(r, 2));
    assert Root(r, 45) == 45.0 * r(45) && Root(r, 2) == 2.0 * r(2);
  }

  /** Ten Low triggers are meant not to outrank one Critical. With the default weights
      neither do forty-four, and forty-five do. */
  lemma LowsBelowCriticalIff(r: nat -> real, low: TriggeredRule, critical: TriggeredRule, n: nat)
    requires InverseRoot(r) && low.severity == Low && critical.severity == Critical
    ensures ComputeScore(r, Equal(low, n), DEFAULT_WEIGHTS) < ComputeScore(r, [critical], DEFAULT_WEIGHTS) <==> n <= 44
  {
    assert Weights(DEFAULT_WEIGHTS, Equal(low, n)) == Copies(1.0, n);
    assert Weights(DEFAULT_WEIGHTS, [critical]) == Copies(12.0, 1);
    ScoreFromRaw(r, Equal(low, n), DEFAULT_WEIGHTS);
    ScoreFromRaw(r, [critical], DEFAULT_WEIGHTS);
    RawOfOnes(r, n);
    RawOfOneMore(r, 12.0, 0);
    RootOfOne(r);
    assert Raw(r, Copies(12.0, 0)) == 0.0;
    if n <= 44 {
      FortyFourLows(r);
      RootSumGrows(r, n, 44);
    } else {
      FortyFiveLows(r);
      RootSumGrows(r, 45, n);
    }
  }

  lemma LoneScore(r: nat -> real, t: TriggeredRule, w: ScoringWeights)
    requires InverseRoot(r) && w.critical > 0.0
    ensures ComputeScore(r, [t], w) == Capped(WeightFor(w, t.severity), w.critical)
  {
    var x := WeightFor(w, t.severity);
    assert Weights(w, [t]) == Copies(x, 1);
    ScoreFromRaw(r, [t], w);
    RawOfOneMore(r, x, 0);
    RootOfOne(r);
    assert Raw(r, Copies(x, 0)) == 0.0;
  }

  /** An alert's severity is not that of its triggers: with the default weights a trigger on its own
      makes a Low alert, a Critical one a Medium alert. */
  lemma LoneTriggerBand(r: nat -> real, t: TriggeredRule)
    requires InverseRoot(r)
    ensures SeverityForScore(ComputeScore(r, [t], DEFAULT_WEIGHTS)) == if t.severity == Critical then Medium else Low
  {
    LoneScore(r, t, DEFAULT_WEIGHTS);
  }

  /** A further trigger, or a more severe one, never lowers it. */
  lemma BandNeverLowers(r: nat -> real, ts: seq<TriggeredRule>, i: nat, t: TriggeredRule, w: ScoringWeights)
    requires InverseRoot(r) && Ordered(w)
    requires i < |ts| ==> Rank(ts[i].severity) <= Rank(t.severity)
    ensures var more := if i < |ts| then ts[i := t] else ts + [t];
            Rank(SeverityForScore(ComputeScore(r, more, w))) >= Rank(SeverityForScore(ComputeScore(r, ts, w)))
  {
    if i < |ts| {
      SeverityNeverLowers(r, ts, i, t, w);
    } else {
      TriggerNeverLowers(r, ts, t, w);
    }
  }
}
