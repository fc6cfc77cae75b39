/** Anomaly scoring (crates/scoring/src/lib.rs), over exact reals.
    `1 / sqrt(rank)` enters as a function `r` about which only its defining equation is assumed. */
module Scoring {
  import opened Common
  import opened Sorting

  ghost predicate InverseRootAt(r: nat -> real, k: nat) {
    r(k) > 0.0 && r(k) * r(k) * k as real == 1.0
  }

  ghost predicate InverseRoot(r: nat -> real) {
    forall k: nat :: k > 0 ==> InverseRootAt(r, k)
  }

  /** The weight of each severity; heavier severities never weigh less. */
  datatype ScoringWeights = ScoringWeights(low: real, medium: real, high: real, critical: real)

  ghost predicate Ordered(w: ScoringWeights) {
    0.0 <= w.low <= w.medium <= w.high <= w.critical && w.critical > 0.0
  }

  const DEFAULT_WEIGHTS := ScoringWeights(1.0, 3.0, 6.0, 12.0)

  function WeightFor(w: ScoringWeights, severity: Severity): real {
    match severity
    case Low => w.low
    case Medium => w.medium
    case High => w.high
    case Critical => w.critical
  }

  function Weights(w: ScoringWeights, triggers: seq<TriggeredRule>): (ws: seq<real>)
    ensures |ws| == |triggers|
    ensures forall i :: 0 <= i < |ws| ==> ws[i] == WeightFor(w, triggers[i].severity)
  {
    seq(|triggers|, i requires 0 <= i < |triggers| => WeightFor(w, triggers[i].severity))
  }

  /** What a trigger contributes: its weight times one over the root of its rank. */
  function Share(weight: real, root: real): real {
    weight * root
  }

  /** The sum of `ws[i] / sqrt(rank)` when the first element has rank `k`. */
  function Discounted(r: nat -> real, ws: seq<real>, k: nat): real {
    if ws == [] then 0.0 else Share(ws[0], r(k)) + Discounted(r, ws[1..], k + 1)
  }

  function Descending(): (real, real) -> bool {
    (x: real, y: real) => x >= y
  }

  function HeavierFirst(w: ScoringWeights): (TriggeredRule, TriggeredRule) -> bool {
    (a: TriggeredRule, b: TriggeredRule) => WeightFor(w, a.severity) >= WeightFor(w, b.severity)
  }

  /** The raw score of a list of weights: heaviest first, each divided by the root of its rank. */
  function Raw(r: nat -> real, ws: seq<real>): real {
    Discounted(r, Sort(Descending(), ws), 1)
  }

  function Capped(raw: real, critical: real): real
    requires critical > 0.0
  {
    var scaled := raw / (critical * 3.0) * 100.0;
    if scaled < 100.0 then scaled else 100.0
  }

  function ComputeScore(r: nat -> real, triggers: seq<TriggeredRule>, w: ScoringWeights): real
    requires w.critical > 0.0
  {
    if triggers == [] then 0.0
    else
      var sorted := Sort(HeavierFirst(w), triggers);
      Capped(Discounted(r, Weights(w, sorted), 1), w.critical)
  }

  function SeverityForScore(score: real): Severity {
    if score >= 75.0 then Critical
    else if score >= 45.0 then High
    else if score >= 20.0 then Medium
    else Low
  }

  // ---------- Sorting triggers and sorting weights ----------

  lemma {:induction false} InsertCommutesWithWeights(w: ScoringWeights, t: TriggeredRule, ts: seq<TriggeredRule>)
    ensures Weights(w, Insert(HeavierFirst(w), t, ts)) == Insert(Descending(), WeightFor(w, t.severity), Weights(w, ts))
  {
    if ts != [] && !HeavierFirst(w)(t, ts[0]) {
      InsertCommutesWithWeights(w, t, ts[1..]);
      assert Weights(w, ts)[1..] == Weights(w, ts[1..]);
    }
  }

  lemma {:induction false} SortCommutesWithWeights(w: ScoringWeights, ts: seq<TriggeredRule>)
    ensures Weights(w, Sort(HeavierFirst(w), ts)) == Sort(Descending(), Weights(w, ts))
  {
    if ts != [] {
      SortCommutesWithWeights(w, ts[1..]);
      InsertCommutesWithWeights(w, ts[0], Sort(HeavierFirst(w), ts[1..]));
      assert Weights(w, ts)[1..] == Weights(w, ts[1..]);
    }
  }

  lemma ScoreFromRaw(r: nat -> real, ts: seq<TriggeredRule>, w: ScoringWeights)
    requires w.critical > 0.0
    ensures ComputeScore(r, ts, w) == Capped(Raw(r, Weights(w, ts)), w.critical)
  {
    SortCommutesWithWeights(w, ts);
  }

  // ---------- The score is the best arrangement ----------

  lemma PositiveFactor(x: real, y: real)
    requires y > 0.0 && x * y > 0.0
    ensures x > 0.0
  {
  }

  lemma ZeroFactor(x: real, y: real)
    requires y > 0.0 && x * y == 0.0
    ensures x == 0.0
  {
  }

  lemma ShareNonNegative(x: real, y: real)
    requires x >= 0.0 && y >= 0.0
    ensures Share(x, y) >= 0.0
  {
  }

  lemma ShareMonotone(weight: real, weight': real, root: real, root': real)
    requires 0.0 <= weight <= weight' && 0.0 <= root <= root'
    ensures Share(weight, root) <= Share(weight', root')
  {
  }

  lemma ShareRises(weight: real, weight': real, root: real)
    requires weight <= weight' && root >= 0.0
    ensures Share(weight, root) <= Share(weight', root)
  {
  }

  lemma RootsDecrease(r: nat -> real, k: nat)
    requires InverseRoot(r) && k > 0
    ensures r(k) > r(k + 1) > 0.0
  {
    assert InverseRootAt(r, k) && InverseRootAt(r, k + 1);
    var a, b, n := r(k), r(k + 1), k as real;
    assert a * a * n == 1.0 && b * b * (n + 1.0) == 1.0;
    assert (a - b) * ((a + b) * n) == a * a * n - b * b * n;
    assert b * b * (n + 1.0) == b * b * n + b * b;
    PositiveFactor(a - b, (a + b) * n);
  }

  lemma DiscountedCons(r: nat -> real, x: real, s: seq<real>, k: nat)
    ensures Discounted(r, [x] + s, k) == Share(x, r(k)) + Discounted(r, s, k + 1)
  {
    assert ([x] + s)[0] == x && ([x] + s)[1..] == s;
  }

  lemma Exchange(heavy: real, light: real, near: real, far: real)
    requires heavy >= light && near >= far
    ensures Share(heavy, near) + Share(light, far) >= Share(light, near) + Share(heavy, far)
  {
    ShareNonNegative(heavy - light, near - far);
  }

  /** Moving a weight to its place in a descending list never lowers the sum. */
  lemma {:induction false} InsertingIsBest(r: nat -> real, x: real, s: seq<real>, k: nat)
    requires InverseRoot(r) && k > 0
    ensures Discounted(r, Insert(Descending(), x, s), k) >= Share(x, r(k)) + Discounted(r, s, k + 1)
  {
    if s != [] && x < s[0] {
      InsertingIsBest(r, x, s[1..], k + 1);
      RootsDecrease(r, k);
      DiscountedCons(r, s[0], Insert(Descending(), x, s[1..]), k);
      Exchange(s[0], x, r(k), r(k + 1));
    } else {
      DiscountedCons(r, x, s, k);
    }
  }

  lemma ConsIsBest(r: nat -> real, x: real, s: seq<real>, better: seq<real>, k: nat)
    requires InverseRoot(r) && k > 0
    requires Discounted(r, better, k + 1) >= Discounted(r, s, k + 1)
    ensures Discounted(r, Insert(Descending(), x, better), k) >= Discounted(r, [x] + s, k)
  {
    InsertingIsBest(r, x, better, k);
    DiscountedCons(r, x, s, k);
  }

  lemma {:induction false} SortingIsBest(r: nat -> real, ws: seq<real>, k: nat)
    requires InverseRoot(r) && k > 0
    ensures Discounted(r, Sort(Descending(), ws), k) >= Discounted(r, ws, k)
  {
    if ws != [] {
      SortingIsBest(r, ws[1..], k + 1);
      ConsIsBest(r, ws[0], ws[1..], Sort(Descending(), ws[1..]), k);
      assert ws == [ws[0]] + ws[1..];
    }
  }

  ghost predicate Arrangement(a: seq<real>, b: seq<real>) {
    multiset(a) == multiset(b)
  }

  lemma SameRaw(r: nat -> real, a: seq<real>, b: seq<real>)
    requires Arrangement(a, b)
    ensures Raw(r, a) == Raw(r, b)
  {
    SortSorts(Descending(), a);
    SortSorts(Descending(), b);
    SortedUnique(Descending(), Sort(Descending(), a), Sort(Descending(), b));
  }

  lemma RawDominates(r: nat -> real, ws: seq<real>, other: seq<real>)
    requires InverseRoot(r) && Arrangement(other, ws)
    ensures Discounted(r, other, 1) <= Raw(r, ws)
  {
    SortingIsBest(r, other, 1);
    SameRaw(r, other, ws);
  }

  lemma SortArranges(ws: seq<real>)
    ensures Arrangement(Sort(Descending(), ws), ws)
    ensures SortedBy(Descending(), Sort(Descending(), ws))
  {
    SortSorts(Descending(), ws);
  }

  /** The raw score is the largest discounted sum over all arrangements of the weights. */
  lemma RawIsMaximum(r: nat -> real, ws: seq<real>)
    requires InverseRoot(r)
    ensures forall other :: Arrangement(other, ws) ==> Discounted(r, other, 1) <= Raw(r, ws)
    ensures exists best :: Arrangement(best, ws) && Discounted(r, best, 1) == Raw(r, ws)
  {
    forall other | Arrangement(other, ws) ensures Discounted(r, other, 1) <= Raw(r, ws) {
      RawDominates(r, ws, other);
    }
    SortArranges(ws);
    assert Discounted(r, Sort(Descending(), ws), 1) == Raw(r, ws);
  }

  // ---------- Consequences ----------

  ghost predicate NonNegative(ws: seq<real>) {
    forall i :: 0 <= i < |ws| ==> ws[i] >= 0.0
  }

  lemma {:induction false} DiscountedSnoc(r: nat -> real, ws: seq<real>, x: real, k: nat)
    ensures Discounted(r, ws + [x], k) == Discounted(r, ws, k) + Share(x, r(k + |ws|))
  {
    if ws != [] {
      DiscountedSnoc(r, ws[1..], x, k + 1);
      assert (ws + [x])[1..] == ws[1..] + [x];
    }
  }

  lemma {:induction false} DiscountedUpdate(r: nat -> real, ws: seq<real>, i: nat, x: real, k: nat)
    requires i < |ws|
    ensures Discounted(r, ws[i := x], k) == Discounted(r, ws, k) + Share(x, r(k + i)) - Share(ws[i], r(k + i))
  {
    if i > 0 {
      DiscountedUpdate(r, ws[1..], i - 1, x, k + 1);
      assert ws[i := x][1..] == ws[1..][i - 1 := x];
    } else {
      assert ws[i := x][1..] == ws[1..];
    }
  }

  lemma ArrangementSnoc(a: seq<real>, b: seq<real>, x: real)
    requires Arrangement(a, b)
    ensures Arrangement(a + [x], b + [x])
  {
  }

  lemma ArrangementUpdate(a: seq<real>, i: nat, b: seq<real>, j: nat, x: real)
    requires Arrangement(a, b) && i < |a| && j < |b| && a[i] == b[j]
    ensures Arrangement(a[i := x], b[j := x])
  {
  }

  /** One more trigger never lowers the raw score. */
  lemma AddingRaises(r: nat -> real, ws: seq<real>, x: real)
    requires InverseRoot(r) && x >= 0.0
    ensures Raw(r, ws + [x]) >= Raw(r, ws)
  {
    var sorted := Sort(Descending(), ws);
    SortArranges(ws);
    ArrangementSnoc(sorted, ws, x);
    RawDominates(r, ws + [x], sorted + [x]);
    DiscountedSnoc(r, sorted, x, 1);
    assert InverseRootAt(r, 1 + |sorted|);
    ShareNonNegative(x, r(1 + |sorted|));
  }

  /** A heavier trigger in the place of a lighter one never lowers the raw score. */
  lemma RaisingRaises(r: nat -> real, ws: seq<real>, i: nat, x: real)
    requires InverseRoot(r) && i < |ws| && x >= ws[i]
    ensures Raw(r, ws[i := x]) >= Raw(r, ws)
  {
    var sorted := Sort(Descending(), ws);
    SortArranges(ws);
    assert ws[i] in multiset(sorted);
    var j :| 0 <= j < |sorted| && sorted[j] == ws[i];
    ArrangementUpdate(sorted, j, ws, i, x);
    RawDominates(r, ws[i := x], sorted[j := x]);
    DiscountedUpdate(r, sorted, j, x, 1);
    assert InverseRootAt(r, 1 + j);
    ShareRises(sorted[j], x, r(1 + j));
  }

  lemma {:induction false} DiscountedNonNegative(r: nat -> real, ws: seq<real>, k: nat)
    requires InverseRoot(r) && NonNegative(ws) && k > 0
    ensures Discounted(r, ws, k) >= 0.0
  {
    if ws != [] {
      DiscountedNonNegative(r, ws[1..], k + 1);
      assert InverseRootAt(r, k);
      ShareNonNegative(ws[0], r(k));
    }
  }

  lemma RawNonNegative(r: nat -> real, ws: seq<real>)
    requires InverseRoot(r) && NonNegative(ws)
    ensures Raw(r, ws) >= 0.0
  {
    RawDominates(r, ws, ws);
    DiscountedNonNegative(r, ws, 1);
  }

  lemma RootOfOne(r: nat -> real)
    requires InverseRoot(r)
    ensures r(1) == 1.0
  {
    assert InverseRootAt(r, 1);
    var a := r(1);
    assert a * a * 1 as real == 1.0;
    ZeroFactor(a - 1.0, a + 1.0);
  }

  /** The raw score is at least the weight of any single trigger. */
  lemma RawAtLeastAny(r: nat -> real, ws: seq<real>, i: nat)
    requires InverseRoot(r) && NonNegative(ws) && i < |ws|
    ensures Raw(r, ws) >= ws[i]
  {
    var others := ws[..i] + ws[i + 1..];
    var front := [ws[i]] + others;
    CutTwice(ws, i, i + 1);
    assert Arrangement(front, ws[..i] + ws[i..i + 1] + ws[i + 1..]);
    RawDominates(r, ws, front);
    assert front[1..] == others;
    DiscountedNonNegative(r, others, 2);
    RootOfOne(r);
  }

  lemma {:induction false} RootsAntitone(r: nat -> real, j: nat, k: nat)
    requires InverseRoot(r) && 0 < j <= k
    ensures r(j) >= r(k) > 0.0
    decreases k - j
  {
    assert InverseRootAt(r, k);
    if j < k {
      RootsDecrease(r, j);
      RootsAntitone(r, j + 1, k);
    }
  }

  lemma DiscountedSplitLast(r: nat -> real, ws: seq<real>)
    requires ws != []
    ensures Discounted(r, ws, 1) == Discounted(r, ws[..|ws| - 1], 1) + Share(ws[|ws| - 1], r(|ws|))
  {
    DiscountedSnoc(r, ws[..|ws| - 1], ws[|ws| - 1], 1);
    assert ws == ws[..|ws| - 1] + [ws[|ws| - 1]];
  }

  lemma Cancel(whole: multiset<real>, a: multiset<real>, b: multiset<real>, x: real)
    requires whole + multiset{x} == a + multiset{x} + b
    ensures whole == a + b
  {
    assert whole == whole + multiset{x} - multiset{x};
    assert a + b == a + multiset{x} + b - multiset{x};
  }

  lemma DropLastBoth(a: seq<real>, b: seq<real>, merged: seq<real>)
    requires multiset(merged) == multiset(a) + multiset(b)
    requires merged != [] && a != [] && a[|a| - 1] == merged[|merged| - 1]
    ensures multiset(merged[..|merged| - 1]) == multiset(a[..|a| - 1]) + multiset(b)
    ensures |merged| == |a| + |b|
  {
    SplitLast(merged);
    SplitLast(a);
    Cancel(multiset(merged[..|merged| - 1]), multiset(a[..|a| - 1]), multiset(b), merged[|merged| - 1]);
    assert |multiset(merged)| == |multiset(a)| + |multiset(b)|;
  }

  lemma PrefixSorted(s: seq<real>, n: nat)
    requires SortedBy(Descending(), s) && n <= |s|
    ensures SortedBy(Descending(), s[..n])
  {
  }

  lemma LeastIsLast(a: seq<real>, least: real)
    requires SortedBy(Descending(), a) && least in a && forall x :: x in a ==> x >= least
    ensures a[|a| - 1] == least
  {
    assert a[|a| - 1] in a;
    var i :| 0 <= i < |a| && a[i] == least;
  }

  lemma SplitLast(a: seq<real>)
    requires a != []
    ensures multiset(a) == multiset(a[..|a| - 1]) + multiset{a[|a| - 1]}
  {
    assert a == a[..|a| - 1] + [a[|a| - 1]];
  }

  /** Merging two descending lists: every element ranks no better than in its own list. */
  lemma {:induction false} MergedIsLess(r: nat -> real, a: seq<real>, b: seq<real>, merged: seq<real>)
    requires InverseRoot(r) && NonNegative(merged)
    requires SortedBy(Descending(), merged) && SortedBy(Descending(), a) && SortedBy(Descending(), b)
    requires multiset(merged) == multiset(a) + multiset(b)
    ensures Discounted(r, merged, 1) <= Discounted(r, a, 1) + Discounted(r, b, 1)
    decreases |merged|, 1
  {
    if merged == [] {
      assert |multiset(a)| == 0 && |multiset(b)| == 0;
    } else {
      var least := merged[|merged| - 1];
      assert least in multiset(a) + multiset(b);
      forall x | x in a || x in b ensures x >= least {
        assert x in multiset(merged);
      }
      if least in a {
        LeastIsLast(a, least);
        DropLeast(r, a, b, merged);
      } else {
        LeastIsLast(b, least);
        DropLeast(r, b, a, merged);
      }
    }
  }

  lemma DropLeast(r: nat -> real, a: seq<real>, b: seq<real>, merged: seq<real>)
    requires InverseRoot(r) && NonNegative(merged)
    requires SortedBy(Descending(), merged) && SortedBy(Descending(), a) && SortedBy(Descending(), b)
    requires multiset(merged) == multiset(a) + multiset(b)
    requires merged != [] && a != [] && a[|a| - 1] == merged[|merged| - 1]
    ensures Discounted(r, merged, 1) <= Discounted(r, a, 1) + Discounted(r, b, 1)
    decreases |merged|, 0
  {
    var n, m := |merged| - 1, |a| - 1;
    DropLastBoth(a, b, merged);
    PrefixSorted(merged, n);
    PrefixSorted(a, m);
    MergedIsLess(r, a[..m], b, merged[..n]);
    LastShares(r, a, merged);
  }

  lemma LastShares(r: nat -> real, a: seq<real>, merged: seq<real>)
    requires InverseRoot(r) && 0 < |a| <= |merged| && a[|a| - 1] == merged[|merged| - 1] >= 0.0
    ensures Discounted(r, merged, 1) - Discounted(r, merged[..|merged| - 1], 1)
         <= Discounted(r, a, 1) - Discounted(r, a[..|a| - 1], 1)
  {
    DiscountedSplitLast(r, merged);
    DiscountedSplitLast(r, a);
    RootsAntitone(r, |a|, |merged|);
    ShareMonotone(merged[|merged| - 1], a[|a| - 1], r(|merged|), r(|a|));
  }

  /** Diminishing returns: together, two lists of triggers score at most what they score apart. */
  lemma RawSubadditive(r: nat -> real, a: seq<real>, b: seq<real>)
    requires InverseRoot(r) && NonNegative(a) && NonNegative(b)
    ensures Raw(r, a + b) <= Raw(r, a) + Raw(r, b)
  {
    SortSorts(Descending(), a);
    SortSorts(Descending(), b);
    SortSorts(Descending(), a + b);
    var merged := Sort(Descending(), a + b);
    forall i | 0 <= i < |merged| ensures merged[i] >= 0.0 {
      assert merged[i] in multiset(merged);
      assert merged[i] in a + b;
    }
    MergedIsLess(r, Sort(Descending(), a), Sort(Descending(), b), merged);
  }
}
