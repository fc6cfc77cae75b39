/** The severity bands by what trigger lists make of them, under the default weights
    (crates/scoring/src/lib.rs:20-78): for each of the cuts at 20, 45 and 75, a list whose score lies just
    below and one whose score lies just above. */
module Bands {
  import opened Common
  import opened Sorting
  import opened Scoring
  import opened ScoreTheorems
  import opened Bounds

  function Severities(ts: seq<TriggeredRule>): (s: seq<Severity>)
    ensures |s| == |ts|
    ensures forall i :: 0 <= i < |ts| ==> s[i] == ts[i].severity
  {
    seq(|ts|, i requires 0 <= i < |ts| => ts[i].severity)
  }

  /** The score of triggers whose weights are these, heaviest first. */
  lemma ScoreOfDescending(r: nat -> real, ts: seq<TriggeredRule>, ws: seq<real>)
    requires Weights(DEFAULT_WEIGHTS, ts) == ws && SortedBy(Descending(), ws)
    ensures var scaled := Discounted(r, ws, 1) / 36.0 * 100.0;
            ComputeScore(r, ts, DEFAULT_WEIGHTS) == if scaled < 100.0 then scaled else 100.0
  {
    ScoreFromRaw(r, ts, DEFAULT_WEIGHTS);
    RawOfDescending(r, ws);
  }

  lemma RootAtLeast(r: nat -> real, k: nat, bound: real)
    requires InverseRoot(r) && k > 0 && bound > 0.0 && bound * bound * k as real <= 1.0
    ensures bound <= r(k)
  {
    assert InverseRootAt(r, k);
    var a, n := r(k), k as real;
    assert (a - bound) * ((a + bound) * n) == a * a * n - bound * bound * n;
    NonNegativeFactor(a - bound, (a + bound) * n);
  }

  lemma SmallRoots(r: nat -> real)
    requires InverseRoot(r)
    ensures r(1) == 1.0 && r(4) == 0.5
    ensures 0.7071 <= r(2) <= 0.70711 && 0.57735 <= r(3) <= 0.57736 && 0.44721 <= r(5) <= 0.44722
  {
    RootOfOne(r);
    RootAtLeast(r, 4, 0.5);
    RootAtMost(r, 4, 0.5);
    RootAtLeast(r, 2, 0.7071);
    RootAtMost(r, 2, 0.70711);
    RootAtLeast(r, 3, 0.57735);
    RootAtMost(r, 3, 0.57736);
    RootAtLeast(r, 5, 0.44721);
    RootAtMost(r, 5, 0.44722);
  }

  lemma TwoDiscounted(r: nat -> real, a: real, b: real)
    ensures Discounted(r, [a, b], 1) == Share(a, r(1)) + Share(b, r(2))
  {
    DiscountedLast(r, a, 1);
    DiscountedSnoc(r, [a], b, 1);
    assert [a] + [b] == [a, b];
  }

  lemma ThreeDiscounted(r: nat -> real, a: real, b: real, c: real)
    ensures Discounted(r, [a, b, c], 1) == Share(a, r(1)) + Share(b, r(2)) + Share(c, r(3))
  {
    TwoDiscounted(r, a, b);
    DiscountedSnoc(r, [a, b], c, 1);
    assert [a, b] + [c] == [a, b, c];
  }

  lemma FourDiscounted(r: nat -> real, a: real, b: real, c: real, d: real)
    ensures Discounted(r, [a, b, c, d], 1) == Share(a, r(1)) + Share(b, r(2)) + Share(c, r(3)) + Share(d, r(4))
  {
    ThreeDiscounted(r, a, b, c);
    DiscountedSnoc(r, [a, b, c], d, 1);
    assert [a, b, c] + [d] == [a, b, c, d];
  }

  lemma FiveDiscounted(r: nat -> real, a: real, b: real, c: real, d: real, e: real)
    ensures Discounted(r, [a, b, c, d, e], 1) == Share(a, r(1)) + Share(b, r(2)) + Share(c, r(3)) + Share(d, r(4)) + Share(e, r(5))
  {
    FourDiscounted(r, a, b, c, d);
    DiscountedSnoc(r, [a, b, c, d], e, 1);
    assert [a, b, c, d] + [e] == [a, b, c, d, e];
  }

  /** Three Medium triggers score a little over 19 and make a Low alert, one Low trigger more makes it Medium. */
  lemma CutAtTwenty(r: nat -> real, ts: seq<TriggeredRule>)
    requires InverseRoot(r)
    ensures Severities(ts) == [Medium, Medium, Medium] ==>
              19.0 < ComputeScore(r, ts, DEFAULT_WEIGHTS) < 20.0 && SeverityForScore(ComputeScore(r, ts, DEFAULT_WEIGHTS)) == Low
    ensures Severities(ts) == [Medium, Medium, Medium, Low] ==>
              20.0 < ComputeScore(r, ts, DEFAULT_WEIGHTS) < 20.5 && SeverityForScore(ComputeScore(r, ts, DEFAULT_WEIGHTS)) == Medium
  {
    SmallRoots(r);
    if Severities(ts) == [Medium, Medium, Medium] {
      ScoreOfDescending(r, ts, [3.0, 3.0, 3.0]);
      ThreeDiscounted(r, 3.0, 3.0, 3.0);
    }
    if Severities(ts) == [Medium, Medium, Medium, Low] {
      ScoreOfDescending(r, ts, [3.0, 3.0, 3.0, 1.0]);
      FourDiscounted(r, 3.0, 3.0, 3.0, 1.0);
    }
  }

  /** A Critical trigger makes a Medium alert with two Medium ones, and a High one with a single High one. */
  lemma CutAtFortyFive(r: nat -> real, ts: seq<TriggeredRule>)
    requires InverseRoot(r)
    ensures Severities(ts) == [Critical, Medium, Medium] ==>
              44.0 < ComputeScore(r, ts, DEFAULT_WEIGHTS) < 45.0 && SeverityForScore(ComputeScore(r, ts, DEFAULT_WEIGHTS)) == Medium
    ensures Severities(ts) == [Critical, High] ==>
              45.0 < ComputeScore(r, ts, DEFAULT_WEIGHTS) < 45.2 && SeverityForScore(ComputeScore(r, ts, DEFAULT_WEIGHTS)) == High
  {
    SmallRoots(r);
    if Severities(ts) == [Critical, Medium, Medium] {
      ScoreOfDescending(r, ts, [12.0, 3.0, 3.0]);
      ThreeDiscounted(r, 12.0, 3.0, 3.0);
    }
    if Severities(ts) == [Critical, High] {
      ScoreOfDescending(r, ts, [12.0, 6.0]);
      TwoDiscounted(r, 12.0, 6.0);
    }
  }

  /** A transfer of over ten times the threshold, by a flagged account, completing a round trip. */
  lemma CriticalWithTwoHighs(r: nat -> real, ts: seq<TriggeredRule>)
    requires InverseRoot(r) && Severities(ts) == [Critical, High, High]
    ensures 54.7 < ComputeScore(r, ts, DEFAULT_WEIGHTS) < 54.8 && SeverityForScore(ComputeScore(r, ts, DEFAULT_WEIGHTS)) == High
  {
    SmallRoots(r);
    ScoreOfDescending(r, ts, [12.0, 6.0, 6.0]);
    ThreeDiscounted(r, 12.0, 6.0, 6.0);
  }

  /** Two Critical and two High triggers still make a High alert; */
  lemma BelowSeventyFive(r: nat -> real, ts: seq<TriggeredRule>)
    requires InverseRoot(r) && Severities(ts) == [Critical, Critical, High, High]
    ensures 74.8 < ComputeScore(r, ts, DEFAULT_WEIGHTS) < 75.0 && SeverityForScore(ComputeScore(r, ts, DEFAULT_WEIGHTS)) == High
  {
    SmallRoots(r);
    ScoreOfDescending(r, ts, [12.0, 12.0, 6.0, 6.0]);
    FourDiscounted(r, 12.0, 12.0, 6.0, 6.0);
  }

  /** two Critical, one High, two Medium and one Low make a Critical one. */
  lemma AboveSeventyFive(r: nat -> real, ts: seq<TriggeredRule>)
    requires InverseRoot(r) && Severities(ts) == [Critical, Critical, High, Medium, Medium, Low]
    ensures 75.0 < ComputeScore(r, ts, DEFAULT_WEIGHTS) < 75.6 && SeverityForScore(ComputeScore(r, ts, DEFAULT_WEIGHTS)) == Critical
  {
    SmallRoots(r);
    RootAtLeast(r, 6, 0.40824);
    RootAtMost(r, 6, 0.40825);
    var five := [12.0, 12.0, 6.0, 3.0, 3.0];
    assert five + [1.0] == [12.0, 12.0, 6.0, 3.0, 3.0, 1.0];
    ScoreOfDescending(r, ts, five + [1.0]);
    FiveDiscounted(r, 12.0, 12.0, 6.0, 3.0, 3.0);
    DiscountedSnoc(r, five, 1.0, 1);
  }

  /** The weight that `w` gives to triggers of this severity. */
  predicate Weighs(w: ScoringWeights, severity: Severity, x: real) {
    && (severity == Low ==> x == w.low)
    && (severity == Medium ==> x == w.medium)
    && (severity == High ==> x == w.high)
    && (severity == Critical ==> x == w.critical)
  }

  /** Under any weights, a trigger on its own makes an alert of a band that is told by the ratio of its weight
      to that of a Critical one: from 9/4, from 27/20, from 3/5, or below. */
  lemma LoneTriggerBandIs(r: nat -> real, t: TriggeredRule, w: ScoringWeights, x: real)
    requires InverseRoot(r) && w.critical > 0.0 && Weighs(w, t.severity, x)
    ensures SeverityForScore(ComputeScore(r, [t], w))
         == if 4.0 * x >= 9.0 * w.critical then Critical
            else if 20.0 * x >= 27.0 * w.critical then High
            else if 5.0 * x >= 3.0 * w.critical then Medium
            else Low
  {
    LoneScore(r, t, w);
    Scaled(x, w.critical);
  }

  lemma Scaled(x: real, critical: real)
    requires critical > 0.0
    ensures x / (critical * 3.0) * 100.0 >= 75.0 <==> 4.0 * x >= 9.0 * critical
    ensures x / (critical * 3.0) * 100.0 >= 45.0 <==> 20.0 * x >= 27.0 * critical
    ensures x / (critical * 3.0) * 100.0 >= 20.0 <==> 5.0 * x >= 3.0 * critical
  {
    var unit := critical * 3.0;
    RatioAtLeast(x, unit, 0.75);
    RatioAtLeast(x, unit, 0.45);
    RatioAtLeast(x, unit, 0.2);
  }

  lemma RatioAtLeast(x: real, unit: real, bound: real)
    requires unit > 0.0
    ensures x / unit >= bound <==> x >= bound * unit
  {
    var ratio := x / unit;
    assert ratio * unit == x;
    assert (ratio - bound) * unit == x - bound * unit;
    if ratio >= bound {
      assert (ratio - bound) * unit >= 0.0;
    } else {
      assert (bound - ratio) * unit > 0.0;
    }
  }
}
