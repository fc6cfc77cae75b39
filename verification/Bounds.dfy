/** How high the shipped rules can score, and how low a flagged account can
    (crates/rules_engine/src/rules.rs:11-24 with crates/scoring/src/lib.rs:20-77). */
module Bounds {
  import opened Common
  import opened Sorting
  import opened Scoring
  import opened ScoreTheorems
  import opened Rules
  import opened Engine

  /** The heaviest trigger each shipped rule can fire, when `large_transfer` weighs at most `top`. */
  function Ceilings(top: real): seq<real> {
    [top, 3.0, 3.0, 6.0, 3.0, 1.0, 6.0, 6.0, 3.0, 3.0]
  }

  /** Rule `k` never fires heavier than its ceiling. */
  ghost predicate UnderCeilings(rules: seq<Rule>, ceilings: seq<real>, tx: Transaction, ctx: RuleContext, config: RulesConfig) {
    && |rules| == |ceilings|
    && forall k :: 0 <= k < |rules| ==>
         && ceilings[k] >= 0.0
         && var verdict := rules[k].check(tx, ctx, config);
            verdict.Some? ==> WeightFor(DEFAULT_WEIGHTS, verdict.value) <= ceilings[k]
  }

  /** Silent rules filled in and light triggers made heavier, one rule at a time. */
  lemma {:induction false} FiredUnderCeilings(r: nat -> real, before: seq<real>, rules: seq<Rule>, ceilings: seq<real>, tx: Transaction, ctx: RuleContext, config: RulesConfig)
    requires InverseRoot(r) && UnderCeilings(rules, ceilings, tx, ctx, config)
    ensures Raw(r, before + Weights(DEFAULT_WEIGHTS, Fired(rules, tx, ctx, config))) <= Raw(r, before + ceilings)
    decreases |rules|
  {
    var ws := Weights(DEFAULT_WEIGHTS, Fired(rules, tx, ctx, config));
    if rules == [] {
      assert before + ws == before + ceilings;
    } else {
      var rest := Weights(DEFAULT_WEIGHTS, Fired(rules[1..], tx, ctx, config));
      var top := ceilings[0];
      FiredUnderCeilings(r, before + [top], rules[1..], ceilings[1..], tx, ctx, config);
      assert before + [top] + ceilings[1..] == before + ceilings;
      match rules[0].check(tx, ctx, config)
      case None =>
        assert ws == rest;
        AddingRaises(r, before + rest, top);
        MiddleToEnd(before, top, rest);
        SameRaw(r, before + [top] + rest, before + rest + [top]);
      case Some(severity) =>
        var x := WeightFor(DEFAULT_WEIGHTS, severity);
        assert ws == [x] + rest;
        assert before + ws == before + [x] + rest;
        RaisingRaises(r, before + [x] + rest, |before|, top);
        assert (before + [x] + rest)[|before| := top] == before + [top] + rest;
    }
  }

  lemma MiddleToEnd(a: seq<real>, x: real, b: seq<real>)
    ensures Arrangement(a + [x] + b, a + b + [x])
  {
  }

  lemma DefaultUnderCeilings(tx: Transaction, ctx: RuleContext, config: RulesConfig, top: real)
    requires top == 12.0 || (top == 6.0 && LargeTransfer(tx, ctx, config) != Some(Critical))
    ensures UnderCeilings(DEFAULT_RULES, Ceilings(top), tx, ctx, config)
  {
    forall k | 0 <= k < |DEFAULT_RULES|
      ensures Ceilings(top)[k] >= 0.0
      ensures var verdict := DEFAULT_RULES[k].check(tx, ctx, config);
              verdict.Some? ==> WeightFor(DEFAULT_WEIGHTS, verdict.value) <= Ceilings(top)[k]
    {
      CeilingHolds(k, tx, ctx, config, top);
    }
  }

  lemma CeilingHolds(k: nat, tx: Transaction, ctx: RuleContext, config: RulesConfig, top: real)
    requires k < 10 && (top == 12.0 || (top == 6.0 && LargeTransfer(tx, ctx, config) != Some(Critical)))
    ensures Ceilings(top)[k] >= 0.0
    ensures var verdict := DEFAULT_RULES[k].check(tx, ctx, config);
            verdict.Some? ==> WeightFor(DEFAULT_WEIGHTS, verdict.value) <= Ceilings(top)[k]
  {
    if k == 0 {
    } else if k == 3 || k == 6 || k == 7 {
    } else if k == 5 {
    } else {
    }
  }

  // ---------- The sum of the ceilings ----------

  function Sorted(top: real): seq<real> {
    [top, 6.0, 6.0, 6.0, 3.0, 3.0, 3.0, 3.0, 3.0, 1.0]
  }

  lemma CeilingsArranged(top: real)
    ensures Arrangement(Sorted(top), Ceilings(top))
  {
  }

  lemma SortedDescends(top: real)
    requires top >= 6.0
    ensures SortedBy(Descending(), Sorted(top))
  {
  }

  lemma RawOfDescending(r: nat -> real, ws: seq<real>)
    requires SortedBy(Descending(), ws)
    ensures Raw(r, ws) == Discounted(r, ws, 1)
  {
    SortArranges(ws);
    SortedUnique(Descending(), Sort(Descending(), ws), ws);
  }

  lemma RawOfSorted(r: nat -> real, top: real)
    requires top >= 6.0
    ensures Raw(r, Ceilings(top)) == Discounted(r, Sorted(top), 1)
  {
    SortedDescends(top);
    RawOfDescending(r, Sorted(top));
    CeilingsArranged(top);
    SameRaw(r, Sorted(top), Ceilings(top));
  }

  lemma RootAtMost(r: nat -> real, k: nat, bound: real)
    requires InverseRoot(r) && k > 0 && bound > 0.0 && bound * bound * k as real >= 1.0
    ensures 0.0 < r(k) <= bound
  {
    assert InverseRootAt(r, k);
    var a, n := r(k), k as real;
    assert (bound - a) * ((bound + a) * n) == bound * bound * n - a * a * n;
    NonNegativeFactor(bound - a, (bound + a) * n);
  }

  lemma DiscountedLast(r: nat -> real, x: real, k: nat)
    ensures Discounted(r, [x], k) == Share(x, r(k))
  {
    DiscountedCons(r, x, [], k);
    assert [x] + [] == [x];
  }

  lemma LightHalf(r: nat -> real)
    requires InverseRoot(r)
    ensures Discounted(r, [3.0, 3.0, 3.0, 3.0, 3.0, 1.0], 5) <= 6.0773
  {
    RootAtMost(r, 5, 0.44722);
    RootAtMost(r, 6, 0.40825);
    RootAtMost(r, 7, 0.37797);
    RootAtMost(r, 8, 0.35356);
    RootAtMost(r, 9, 0.33334);
    RootAtMost(r, 10, 0.31623);
    DiscountedCons(r, 3.0, [3.0, 3.0, 3.0, 3.0, 1.0], 5);
    DiscountedCons(r, 3.0, [3.0, 3.0, 3.0, 1.0], 6);
    DiscountedCons(r, 3.0, [3.0, 3.0, 1.0], 7);
    DiscountedCons(r, 3.0, [3.0, 1.0], 8);
    DiscountedCons(r, 3.0, [1.0], 9);
    DiscountedLast(r, 1.0, 10);
  }

  lemma CeilingSum(r: nat -> real, top: real)
    requires InverseRoot(r) && top >= 6.0
    ensures Raw(r, Ceilings(top)) <= top + 16.785
  {
    RawOfSorted(r, top);
    RootOfOne(r);
    RootAtMost(r, 2, 0.70711);
    RootAtMost(r, 3, 0.57736);
    RootAtMost(r, 4, 0.5);
    LightHalf(r);
    var light := [3.0, 3.0, 3.0, 3.0, 3.0, 1.0];
    assert Sorted(top) == [top] + ([6.0] + ([6.0] + ([6.0] + light)));
    DiscountedCons(r, top, [6.0] + ([6.0] + ([6.0] + light)), 1);
    DiscountedCons(r, 6.0, [6.0] + ([6.0] + light), 2);
    DiscountedCons(r, 6.0, [6.0] + light, 3);
    DiscountedCons(r, 6.0, light, 4);
  }

  /** What the service assigns to a transaction under the shipped rules and weights. */
  function ShippedScore(r: nat -> real, tx: Transaction, ctx: RuleContext, config: RulesConfig): real {
    ComputeScore(r, Evaluate(DEFAULT_RULES, tx, ctx, config), DEFAULT_WEIGHTS)
  }

  lemma ScoreUnderCeilings(r: nat -> real, tx: Transaction, ctx: RuleContext, config: RulesConfig, top: real)
    requires InverseRoot(r)
    requires top == 12.0 || (top == 6.0 && LargeTransfer(tx, ctx, config) != Some(Critical))
    ensures ShippedScore(r, tx, ctx, config) <= Capped(top + 16.785, 12.0)
  {
    var fired := Fired(DEFAULT_RULES, tx, ctx, config);
    var ws := Weights(DEFAULT_WEIGHTS, fired);
    ByIdIsPreorder();
    SortSorts(ById(), fired);
    ScoreIsBestArrangement(r, fired, DEFAULT_WEIGHTS);
    ScoreFromRaw(r, fired, DEFAULT_WEIGHTS);
    DefaultUnderCeilings(tx, ctx, config, top);
    FiredUnderCeilings(r, [], DEFAULT_RULES, Ceilings(top), tx, ctx, config);
    assert [] + ws == ws && [] + Ceilings(top) == Ceilings(top);
    CeilingSum(r, top);
    CappedMonotone(Raw(r, ws), top + 16.785, 12.0);
  }

  /** No transaction scores 80, and the Critical band (from 75) is reached only by a transfer of
      more than ten times the large-transfer threshold: all other rules together stay below 64. */
  lemma ScoreBelowEighty(r: nat -> real, tx: Transaction, ctx: RuleContext, config: RulesConfig)
    requires InverseRoot(r)
    ensures ShippedScore(r, tx, ctx, config) < 80.0
    ensures tx.amount <= config.largeTransferThreshold * 10.0 ==> ShippedScore(r, tx, ctx, config) < 64.0
    ensures SeverityForScore(ShippedScore(r, tx, ctx, config)) == Critical ==> tx.amount > config.largeTransferThreshold * 10.0
  {
    ScoreUnderCeilings(r, tx, ctx, config, 12.0);
    if tx.amount <= config.largeTransferThreshold * 10.0 {
      ScoreUnderCeilings(r, tx, ctx, config, 6.0);
    }
  }

  /** A transaction of a flagged account always triggers, and scores at least 100 * 6 / 36. */
  lemma FlaggedScoresAtLeast(r: nat -> real, tx: Transaction, ctx: RuleContext, config: RulesConfig)
    requires InverseRoot(r) && exists account :: account in Parties(tx) && account in ctx.flaggedAccounts
    ensures Evaluate(DEFAULT_RULES, tx, ctx, config) != []
    ensures ShippedScore(r, tx, ctx, config) >= 100.0 * 6.0 / 36.0
  {
    var t := FlaggedRuleFires(tx, ctx, config);
    ScoreAtLeastAnyTrigger(r, Evaluate(DEFAULT_RULES, tx, ctx, config), t, DEFAULT_WEIGHTS);
  }

  lemma FlaggedRuleFires(tx: Transaction, ctx: RuleContext, config: RulesConfig) returns (t: TriggeredRule)
    requires exists account :: account in Parties(tx) && account in ctx.flaggedAccounts
    ensures t.severity == High && t in Evaluate(DEFAULT_RULES, tx, ctx, config)
  {
    assert FlaggedAccountInteraction(tx, ctx, config) == Some(High);
    t := TriggeredRule(DEFAULT_RULES[3].id, High);
    assert t in FireOne(DEFAULT_RULES[3], tx, ctx, config);
    FiredBy(DEFAULT_RULES, t, tx, ctx, config);
    ByIdIsPreorder();
    SortSorts(ById(), Fired(DEFAULT_RULES, tx, ctx, config));
    assert t in multiset(Evaluate(DEFAULT_RULES, tx, ctx, config));
  }
}
