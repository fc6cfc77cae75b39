/** What each history-based rule looks for, stated over positions of the history instead of the filters,
    maxima, averages and sets it is computed with (crates/rules_engine/src/rules.rs, context.rs). */
module RuleMeaning {
  import opened Common
  import opened Rules

  /** The positions at which `keep` holds. */
  function Positions(keep: Transaction -> bool, history: seq<Transaction>): set<int> {
    set i | 0 <= i < |history| && keep(history[i])
  }

  /** Filtering keeps as many elements as there are such positions. */
  lemma {:induction false} FilterCounts(keep: Transaction -> bool, s: seq<Transaction>)
    ensures |Filter(keep, s)| == |Positions(keep, s)|
  {
    if s == [] {
      assert Positions(keep, s) == {};
    } else {
      var n := |s| - 1;
      FilterCounts(keep, s[..n]);
      if keep(s[n]) {
        assert Positions(keep, s) == Positions(keep, s[..n]) + {n};
      } else {
        assert Positions(keep, s) == Positions(keep, s[..n]);
      }
    }
  }

  lemma {:induction false} FilterTwice(first: Transaction -> bool, second: Transaction -> bool, both: Transaction -> bool, s: seq<Transaction>)
    requires forall t :: both(t) <==> first(t) && second(t)
    ensures Filter(second, Filter(first, s)) == Filter(both, s)
  {
    if s != [] {
      var n := |s| - 1;
      FilterTwice(first, second, both, s[..n]);
      assert both(s[n]) <==> first(s[n]) && second(s[n]);
      if first(s[n]) {
        FilterSnoc(second, Filter(first, s[..n]), s[n]);
      } else {
        assert Filter(first, s) == Filter(first, s[..n]);
      }
    }
  }

  /** Whole seconds are counted down, so a window of `w` seconds reaches back almost `w + 1` of them.
      Nothing later than the transaction is in it, and a negative window is empty. */
  lemma WindowIs(h: Transaction, at: Time, w: int)
    ensures InWindow(h, at, w) <==> w >= 0 && at - (w + 1) * NANOS_PER_SECOND < h.timestamp <= at
  {
    var age := at - h.timestamp;
    if age >= 0 {
      assert NumSeconds(age) == age / NANOS_PER_SECOND >= 0;
      assert age / NANOS_PER_SECOND <= w <==> age < (w + 1) * NANOS_PER_SECOND;
    }
  }

  lemma FrequencyFiresIff(tx: Transaction, ctx: RuleContext, config: RulesConfig)
    ensures var recent := Positions((h: Transaction) => InWindow(h, tx.timestamp, config.frequencyWindowSecs), ctx.accountHistory);
            AbnormalFrequency(tx, ctx, config) == if |recent| >= config.frequencyCountThreshold - 1 then Some(Medium) else None
  {
    FilterCounts((h: Transaction) => InWindow(h, tx.timestamp, config.frequencyWindowSecs), ctx.accountHistory);
  }

  /** Payments without a destination count as having the same one. */
  lemma RepeatedFiresIff(tx: Transaction, ctx: RuleContext, config: RulesConfig)
    ensures var alike := Positions((h: Transaction) => InWindow(h, tx.timestamp, config.repeatedTxWindowSecs) && h.destination == tx.destination,
                                   ctx.accountHistory);
            RepeatedTransaction(tx, ctx, config) == if |alike| >= config.repeatedTxCountThreshold - 1 then Some(Medium) else None
  {
    var recent := (h: Transaction) => InWindow(h, tx.timestamp, config.repeatedTxWindowSecs);
    var alike := (h: Transaction) => InWindow(h, tx.timestamp, config.repeatedTxWindowSecs) && h.destination == tx.destination;
    FilterTwice(recent, (h: Transaction) => h.destination == tx.destination, alike, ctx.accountHistory);
    FilterCounts(alike, ctx.accountHistory);
  }

  /** A return leg at the very instant of the transaction does not count. */
  lemma RoundTripFiresIff(tx: Transaction, ctx: RuleContext, config: RulesConfig)
    ensures RoundTripWashTrading(tx, ctx, config) ==
            if
              exists i :: 0 <= i < |ctx.accountHistory|
                && ReturnLeg(ctx.accountHistory[i], tx) && InWindow(ctx.accountHistory[i], tx.timestamp, config.washTradingWindowSecs)
            then Some(High) else None
  {
    var keep := (h: Transaction) => InWindow(h, tx.timestamp, config.washTradingWindowSecs);
    var window := WithinWindow(ctx.accountHistory, tx.timestamp, config.washTradingWindowSecs);
    forall t ensures t in window <==> t in ctx.accountHistory && keep(t) {
      FilterMembers(keep, ctx.accountHistory, t);
    }
    if k :| 0 <= k < |window| && ReturnLeg(window[k], tx) {
      assert window[k] in ctx.accountHistory;
    }
    if i :| 0 <= i < |ctx.accountHistory| && ReturnLeg(ctx.accountHistory[i], tx) && keep(ctx.accountHistory[i]) {
      assert ctx.accountHistory[i] in window;
    }
  }

  predicate PriorOutgoingOf(h: Transaction, tx: Transaction) {
    h.source == tx.source && h.timestamp < tx.timestamp
  }

  lemma SecondsOrder(longer: int, shorter: int)
    requires longer >= shorter >= 0
    ensures NumSeconds(longer) >= NumSeconds(shorter)
  {
  }

  /** The account has sent something before, and everything it has sent before is old enough. */
  predicate Reawakens(tx: Transaction, history: seq<Transaction>, gapSecs: int) {
    && (exists i :: 0 <= i < |history| && PriorOutgoingOf(history[i], tx))
    && (forall i :: 0 <= i < |history| && PriorOutgoingOf(history[i], tx) ==> NumSeconds(tx.timestamp - history[i].timestamp) >= gapSecs)
  }

  lemma DormantFiresIff(tx: Transaction, ctx: RuleContext, config: RulesConfig)
    ensures DormantAccountReactivation(tx, ctx, config) ==
            if
              tx.amount >= config.dormantReactivationMinAmount
              && Reawakens(tx, ctx.accountHistory, config.dormantReactivationGapSecs)
            then Some(High) else None
  {
    var keep := (h: Transaction) => h.source == tx.source && h.timestamp < tx.timestamp;
    var history, prior := ctx.accountHistory, PriorOutgoing(tx, ctx.accountHistory);
    forall t ensures t in prior <==> t in history && PriorOutgoingOf(t, tx) {
      FilterMembers(keep, history, t);
    }
    if prior == [] {
      assert forall i :: 0 <= i < |history| && PriorOutgoingOf(history[i], tx) ==> history[i] in prior;
    } else {
      var latest := LatestTime(prior);
      var k :| 0 <= k < |prior| && prior[k].timestamp == latest;
      assert prior[k] in history;
      var at :| 0 <= at < |history| && history[at] == prior[k];
      forall i | 0 <= i < |history| && PriorOutgoingOf(history[i], tx)
        ensures NumSeconds(tx.timestamp - history[i].timestamp) >= NumSeconds(tx.timestamp - latest)
      {
        assert history[i] in prior;
        SecondsOrder(tx.timestamp - history[i].timestamp, tx.timestamp - latest);
      }
    }
  }

  lemma NewAccountFiresIff(tx: Transaction, ctx: RuleContext, config: RulesConfig)
    ensures NewAccountHighValueOutflow(tx, ctx, config) ==
            if
              && tx.destination.Some?
              && tx.amount >= config.newAccountOutflowThreshold
              && |Positions((h: Transaction) => PriorOutgoingOf(h, tx), ctx.accountHistory)| <= config.newAccountHistoryThreshold
            then Some(Medium) else None
  {
    var keep := (h: Transaction) => h.source == tx.source && h.timestamp < tx.timestamp;
    FilterCounts(keep, ctx.accountHistory);
    assert Positions(keep, ctx.accountHistory) == Positions((h: Transaction) => PriorOutgoingOf(h, tx), ctx.accountHistory);
  }

  /** The asset was moved within the window, or is being moved now. */
  predicate Touched(asset: Asset, tx: Transaction, ctx: RuleContext, w: int) {
    asset == tx.asset
    || exists i :: 0 <= i < |ctx.accountHistory| && ctx.accountHistory[i].asset == asset && InWindow(ctx.accountHistory[i], tx.timestamp, w)
  }

  ghost predicate AllTouched(assets: set<Asset>, tx: Transaction, ctx: RuleContext, w: int) {
    forall asset :: asset in assets ==> Touched(asset, tx, ctx, w)
  }

  /** Some set of assets, as many as the threshold asks for, was touched. */
  ghost predicate TouchesEnough(tx: Transaction, ctx: RuleContext, config: RulesConfig) {
    exists assets :: |assets| >= config.crossAssetConversionCountThreshold && AllTouched(assets, tx, ctx, config.crossAssetConversionWindowSecs)
  }

  lemma CrossAssetFiresIff(tx: Transaction, ctx: RuleContext, config: RulesConfig)
    ensures CrossAssetRapidConversion(tx, ctx, config) == if TouchesEnough(tx, ctx, config) then Some(Medium) else None
  {
    var w := config.crossAssetConversionWindowSecs;
    var keep := (h: Transaction) => InWindow(h, tx.timestamp, w);
    var window := WithinWindow(ctx.accountHistory, tx.timestamp, w);
    var all := AssetsOf(window) + {tx.asset};
    forall t ensures t in window <==> t in ctx.accountHistory && keep(t) {
      FilterMembers(keep, ctx.accountHistory, t);
    }
    forall asset ensures asset in all <==> Touched(asset, tx, ctx, w) {
      if asset in AssetsOf(window) {
        var t :| t in window && t.asset == asset;
        assert t in ctx.accountHistory;
      }
      if i :| 0 <= i < |ctx.accountHistory| && ctx.accountHistory[i].asset == asset && keep(ctx.accountHistory[i]) {
        assert ctx.accountHistory[i] in window;
      }
    }
    assert AllTouched(all, tx, ctx, w);
    forall assets | AllTouched(assets, tx, ctx, w) ensures |assets| <= |all| {
      SubsetSize(assets, all);
    }
  }

  lemma RatioAgainstAverage(amount: real, sum: real, n: real, multiplier: real)
    requires n > 0.0
    ensures sum / n > 0.0 <==> sum > 0.0
    ensures sum > 0.0 ==> (amount / (sum / n) >= multiplier <==> amount * n >= multiplier * sum)
  {
    var average := sum / n;
    assert average * n == sum;
    if sum > 0.0 {
      assert average > 0.0;
      var ratio := amount / average;
      assert ratio * average == amount;
      assert amount * n == ratio * sum;
    }
  }

  /** `n` payments in the asset that add up to a positive sum: this one, taken `n` times, is at least
      `multiplier` times the sum. A minimum history of zero still needs one. */
  lemma UnusualFiresIff(tx: Transaction, ctx: RuleContext, config: RulesConfig)
    ensures var keep := (h: Transaction) => h.asset == tx.asset;
            var n := |Positions(keep, ctx.accountHistory)|;
            var sum := SumAmounts(Filter(keep, ctx.accountHistory));
            UnusualAssetMovement(tx, ctx, config) ==
            if
              n >= 1 && n >= config.unusualAssetMinHistory && sum > 0.0
              && tx.amount * n as real >= config.unusualAssetMovementMultiplier * sum
            then Some(Medium) else None
  {
    var keep := (h: Transaction) => h.asset == tx.asset;
    FilterCounts(keep, ctx.accountHistory);
    var same := Filter(keep, ctx.accountHistory);
    if same != [] {
      RatioAgainstAverage(tx.amount, SumAmounts(same), |same| as real, config.unusualAssetMovementMultiplier);
    }
  }
}
