/** What the shipped engine reports, id by id: under which circumstances each trigger is in its output, and
    with which severity (crates/rules_engine/src/rules.rs:11-523, lib.rs:63-87). */
module ShippedRules {
  import opened Common
  import opened Rules
  import opened RuleMeaning
  import opened Engine

  /** Not after `at`, and less than `w + 1` seconds before it. */
  predicate Recent(h: Transaction, at: Time, w: int) {
    w >= 0 && at - (w + 1) * 1_000_000_000 < h.timestamp <= at
  }

  /** The trigger is in the shipped engine's output. */
  ghost predicate Reported(id: string, severity: Severity, tx: Transaction, ctx: RuleContext, config: RulesConfig) {
    TriggeredRule(id, severity) in Evaluate(DEFAULT_RULES, tx, ctx, config)
  }

  lemma DefaultReports(k: nat, severity: Severity, tx: Transaction, ctx: RuleContext, config: RulesConfig)
    requires k < |DEFAULT_RULES|
    ensures Reported(DEFAULT_RULES[k].id, severity, tx, ctx, config) <==> DEFAULT_RULES[k].check(tx, ctx, config) == Some(severity)
  {
    EvaluateReports(DEFAULT_RULES, tx, ctx, config);
    DefaultIdsDistinct();
    UniqueReport(DEFAULT_RULES, k, severity, tx, ctx, config);
  }

  lemma UniqueReport(rules: seq<Rule>, k: nat, severity: Severity, tx: Transaction, ctx: RuleContext, config: RulesConfig)
    requires k < |rules| && DistinctIds(rules)
    ensures FiredByRule(rules, TriggeredRule(rules[k].id, severity), tx, ctx, config) <==> rules[k].check(tx, ctx, config) == Some(severity)
  {
  }

  lemma LargeTransferReported(severity: Severity, tx: Transaction, ctx: RuleContext, config: RulesConfig)
    ensures Reported("large_transfer", severity, tx, ctx, config) <==>
              && tx.amount > config.largeTransferThreshold
              && severity == if tx.amount > config.largeTransferThreshold * 10.0 then Critical else High
  {
    DefaultReports(0, severity, tx, ctx, config);
  }

  function PositionsWhere(history: seq<Transaction>, keep: Transaction -> bool): set<int> {
    set i | 0 <= i < |history| && keep(history[i])
  }

  lemma SameWhere(history: seq<Transaction>, a: Transaction -> bool, b: Transaction -> bool)
    requires forall h :: a(h) <==> b(h)
    ensures PositionsWhere(history, a) == Positions(b, history)
  {
  }

  /** The payment itself counts towards the threshold. */
  lemma RepeatedTransactionReported(severity: Severity, tx: Transaction, ctx: RuleContext, config: RulesConfig)
    ensures var alike := PositionsWhere(ctx.accountHistory,
                           (h: Transaction) => Recent(h, tx.timestamp, config.repeatedTxWindowSecs) && h.destination == tx.destination);
            Reported("repeated_transaction", severity, tx, ctx, config) <==>
              |alike| + 1 >= config.repeatedTxCountThreshold && severity == Medium
  {
    DefaultReports(1, severity, tx, ctx, config);
    RepeatedFiresIff(tx, ctx, config);
    forall h ensures InWindow(h, tx.timestamp, config.repeatedTxWindowSecs) <==> Recent(h, tx.timestamp, config.repeatedTxWindowSecs) {
      WindowIs(h, tx.timestamp, config.repeatedTxWindowSecs);
    }
    SameWhere(ctx.accountHistory,
      (h: Transaction) => Recent(h, tx.timestamp, config.repeatedTxWindowSecs) && h.destination == tx.destination,
      (h: Transaction) => InWindow(h, tx.timestamp, config.repeatedTxWindowSecs) && h.destination == tx.destination);
  }

  lemma AbnormalFrequencyReported(severity: Severity, tx: Transaction, ctx: RuleContext, config: RulesConfig)
    ensures var recent := PositionsWhere(ctx.accountHistory, (h: Transaction) => Recent(h, tx.timestamp, config.frequencyWindowSecs));
            Reported("abnormal_frequency", severity, tx, ctx, config) <==>
              |recent| + 1 >= config.frequencyCountThreshold && severity == Medium
  {
    DefaultReports(2, severity, tx, ctx, config);
    FrequencyFiresIff(tx, ctx, config);
    forall h ensures InWindow(h, tx.timestamp, config.frequencyWindowSecs) <==> Recent(h, tx.timestamp, config.frequencyWindowSecs) {
      WindowIs(h, tx.timestamp, config.frequencyWindowSecs);
    }
    SameWhere(ctx.accountHistory,
      (h: Transaction) => Recent(h, tx.timestamp, config.frequencyWindowSecs),
      (h: Transaction) => InWindow(h, tx.timestamp, config.frequencyWindowSecs));
  }

  /** A flagged account that is no party of the transaction does not matter. */
  lemma FlaggedAccountReported(severity: Severity, tx: Transaction, ctx: RuleContext, config: RulesConfig)
    ensures Reported("flagged_account_interaction", severity, tx, ctx, config) <==>
              (exists x :: x in ctx.flaggedAccounts && (x == tx.source || tx.destination == Some(x))) && severity == High
  {
    DefaultReports(3, severity, tx, ctx, config);
    if tx.source in ctx.flaggedAccounts || (tx.destination.Some? && tx.destination.value in ctx.flaggedAccounts) {
      var x := if tx.source in ctx.flaggedAccounts then tx.source else tx.destination.value;
      assert x in ctx.flaggedAccounts;
    }
  }

  /** `n` earlier payments in the asset with a positive sum: this one is at least `multiplier` times their mean. */
  lemma UnusualMovementReported(severity: Severity, tx: Transaction, ctx: RuleContext, config: RulesConfig)
    ensures var inAsset := (h: Transaction) => h.asset == tx.asset;
            var n, sum := |PositionsWhere(ctx.accountHistory, inAsset)|, SumAmounts(Filter(inAsset, ctx.accountHistory));
            Reported("unusual_asset_movement", severity, tx, ctx, config) <==>
              && n >= 1 && n >= config.unusualAssetMinHistory && sum > 0.0
              && tx.amount * n as real >= config.unusualAssetMovementMultiplier * sum
              && severity == Medium
  {
    DefaultReports(4, severity, tx, ctx, config);
    UnusualFiresIff(tx, ctx, config);
    SameWhere(ctx.accountHistory, (h: Transaction) => h.asset == tx.asset, (h: Transaction) => h.asset == tx.asset);
  }

  /** Silent exactly when no configured threshold is below the amount. */
  lemma ConfigurableThresholdReported(severity: Severity, tx: Transaction, ctx: RuleContext, config: RulesConfig)
    ensures !Reported("configurable_threshold", severity, tx, ctx, config) <==>
              (forall limit :: limit in config.customThresholds.Values ==> tx.amount <= limit) || severity != Low
  {
    DefaultReports(5, severity, tx, ctx, config);
    forall name | name in config.customThresholds ensures config.customThresholds[name] in config.customThresholds.Values {
    }
  }

  predicate SentEarlier(h: Transaction, tx: Transaction) {
    h.source == tx.source && h.timestamp < tx.timestamp
  }

  lemma LongEnough(duration: int, gapSecs: int)
    requires duration >= 0
    ensures NumSeconds(duration) >= gapSecs <==> duration >= gapSecs * 1_000_000_000
  {
  }

  lemma DormantReported(severity: Severity, tx: Transaction, ctx: RuleContext, config: RulesConfig)
    ensures Reported("dormant_account_reactivation", severity, tx, ctx, config) <==>
              && tx.amount >= config.dormantReactivationMinAmount
              && (exists h :: h in ctx.accountHistory && SentEarlier(h, tx))
              && (forall h :: h in ctx.accountHistory && SentEarlier(h, tx) ==>
                    tx.timestamp - h.timestamp >= config.dormantReactivationGapSecs * 1_000_000_000)
              && severity == High
  {
    DefaultReports(6, severity, tx, ctx, config);
    DormantFiresIff(tx, ctx, config);
    var history := ctx.accountHistory;
    if h :| h in history && SentEarlier(h, tx) {
      var i :| 0 <= i < |history| && history[i] == h;
      assert PriorOutgoingOf(history[i], tx);
    }
    if i :| 0 <= i < |history| && PriorOutgoingOf(history[i], tx) {
      assert history[i] in history && SentEarlier(history[i], tx);
    }
    forall h | h in history && SentEarlier(h, tx)
      ensures NumSeconds(tx.timestamp - h.timestamp) >= config.dormantReactivationGapSecs
         <==> tx.timestamp - h.timestamp >= config.dormantReactivationGapSecs * 1_000_000_000
    {
      LongEnough(tx.timestamp - h.timestamp, config.dormantReactivationGapSecs);
    }
    assert forall i :: 0 <= i < |history| && PriorOutgoingOf(history[i], tx) ==> history[i] in history && SentEarlier(history[i], tx);
  }

  /** An earlier payment, within the window, from this one's destination back to its source. */
  predicate ComesBack(h: Transaction, tx: Transaction, w: int) {
    tx.destination == Some(h.source) && h.destination == Some(tx.source) && h.timestamp < tx.timestamp && Recent(h, tx.timestamp, w)
  }

  lemma RoundTripReported(severity: Severity, tx: Transaction, ctx: RuleContext, config: RulesConfig)
    ensures Reported("round_trip_wash_trading", severity, tx, ctx, config) <==>
              (exists h :: h in ctx.accountHistory && ComesBack(h, tx, config.washTradingWindowSecs)) && severity == High
  {
    DefaultReports(7, severity, tx, ctx, config);
    RoundTripFiresIff(tx, ctx, config);
    var history, w := ctx.accountHistory, config.washTradingWindowSecs;
    if h :| h in history && ComesBack(h, tx, w) {
      var i :| 0 <= i < |history| && history[i] == h;
      WindowIs(h, tx.timestamp, w);
      assert ReturnLeg(history[i], tx);
    }
    if i :| 0 <= i < |history| && ReturnLeg(history[i], tx) && InWindow(history[i], tx.timestamp, w) {
      WindowIs(history[i], tx.timestamp, w);
      assert history[i] in history && ComesBack(history[i], tx, w);
    }
  }

  lemma NewAccountReported(severity: Severity, tx: Transaction, ctx: RuleContext, config: RulesConfig)
    ensures Reported("new_account_high_value_outflow", severity, tx, ctx, config) <==>
              && tx.destination != None
              && tx.amount >= config.newAccountOutflowThreshold
              && |PositionsWhere(ctx.accountHistory, (h: Transaction) => SentEarlier(h, tx))| <= config.newAccountHistoryThreshold
              && severity == Medium
  {
    DefaultReports(8, severity, tx, ctx, config);
    NewAccountFiresIff(tx, ctx, config);
    SameWhere(ctx.accountHistory, (h: Transaction) => SentEarlier(h, tx), (h: Transaction) => PriorOutgoingOf(h, tx));
  }

  ghost predicate Moved(asset: Asset, tx: Transaction, history: seq<Transaction>, w: int) {
    asset == tx.asset || exists h :: h in history && h.asset == asset && Recent(h, tx.timestamp, w)
  }

  ghost predicate AllMoved(assets: set<Asset>, tx: Transaction, history: seq<Transaction>, w: int) {
    forall asset :: asset in assets ==> Moved(asset, tx, history, w)
  }

  lemma MovedIsTouched(asset: Asset, tx: Transaction, ctx: RuleContext, w: int)
    ensures Moved(asset, tx, ctx.accountHistory, w) <==> Touched(asset, tx, ctx, w)
  {
    var history := ctx.accountHistory;
    if h :| h in history && h.asset == asset && Recent(h, tx.timestamp, w) {
      var i :| 0 <= i < |history| && history[i] == h;
      WindowIs(h, tx.timestamp, w);
    }
    if i :| 0 <= i < |history| && history[i].asset == asset && InWindow(history[i], tx.timestamp, w) {
      WindowIs(history[i], tx.timestamp, w);
      assert history[i] in history;
    }
  }

  lemma CrossAssetReported(severity: Severity, tx: Transaction, ctx: RuleContext, config: RulesConfig)
    ensures Reported("cross_asset_rapid_conversion", severity, tx, ctx, config) <==>
              (exists assets :: |assets| >= config.crossAssetConversionCountThreshold
                 && AllMoved(assets, tx, ctx.accountHistory, config.crossAssetConversionWindowSecs)) && severity == Medium
  {
    DefaultReports(9, severity, tx, ctx, config);
    CrossAssetFiresIff(tx, ctx, config);
    var w := config.crossAssetConversionWindowSecs;
    forall assets ensures AllMoved(assets, tx, ctx.accountHistory, w) <==> AllTouched(assets, tx, ctx, w) {
      forall asset ensures Moved(asset, tx, ctx.accountHistory, w) <==> Touched(asset, tx, ctx, w) {
        MovedIsTouched(asset, tx, ctx, w);
      }
    }
  }
}
