/** The ten detection rules (crates/rules_engine/src/rules.rs, context.rs). A rule that fires is
    known by its id and severity; reasons and evidence are rendered text and are not modelled. */
module Rules {
  import opened Common

  const NANOS_PER_SECOND: int := 1_000_000_000

  /** Whole seconds in a duration, truncated towards zero. */
  function NumSeconds(duration: int): int {
    if duration >= 0 then duration / NANOS_PER_SECOND else -(-duration / NANOS_PER_SECOND)
  }

  function Abs(n: int): int {
    if n < 0 then -n else n
  }

  datatype RuleContext = RuleContext(accountHistory: seq<Transaction>, flaggedAccounts: set<Account>)

  datatype RulesConfig = RulesConfig(
    largeTransferThreshold: real,
    repeatedTxWindowSecs: int,
    repeatedTxCountThreshold: nat,
    frequencyWindowSecs: int,
    frequencyCountThreshold: nat,
    unusualAssetMovementMultiplier: real,
    unusualAssetMinHistory: nat,
    customThresholds: map<string, real>,
    dormantReactivationGapSecs: int,
    dormantReactivationMinAmount: real,
    washTradingWindowSecs: int,
    newAccountHistoryThreshold: nat,
    newAccountOutflowThreshold: real,
    crossAssetConversionWindowSecs: int,
    crossAssetConversionCountThreshold: nat
  )

  predicate InWindow(h: Transaction, at: Time, windowSecs: int) {
    Abs(NumSeconds(at - h.timestamp)) <= windowSecs && h.timestamp <= at
  }

  function WithinWindow(history: seq<Transaction>, at: Time, windowSecs: int): seq<Transaction> {
    Filter((h: Transaction) => InWindow(h, at, windowSecs), history)
  }

  /** Earlier transactions sent by the account that sends `tx`. */
  function PriorOutgoing(tx: Transaction, history: seq<Transaction>): seq<Transaction> {
    Filter((h: Transaction) => h.source == tx.source && h.timestamp < tx.timestamp, history)
  }

  function SumAmounts(s: seq<Transaction>): real {
    if s == [] then 0.0 else s[0].amount + SumAmounts(s[1..])
  }

  function LatestTime(s: seq<Transaction>): (latest: Time)
    requires s != []
    ensures forall i :: 0 <= i < |s| ==> s[i].timestamp <= latest
    ensures exists i :: 0 <= i < |s| && s[i].timestamp == latest
  {
    if |s| == 1 then s[0].timestamp
    else
      var rest := LatestTime(s[1..]);
      if s[0].timestamp > rest then s[0].timestamp
      else
        assert exists i :: 0 <= i < |s[1..]| && s[1..][i].timestamp == rest && s[i + 1].timestamp == rest;
        rest
  }

  function AssetsOf(s: seq<Transaction>): set<Asset> {
    set t | t in s :: t.asset
  }

  function LargeTransfer(tx: Transaction, ctx: RuleContext, config: RulesConfig): Option<Severity> {
    if tx.amount > config.largeTransferThreshold
    then Some(if tx.amount > config.largeTransferThreshold * 10.0 then Critical else High)
    else None
  }

  function RepeatedTransaction(tx: Transaction, ctx: RuleContext, config: RulesConfig): Option<Severity> {
    var window := WithinWindow(ctx.accountHistory, tx.timestamp, config.repeatedTxWindowSecs);
    var matching := |Filter((h: Transaction) => h.destination == tx.destination, window)| + 1;
    if matching >= config.repeatedTxCountThreshold then Some(Medium) else None
  }

  function AbnormalFrequency(tx: Transaction, ctx: RuleContext, config: RulesConfig): Option<Severity> {
    var count := |WithinWindow(ctx.accountHistory, tx.timestamp, config.frequencyWindowSecs)| + 1;
    if count >= config.frequencyCountThreshold then Some(Medium) else None
  }

  function FlaggedAccountInteraction(tx: Transaction, ctx: RuleContext, config: RulesConfig): Option<Severity> {
    var sourceFlagged := tx.source in ctx.flaggedAccounts;
    var destinationFlagged := tx.destination.Some? && tx.destination.value in ctx.flaggedAccounts;
    if sourceFlagged || destinationFlagged then Some(High) else None
  }

  /** With no history in the asset the average is 0/0, which compares with nothing, so the rule is silent. */
  function UnusualAssetMovement(tx: Transaction, ctx: RuleContext, config: RulesConfig): Option<Severity> {
    var sameAsset := Filter((h: Transaction) => h.asset == tx.asset, ctx.accountHistory);
    if |sameAsset| < config.unusualAssetMinHistory || sameAsset == [] then None
    else
      var average := SumAmounts(sameAsset) / |sameAsset| as real;
      if average <= 0.0 then None
      else if tx.amount / average >= config.unusualAssetMovementMultiplier then Some(Medium)
      else None
  }

  function ConfigurableThreshold(tx: Transaction, ctx: RuleContext, config: RulesConfig): Option<Severity> {
    if exists name :: name in config.customThresholds && tx.amount > config.customThresholds[name]
    then Some(Low)
    else None
  }

  function DormantAccountReactivation(tx: Transaction, ctx: RuleContext, config: RulesConfig): Option<Severity> {
    if tx.amount < config.dormantReactivationMinAmount then None
    else
      var prior := PriorOutgoing(tx, ctx.accountHistory);
      if prior == [] then None
      else if NumSeconds(tx.timestamp - LatestTime(prior)) >= config.dormantReactivationGapSecs then Some(High)
      else None
  }

  predicate ReturnLeg(h: Transaction, tx: Transaction) {
    && tx.destination == Some(h.source)
    && h.destination == Some(tx.source)
    && h.timestamp < tx.timestamp
  }

  function RoundTripWashTrading(tx: Transaction, ctx: RuleContext, config: RulesConfig): Option<Severity> {
    var window := WithinWindow(ctx.accountHistory, tx.timestamp, config.washTradingWindowSecs);
    if exists i :: 0 <= i < |window| && ReturnLeg(window[i], tx) then Some(High) else None
  }

  function NewAccountHighValueOutflow(tx: Transaction, ctx: RuleContext, config: RulesConfig): Option<Severity> {
    if tx.destination.None? || tx.amount < config.newAccountOutflowThreshold then None
    else if |PriorOutgoing(tx, ctx.accountHistory)| <= config.newAccountHistoryThreshold then Some(Medium)
    else None
  }

  function CrossAssetRapidConversion(tx: Transaction, ctx: RuleContext, config: RulesConfig): Option<Severity> {
    var window := WithinWindow(ctx.accountHistory, tx.timestamp, config.crossAssetConversionWindowSecs);
    if |AssetsOf(window) + {tx.asset}| >= config.crossAssetConversionCountThreshold then Some(Medium) else None
  }

  /** The loop over the named thresholds stops at the first one exceeded. Whether it
      finds one does not depend on the order the map is traversed in. */
  method CheckThresholds(tx: Transaction, config: RulesConfig, order: seq<string>) returns (severity: Option<Severity>)
    requires forall name :: name in order <==> name in config.customThresholds
    ensures forall ctx :: severity == ConfigurableThreshold(tx, ctx, config)
  {
    for i := 0 to |order|
      invariant forall k :: 0 <= k < i ==> tx.amount <= config.customThresholds[order[k]]
    {
      if tx.amount > config.customThresholds[order[i]] {
        return Some(Low);
      }
    }
    return None;
  }
}
