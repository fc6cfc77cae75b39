/** Which verdicts survive the two ways the stored history departs from the true one: its order,
    and its bound of 500 entries (crates/rules_engine/src/rules.rs, crates/api/src/state.rs:60-71). */
module RuleTheorems {
  import opened Common
  import opened Sorting
  import opened History
  import opened Rules
  import opened RuleMeaning
  import opened Engine

  // ---------- Order of the history does not matter ----------

  lemma FilterWithout<T>(keep: T -> bool, s: seq<T>, i: nat)
    requires i < |s|
    ensures multiset(Filter(keep, s))
         == multiset(if keep(s[i]) then [s[i]] else []) + multiset(Filter(keep, Without(s, i)))
  {
    var before, after := s[..i], s[i + 1..];
    CutTwice(s, i, i + 1);
    assert s[i..i + 1] == [s[i]];
    FilterConcat(keep, before + [s[i]], after);
    FilterSnoc(keep, before, s[i]);
    FilterConcat(keep, before, after);
    MiddleOut(Filter(keep, before), if keep(s[i]) then [s[i]] else [], Filter(keep, after));
  }

  lemma MiddleOut<T>(a: seq<T>, b: seq<T>, c: seq<T>)
    ensures multiset(a + b + c) == multiset(b) + multiset(a + c)
  {
  }

  lemma {:induction false} FilterArranged<T>(keep: T -> bool, a: seq<T>, b: seq<T>)
    requires multiset(a) == multiset(b)
    ensures multiset(Filter(keep, a)) == multiset(Filter(keep, b))
    ensures |Filter(keep, a)| == |Filter(keep, b)|
  {
    assert |multiset(a)| == |multiset(b)|;
    if a != [] {
      var i := RemoveSame(a, b);
      FilterArranged(keep, a[1..], Without(b, i));
      FilterWithout(keep, a, 0);
      FilterWithout(keep, b, i);
      assert Without(a, 0) == a[1..];
    } else {
      assert b == [];
    }
    assert |multiset(Filter(keep, a))| == |multiset(Filter(keep, b))|;
  }

  lemma {:induction false} SumWithout(s: seq<Transaction>, i: nat)
    requires i < |s|
    ensures SumAmounts(s) == s[i].amount + SumAmounts(Without(s, i))
  {
    if i == 0 {
      assert Without(s, 0) == s[1..];
    } else {
      SumWithout(s[1..], i - 1);
      WithoutTail(s, i);
    }
  }

  lemma {:induction false} SumArranged(a: seq<Transaction>, b: seq<Transaction>)
    requires multiset(a) == multiset(b)
    ensures SumAmounts(a) == SumAmounts(b)
  {
    assert |multiset(a)| == |multiset(b)|;
    if a != [] {
      var i := RemoveSame(a, b);
      SumArranged(a[1..], Without(b, i));
      SumWithout(b, i);
    } else {
      assert b == [];
    }
  }

  lemma LatestArranged(a: seq<Transaction>, b: seq<Transaction>)
    requires a != [] && b != [] && forall t :: t in a <==> t in b
    ensures LatestTime(a) == LatestTime(b)
  {
    var i :| 0 <= i < |a| && a[i].timestamp == LatestTime(a);
    var j :| 0 <= j < |b| && b[j].timestamp == LatestTime(b);
    assert a[i] in b && b[j] in a;
  }

  lemma SameMembers<T>(a: seq<T>, b: seq<T>)
    requires multiset(a) == multiset(b)
    ensures forall t :: t in a <==> t in b
    ensures |a| == |b|
  {
    forall t ensures t in a <==> t in b {
      assert t in a <==> t in multiset(a);
      assert t in b <==> t in multiset(b);
    }
    assert |multiset(a)| == |multiset(b)|;
  }

  lemma UnusualIgnoresOrder(tx: Transaction, a: RuleContext, b: RuleContext, config: RulesConfig)
    requires multiset(a.accountHistory) == multiset(b.accountHistory)
    ensures UnusualAssetMovement(tx, a, config) == UnusualAssetMovement(tx, b, config)
  {
    var keep := (h: Transaction) => h.asset == tx.asset;
    FilterArranged(keep, a.accountHistory, b.accountHistory);
    SumArranged(Filter(keep, a.accountHistory), Filter(keep, b.accountHistory));
  }

  lemma RepeatedIgnoresOrder(tx: Transaction, a: RuleContext, b: RuleContext, config: RulesConfig)
    requires multiset(a.accountHistory) == multiset(b.accountHistory)
    ensures RepeatedTransaction(tx, a, config) == RepeatedTransaction(tx, b, config)
  {
    var inWindow := (h: Transaction) => InWindow(h, tx.timestamp, config.repeatedTxWindowSecs);
    FilterArranged(inWindow, a.accountHistory, b.accountHistory);
    FilterArranged((h: Transaction) => h.destination == tx.destination,
      Filter(inWindow, a.accountHistory), Filter(inWindow, b.accountHistory));
  }

  lemma WindowIgnoresOrder(a: seq<Transaction>, b: seq<Transaction>, at: Time, windowSecs: int)
    requires multiset(a) == multiset(b)
    ensures forall t :: t in WithinWindow(a, at, windowSecs) <==> t in WithinWindow(b, at, windowSecs)
    ensures |WithinWindow(a, at, windowSecs)| == |WithinWindow(b, at, windowSecs)|
  {
    FilterArranged((h: Transaction) => InWindow(h, at, windowSecs), a, b);
    SameMembers(WithinWindow(a, at, windowSecs), WithinWindow(b, at, windowSecs));
  }

  lemma RoundTripByMembers(tx: Transaction, a: RuleContext, b: RuleContext, config: RulesConfig)
    requires forall t :: t in WithinWindow(a.accountHistory, tx.timestamp, config.washTradingWindowSecs)
                     ==> t in WithinWindow(b.accountHistory, tx.timestamp, config.washTradingWindowSecs)
    requires RoundTripWashTrading(tx, a, config).Some?
    ensures RoundTripWashTrading(tx, b, config).Some?
  {
    var wa := WithinWindow(a.accountHistory, tx.timestamp, config.washTradingWindowSecs);
    var wb := WithinWindow(b.accountHistory, tx.timestamp, config.washTradingWindowSecs);
    var i :| 0 <= i < |wa| && ReturnLeg(wa[i], tx);
    assert wa[i] in wb;
  }

  lemma PriorIgnoresOrder(tx: Transaction, a: seq<Transaction>, b: seq<Transaction>)
    requires multiset(a) == multiset(b)
    ensures forall t :: t in PriorOutgoing(tx, a) <==> t in PriorOutgoing(tx, b)
    ensures |PriorOutgoing(tx, a)| == |PriorOutgoing(tx, b)|
  {
    FilterArranged((h: Transaction) => h.source == tx.source && h.timestamp < tx.timestamp, a, b);
    SameMembers(PriorOutgoing(tx, a), PriorOutgoing(tx, b));
  }

  /** No shipped rule looks at the order of the history. */
  lemma RuleIgnoresOrder(k: nat, tx: Transaction, a: RuleContext, b: RuleContext, config: RulesConfig)
    requires k < |DEFAULT_RULES|
    requires multiset(a.accountHistory) == multiset(b.accountHistory) && a.flaggedAccounts == b.flaggedAccounts
    ensures DEFAULT_RULES[k].check(tx, a, config) == DEFAULT_RULES[k].check(tx, b, config)
  {
    if k == 1 {
      RepeatedIgnoresOrder(tx, a, b, config);
    } else if k == 2 {
      WindowIgnoresOrder(a.accountHistory, b.accountHistory, tx.timestamp, config.frequencyWindowSecs);
    } else if k == 4 {
      UnusualIgnoresOrder(tx, a, b, config);
    } else if k == 6 {
      DormantIgnoresOrder(tx, a, b, config);
    } else if k == 7 {
      RoundTripIgnoresOrder(tx, a, b, config);
    } else if k == 8 {
      PriorIgnoresOrder(tx, a.accountHistory, b.accountHistory);
    } else if k == 9 {
      CrossAssetIgnoresOrder(tx, a, b, config);
    }
  }

  lemma CrossAssetIgnoresOrder(tx: Transaction, a: RuleContext, b: RuleContext, config: RulesConfig)
    requires multiset(a.accountHistory) == multiset(b.accountHistory)
    ensures CrossAssetRapidConversion(tx, a, config) == CrossAssetRapidConversion(tx, b, config)
  {
    var w := config.crossAssetConversionWindowSecs;
    WindowIgnoresOrder(a.accountHistory, b.accountHistory, tx.timestamp, w);
    assert AssetsOf(WithinWindow(a.accountHistory, tx.timestamp, w)) == AssetsOf(WithinWindow(b.accountHistory, tx.timestamp, w));
  }

  lemma RoundTripIgnoresOrder(tx: Transaction, a: RuleContext, b: RuleContext, config: RulesConfig)
    requires multiset(a.accountHistory) == multiset(b.accountHistory)
    ensures RoundTripWashTrading(tx, a, config) == RoundTripWashTrading(tx, b, config)
  {
    WindowIgnoresOrder(a.accountHistory, b.accountHistory, tx.timestamp, config.washTradingWindowSecs);
    if RoundTripWashTrading(tx, a, config).Some? {
      RoundTripByMembers(tx, a, b, config);
    }
    if RoundTripWashTrading(tx, b, config).Some? {
      RoundTripByMembers(tx, b, a, config);
    }
  }

  lemma DormantIgnoresOrder(tx: Transaction, a: RuleContext, b: RuleContext, config: RulesConfig)
    requires multiset(a.accountHistory) == multiset(b.accountHistory)
    ensures DormantAccountReactivation(tx, a, config) == DormantAccountReactivation(tx, b, config)
  {
    PriorIgnoresOrder(tx, a.accountHistory, b.accountHistory);
    if PriorOutgoing(tx, a.accountHistory) != [] {
      LatestArranged(PriorOutgoing(tx, a.accountHistory), PriorOutgoing(tx, b.accountHistory));
    }
  }

  lemma {:induction false} SameVerdictsSameTriggers(rules: seq<Rule>, tx: Transaction, a: RuleContext, b: RuleContext, config: RulesConfig)
    requires forall k :: 0 <= k < |rules| ==> rules[k].check(tx, a, config) == rules[k].check(tx, b, config)
    ensures Fired(rules, tx, a, config) == Fired(rules, tx, b, config)
  {
    if rules != [] {
      SameVerdictsSameTriggers(rules[1..], tx, a, b, config);
    }
  }

  /** So neither the engine's output, nor the score computed from it, depends on that order. */
  lemma EvaluationIgnoresHistoryOrder(tx: Transaction, a: RuleContext, b: RuleContext, config: RulesConfig)
    requires multiset(a.accountHistory) == multiset(b.accountHistory) && a.flaggedAccounts == b.flaggedAccounts
    ensures Evaluate(DEFAULT_RULES, tx, a, config) == Evaluate(DEFAULT_RULES, tx, b, config)
  {
    forall k | 0 <= k < |DEFAULT_RULES| ensures DEFAULT_RULES[k].check(tx, a, config) == DEFAULT_RULES[k].check(tx, b, config) {
      RuleIgnoresOrder(k, tx, a, b, config);
    }
    SameVerdictsSameTriggers(DEFAULT_RULES, tx, a, b, config);
  }

  // ---------- What the bound on the history costs ----------

  /** A history in ingestion order, no entry later than `at`. */
  ghost predicate Chronological(history: seq<Transaction>, at: Time) {
    && (forall i, j :: 0 <= i < j < |history| ==> history[i].timestamp <= history[j].timestamp)
    && (forall i :: 0 <= i < |history| ==> history[i].timestamp <= at)
  }

  function Bounded(full: seq<Transaction>): seq<Transaction> {
    LastOf(full, MAX_HISTORY_PER_ACCOUNT)
  }

  lemma {:induction false} ChronologicalFilter(keep: Transaction -> bool, history: seq<Transaction>, at: Time)
    requires Chronological(history, at)
    ensures Chronological(Filter(keep, history), at)
  {
    if history != [] {
      var front := history[..|history| - 1];
      ChronologicalFilter(keep, front, history[|history| - 1].timestamp);
      assert forall i :: 0 <= i < |Filter(keep, front)| ==> Filter(keep, front)[i] in Filter(keep, front);
    }
  }

  lemma ChronologicalTouching(ingested: seq<Transaction>, account: Account, at: Time)
    requires Chronological(ingested, at)
    ensures Chronological(Touching(ingested, account), at)
  {
    ChronologicalFilter((t: Transaction) => account in Parties(t), ingested, at);
  }

  lemma {:induction false} FilterSuffix<T>(keep: T -> bool, s: seq<T>, k: nat)
    requires k <= |s|
    ensures Filter(keep, s) == Filter(keep, s[..k]) + Filter(keep, s[k..])
  {
    FilterConcat(keep, s[..k], s[k..]);
    assert s == s[..k] + s[k..];
  }

  lemma {:induction false} FilterNone<T>(keep: T -> bool, s: seq<T>)
    requires forall i :: 0 <= i < |s| ==> !keep(s[i])
    ensures Filter(keep, s) == []
  {
    if s != [] {
      FilterNone(keep, s[..|s| - 1]);
    }
  }

  lemma {:induction false} FilterShorter<T>(keep: T -> bool, s: seq<T>)
    ensures |Filter(keep, s)| <= |s|
  {
    if s != [] {
      FilterShorter(keep, s[..|s| - 1]);
    }
  }

  lemma SecondsMonotone(later: Time, earlier: Time, at: Time, windowSecs: int)
    requires earlier <= later <= at && Abs(NumSeconds(at - earlier)) <= windowSecs
    ensures Abs(NumSeconds(at - later)) <= windowSecs
  {
    assert 0 <= (at - later) / NANOS_PER_SECOND <= (at - earlier) / NANOS_PER_SECOND;
  }

  /** In the last `n` entries of a history in order, up to `n` in a window are counted right. */
  lemma BoundedWindowCount(full: seq<Transaction>, n: nat, at: Time, windowSecs: int)
    requires Chronological(full, at)
    ensures var exact := |WithinWindow(full, at, windowSecs)|;
            |WithinWindow(LastOf(full, n), at, windowSecs)| == if exact <= n then exact else n
  {
    var keep := (h: Transaction) => InWindow(h, at, windowSecs);
    FilterShorter(keep, full);
    if |full| > n {
      var k := |full| - n;
      FilterSuffix(keep, full, k);
      if i :| 0 <= i < k && keep(full[i]) {
        forall j | 0 <= j < |full[k..]| ensures keep(full[k..][j]) {
          SecondsMonotone(full[k + j].timestamp, full[i].timestamp, at, windowSecs);
        }
        FilterAll(keep, full[k..]);
        FilterMembers(keep, full[..k], full[i]);
        assert full[..k][i] == full[i];
      } else {
        FilterNone(keep, full[..k]);
        FilterShorter(keep, full[k..]);
      }
    }
  }

  /** The frequency rule: with in-order ingestion the last `n` entries give the verdict of the full history
      exactly when the threshold is at most `n + 1`, or so high that not even the full one reaches it. */
  lemma FrequencyUnaffectedIff(tx: Transaction, full: seq<Transaction>, n: nat, flagged: set<Account>, config: RulesConfig)
    requires Chronological(full, tx.timestamp)
    ensures AbnormalFrequency(tx, RuleContext(LastOf(full, n), flagged), config) == AbnormalFrequency(tx, RuleContext(full, flagged), config)
       <==> || config.frequencyCountThreshold <= n + 1
            || config.frequencyCountThreshold > |WithinWindow(full, tx.timestamp, config.frequencyWindowSecs)| + 1
  {
    BoundedWindowCount(full, n, tx.timestamp, config.frequencyWindowSecs);
  }

  /** The last `n + 1` and the last `n` entries give the same verdict unless the one more entry is just what
      reaches the threshold. */
  lemma FrequencyOneFewerIff(tx: Transaction, full: seq<Transaction>, n: nat, flagged: set<Account>, config: RulesConfig)
    requires Chronological(full, tx.timestamp)
    ensures AbnormalFrequency(tx, RuleContext(LastOf(full, n + 1), flagged), config) == AbnormalFrequency(tx, RuleContext(LastOf(full, n), flagged), config)
       <==> || config.frequencyCountThreshold != n + 2
            || |WithinWindow(full, tx.timestamp, config.frequencyWindowSecs)| <= n
  {
    BoundedWindowCount(full, n + 1, tx.timestamp, config.frequencyWindowSecs);
    BoundedWindowCount(full, n, tx.timestamp, config.frequencyWindowSecs);
  }

  lemma BoundedIsSuffix(full: seq<Transaction>) returns (evicted: seq<Transaction>)
    ensures full == evicted + Bounded(full)
  {
    evicted := if |full| > MAX_HISTORY_PER_ACCOUNT then full[..|full| - MAX_HISTORY_PER_ACCOUNT] else [];
  }

  type Check = (Transaction, RuleContext, RulesConfig) -> Option<Severity>

  /** The rule does not fire on what is kept of a history unless it fires on all of it. */
  ghost predicate NotInvented(check: Check, tx: Transaction, evicted: seq<Transaction>, kept: seq<Transaction>, flagged: set<Account>, config: RulesConfig) {
    check(tx, RuleContext(kept, flagged), config).Some? ==> check(tx, RuleContext(evicted + kept, flagged), config).Some?
  }

  ghost predicate NotMissed(check: Check, tx: Transaction, evicted: seq<Transaction>, kept: seq<Transaction>, flagged: set<Account>, config: RulesConfig) {
    check(tx, RuleContext(evicted + kept, flagged), config).Some? ==> check(tx, RuleContext(kept, flagged), config).Some?
  }

  ghost predicate SameVerdict(check: Check, tx: Transaction, evicted: seq<Transaction>, kept: seq<Transaction>, flagged: set<Account>, config: RulesConfig) {
    check(tx, RuleContext(kept, flagged), config) == check(tx, RuleContext(evicted + kept, flagged), config)
  }

  lemma CountSplits(keep: Transaction -> bool, evicted: seq<Transaction>, kept: seq<Transaction>)
    ensures |Positions(keep, evicted + kept)| == |Positions(keep, evicted)| + |Positions(keep, kept)|
  {
    FilterCounts(keep, evicted);
    FilterCounts(keep, kept);
    FilterCounts(keep, evicted + kept);
    FilterConcat(keep, evicted, kept);
  }

  /** An earlier payment in the window and to the same destination. */
  function AlikeIn(tx: Transaction, config: RulesConfig): Transaction -> bool {
    (h: Transaction) => InWindow(h, tx.timestamp, config.repeatedTxWindowSecs) && h.destination == tx.destination
  }

  /** The repeated-payment rule: the verdicts on what is kept and on all of it agree exactly when the kept part
      has enough such payments or not even all of it has. */
  lemma RepeatedUnaffectedIff(tx: Transaction, evicted: seq<Transaction>, kept: seq<Transaction>, flagged: set<Account>, config: RulesConfig)
    ensures NotInvented(RepeatedTransaction, tx, evicted, kept, flagged, config)
    ensures SameVerdict(RepeatedTransaction, tx, evicted, kept, flagged, config) <==>
              || |Positions(AlikeIn(tx, config), kept)| >= config.repeatedTxCountThreshold - 1
              || |Positions(AlikeIn(tx, config), evicted + kept)| < config.repeatedTxCountThreshold - 1
  {
    RepeatedFiresIff(tx, RuleContext(kept, flagged), config);
    RepeatedFiresIff(tx, RuleContext(evicted + kept, flagged), config);
    CountSplits(AlikeIn(tx, config), evicted, kept);
    SamePositions(tx, kept, config);
    SamePositions(tx, evicted + kept, config);
  }

  lemma SamePositions(tx: Transaction, history: seq<Transaction>, config: RulesConfig)
    ensures Positions(AlikeIn(tx, config), history)
         == Positions((h: Transaction) => InWindow(h, tx.timestamp, config.repeatedTxWindowSecs) && h.destination == tx.destination, history)
  {
  }

  /** A return leg in the window at some position. */
  predicate HasLeg(tx: Transaction, history: seq<Transaction>, windowSecs: int) {
    exists i :: 0 <= i < |history| && ReturnLeg(history[i], tx) && InWindow(history[i], tx.timestamp, windowSecs)
  }

  lemma LegSplits(tx: Transaction, evicted: seq<Transaction>, kept: seq<Transaction>, w: int)
    ensures HasLeg(tx, evicted + kept, w) <==> HasLeg(tx, evicted, w) || HasLeg(tx, kept, w)
  {
    var all := evicted + kept;
    if HasLeg(tx, kept, w) {
      var i :| 0 <= i < |kept| && ReturnLeg(kept[i], tx) && InWindow(kept[i], tx.timestamp, w);
      assert all[|evicted| + i] == kept[i];
    }
    if HasLeg(tx, evicted, w) {
      var i :| 0 <= i < |evicted| && ReturnLeg(evicted[i], tx) && InWindow(evicted[i], tx.timestamp, w);
      assert all[i] == evicted[i];
    }
  }

  /** The round-trip rule agrees exactly when some return leg was kept, or there never was one. */
  lemma RoundTripUnaffectedIff(tx: Transaction, evicted: seq<Transaction>, kept: seq<Transaction>, flagged: set<Account>, config: RulesConfig)
    ensures NotInvented(RoundTripWashTrading, tx, evicted, kept, flagged, config)
    ensures SameVerdict(RoundTripWashTrading, tx, evicted, kept, flagged, config) <==>
              HasLeg(tx, kept, config.washTradingWindowSecs) || !HasLeg(tx, evicted + kept, config.washTradingWindowSecs)
  {
    RoundTripFiresIff(tx, RuleContext(kept, flagged), config);
    RoundTripFiresIff(tx, RuleContext(evicted + kept, flagged), config);
    LegSplits(tx, evicted, kept, config.washTradingWindowSecs);
  }

  lemma TouchedStays(asset: Asset, tx: Transaction, evicted: seq<Transaction>, kept: seq<Transaction>, flagged: set<Account>, w: int)
    requires Touched(asset, tx, RuleContext(kept, flagged), w)
    ensures Touched(asset, tx, RuleContext(evicted + kept, flagged), w)
  {
    if asset != tx.asset {
      var i :| 0 <= i < |kept| && kept[i].asset == asset && InWindow(kept[i], tx.timestamp, w);
      assert (evicted + kept)[|evicted| + i] == kept[i];
    }
  }

  /** The cross-asset rule agrees exactly when enough assets were touched in what is kept, or not even in all. */
  lemma CrossAssetUnaffectedIff(tx: Transaction, evicted: seq<Transaction>, kept: seq<Transaction>, flagged: set<Account>, config: RulesConfig)
    ensures NotInvented(CrossAssetRapidConversion, tx, evicted, kept, flagged, config)
    ensures SameVerdict(CrossAssetRapidConversion, tx, evicted, kept, flagged, config) <==>
              TouchesEnough(tx, RuleContext(kept, flagged), config) || !TouchesEnough(tx, RuleContext(evicted + kept, flagged), config)
  {
    var few, all := RuleContext(kept, flagged), RuleContext(evicted + kept, flagged);
    CrossAssetFiresIff(tx, few, config);
    CrossAssetFiresIff(tx, all, config);
    if TouchesEnough(tx, few, config) {
      var assets :| |assets| >= config.crossAssetConversionCountThreshold && AllTouched(assets, tx, few, config.crossAssetConversionWindowSecs);
      forall asset | asset in assets ensures Touched(asset, tx, all, config.crossAssetConversionWindowSecs) {
        TouchedStays(asset, tx, evicted, kept, flagged, config.crossAssetConversionWindowSecs);
      }
      assert AllTouched(assets, tx, all, config.crossAssetConversionWindowSecs);
    }
  }

  lemma OlderStillQuiet(tx: Transaction, evicted: seq<Transaction>, kept: seq<Transaction>, gapSecs: int)
    requires forall i, j :: 0 <= i < |evicted| && 0 <= j < |kept| ==> evicted[i].timestamp <= kept[j].timestamp
    requires Reawakens(tx, kept, gapSecs)
    ensures Reawakens(tx, evicted + kept, gapSecs)
  {
    var full := evicted + kept;
    var j :| 0 <= j < |kept| && PriorOutgoingOf(kept[j], tx);
    assert full[|evicted| + j] == kept[j];
    forall i | 0 <= i < |full| && PriorOutgoingOf(full[i], tx) ensures NumSeconds(tx.timestamp - full[i].timestamp) >= gapSecs {
      if i < |evicted| {
        SecondsOrder(tx.timestamp - full[i].timestamp, tx.timestamp - kept[j].timestamp);
      }
    }
  }

  lemma YoungerAsQuiet(tx: Transaction, evicted: seq<Transaction>, kept: seq<Transaction>, gapSecs: int, j: nat)
    requires Reawakens(tx, evicted + kept, gapSecs) && j < |kept| && PriorOutgoingOf(kept[j], tx)
    ensures Reawakens(tx, kept, gapSecs)
  {
    var full := evicted + kept;
    assert forall i :: 0 <= i < |kept| ==> full[|evicted| + i] == kept[i];
  }

  lemma ChronologicalParts(evicted: seq<Transaction>, kept: seq<Transaction>, at: Time)
    requires Chronological(evicted + kept, at)
    ensures forall i, j :: 0 <= i < |evicted| && 0 <= j < |kept| ==> evicted[i].timestamp <= kept[j].timestamp
  {
    var full := evicted + kept;
    forall i, j | 0 <= i < |evicted| && 0 <= j < |kept| ensures evicted[i].timestamp <= kept[j].timestamp {
      assert full[i] == evicted[i] && full[|evicted| + j] == kept[j];
    }
  }

  predicate HasSent(tx: Transaction, history: seq<Transaction>) {
    exists i :: 0 <= i < |history| && PriorOutgoingOf(history[i], tx)
  }

  /** Dormancy, with in-order ingestion: what was evicted is no later than what was kept, so the verdicts
      agree exactly when the amount is too small anyway, or something sent was kept, or the full history
      does not show an account reawakening. */
  lemma DormantUnaffectedIff(tx: Transaction, evicted: seq<Transaction>, kept: seq<Transaction>, flagged: set<Account>, config: RulesConfig)
    requires Chronological(evicted + kept, tx.timestamp)
    ensures NotInvented(DormantAccountReactivation, tx, evicted, kept, flagged, config)
    ensures SameVerdict(DormantAccountReactivation, tx, evicted, kept, flagged, config) <==>
              || tx.amount < config.dormantReactivationMinAmount
              || HasSent(tx, kept)
              || !Reawakens(tx, evicted + kept, config.dormantReactivationGapSecs)
  {
    DormantFiresIff(tx, RuleContext(kept, flagged), config);
    DormantFiresIff(tx, RuleContext(evicted + kept, flagged), config);
    ChronologicalParts(evicted, kept, tx.timestamp);
    if Reawakens(tx, kept, config.dormantReactivationGapSecs) {
      OlderStillQuiet(tx, evicted, kept, config.dormantReactivationGapSecs);
    }
    if HasSent(tx, kept) && Reawakens(tx, evicted + kept, config.dormantReactivationGapSecs) {
      var j :| 0 <= j < |kept| && PriorOutgoingOf(kept[j], tx);
      YoungerAsQuiet(tx, evicted, kept, config.dormantReactivationGapSecs, j);
    }
  }

  function SentBefore(tx: Transaction): Transaction -> bool {
    (h: Transaction) => PriorOutgoingOf(h, tx)
  }

  /** The new-account rule errs on the other side: it can only gain triggers. It agrees exactly when it does
      not apply, or the kept part already has too many payments, or not even the full history has. */
  lemma NewAccountUnaffectedIff(tx: Transaction, evicted: seq<Transaction>, kept: seq<Transaction>, flagged: set<Account>, config: RulesConfig)
    ensures NotMissed(NewAccountHighValueOutflow, tx, evicted, kept, flagged, config)
    ensures SameVerdict(NewAccountHighValueOutflow, tx, evicted, kept, flagged, config) <==>
              || tx.destination.None? || tx.amount < config.newAccountOutflowThreshold
              || |Positions(SentBefore(tx), kept)| > config.newAccountHistoryThreshold
              || |Positions(SentBefore(tx), evicted + kept)| <= config.newAccountHistoryThreshold
  {
    NewAccountFiresIff(tx, RuleContext(kept, flagged), config);
    NewAccountFiresIff(tx, RuleContext(evicted + kept, flagged), config);
    CountSplits(SentBefore(tx), evicted, kept);
    assert Positions(SentBefore(tx), kept) == Positions((h: Transaction) => PriorOutgoingOf(h, tx), kept);
    assert Positions(SentBefore(tx), evicted + kept) == Positions((h: Transaction) => PriorOutgoingOf(h, tx), evicted + kept);
  }

  /** For instance, a return leg followed by 500 other payments is forgotten. */
  lemma RoundTripCanBeMissed(tx: Transaction, leg: Transaction, other: Transaction, flagged: set<Account>, config: RulesConfig)
    requires ReturnLeg(leg, tx) && InWindow(leg, tx.timestamp, config.washTradingWindowSecs)
    requires !ReturnLeg(other, tx)
    ensures var full := [leg] + seq(MAX_HISTORY_PER_ACCOUNT, i => other);
            && RoundTripWashTrading(tx, RuleContext(full, flagged), config).Some?
            && RoundTripWashTrading(tx, RuleContext(Bounded(full), flagged), config).None?
  {
    var others := seq(MAX_HISTORY_PER_ACCOUNT, i => other);
    assert Bounded([leg] + others) == others;
    assert ([leg] + others)[0] == leg && HasLeg(tx, [leg] + others, config.washTradingWindowSecs);
    RoundTripUnaffectedIff(tx, [leg], others, flagged, config);
  }
}
