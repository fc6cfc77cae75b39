/** The service with its shipped rules and weights (crates/api/src/handlers.rs:99-131): what its
    assessments are worth at the end of a run. */
module ShippedService {
  import opened Common
  import opened Folding
  import opened Advisor
  import opened Scoring
  import opened Rules
  import opened Engine
  import opened ShippedRules
  import opened Bounds
  import opened History
  import opened RuleTheorems
  import opened Alerts
  import opened Service
  import opened Runs

  function ShippedAssess(r: nat -> real, config: RulesConfig): Assessor {
    (tx: Transaction, history: seq<Transaction>, flagged: set<Account>) =>
      var ctx := RuleContext(history, flagged);
      var score := ShippedScore(r, tx, ctx, config);
      Assessment(Engine.Evaluate(DEFAULT_RULES, tx, ctx, config), score, SeverityForScore(score))
  }

  /** Once an alert is confirmed, both its parties stay flagged: whatever requests follow, every
      evaluation of a transaction that touches one of them files an alert, scoring at least 100 * 6 / 36
      and below 80. */
  lemma ConfirmedPartiesKeepAlerting(env: Env, r: nat -> real, config: RulesConfig, w: World, id: Uuid, later: seq<Request>, tx: Transaction, draw: Draw)
    requires InverseRoot(r) && env.assess == ShippedAssess(r, config)
    requires Invariant(env, w) && FreshRun(env, w, later)
    requires id in w.alerts && ConfirmedIn(TrailOf(w.log, id))
    requires exists x :: x in Parties(tx) && x in Parties(w.alerts[id].tx)
    ensures var response := RunEvaluation(env, Run(env, w, later), tx, draw).1;
            response.alert.Some? && 100.0 * 6.0 / 36.0 <= response.alert.value.anomalyScore < 80.0
  {
    var x :| x in Parties(tx) && x in Parties(w.alerts[id].tx);
    assert Confirms(w, id, x);
    RunKeepsInvariant(env, w, later);
    var w' := Run(env, w, later);
    assert x in w'.flagged;
    var ctx := RuleContext(PriorHistory(w'.history, tx), w'.flagged);
    FlaggedScoresAtLeast(r, tx, ctx, config);
    ScoreBelowEighty(r, tx, ctx, config);
  }

  // ---------- Scores are reproducible ----------

  /** The band that the score falls in. */
  predicate InBand(severity: Severity, score: real) {
    match severity
    case Critical => 75.0 <= score
    case High => 45.0 <= score < 75.0
    case Medium => 20.0 <= score < 45.0
    case Low => score < 20.0
  }

  /** The alert has triggers, in strict order of their ids, and its score and severity are told by them alone. */
  ghost predicate Reproducible(r: nat -> real, a: Alert) {
    && a.triggeredRules != []
    && (forall i, j :: 0 <= i < j < |a.triggeredRules| ==> Precedes(a.triggeredRules[i].ruleId, a.triggeredRules[j].ruleId))
    && a.anomalyScore == ComputeScore(r, a.triggeredRules, DEFAULT_WEIGHTS)
    && InBand(a.severity, a.anomalyScore)
  }

  ghost predicate AllReproducible(r: nat -> real, w: World) {
    forall id :: id in w.alerts ==> Reproducible(r, w.alerts[id])
  }

  lemma BandTold(score: real)
    ensures InBand(SeverityForScore(score), score)
  {
  }

  lemma ShippedInOrder(tx: Transaction, ctx: RuleContext, config: RulesConfig)
    ensures var out := Engine.Evaluate(DEFAULT_RULES, tx, ctx, config);
            forall i, j :: 0 <= i < j < |out| ==> Precedes(out[i].ruleId, out[j].ruleId)
  {
    DefaultIdsDistinct();
    EngineDeterministic(DEFAULT_RULES, DEFAULT_RULES, tx, ctx, config);
  }

  lemma AssessedReproducible(r: nat -> real, config: RulesConfig, tx: Transaction, history: seq<Transaction>, flagged: set<Account>, alertId: Uuid, now: Time)
    requires ShippedAssess(r, config)(tx, history, flagged).triggers != []
    ensures var a := ShippedAssess(r, config)(tx, history, flagged);
            Reproducible(r, NewAlert(alertId, tx, a.triggers, a.score, a.severity, now))
  {
    var ctx := RuleContext(history, flagged);
    ShippedInOrder(tx, ctx, config);
    BandTold(ShippedScore(r, tx, ctx, config));
  }

  lemma FiledReproducible(env: Env, r: nat -> real, config: RulesConfig, w: World, tx: Transaction, draw: Draw)
    requires env.assess == ShippedAssess(r, config) && AllReproducible(r, w)
    ensures AllReproducible(r, RunEvaluation(env, w, tx, draw).0)
  {
    if env.assess(tx, PriorHistory(w.history, tx), w.flagged).triggers != [] {
      AssessedReproducible(r, config, tx, PriorHistory(w.history, tx), w.flagged, draw.alertId, draw.now);
    }
  }

  lemma RevisedReproducible(r: nat -> real, a: Alert, status: Status, now: Time)
    requires Reproducible(r, a)
    ensures Reproducible(r, Revised(a, status, now))
  {
  }

  lemma HandleReproducible(env: Env, r: nat -> real, config: RulesConfig, w: World, request: Request)
    requires env.assess == ShippedAssess(r, config) && AllReproducible(r, w)
    ensures AllReproducible(r, Handle(env, w, request).0)
  {
    match request
    case Ingest(_) =>
    case Evaluate(txHash, draw) =>
      if txHash in w.transactions {
        FiledReproducible(env, r, config, w, w.transactions[txHash], draw);
      }
    case IngestAndEvaluate(tx, draw) => FiledReproducible(env, r, config, w, tx, draw);
    case Investigate(_, _, _) =>
    case Decide(_, d, draw) =>
      if d.alertId in w.alerts {
        RevisedReproducible(r, w.alerts[d.alertId], d.decision, draw.now);
      }
  }

  /** In every run of the shipped service from empty, each alert's score and severity can be recomputed from its
      triggers, whatever has been decided or advised since. */
  lemma {:induction false} RunReproducible(env: Env, r: nat -> real, config: RulesConfig, w: World, requests: seq<Request>)
    requires env.assess == ShippedAssess(r, config) && AllReproducible(r, w)
    ensures AllReproducible(r, Run(env, w, requests))
    decreases |requests|
  {
    if requests != [] {
      HandleReproducible(env, r, config, w, requests[0]);
      RunReproducible(env, r, config, Handle(env, w, requests[0]).0, requests[1..]);
    }
  }

  // ---------- What a transaction is judged against ----------

  /** All ingested transactions of its source account, but for those bearing its own hash. */
  function AllPrior(ingested: seq<Transaction>, tx: Transaction): seq<Transaction> {
    Filter((t: Transaction) => t.txHash != tx.txHash, Touching(ingested, tx.source))
  }

  /** After any run it is judged against an end of that history. */
  lemma JudgedOnSuffix(env: Env, requests: seq<Request>, tx: Transaction) returns (evicted: seq<Transaction>)
    ensures AllPrior(IngestedBy(requests), tx) == evicted + PriorHistory(Run(env, EMPTY_WORLD, requests).history, tx)
  {
    var full := Touching(IngestedBy(requests), tx.source);
    var others := (t: Transaction) => t.txHash != tx.txHash;
    HistoryRefinesIngestLog(env, requests);
    assert Lookup(Run(env, EMPTY_WORLD, requests).history, tx.source) == Bounded(full);
    var dropped := BoundedIsSuffix(full);
    FilterConcat(others, dropped, Bounded(full));
    evicted := Filter(others, dropped);
  }

  lemma NewHashKeepsAll(ingested: seq<Transaction>, tx: Transaction, n: nat)
    requires forall t :: t in ingested ==> t.txHash != tx.txHash
    ensures var full := Touching(ingested, tx.source);
            Filter((t: Transaction) => t.txHash != tx.txHash, LastOf(full, n)) == LastOf(full, n)
  {
    var full := Touching(ingested, tx.source);
    forall i | 0 <= i < |LastOf(full, n)| ensures LastOf(full, n)[i].txHash != tx.txHash {
      assert LastOf(full, n)[i] in full;
      FilterMembers((t: Transaction) => tx.source in Parties(t), ingested, LastOf(full, n)[i]);
    }
    FilterAll((t: Transaction) => t.txHash != tx.txHash, LastOf(full, n));
  }

  /** A transaction with a new hash is judged against the last 500 when it is evaluated on its way in, and
      against the last 499 when it is ingested first and then evaluated by hash: it takes one place itself. */
  lemma PlacesTaken(w: World, ingested: seq<Transaction>, tx: Transaction)
    requires Mirrors(w, ingested) && forall t :: t in ingested ==> t.txHash != tx.txHash
    ensures var full := Touching(ingested, tx.source);
            && PriorHistory(w.history, tx) == LastOf(full, MAX_HISTORY_PER_ACCOUNT)
            && PriorHistory(AfterIngest(w, tx).history, tx) == LastOf(full, MAX_HISTORY_PER_ACCOUNT - 1)
  {
    var full := Touching(ingested, tx.source);
    var others := (t: Transaction) => t.txHash != tx.txHash;
    NewHashKeepsAll(ingested, tx, MAX_HISTORY_PER_ACCOUNT);
    NewHashKeepsAll(ingested, tx, MAX_HISTORY_PER_ACCOUNT - 1);
    RecordingKeepsIndex(w.history, ingested, tx);
    TouchingSnoc(ingested, tx, tx.source);
    LastOfSnoc(full, tx, MAX_HISTORY_PER_ACCOUNT - 1);
    FilterSnoc(others, LastOf(full, MAX_HISTORY_PER_ACCOUNT - 1), tx);
  }

  lemma LastOfSnoc(s: seq<Transaction>, x: Transaction, n: nat)
    ensures LastOf(s + [x], n + 1) == LastOf(s, n) + [x]
  {
  }

  /** The frequency rule decides on `few` as on `full` exactly when its threshold is at most `limit`, or is
      beyond what all of `full` reaches. */
  ghost predicate FrequencyExactTo(limit: nat, tx: Transaction, few: seq<Transaction>, full: seq<Transaction>, flagged: set<Account>, config: RulesConfig) {
    AbnormalFrequency(tx, RuleContext(few, flagged), config) == AbnormalFrequency(tx, RuleContext(full, flagged), config)
    <==> || config.frequencyCountThreshold <= limit
         || config.frequencyCountThreshold > |WithinWindow(full, tx.timestamp, config.frequencyWindowSecs)| + 1
  }

  /** After any run, a transaction with a new hash is judged on the last 500 of its account on the way in, and
      on the last 499 by hash. If all came in time order, that is as good as all of them for the frequency
      rule up to a threshold of 501 or 500, and never beyond unless not even all of them reach it. */
  lemma FreshTransactionJudgedOnLast500(env: Env, requests: seq<Request>, tx: Transaction, config: RulesConfig)
    requires forall t :: t in IngestedBy(requests) ==> t.txHash != tx.txHash
    requires Chronological(IngestedBy(requests), tx.timestamp)
    ensures var w, full := Run(env, EMPTY_WORLD, requests), Touching(IngestedBy(requests), tx.source);
            var onTheWayIn, byHash := PriorHistory(w.history, tx), PriorHistory(AfterIngest(w, tx).history, tx);
            && onTheWayIn == LastOf(full, 500) && byHash == LastOf(full, 499)
            && FrequencyExactTo(501, tx, onTheWayIn, full, w.flagged, config)
            && FrequencyExactTo(500, tx, byHash, full, w.flagged, config)
  {
    var w := Run(env, EMPTY_WORLD, requests);
    var full := Touching(IngestedBy(requests), tx.source);
    HistoryRefinesIngestLog(env, requests);
    PlacesTaken(w, IngestedBy(requests), tx);
    ChronologicalTouching(IngestedBy(requests), tx.source, tx.timestamp);
    FrequencyUnaffectedIff(tx, full, 500, w.flagged, config);
    FrequencyUnaffectedIff(tx, full, 499, w.flagged, config);
  }

  /** The number of the account's transactions in the frequency window, of which at most 500 count. */
  function CountedInWindow(ingested: seq<Transaction>, tx: Transaction, config: RulesConfig): nat {
    var n := |WithinWindow(Touching(ingested, tx.source), tx.timestamp, config.frequencyWindowSecs)|;
    if n <= 500 then n else 500
  }

  lemma FrequencyReported(ingested: seq<Transaction>, flagged: set<Account>, config: RulesConfig, tx: Transaction)
    requires Chronological(ingested, tx.timestamp)
    ensures Reported("abnormal_frequency", Medium, tx, RuleContext(LastOf(Touching(ingested, tx.source), 500), flagged), config)
       <==> config.frequencyCountThreshold <= 1 + CountedInWindow(ingested, tx, config)
  {
    var full := Touching(ingested, tx.source);
    ChronologicalTouching(ingested, tx.source, tx.timestamp);
    BoundedWindowCount(full, 500, tx.timestamp, config.frequencyWindowSecs);
    DefaultReports(2, Medium, tx, RuleContext(LastOf(full, 500), flagged), config);
  }

  lemma ShippedAnswers(env: Env, r: nat -> real, config: RulesConfig, w: World, tx: Transaction, draw: Draw)
    requires env.assess == ShippedAssess(r, config)
    ensures var response := Handle(env, w, IngestAndEvaluate(tx, draw)).1;
            && response.Evaluated?
            && response.assessment.triggers
            == Engine.Evaluate(DEFAULT_RULES, tx, RuleContext(PriorHistory(w.history, tx), w.flagged), config)
  {
  }

  /** From the ingest sequence to the answer: a transaction with a new hash, evaluated on its way in after any
      run, is reported for its frequency exactly when it and the account's transactions within the window, of
      which at most 500 count, reach the threshold. */
  lemma FrequencyAnswered(env: Env, r: nat -> real, config: RulesConfig, requests: seq<Request>, tx: Transaction, draw: Draw)
    requires env.assess == ShippedAssess(r, config)
    requires forall t :: t in IngestedBy(requests) ==> t.txHash != tx.txHash
    requires Chronological(IngestedBy(requests), tx.timestamp)
    ensures var response := Handle(env, Run(env, EMPTY_WORLD, requests), IngestAndEvaluate(tx, draw)).1;
            response.Evaluated? &&
            (TriggeredRule("abnormal_frequency", Medium) in response.assessment.triggers <==>
               config.frequencyCountThreshold <= 1 + CountedInWindow(IngestedBy(requests), tx, config))
  {
    var w := Run(env, EMPTY_WORLD, requests);
    HistoryRefinesIngestLog(env, requests);
    PlacesTaken(w, IngestedBy(requests), tx);
    FrequencyReported(IngestedBy(requests), w.flagged, config, tx);
    ShippedAnswers(env, r, config, w, tx, draw);
  }

  // ---------- The two endpoints ----------

  /** Evaluating a transaction on its way in, and ingesting it first and evaluating it by hash, leave the same
      world and get the same answer. */
  ghost predicate EndpointsAlike(env: Env, w: World, tx: Transaction, draw: Draw) {
    Handle(env, w, IngestAndEvaluate(tx, draw)) == Handle(env, Handle(env, w, Ingest(tx)).0, Evaluate(tx.txHash, draw))
  }

  ghost predicate AlikeUnder(env: Env, assess: Assessor, w: World, tx: Transaction, draw: Draw) {
    EndpointsAlike(env.(assess := assess), w, tx, draw)
  }

  lemma SameHistorySameAnswer(env: Env, w: World, tx: Transaction, draw: Draw)
    requires PriorHistory(AfterIngest(w, tx).history, tx) == PriorHistory(w.history, tx)
    ensures EndpointsAlike(env, w, tx, draw)
  {
  }

  /** An assessment that gives the length of the history away. */
  function Measuring(): Assessor {
    (tx: Transaction, history: seq<Transaction>, flagged: set<Account>) => Assessment([], |history| as real, Low)
  }

  lemma MeasuringTells(env: Env, w: World, tx: Transaction, draw: Draw)
    requires |PriorHistory(AfterIngest(w, tx).history, tx)| != |PriorHistory(w.history, tx)|
    ensures !AlikeUnder(env, Measuring(), w, tx, draw)
  {
    var env' := env.(assess := Measuring());
    assert Handle(env', w, IngestAndEvaluate(tx, draw)).1 == Evaluated(Assessment([], |PriorHistory(w.history, tx)| as real, Low), None);
    assert Handle(env', AfterIngest(w, tx), Evaluate(tx.txHash, draw)).1
        == Evaluated(Assessment([], |PriorHistory(AfterIngest(w, tx).history, tx)| as real, Low), None);
  }

  /** For a new hash they do so under every assessment exactly while the account has fewer than 500 others. */
  lemma EndpointsAlikeIff(env: Env, w: World, ingested: seq<Transaction>, tx: Transaction, draw: Draw)
    requires Mirrors(w, ingested) && forall t :: t in ingested ==> t.txHash != tx.txHash
    ensures (forall assess :: AlikeUnder(env, assess, w, tx, draw)) <==> |Touching(ingested, tx.source)| < MAX_HISTORY_PER_ACCOUNT
  {
    PlacesTaken(w, ingested, tx);
    if |Touching(ingested, tx.source)| < MAX_HISTORY_PER_ACCOUNT {
      forall assess ensures AlikeUnder(env, assess, w, tx, draw) {
        SameHistorySameAnswer(env.(assess := assess), w, tx, draw);
      }
    } else {
      MeasuringTells(env, w, tx, draw);
    }
  }

  /** The frequency rule tells them apart exactly when the 501st transaction is what reaches its threshold. */
  lemma EndpointsFrequencyAlikeIff(w: World, ingested: seq<Transaction>, tx: Transaction, config: RulesConfig)
    requires Mirrors(w, ingested) && forall t :: t in ingested ==> t.txHash != tx.txHash
    requires Chronological(ingested, tx.timestamp)
    ensures AbnormalFrequency(tx, RuleContext(PriorHistory(w.history, tx), w.flagged), config)
         == AbnormalFrequency(tx, RuleContext(PriorHistory(AfterIngest(w, tx).history, tx), w.flagged), config)
       <==> || config.frequencyCountThreshold != 501
            || |WithinWindow(Touching(ingested, tx.source), tx.timestamp, config.frequencyWindowSecs)| < 500
  {
    PlacesTaken(w, ingested, tx);
    ChronologicalTouching(ingested, tx.source, tx.timestamp);
    FrequencyOneFewerIff(tx, Touching(ingested, tx.source), 499, w.flagged, config);
  }

  // ---------- The other history rules ----------

  /** After any run, on any transaction, new or stored: three rules never fire on the stored history unless
      they fire on the full one; nor does the dormancy rule, if ingestion was in time order; and the new-account
      rule never fires on the full one unless it fires on the stored one. */
  lemma StoredHistoryVerdicts(env: Env, requests: seq<Request>, tx: Transaction, config: RulesConfig)
    ensures var w := Run(env, EMPTY_WORLD, requests);
            var few := RuleContext(PriorHistory(w.history, tx), w.flagged);
            var all := RuleContext(AllPrior(IngestedBy(requests), tx), w.flagged);
            && SoundFor(RepeatedTransaction, tx, few, all, config)
            && SoundFor(CrossAssetRapidConversion, tx, few, all, config)
            && SoundFor(RoundTripWashTrading, tx, few, all, config)
            && (Chronological(IngestedBy(requests), tx.timestamp) ==> SoundFor(DormantAccountReactivation, tx, few, all, config))
            && SoundFor(NewAccountHighValueOutflow, tx, all, few, config)
  {
    var w := Run(env, EMPTY_WORLD, requests);
    var kept := PriorHistory(w.history, tx);
    var evicted := JudgedOnSuffix(env, requests, tx);
    RepeatedUnaffectedIff(tx, evicted, kept, w.flagged, config);
    CrossAssetUnaffectedIff(tx, evicted, kept, w.flagged, config);
    RoundTripUnaffectedIff(tx, evicted, kept, w.flagged, config);
    NewAccountUnaffectedIff(tx, evicted, kept, w.flagged, config);
    if Chronological(IngestedBy(requests), tx.timestamp) {
      ChronologicalTouching(IngestedBy(requests), tx.source, tx.timestamp);
      ChronologicalFilter((t: Transaction) => t.txHash != tx.txHash, Touching(IngestedBy(requests), tx.source), tx.timestamp);
      DormantUnaffectedIff(tx, evicted, kept, w.flagged, config);
    }
  }

  ghost predicate SoundFor(check: Check, tx: Transaction, few: RuleContext, all: RuleContext, config: RulesConfig) {
    check(tx, few, config).Some? ==> check(tx, all, config).Some?
  }

  // ---------- Advice ----------

  /** The advisory layer is the shipped one, wherever that does not panic. */
  ghost predicate Advises(env: Env, lower: LowerCase, policy: Policy) {
    forall id, reasons, answer, now :: Advise(lower, policy, id, reasons, answer, now).Some? ==>
        env.advise(id, reasons, answer, now) == Advise(lower, policy, id, reasons, answer, now).value
  }

  predicate SteadyAnswer(lower: LowerCase, request: Request) {
    request.Investigate? && request.answer.Some? ==> SteadyRecommendation(lower, request.answer.value)
  }

  ghost predicate AdviceSafe(policy: Policy, rec: AiRecommendation) {
    Presentable(policy, rec) || rec == Fallback(rec.alertId, rec.suspiciousSignals, rec.generatedAt)
  }

  ghost predicate StoredAdviceSafe(policy: Policy, w: World) {
    forall id :: id in w.recommendations ==> AdviceSafe(policy, w.recommendations[id])
  }

  lemma HandleKeepsAdviceSafe(env: Env, lower: LowerCase, policy: Policy, w: World, request: Request)
    requires LowerCasing(lower) && Advises(env, lower, policy) && SteadyAnswer(lower, request) && StoredAdviceSafe(policy, w)
    ensures StoredAdviceSafe(policy, Handle(env, w, request).0)
  {
    if request.Investigate? && request.alertId in w.alerts {
      var alert := w.alerts[request.alertId];
      var reasons := Reasons(env, alert);
      if request.answer.Some? {
        ModelAnswerPresentable(lower, policy, alert.alertId, reasons, request.answer.value, request.draw.now);
      }
      assert Advise(lower, policy, alert.alertId, reasons, request.answer, request.draw.now).Some?;
      assert AdviceSafe(policy, env.advise(alert.alertId, reasons, request.answer, request.draw.now));
    }
  }

  /** When the model does not answer, what is stored says so: no confidence, the advisory label, and the rules'
      reasons, one by one. */
  lemma UnansweredIsFallback(env: Env, lower: LowerCase, policy: Policy, w: World, alertId: Uuid, draw: Draw)
    requires Advises(env, lower, policy) && alertId in w.alerts && Keyed(w.alerts)
    ensures var w' := Handle(env, w, Investigate(alertId, None, draw)).0;
            var alert := w.alerts[alertId];
            && alertId in w'.recommendations
            && var rec := w'.recommendations[alertId];
            && !rec.modelAvailable && rec.confidence == Finite(0.0) && rec.advisoryLabel == ADVISORY_LABEL
            && rec.alertId == alertId && rec.generatedAt == draw.now
            && |rec.suspiciousSignals| == |alert.triggeredRules|
            && forall k :: 0 <= k < |alert.triggeredRules| ==> rec.suspiciousSignals[k] == env.reason(alert, alert.triggeredRules[k])
  {
    var reasons := Reasons(env, w.alerts[alertId]);
    assert Advise(lower, policy, alertId, reasons, None, draw.now).Some?;
    assert env.advise(alertId, reasons, None, draw.now) == Fallback(alertId, reasons, draw.now);
  }

  /** After any run in which the characters of the model's answers keep their width, every stored
      recommendation is presentable or the local fallback. */
  lemma {:induction false} RunKeepsAdviceSafe(env: Env, lower: LowerCase, policy: Policy, w: World, requests: seq<Request>)
    requires LowerCasing(lower) && Advises(env, lower, policy) && StoredAdviceSafe(policy, w)
    requires forall i :: 0 <= i < |requests| ==> SteadyAnswer(lower, requests[i])
    ensures StoredAdviceSafe(policy, Run(env, w, requests))
    decreases |requests|
  {
    if requests != [] {
      assert SteadyAnswer(lower, requests[0]);
      HandleKeepsAdviceSafe(env, lower, policy, w, requests[0]);
      RunKeepsAdviceSafe(env, lower, policy, Handle(env, w, requests[0]).0, requests[1..]);
    }
  }
}
