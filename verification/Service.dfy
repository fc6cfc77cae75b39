/** The request handlers as one transition each (crates/api/src/handlers.rs, crates/api/src/state.rs).
    What a request draws from its surroundings, fresh ids, clock readings and the model's answer, is part
    of the request. How a transaction is assessed, and what becomes of the model's answer, are parameters:
    everything proved about runs holds for every assessor and every sanitizer. */
module Service {
  import opened Common
  import opened Audit
  import opened Alerts
  import opened Advisor
  import opened History

  datatype Assessment = Assessment(triggers: seq<TriggeredRule>, score: real, severity: Severity)

  /** Rules and scoring: a transaction, its account's other transactions on record, the flagged accounts. */
  type Assessor = (Transaction, seq<Transaction>, set<Account>) -> Assessment

  /** The advisory layer: an alert, the reasons of its rules, the model's answer if any, the time. */
  type AdviceMaker = (Uuid, seq<string>, Option<AiRecommendation>, Time) -> AiRecommendation

  datatype Env = Env(h: Hasher, advise: AdviceMaker, assess: Assessor, reason: (Alert, TriggeredRule) -> string)

  datatype World = World(
    alerts: AlertMap,
    log: seq<AuditRecord>,
    flagged: set<Account>,
    history: Index,
    transactions: map<string, Transaction>,
    recommendations: map<Uuid, AiRecommendation>
  )

  const EMPTY_WORLD := World(map[], [], {}, map[], map[], map[])

  /** Fresh id for an alert, a clock reading, and what two audit appends draw. */
  datatype Draw = Draw(alertId: Uuid, now: Time, stamps: (Stamp, Stamp))

  datatype Request =
    | Ingest(tx: Transaction)
    | Evaluate(txHash: string, draw: Draw)
    | IngestAndEvaluate(tx: Transaction, draw: Draw)
    | Investigate(alertId: Uuid, answer: Option<AiRecommendation>, draw: Draw)
    | Decide(role: Role, decision: Decision, draw: Draw)

  datatype Response =
    | Ingested(tx: Transaction)
    | Evaluated(assessment: Assessment, alert: Option<Alert>)
    | Advised(recommendation: AiRecommendation)
    | Decided(updated: Alert)
    | NotFound
    | Forbidden

  /** The history a transaction is judged against: its source account's, without the transaction itself. */
  function PriorHistory(history: Index, tx: Transaction): seq<Transaction> {
    Filter((t: Transaction) => t.txHash != tx.txHash, Lookup(history, tx.source))
  }

  function AfterIngest(w: World, tx: Transaction): World {
    w.(history := Recorded(w.history, tx), transactions := w.transactions[tx.txHash := tx])
  }

  function AfterCreate(h: Hasher, w: World, alert: Alert, stamps: (Stamp, Stamp)): World {
    w.(alerts := w.alerts[alert.alertId := alert],
    log := LoggedPair(h, w.log, alert.alertId, alert.tx.txHash, CreatedEvent(alert), TriggeredEvent(alert), stamps))
  }

  function RunEvaluation(env: Env, w: World, tx: Transaction, draw: Draw): (World, Response) {
    var a := env.assess(tx, PriorHistory(w.history, tx), w.flagged);
    if a.triggers == [] then (w, Evaluated(a, None))
    else
      var alert := NewAlert(draw.alertId, tx, a.triggers, a.score, a.severity, draw.now);
      (AfterCreate(env.h, w, alert, draw.stamps), Evaluated(a, Some(alert)))
  }

  function Reasons(env: Env, alert: Alert): seq<string> {
    seq(|alert.triggeredRules|, i requires 0 <= i < |alert.triggeredRules| => env.reason(alert, alert.triggeredRules[i]))
  }

  function AfterInvestigate(env: Env, w: World, alert: Alert, answer: Option<AiRecommendation>, draw: Draw): (World, AiRecommendation) {
    var reasons := Reasons(env, alert);
    var rec := env.advise(alert.alertId, reasons, answer, draw.now);
    (w.(log := LoggedPair(env.h, w.log, alert.alertId, alert.tx.txHash,
            AiContextSent(|reasons|), AiRecommendationReceived(rec.confidence, rec.modelAvailable), draw.stamps),
     recommendations := w.recommendations[alert.alertId := rec]), rec)
  }

  function AfterDecision(h: Hasher, w: World, d: Decision, draw: Draw): World
    requires d.alertId in w.alerts
  {
    var before := w.alerts[d.alertId];
    w.(alerts := w.alerts[d.alertId := Revised(before, d.decision, draw.now)],
    log := LoggedPair(h, w.log, d.alertId, before.tx.txHash, DecisionEvent(d), StatusChanged(before.status, d.decision), draw.stamps),
    flagged := if d.decision == ConfirmedSuspicious then w.flagged + Parties(before.tx) else w.flagged)
  }

  function Handle(env: Env, w: World, request: Request): (World, Response) {
    match request
    case Ingest(tx) => (AfterIngest(w, tx), Ingested(tx))
    case Evaluate(txHash, draw) =>
      if txHash in w.transactions then RunEvaluation(env, w, w.transactions[txHash], draw) else (w, NotFound)
    case IngestAndEvaluate(tx, draw) =>
      var (after, response) := RunEvaluation(env, w, tx, draw);
      (AfterIngest(after, tx), response)
    case Investigate(alertId, answer, draw) =>
      if alertId in w.alerts then
        var (after, rec) := AfterInvestigate(env, w, w.alerts[alertId], answer, draw);
        (after, Advised(rec))
      else (w, NotFound)
    case Decide(role, decision, draw) =>
      if !role.CanDecide() then (w, Forbidden)
      else if decision.alertId !in w.alerts then (w, NotFound)
      else
        var after := AfterDecision(env.h, w, decision, draw);
        (after, Decided(after.alerts[decision.alertId]))
  }

  /** Alert ids are drawn fresh. */
  predicate Fresh(w: World, request: Request) {
    (request.Evaluate? || request.IngestAndEvaluate?) ==> request.draw.alertId !in w.alerts
  }

  function Run(env: Env, w: World, requests: seq<Request>): World
    decreases |requests|
  {
    if requests == [] then w else Run(env, Handle(env, w, requests[0]).0, requests[1..])
  }

  predicate FreshRun(env: Env, w: World, requests: seq<Request>)
    decreases |requests|
  {
    requests == [] || (Fresh(w, requests[0]) && FreshRun(env, Handle(env, w, requests[0]).0, requests[1..]))
  }

  // ---------- The handlers over shared mutable state ----------

  class AppState {
    const env: Env
    const audit: AuditLog
    const manager: AlertManager
    var txHistory: Index
    var transactions: map<string, Transaction>
    var flaggedAccounts: set<Account>
    var aiRecommendations: map<Uuid, AiRecommendation>

    ghost predicate Valid() {
      manager.audit == audit && audit.hasher == env.h
    }

    ghost function View(): World
      reads this, audit, manager
    {
      World(manager.alerts, audit.records, flaggedAccounts, txHistory, transactions, aiRecommendations)
    }

    constructor (env: Env)
      ensures Valid() && this.env == env && View() == EMPTY_WORLD
      ensures fresh(audit) && fresh(manager)
    {
      var log := new AuditLog(env.h);
      var alerts := new AlertManager(log);
      this.env := env;
      audit := log;
      manager := alerts;
      txHistory, transactions, flaggedAccounts, aiRecommendations := map[], map[], {}, map[];
    }

    method PushBounded(account: Account, tx: Transaction)
      modifies this`txHistory
      ensures txHistory == Pushed(old(txHistory), account, tx)
    {
      var entry := if account in txHistory then txHistory[account] else [];
      entry := entry + [tx];
      if |entry| > MAX_HISTORY_PER_ACCOUNT {
        var excess := |entry| - MAX_HISTORY_PER_ACCOUNT;
        entry := entry[excess..];
      }
      txHistory := txHistory[account := entry];
    }

    method RecordTransaction(tx: Transaction)
      modifies this`txHistory, this`transactions
      ensures txHistory == Recorded(old(txHistory), tx)
      ensures transactions == old(transactions)[tx.txHash := tx]
    {
      transactions := transactions[tx.txHash := tx];
      PushBounded(tx.source, tx);
      if tx.destination.Some? {
        if tx.destination.value != tx.source {
          PushBounded(tx.destination.value, tx);
        }
      }
    }

    method RunEvaluationHere(tx: Transaction, draw: Draw) returns (response: Response)
      requires Valid()
      modifies manager, audit
      ensures (View(), response) == RunEvaluation(env, old(View()), tx, draw)
    {
      var history := PriorHistory(txHistory, tx);
      var a := env.assess(tx, history, flaggedAccounts);
      if a.triggers != [] {
        var alert := manager.CreateAlert(tx, a.triggers, a.score, a.severity, draw.alertId, draw.now, draw.stamps);
        response := Evaluated(a, Some(alert));
      } else {
        response := Evaluated(a, None);
      }
    }

    method IngestTransaction(tx: Transaction) returns (response: Response)
      requires Valid()
      modifies this
      ensures (View(), response) == Handle(env, old(View()), Ingest(tx))
    {
      RecordTransaction(tx);
      response := Ingested(tx);
    }

    method EvaluateTransaction(txHash: string, draw: Draw) returns (response: Response)
      requires Valid()
      modifies manager, audit
      ensures (View(), response) == Handle(env, old(View()), Evaluate(txHash, draw))
    {
      if txHash in transactions {
        response := RunEvaluationHere(transactions[txHash], draw);
      } else {
        response := NotFound;
      }
    }

    method IngestAndEvaluateTransaction(tx: Transaction, draw: Draw) returns (response: Response)
      requires Valid()
      modifies this, manager, audit
      ensures (View(), response) == Handle(env, old(View()), IngestAndEvaluate(tx, draw))
    {
      response := RunEvaluationHere(tx, draw);
      RecordTransaction(tx);
    }

    method GetAiInvestigation(alertId: Uuid, answer: Option<AiRecommendation>, draw: Draw) returns (response: Response)
      requires Valid() && Keyed(manager.alerts)
      modifies this, audit
      ensures (View(), response) == Handle(env, old(View()), Investigate(alertId, answer, draw))
    {
      if alertId !in manager.alerts {
        return NotFound;
      }
      var alert := manager.alerts[alertId];
      var reasons := Reasons(env, alert);
      var _ := audit.Append(alertId, alert.tx.txHash, AiContextSent(|reasons|), draw.stamps.0);
      var rec := env.advise(alertId, reasons, answer, draw.now);
      var _ := audit.Append(alertId, alert.tx.txHash, AiRecommendationReceived(rec.confidence, rec.modelAvailable), draw.stamps.1);
      aiRecommendations := aiRecommendations[alertId := rec];
      response := Advised(rec);
    }

    method SubmitDecision(role: Role, decision: Decision, draw: Draw) returns (response: Response)
      requires Valid()
      modifies this, manager, audit
      ensures (View(), response) == Handle(env, old(View()), Decide(role, decision, draw))
    {
      if !role.CanDecide() {
        return Forbidden;
      }
      var updated := manager.ApplyInvestigatorDecision(decision, draw.now, draw.stamps);
      if updated.None? {
        return NotFound;
      }
      if updated.value.status == ConfirmedSuspicious {
        flaggedAccounts := flaggedAccounts + {updated.value.tx.source};
        if updated.value.tx.destination.Some? {
          flaggedAccounts := flaggedAccounts + {updated.value.tx.destination.value};
        }
        assert flaggedAccounts == old(flaggedAccounts) + Parties(updated.value.tx);
      }
      response := Decided(updated.value);
    }
  }
}
