/** What each request leaves behind, seen from outside, and what that adds up to over whole runs
    (crates/api/src/handlers.rs:70-131, 182-291; crates/common/src/lib.rs:166-176). */
module Outcomes {
  import opened Common
  import opened Audit
  import opened Alerts
  import opened Advisor
  import opened History
  import opened Service
  import opened Runs

  predicate Says(record: AuditRecord, alertId: Uuid, txHash: string, event: AuditEvent, stamp: Stamp) {
    && record.content.alertId == alertId && record.content.txHash == txHash && record.content.event == event
    && record.content.recordId == stamp.recordId && record.content.timestamp == stamp.at
  }

  /** The log has two records more, about the same alert. */
  predicate TwoMore(longer: seq<AuditRecord>, log: seq<AuditRecord>, alertId: Uuid, txHash: string, first: AuditEvent, second: AuditEvent, stamps: (Stamp, Stamp)) {
    && |longer| == |log| + 2 && longer[..|log|] == log
    && Says(longer[|log|], alertId, txHash, first, stamps.0)
    && Says(longer[|log| + 1], alertId, txHash, second, stamps.1)
  }

  // ---------- Decisions ----------

  lemma ViewerRefused(env: Env, w: World, d: Decision, draw: Draw)
    ensures Handle(env, w, Decide(Viewer, d, draw)) == (w, Forbidden)
  {
  }

  lemma UnknownAlertNotFound(env: Env, w: World, role: Role, d: Decision, draw: Draw)
    requires (role == Investigator || role == Admin) && d.alertId !in w.alerts
    ensures Handle(env, w, Decide(role, d, draw)) == (w, NotFound)
  {
  }

  /** An investigator's or an administrator's decision gives the alert its status and the time, and nothing
      else of it or of any other alert changes; who decided what is recorded with the change; a confirmation,
      and only that, flags both parties. */
  lemma DecisionTakesEffect(env: Env, w: World, role: Role, d: Decision, draw: Draw)
    requires (role == Investigator || role == Admin) && d.alertId in w.alerts
    ensures var (w', response) := Handle(env, w, Decide(role, d, draw));
            var before := w.alerts[d.alertId];
            && w'.alerts.Keys == w.alerts.Keys
            && w'.alerts[d.alertId] == Alert(before.alertId, before.tx, before.triggeredRules, before.anomalyScore, before.severity,
                                         d.decision, before.createdAt, draw.now)
            && (forall id :: id in w.alerts && id != d.alertId ==> w'.alerts[id] == w.alerts[id])
            && response == Decided(w'.alerts[d.alertId])
            && TwoMore(w'.log, w.log, d.alertId, before.tx.txHash, InvestigatorDecision(d.investigator, d.decision, d.notes),
                 StatusChanged(before.status, d.decision), draw.stamps)
            && (forall x :: x in w'.flagged <==>
                  x in w.flagged || (d.decision == ConfirmedSuspicious && (x == before.tx.source || before.tx.destination == Some(x))))
            && w'.history == w.history && w'.transactions == w.transactions && w'.recommendations == w.recommendations
  {
  }

  predicate OnlyViewersDecide(requests: seq<Request>) {
    forall i :: 0 <= i < |requests| && requests[i].Decide? ==> requests[i].role == Viewer
  }

  /** No alert of `w` has changed in any way, no flag, and no decision or change of status was recorded. */
  ghost predicate NothingDecided(w: World, w': World) {
    && (forall id :: id in w.alerts ==> id in w'.alerts && w'.alerts[id] == w.alerts[id])
    && w'.flagged == w.flagged
    && w.log <= w'.log
    && (forall i :: |w.log| <= i < |w'.log| ==> !w'.log[i].content.event.InvestigatorDecision? && !w'.log[i].content.event.StatusChanged?)
  }

  lemma EvaluationDecidesNothing(env: Env, w: World, tx: Transaction, draw: Draw)
    requires Keyed(w.alerts) && draw.alertId !in w.alerts
    ensures Keyed(RunEvaluation(env, w, tx, draw).0.alerts) && NothingDecided(w, RunEvaluation(env, w, tx, draw).0)
  {
  }

  lemma AdviceDecidesNothing(env: Env, w: World, alert: Alert, answer: Option<AiRecommendation>, draw: Draw)
    requires Keyed(w.alerts)
    ensures Keyed(AfterInvestigate(env, w, alert, answer, draw).0.alerts) && NothingDecided(w, AfterInvestigate(env, w, alert, answer, draw).0)
  {
  }

  lemma StepDecidesNothing(env: Env, w: World, request: Request)
    requires Keyed(w.alerts) && Fresh(w, request) && (request.Decide? ==> request.role == Viewer)
    ensures Keyed(Handle(env, w, request).0.alerts) && NothingDecided(w, Handle(env, w, request).0)
  {
    match request
    case Ingest(_) =>
    case Evaluate(txHash, draw) =>
      if txHash in w.transactions {
        EvaluationDecidesNothing(env, w, w.transactions[txHash], draw);
      }
    case IngestAndEvaluate(tx, draw) => EvaluationDecidesNothing(env, w, tx, draw);
    case Investigate(alertId, answer, draw) =>
      if alertId in w.alerts {
        AdviceDecidesNothing(env, w, w.alerts[alertId], answer, draw);
      }
    case Decide(_, d, draw) => ViewerRefused(env, w, d, draw);
  }

  /** In a run whose decisions all come from viewers, nothing is decided. */
  lemma {:induction false} ViewersDecideNothing(env: Env, w: World, requests: seq<Request>)
    requires Keyed(w.alerts) && FreshRun(env, w, requests) && OnlyViewersDecide(requests)
    ensures NothingDecided(w, Run(env, w, requests))
    decreases |requests|
  {
    if requests != [] {
      var v := Handle(env, w, requests[0]).0;
      StepDecidesNothing(env, w, requests[0]);
      assert OnlyViewersDecide(requests[1..]);
      ViewersDecideNothing(env, v, requests[1..]);
      var w' := Run(env, w, requests);
      assert forall i :: |w.log| <= i < |v.log| ==> w'.log[i] == v.log[i];
    }
  }

  // ---------- Evaluations ----------

  /** A transaction without triggers leaves no trace. One with triggers leaves an open alert that holds them,
      the score and the severity as assessed, and two records of that; and nothing else. */
  lemma EvaluationFiles(env: Env, w: World, tx: Transaction, draw: Draw)
    ensures var (w', response) := RunEvaluation(env, w, tx, draw);
            var a := env.assess(tx, PriorHistory(w.history, tx), w.flagged);
            if a.triggers == [] then w' == w && response == Evaluated(a, None)
            else
              && w'.alerts.Keys == w.alerts.Keys + {draw.alertId}
              && w'.alerts[draw.alertId] == Alert(draw.alertId, tx, a.triggers, a.score, a.severity, Open, draw.now, draw.now)
              && (forall id :: id in w.alerts && id != draw.alertId ==> w'.alerts[id] == w.alerts[id])
              && response == Evaluated(a, Some(w'.alerts[draw.alertId]))
              && (exists ids :: |ids| == |a.triggers| && (forall k :: 0 <= k < |ids| ==> ids[k] == a.triggers[k].ruleId)
                    && TwoMore(w'.log, w.log, draw.alertId, tx.txHash, AlertCreated(a.score, a.severity), RulesTriggered(ids), draw.stamps))
              && w' == w.(alerts := w'.alerts, log := w'.log)
  {
    var a := env.assess(tx, PriorHistory(w.history, tx), w.flagged);
    var ids := RuleIds(a.triggers);
    assert |ids| == |a.triggers| && forall k :: 0 <= k < |ids| ==> ids[k] == a.triggers[k].ruleId;
  }

  /** By hash, the latest ingested transaction bearing it is evaluated; an unknown hash changes nothing. */
  lemma EvaluationByHash(env: Env, w: World, ingested: seq<Transaction>, txHash: string, draw: Draw)
    requires Mirrors(w, ingested)
    ensures Handle(env, w, Evaluate(txHash, draw))
         == match LatestWithHash(ingested, txHash)
            case Some(tx) => RunEvaluation(env, w, tx, draw)
            case None => (w, NotFound)
  {
    assert (if txHash in w.transactions then Some(w.transactions[txHash]) else None) == LatestWithHash(ingested, txHash);
  }

  // ---------- Advice ----------

  lemma UnknownAlertNotAdvised(env: Env, w: World, alertId: Uuid, answer: Option<AiRecommendation>, draw: Draw)
    requires alertId !in w.alerts
    ensures Handle(env, w, Investigate(alertId, answer, draw)) == (w, NotFound)
  {
  }

  /** The advice on an alert is made of the reasons of its triggers, in order; it is stored and returned, and
      what was sent and received is recorded. Nothing else changes. */
  lemma InvestigationStores(env: Env, w: World, alertId: Uuid, answer: Option<AiRecommendation>, draw: Draw)
    requires alertId in w.alerts && Keyed(w.alerts)
    ensures var (w', response) := Handle(env, w, Investigate(alertId, answer, draw));
            var alert := w.alerts[alertId];
            && alertId in w'.recommendations
            && w'.recommendations == w.recommendations[alertId := w'.recommendations[alertId]]
            && response == Advised(w'.recommendations[alertId])
            && (exists reasons :: |reasons| == |alert.triggeredRules|
                  && (forall k :: 0 <= k < |reasons| ==> reasons[k] == env.reason(alert, alert.triggeredRules[k]))
                  && w'.recommendations[alertId] == env.advise(alertId, reasons, answer, draw.now))
            && TwoMore(w'.log, w.log, alertId, alert.tx.txHash, AiContextSent(|alert.triggeredRules|),
                 AiRecommendationReceived(w'.recommendations[alertId].confidence, w'.recommendations[alertId].modelAvailable), draw.stamps)
            && w' == w.(recommendations := w'.recommendations, log := w'.log)
  {
    var alert := w.alerts[alertId];
    var reasons := Reasons(env, alert);
    assert |reasons| == |alert.triggeredRules| && forall k :: 0 <= k < |reasons| ==> reasons[k] == env.reason(alert, alert.triggeredRules[k]);
  }

  // ---------- What the log tells ----------

  /** An alert's trail opens with its score and severity, and then the ids of its triggers, one by one. */
  predicate OpensWith(t: seq<AuditEvent>, a: Alert) {
    && |t| >= 2
    && t[0] == AlertCreated(a.anomalyScore, a.severity)
    && t[1].RulesTriggered?
    && |t[1].ruleIds| == |a.triggeredRules|
    && forall k :: 0 <= k < |a.triggeredRules| ==> t[1].ruleIds[k] == a.triggeredRules[k].ruleId
  }

  /** What the last answer of the advisory layer on record was. */
  function LastAdvice(t: seq<AuditEvent>): Option<(Float, bool)> {
    if t == [] then None
    else
      var last := t[|t| - 1];
      if last.AiRecommendationReceived? then Some((last.confidence, last.modelAvailable)) else LastAdvice(t[..|t| - 1])
  }

  predicate AdviceTold(w: World, id: Uuid) {
    LastAdvice(TrailOf(w.log, id))
    == if id in w.recommendations then Some((w.recommendations[id].confidence, w.recommendations[id].modelAvailable)) else None
  }

  /** Each alert's trail tells what was found when it was created, and what advice is stored. */
  ghost predicate TrailsTellAll(w: World) {
    && (forall id :: id in w.alerts ==> OpensWith(TrailOf(w.log, id), w.alerts[id]))
    && (forall id :: AdviceTold(w, id))
  }

  lemma LastAdviceOfPair(t: seq<AuditEvent>, first: AuditEvent, second: AuditEvent)
    ensures LastAdvice(t + [first, second])
         == if second.AiRecommendationReceived? then Some((second.confidence, second.modelAvailable))
            else if first.AiRecommendationReceived? then Some((first.confidence, first.modelAvailable))
            else LastAdvice(t)
  {
    assert (t + [first, second])[..|t| + 1] == t + [first];
    assert (t + [first])[..|t|] == t;
  }

  lemma OpeningStays(t: seq<AuditEvent>, more: seq<AuditEvent>, a: Alert, b: Alert)
    requires OpensWith(t, a) && a.anomalyScore == b.anomalyScore && a.severity == b.severity && a.triggeredRules == b.triggeredRules
    ensures OpensWith(t + more, b)
  {
  }

  lemma FirstTrailOpens(alert: Alert)
    ensures OpensWith([CreatedEvent(alert), TriggeredEvent(alert)], alert)
  {
  }

  lemma CreationTellsAll(env: Env, w: World, alert: Alert, stamps: (Stamp, Stamp), id: Uuid)
    requires TrailsTellStatus(w) && TrailsTellAll(w) && alert.alertId !in w.alerts
    ensures var w' := AfterCreate(env.h, w, alert, stamps);
            (id in w'.alerts ==> OpensWith(TrailOf(w'.log, id), w'.alerts[id])) && AdviceTold(w', id)
  {
    TrailOfPair(env.h, w.log, alert.alertId, alert.tx.txHash, CreatedEvent(alert), TriggeredEvent(alert), stamps, id);
    assert TrailFits(w, id) && AdviceTold(w, id);
    var t := TrailOf(w.log, id);
    LastAdviceOfPair(t, CreatedEvent(alert), TriggeredEvent(alert));
    assert t + [] == t;
    if id == alert.alertId {
      assert t + [CreatedEvent(alert), TriggeredEvent(alert)] == [CreatedEvent(alert), TriggeredEvent(alert)];
      FirstTrailOpens(alert);
    }
  }

  lemma DecisionTellsAll(env: Env, w: World, d: Decision, draw: Draw, id: Uuid)
    requires TrailsTellAll(w) && d.alertId in w.alerts
    ensures var w' := AfterDecision(env.h, w, d, draw);
            (id in w'.alerts ==> OpensWith(TrailOf(w'.log, id), w'.alerts[id])) && AdviceTold(w', id)
  {
    var before := w.alerts[d.alertId];
    var changed := StatusChanged(before.status, d.decision);
    TrailOfPair(env.h, w.log, d.alertId, before.tx.txHash, DecisionEvent(d), changed, draw.stamps, id);
    assert AdviceTold(w, id);
    var t := TrailOf(w.log, id);
    LastAdviceOfPair(t, DecisionEvent(d), changed);
    assert t + [] == t;
    if id in w.alerts {
      OpeningStays(t, if id == d.alertId then [DecisionEvent(d), changed] else [], w.alerts[id], AfterDecision(env.h, w, d, draw).alerts[id]);
    }
  }

  lemma AdviceTellsAll(env: Env, w: World, alert: Alert, answer: Option<AiRecommendation>, draw: Draw, id: Uuid)
    requires TrailsTellAll(w)
    ensures var w' := AfterInvestigate(env, w, alert, answer, draw).0;
            (id in w'.alerts ==> OpensWith(TrailOf(w'.log, id), w'.alerts[id])) && AdviceTold(w', id)
  {
    var (w', rec) := AfterInvestigate(env, w, alert, answer, draw);
    var sent, received := AiContextSent(|Reasons(env, alert)|), AiRecommendationReceived(rec.confidence, rec.modelAvailable);
    TrailOfPair(env.h, w.log, alert.alertId, alert.tx.txHash, sent, received, draw.stamps, id);
    assert AdviceTold(w, id);
    var t := TrailOf(w.log, id);
    LastAdviceOfPair(t, sent, received);
    assert t + [] == t;
    if id in w.alerts {
      OpeningStays(t, if id == alert.alertId then [sent, received] else [], w.alerts[id], w.alerts[id]);
    }
  }

  lemma SameTold(w: World, w': World)
    requires TrailsTellAll(w) && w'.alerts == w.alerts && w'.log == w.log && w'.recommendations == w.recommendations
    ensures TrailsTellAll(w')
  {
    forall id ensures AdviceTold(w', id) {
      assert AdviceTold(w, id);
    }
  }

  lemma EvaluationTellsAll(env: Env, w: World, tx: Transaction, draw: Draw)
    requires TrailsTellStatus(w) && TrailsTellAll(w) && draw.alertId !in w.alerts
    ensures TrailsTellAll(RunEvaluation(env, w, tx, draw).0)
  {
    var a := env.assess(tx, PriorHistory(w.history, tx), w.flagged);
    var w' := RunEvaluation(env, w, tx, draw).0;
    forall id ensures (id in w'.alerts ==> OpensWith(TrailOf(w'.log, id), w'.alerts[id])) && AdviceTold(w', id) {
      if a.triggers == [] {
        assert AdviceTold(w, id);
      } else {
        CreationTellsAll(env, w, NewAlert(draw.alertId, tx, a.triggers, a.score, a.severity, draw.now), draw.stamps, id);
      }
    }
  }

  lemma HandleTellsAll(env: Env, w: World, request: Request)
    requires Invariant(env, w) && TrailsTellAll(w) && Fresh(w, request)
    ensures TrailsTellAll(Handle(env, w, request).0)
  {
    var w' := Handle(env, w, request).0;
    match request
    case Ingest(tx) => SameTold(w, w');
    case Evaluate(txHash, draw) =>
      if txHash in w.transactions {
        EvaluationTellsAll(env, w, w.transactions[txHash], draw);
      }
    case IngestAndEvaluate(tx, draw) =>
      EvaluationTellsAll(env, w, tx, draw);
      SameTold(RunEvaluation(env, w, tx, draw).0, w');
    case Investigate(alertId, answer, draw) =>
      if alertId in w.alerts {
        forall id ensures (id in w'.alerts ==> OpensWith(TrailOf(w'.log, id), w'.alerts[id])) && AdviceTold(w', id) {
          AdviceTellsAll(env, w, w.alerts[alertId], answer, draw, id);
        }
      }
    case Decide(role, d, draw) =>
      if role.CanDecide() && d.alertId in w.alerts {
        forall id ensures (id in w'.alerts ==> OpensWith(TrailOf(w'.log, id), w'.alerts[id])) && AdviceTold(w', id) {
          DecisionTellsAll(env, w, d, draw, id);
        }
      }
  }

  lemma {:induction false} RunTellsAll(env: Env, w: World, requests: seq<Request>)
    requires Invariant(env, w) && TrailsTellAll(w) && FreshRun(env, w, requests)
    ensures TrailsTellAll(Run(env, w, requests))
    decreases |requests|
  {
    if requests != [] {
      HandleKeepsInvariant(env, w, requests[0]);
      HandleTellsAll(env, w, requests[0]);
      RunTellsAll(env, Handle(env, w, requests[0]).0, requests[1..]);
    }
  }

  /** After every run from empty, each alert's first two records tell its score, its severity and the ids of its
      triggers, and the last answer on its trail is the confidence and availability of the stored advice. */
  lemma TrailsTellFromEmpty(env: Env, requests: seq<Request>)
    requires FreshRun(env, EMPTY_WORLD, requests)
    ensures TrailsTellAll(Run(env, EMPTY_WORLD, requests))
  {
    EmptyInvariant(env);
    forall id ensures AdviceTold(EMPTY_WORLD, id) {
      assert ForAlert([], id) == [];
    }
    RunTellsAll(env, EMPTY_WORLD, requests);
  }
}
