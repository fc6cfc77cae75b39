/** The advisory layer cannot influence triage: docs/ai-boundary.md and
    crates/api/src/handlers.rs:182-237, 252-291. */
module NonInterference {
  import opened Common
  import opened Audit
  import opened Alerts
  import opened Advisor
  import opened Service

  predicate AiEvent(event: AuditEvent) {
    event.AiContextSent? || event.AiRecommendationReceived?
  }

  /** The log without its advisory records and without hash fields. */
  function Scrubbed(log: seq<AuditRecord>): seq<HashInput> {
    if log == [] then []
    else
      var last := log[|log| - 1].content;
      Scrubbed(log[..|log| - 1]) + if AiEvent(last.event) then [] else [last.(prevHash := "")]
  }

  /** Everything but recommendations, advisory records and hashes is the same. */
  ghost predicate Agree(w: World, w': World) {
    && w.alerts == w'.alerts
    && w.flagged == w'.flagged
    && w.history == w'.history
    && w.transactions == w'.transactions
    && Scrubbed(w.log) == Scrubbed(w'.log)
  }

  function WithoutAi(requests: seq<Request>): seq<Request> {
    if requests == [] then []
    else (if requests[0].Investigate? then [] else [requests[0]]) + WithoutAi(requests[1..])
  }

  /** The responses to all requests but the advisory ones. */
  function Answers(env: Env, w: World, requests: seq<Request>): seq<Response>
    decreases |requests|
  {
    if requests == [] then []
    else
      var (w', response) := Handle(env, w, requests[0]);
      (if requests[0].Investigate? then [] else [response]) + Answers(env, w', requests[1..])
  }

  lemma ScrubbedAppended(h: Hasher, log: seq<AuditRecord>, alertId: Uuid, txHash: string, event: AuditEvent, stamp: Stamp)
    ensures Scrubbed(Appended(h, log, alertId, txHash, event, stamp))
         == Scrubbed(log) + if AiEvent(event) then [] else [HashInput("", stamp.recordId, alertId, txHash, stamp.at, event)]
  {
    var longer := Appended(h, log, alertId, txHash, event, stamp);
    assert longer[..|log|] == log;
  }

  lemma ScrubbedPair(h: Hasher, log: seq<AuditRecord>, log': seq<AuditRecord>, alertId: Uuid, txHash: string, first: AuditEvent, second: AuditEvent, stamps: (Stamp, Stamp))
    requires Scrubbed(log) == Scrubbed(log')
    ensures Scrubbed(LoggedPair(h, log, alertId, txHash, first, second, stamps))
         == Scrubbed(LoggedPair(h, log', alertId, txHash, first, second, stamps))
    ensures AiEvent(first) && AiEvent(second) ==>
              Scrubbed(LoggedPair(h, log, alertId, txHash, first, second, stamps)) == Scrubbed(log)
  {
    ScrubbedAppended(h, log, alertId, txHash, first, stamps.0);
    ScrubbedAppended(h, log', alertId, txHash, first, stamps.0);
    ScrubbedAppended(h, Appended(h, log, alertId, txHash, first, stamps.0), alertId, txHash, second, stamps.1);
    ScrubbedAppended(h, Appended(h, log', alertId, txHash, first, stamps.0), alertId, txHash, second, stamps.1);
  }

  /** An advisory call leaves everything else as it was, whatever the model answers. */
  lemma AiCallInvisible(env: Env, w: World, alertId: Uuid, answer: Option<AiRecommendation>, draw: Draw)
    ensures Agree(Handle(env, w, Investigate(alertId, answer, draw)).0, w)
  {
    if alertId in w.alerts {
      var alert := w.alerts[alertId];
      var reasons := Reasons(env, alert);
      var rec := env.advise(alert.alertId, reasons, answer, draw.now);
      ScrubbedPair(env.h, w.log, w.log, alert.alertId, alert.tx.txHash, AiContextSent(|reasons|),
        AiRecommendationReceived(rec.confidence, rec.modelAvailable), draw.stamps);
    }
  }

  /** Any other request does the same, and answers the same, in worlds that agree. */
  lemma OtherRequestsAgree(env: Env, w: World, w': World, request: Request)
    requires Agree(w, w') && !request.Investigate?
    ensures Agree(Handle(env, w, request).0, Handle(env, w', request).0)
    ensures Handle(env, w, request).1 == Handle(env, w', request).1
  {
    match request
    case Ingest(tx) =>
    case Evaluate(txHash, draw) =>
      if txHash in w.transactions {
        EvaluationsAgree(env, w, w', w.transactions[txHash], draw);
      }
    case IngestAndEvaluate(tx, draw) =>
      EvaluationsAgree(env, w, w', tx, draw);
    case Decide(role, d, draw) =>
      if d.alertId in w.alerts {
        DecisionsAgree(env, w, w', d, draw);
      }
  }

  lemma DecisionsAgree(env: Env, w: World, w': World, d: Decision, draw: Draw)
    requires Agree(w, w') && d.alertId in w.alerts
    ensures Agree(AfterDecision(env.h, w, d, draw), AfterDecision(env.h, w', d, draw))
  {
    var before := w.alerts[d.alertId];
    ScrubbedPair(env.h, w.log, w'.log, d.alertId, before.tx.txHash, DecisionEvent(d),
      StatusChanged(before.status, d.decision), draw.stamps);
  }

  lemma CreationsAgree(env: Env, w: World, w': World, alert: Alert, stamps: (Stamp, Stamp))
    requires Agree(w, w')
    ensures Agree(AfterCreate(env.h, w, alert, stamps), AfterCreate(env.h, w', alert, stamps))
  {
    ScrubbedPair(env.h, w.log, w'.log, alert.alertId, alert.tx.txHash, CreatedEvent(alert), TriggeredEvent(alert), stamps);
  }

  lemma EvaluationsAgree(env: Env, w: World, w': World, tx: Transaction, draw: Draw)
    requires Agree(w, w')
    ensures Agree(RunEvaluation(env, w, tx, draw).0, RunEvaluation(env, w', tx, draw).0)
    ensures RunEvaluation(env, w, tx, draw).1 == RunEvaluation(env, w', tx, draw).1
  {
    var a := env.assess(tx, PriorHistory(w.history, tx), w.flagged);
    CreationsAgree(env, w, w', NewAlert(draw.alertId, tx, a.triggers, a.score, a.severity, draw.now), draw.stamps);
  }

  /** A run agrees with the run of its non-advisory requests alone. */
  lemma {:induction false} DroppingAiCalls(env: Env, w: World, w': World, requests: seq<Request>)
    requires Agree(w, w')
    ensures Agree(Run(env, w, requests), Run(env, w', WithoutAi(requests)))
    ensures Answers(env, w, requests) == Answers(env, w', WithoutAi(requests))
    decreases |requests|
  {
    if requests != [] {
      var request, rest := requests[0], requests[1..];
      var v := Handle(env, w, request).0;
      if request.Investigate? {
        AiCallInvisible(env, w, request.alertId, request.answer, request.draw);
        DroppingAiCalls(env, v, w', rest);
        assert WithoutAi(requests) == WithoutAi(rest);
      } else {
        OtherRequestsAgree(env, w, w', request);
        DroppingAiCalls(env, v, Handle(env, w', request).0, rest);
        assert WithoutAi(requests)[0] == request && WithoutAi(requests)[1..] == WithoutAi(rest);
      }
    }
  }

  /** Two request sequences that differ only in what the model answered, or in which advisory calls
      were made at all, leave the same alerts, flags, histories and scrubbed log, and every other
      request is answered the same. */
  lemma AdviceDoesNotInterfere(env: Env, w: World, a: seq<Request>, b: seq<Request>)
    requires WithoutAi(a) == WithoutAi(b)
    ensures Agree(Run(env, w, a), Run(env, w, b))
    ensures Answers(env, w, a) == Answers(env, w, b)
  {
    DroppingAiCalls(env, w, w, a);
    DroppingAiCalls(env, w, w, b);
  }

  // ---------- Roles that cannot decide ----------

  predicate Refused(request: Request) {
    request.Decide? && !request.role.CanDecide()
  }

  function WithoutRefused(requests: seq<Request>): seq<Request> {
    if requests == [] then []
    else (if Refused(requests[0]) then [] else [requests[0]]) + WithoutRefused(requests[1..])
  }

  /** The responses to all requests but those. */
  function AcceptedAnswers(env: Env, w: World, requests: seq<Request>): seq<Response>
    decreases |requests|
  {
    if requests == [] then []
    else
      var (w', response) := Handle(env, w, requests[0]);
      (if Refused(requests[0]) then [] else [response]) + AcceptedAnswers(env, w', requests[1..])
  }

  /** Decisions attempted by a role that cannot decide might as well not have been made: the run ends in the
      very same world, hashes included, and every other request is answered the same. */
  lemma {:induction false} DroppingRefusedDecisions(env: Env, w: World, requests: seq<Request>)
    ensures Run(env, w, requests) == Run(env, w, WithoutRefused(requests))
    ensures AcceptedAnswers(env, w, requests) == AcceptedAnswers(env, w, WithoutRefused(requests))
    decreases |requests|
  {
    if requests != [] {
      var request, rest := requests[0], requests[1..];
      DroppingRefusedDecisions(env, Handle(env, w, request).0, rest);
      if Refused(request) {
        assert WithoutRefused(requests) == WithoutRefused(rest);
      } else {
        assert WithoutRefused(requests)[0] == request && WithoutRefused(requests)[1..] == WithoutRefused(rest);
      }
    }
  }
}
