/** Snapshots and restarts (crates/api/src/persistence.rs:36-90). A snapshot reads the alerts first and
    the audit log later; requests may be handled in between. Nothing else is saved. */
module Persistence {
  import opened Common
  import opened Audit
  import opened Alerts
  import opened Rules
  import opened Service
  import opened Runs

  /** What a fresh process holds after loading a snapshot. */
  function Restarted(savedAlerts: seq<Alert>, savedLog: seq<AuditRecord>): World {
    EMPTY_WORLD.(alerts := Restored(map[], savedAlerts), log := savedLog)
  }

  /** `None` stands for a snapshot that is missing or does not load. The verdict on the restored
      log is reported and otherwise ignored. */
  method RestoreOnStartup(state: AppState, savedAlerts: Option<seq<Alert>>, savedLog: Option<seq<AuditRecord>>)
    returns (error: Option<IntegrityError>)
    requires state.Valid()
    modifies state.manager, state.audit
    ensures state.manager.alerts == if savedAlerts.Some? then Restored(old(state.manager.alerts), savedAlerts.value) else old(state.manager.alerts)
    ensures state.audit.records == if savedLog.Some? then savedLog.value else old(state.audit.records)
    ensures savedLog.Some? ==> (error.None? <==> WellChained(state.env.h, savedLog.value))
    ensures old(state.View()) == EMPTY_WORLD && savedAlerts.Some? && savedLog.Some?
        ==> state.View() == Restarted(savedAlerts.value, savedLog.value)
  {
    error := None;
    if savedAlerts.Some? {
      state.manager.Restore(savedAlerts.value);
    }
    if savedLog.Some? {
      state.audit.Restore(savedLog.value);
      error := state.audit.VerifyIntegrity();
    }
  }

  /** The two reads of a snapshot with nothing handled in between. */
  method TakeSnapshot(state: AppState, order: seq<Uuid>) returns (savedAlerts: seq<Alert>, savedLog: seq<AuditRecord>)
    requires state.Valid() && Keyed(state.manager.alerts) && Traversal(order, state.manager.alerts)
    ensures Lists(savedAlerts, state.manager.alerts) && savedLog == state.audit.records
    ensures Restarted(savedAlerts, savedLog).alerts == state.manager.alerts
  {
    savedAlerts := state.manager.List(order);
    savedLog := state.audit.All();
    RestoreUndoesList(state.manager.alerts, savedAlerts);
  }

  lemma TrailGrows(log: seq<AuditRecord>, longer: seq<AuditRecord>, id: Uuid)
    requires log <= longer
    ensures TrailOf(log, id) <= TrailOf(longer, id)
  {
    var more := longer[|log|..];
    assert longer == log + more;
    FilterConcat((r: AuditRecord) => r.content.alertId == id, log, more);
  }

  /** Requests can only extend a log, and keep it accepted, in whatever world they start. */
  lemma {:induction false} RunKeepsChain(env: Env, w: World, requests: seq<Request>)
    requires WellChained(env.h, w.log)
    ensures WellChained(env.h, Run(env, w, requests).log) && w.log <= Run(env, w, requests).log
    decreases |requests|
  {
    if requests != [] {
      HandleKeepsChain(env, w, requests[0]);
      RunKeepsChain(env, Handle(env, w, requests[0]).0, requests[1..]);
    }
  }

  lemma EvaluationKeepsChain(env: Env, w: World, tx: Transaction, draw: Draw)
    requires WellChained(env.h, w.log)
    ensures WellChained(env.h, RunEvaluation(env, w, tx, draw).0.log) && w.log <= RunEvaluation(env, w, tx, draw).0.log
  {
    var a := env.assess(tx, PriorHistory(w.history, tx), w.flagged);
    var alert := NewAlert(draw.alertId, tx, a.triggers, a.score, a.severity, draw.now);
    PairKeepsChain(env.h, w.log, alert.alertId, tx.txHash, CreatedEvent(alert), TriggeredEvent(alert), draw.stamps);
  }

  lemma HandleKeepsChain(env: Env, w: World, request: Request)
    requires WellChained(env.h, w.log)
    ensures WellChained(env.h, Handle(env, w, request).0.log) && w.log <= Handle(env, w, request).0.log
  {
    match request
    case Ingest(tx) =>
    case Evaluate(txHash, draw) =>
      if txHash in w.transactions {
        EvaluationKeepsChain(env, w, w.transactions[txHash], draw);
      }
    case IngestAndEvaluate(tx, draw) =>
      EvaluationKeepsChain(env, w, tx, draw);
    case Investigate(alertId, answer, draw) =>
      if alertId in w.alerts {
        var alert := w.alerts[alertId];
        var rec := AfterInvestigate(env, w, alert, answer, draw).1;
        PairKeepsChain(env.h, w.log, alert.alertId, alert.tx.txHash, AiContextSent(|Reasons(env, alert)|),
          AiRecommendationReceived(rec.confidence, rec.modelAvailable), draw.stamps);
      }
    case Decide(role, d, draw) =>
      if d.alertId in w.alerts {
        var before := w.alerts[d.alertId];
        PairKeepsChain(env.h, w.log, d.alertId, before.tx.txHash, DecisionEvent(d), StatusChanged(before.status, d.decision), draw.stamps);
      }
  }

  /** The saved log is accepted and extends the log of the moment the alerts were read; the alerts come
      back unchanged, each with a status that its saved trail passes through; and whatever is handled
      after the restart, the log stays accepted and keeps all that was saved. */
  lemma SnapshotIsUsable(env: Env, w: World, between: seq<Request>, listed: seq<Alert>, after: seq<Request>)
    requires Invariant(env, w) && FreshRun(env, w, between) && Lists(listed, w.alerts)
    ensures var savedLog := Run(env, w, between).log;
            var restarted := Restarted(listed, savedLog);
            && WellChained(env.h, savedLog) && w.log <= savedLog
            && restarted.alerts == w.alerts
            && (forall a :: a in listed ==>
                  exists n :: 0 <= n <= |TrailOf(savedLog, a.alertId)| && Replay(TrailOf(savedLog, a.alertId)[..n], Open) == a.status)
            && WellChained(env.h, Run(env, restarted, after).log) && savedLog <= Run(env, restarted, after).log
  {
    var savedLog := Run(env, w, between).log;
    RunKeepsInvariant(env, w, between);
    RestoreUndoesList(w.alerts, listed);
    forall a | a in listed
      ensures exists n :: 0 <= n <= |TrailOf(savedLog, a.alertId)| && Replay(TrailOf(savedLog, a.alertId)[..n], Open) == a.status
    {
      TrailGrows(w.log, savedLog, a.alertId);
      assert TrailFits(w, a.alertId);
      TrailReplays(TrailOf(w.log, a.alertId), a.status);
      assert TrailOf(savedLog, a.alertId)[..|TrailOf(w.log, a.alertId)|] == TrailOf(w.log, a.alertId);
    }
    RunKeepsChain(env, Restarted(listed, savedLog), after);
  }

  /** The status that the last decision on `id` gives, by a role that can decide. */
  function LastDecision(requests: seq<Request>, id: Uuid): Option<Status> {
    if requests == [] then None
    else
      var later := LastDecision(requests[1..], id);
      if later.Some? then later else DecisionOn(requests[0], id)
  }

  function DecisionOn(request: Request, id: Uuid): Option<Status> {
    if request.Decide? && request.role.CanDecide() && request.decision.alertId == id then Some(request.decision.decision) else None
  }

  lemma HandleStatus(env: Env, w: World, request: Request, id: Uuid)
    requires Keyed(w.alerts) && Fresh(w, request) && id in w.alerts
    ensures var w' := Handle(env, w, request).0;
            && id in w'.alerts && Keyed(w'.alerts)
            && w'.alerts[id].status == if DecisionOn(request, id).Some? then DecisionOn(request, id).value else w.alerts[id].status
  {
  }

  /** A run leaves an alert with the status of the last decision on it. */
  lemma {:induction false} RunStatus(env: Env, w: World, requests: seq<Request>, id: Uuid)
    requires Keyed(w.alerts) && FreshRun(env, w, requests) && id in w.alerts
    ensures var w' := Run(env, w, requests);
            && id in w'.alerts
            && w'.alerts[id].status == if LastDecision(requests, id).Some? then LastDecision(requests, id).value else w.alerts[id].status
    decreases |requests|
  {
    if requests != [] {
      HandleStatus(env, w, requests[0], id);
      RunStatus(env, Handle(env, w, requests[0]).0, requests[1..], id);
    }
  }

  /** What an alert file says of `id` fits a later log exactly when the alert has the same status, or is
      unknown, then and now. */
  lemma SavedFits(env: Env, w: World, w': World, listed: seq<Alert>, id: Uuid)
    requires Invariant(env, w) && Invariant(env, w') && Lists(listed, w.alerts) && (id in w.alerts ==> id in w'.alerts)
    ensures TrailFits(Restarted(listed, w'.log), id)
       <==> (id in w'.alerts ==> id in w.alerts && w'.alerts[id].status == w.alerts[id].status)
  {
    RestoreUndoesList(w.alerts, listed);
    assert TrailFits(w', id);
    if id in w'.alerts {
      TrailReplays(TrailOf(w'.log, id), w'.alerts[id].status);
      if TrailFits(Restarted(listed, w'.log), id) && id in w.alerts {
        TrailReplays(TrailOf(w'.log, id), w.alerts[id].status);
      }
    }
  }

  /** The two files need not belong together. For a saved alert they do exactly when no decision on it fell
      between the reads, or the last of them gave it the status it had. */
  lemma SnapshotConsistentIff(env: Env, w: World, between: seq<Request>, listed: seq<Alert>, id: Uuid)
    requires Invariant(env, w) && FreshRun(env, w, between) && Lists(listed, w.alerts) && id in w.alerts
    ensures TrailFits(Restarted(listed, Run(env, w, between).log), id)
       <==> LastDecision(between, id).None? || LastDecision(between, id).value == w.alerts[id].status
  {
    RunKeepsInvariant(env, w, between);
    RunStatus(env, w, between, id);
    SavedFits(env, w, Run(env, w, between), listed, id);
  }

  /** An alert created between the reads is in the log only. */
  lemma CreatedBetweenReadsTears(env: Env, w: World, between: seq<Request>, listed: seq<Alert>, id: Uuid)
    requires Invariant(env, w) && FreshRun(env, w, between) && Lists(listed, w.alerts) && id !in w.alerts
    ensures TrailFits(Restarted(listed, Run(env, w, between).log), id) <==> id !in Run(env, w, between).alerts
  {
    RunKeepsInvariant(env, w, between);
    SavedFits(env, w, Run(env, w, between), listed, id);
  }

  /** A decision that falls between the two reads tears the snapshot. */
  lemma DecisionBetweenReadsTears(env: Env, w: World, listed: seq<Alert>, d: Decision, draw: Draw)
    requires Invariant(env, w) && Lists(listed, w.alerts)
    requires d.alertId in w.alerts && w.alerts[d.alertId].status != d.decision
    ensures var w' := Run(env, w, [Decide(Investigator, d, draw)]);
            !TrailFits(Restarted(listed, w'.log), d.alertId)
  {
    var request := Decide(Investigator, d, draw);
    assert [request][1..] == [] && Run(env, w, [request]) == Run(env, Handle(env, w, request).0, []);
    assert FreshRun(env, Handle(env, w, request).0, []);
    assert LastDecision([], d.alertId) == None && Investigator.CanDecide();
    SnapshotConsistentIff(env, w, [request], listed, d.alertId);
  }

  /** A restart forgets the flagged accounts: what it restores has the right ones only if none was flagged
      when the snapshot was taken. */
  lemma RestartForgetsFlags(env: Env, w: World, listed: seq<Alert>)
    requires Invariant(env, w) && Lists(listed, w.alerts)
    ensures FlaggedIsConfirmed(Restarted(listed, w.log)) <==> w.flagged == {}
  {
    RestoreUndoesList(w.alerts, listed);
    var restarted := Restarted(listed, w.log);
    forall x ensures ConfirmedParty(restarted, x) <==> x in w.flagged {
      assert x in w.flagged <==> ConfirmedParty(w, x);
      assert forall id :: Confirms(restarted, id, x) <==> Confirms(w, id, x);
    }
    if FlaggedIsConfirmed(restarted) {
      assert forall x :: x in restarted.flagged <==> ConfirmedParty(restarted, x);
    }
  }

  predicate Confirming(request: Request) {
    request.Decide? && request.decision.decision == ConfirmedSuspicious
  }

  lemma {:induction false} FlagsOnlyByConfirming(env: Env, w: World, requests: seq<Request>)
    requires forall i :: 0 <= i < |requests| ==> !Confirming(requests[i])
    ensures Run(env, w, requests).flagged == w.flagged
    decreases |requests|
  {
    if requests != [] {
      assert !Confirming(requests[0]);
      assert Handle(env, w, requests[0]).0.flagged == w.flagged;
      FlagsOnlyByConfirming(env, Handle(env, w, requests[0]).0, requests[1..]);
    }
  }

  /** So the flagged-account rule, which fires on every transaction of a party of a confirmed alert, is silent
      on all of them after a restart, until somebody confirms an alert anew. */
  lemma RestartSilencesFlaggedRule(env: Env, w: World, id: Uuid, listed: seq<Alert>, later: seq<Request>, tx: Transaction,
      before: seq<Transaction>, after: seq<Transaction>, config: RulesConfig)
    requires Invariant(env, w) && id in w.alerts && ConfirmedIn(TrailOf(w.log, id))
    requires exists x :: x in Parties(tx) && x in Parties(w.alerts[id].tx)
    requires forall i :: 0 <= i < |later| ==> !Confirming(later[i])
    ensures FlaggedAccountInteraction(tx, RuleContext(before, w.flagged), config) == Some(High)
    ensures var restarted := Run(env, Restarted(listed, w.log), later);
            FlaggedAccountInteraction(tx, RuleContext(after, restarted.flagged), config) == None
  {
    var x :| x in Parties(tx) && x in Parties(w.alerts[id].tx);
    assert Confirms(w, id, x);
    assert x in w.flagged;
    FlagsOnlyByConfirming(env, Restarted(listed, w.log), later);
  }
}
