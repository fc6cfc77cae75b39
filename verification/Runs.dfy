/** What holds after every sequence of requests, each handled as a whole. */
module Runs {
  import opened Common
  import opened Audit
  import opened Alerts
  import opened History
  import opened Service

  // ---------- Trails ----------

  /** The events recorded for an alert, oldest first. */
  function TrailOf(log: seq<AuditRecord>, alertId: Uuid): seq<AuditEvent> {
    var records := ForAlert(log, alertId);
    seq(|records|, i requires 0 <= i < |records| => records[i].content.event)
  }

  /** Created, rules, then any mix of advisory pairs and decision pairs. The status changes link up,
      from Open to `status`, and each repeats the decision before it. */
  predicate WellFormedTrail(t: seq<AuditEvent>, status: Status) {
    var n := |t|;
    if n <= 2 then n == 2 && t[0].AlertCreated? && t[1].RulesTriggered? && status == Open
    else if t[n - 1].StatusChanged? then
      && t[n - 1].to == status
      && t[n - 2].InvestigatorDecision? && t[n - 2].decision == status
      && WellFormedTrail(t[..n - 2], t[n - 1].from)
    else
      && t[n - 1].AiRecommendationReceived?
      && t[n - 2].AiContextSent?
      && WellFormedTrail(t[..n - 2], status)
  }

  /** Reads a trail from its start and follows the status changes. */
  function Replay(t: seq<AuditEvent>, status: Status): Status {
    if t == [] then status else Replay(t[1..], if t[0].StatusChanged? then t[0].to else status)
  }

  lemma {:induction false} ReplayConcat(a: seq<AuditEvent>, b: seq<AuditEvent>, status: Status)
    ensures Replay(a + b, status) == Replay(b, Replay(a, status))
  {
    if a == [] {
      assert a + b == b;
    } else {
      ReplayConcat(a[1..], b, if a[0].StatusChanged? then a[0].to else status);
      assert (a + b)[1..] == a[1..] + b;
    }
  }

  /** A well-formed trail replays to its status, so it has only one. */
  lemma {:induction false} TrailReplays(t: seq<AuditEvent>, status: Status)
    requires WellFormedTrail(t, status)
    ensures Replay(t, Open) == status
  {
    var n := |t|;
    if n > 2 {
      TrailReplays(t[..n - 2], if t[n - 1].StatusChanged? then t[n - 1].from else status);
    }
    var front, pair := t[..n - 2], [t[n - 2], t[n - 1]];
    assert t == front + pair;
    ReplayConcat(front, pair, Open);
    ReplayPair(t[n - 2], t[n - 1], Replay(front, Open));
  }

  lemma ReplayPair(first: AuditEvent, second: AuditEvent, status: Status)
    ensures Replay([first, second], status)
         == if second.StatusChanged? then second.to else if first.StatusChanged? then first.to else status
  {
    assert [first, second][1..] == [second] && [second][1..] == [];
    var middle := if first.StatusChanged? then first.to else status;
    assert Replay([second], middle) == Replay([], if second.StatusChanged? then second.to else middle);
  }

  lemma TrailOfAppended(h: Hasher, log: seq<AuditRecord>, alertId: Uuid, txHash: string, event: AuditEvent, stamp: Stamp, id: Uuid)
    ensures TrailOf(Appended(h, log, alertId, txHash, event, stamp), id)
         == if id == alertId then TrailOf(log, id) + [event] else TrailOf(log, id)
  {
    var longer := Appended(h, log, alertId, txHash, event, stamp);
    FilterSnoc((r: AuditRecord) => r.content.alertId == id, log, longer[|log|]);
  }

  lemma TrailOfPair(h: Hasher, log: seq<AuditRecord>, alertId: Uuid, txHash: string, first: AuditEvent, second: AuditEvent, stamps: (Stamp, Stamp), id: Uuid)
    ensures TrailOf(LoggedPair(h, log, alertId, txHash, first, second, stamps), id)
         == TrailOf(log, id) + if id == alertId then [first, second] else []
  {
    TrailOfAppended(h, log, alertId, txHash, first, stamps.0, id);
    TrailOfAppended(h, Appended(h, log, alertId, txHash, first, stamps.0), alertId, txHash, second, stamps.1, id);
  }

  lemma PairKeepsChain(h: Hasher, log: seq<AuditRecord>, alertId: Uuid, txHash: string, first: AuditEvent, second: AuditEvent, stamps: (Stamp, Stamp))
    requires WellChained(h, log)
    ensures WellChained(h, LoggedPair(h, log, alertId, txHash, first, second, stamps))
    ensures log <= LoggedPair(h, log, alertId, txHash, first, second, stamps)
  {
    AppendKeepsChain(h, log, alertId, txHash, first, stamps.0);
    AppendKeepsChain(h, Appended(h, log, alertId, txHash, first, stamps.0), alertId, txHash, second, stamps.1);
  }

  // ---------- The invariant ----------

  /** An alert's trail tells its status, and there is no trail without an alert. */
  predicate TrailFits(w: World, id: Uuid) {
    if id in w.alerts then WellFormedTrail(TrailOf(w.log, id), w.alerts[id].status) else TrailOf(w.log, id) == []
  }

  ghost predicate TrailsTellStatus(w: World) {
    forall id :: TrailFits(w, id)
  }

  predicate ConfirmedIn(t: seq<AuditEvent>) {
    exists i :: 0 <= i < |t| && t[i].InvestigatorDecision? && t[i].decision == ConfirmedSuspicious
  }

  predicate Confirms(w: World, id: Uuid, x: Account) {
    id in w.alerts && ConfirmedIn(TrailOf(w.log, id)) && x in Parties(w.alerts[id].tx)
  }

  /** Account `x` is a party of an alert that some recorded decision confirmed. */
  ghost predicate ConfirmedParty(w: World, x: Account) {
    exists id :: Confirms(w, id, x)
  }

  ghost predicate FlaggedIsConfirmed(w: World) {
    forall x :: x in w.flagged <==> ConfirmedParty(w, x)
  }

  ghost predicate Invariant(env: Env, w: World) {
    && WellChained(env.h, w.log)
    && Keyed(w.alerts)
    && TrailsTellStatus(w)
    && FlaggedIsConfirmed(w)
  }

  lemma WellFormedSnoc(t: seq<AuditEvent>, status: Status, first: AuditEvent, second: AuditEvent)
    requires WellFormedTrail(t, status)
    ensures second.StatusChanged? && first.InvestigatorDecision? && second.from == status && second.to == first.decision
        ==> WellFormedTrail(t + [first, second], second.to)
    ensures first.AiContextSent? && second.AiRecommendationReceived? ==> WellFormedTrail(t + [first, second], status)
  {
    assert (t + [first, second])[..|t|] == t;
  }

  lemma ConfirmedSnoc(t: seq<AuditEvent>, first: AuditEvent, second: AuditEvent)
    requires !second.InvestigatorDecision?
    ensures ConfirmedIn(t + [first, second])
       <==> ConfirmedIn(t) || (first.InvestigatorDecision? && first.decision == ConfirmedSuspicious)
  {
    var longer := t + [first, second];
    if ConfirmedIn(t) {
      var i :| 0 <= i < |t| && t[i].InvestigatorDecision? && t[i].decision == ConfirmedSuspicious;
      assert longer[i] == t[i];
    }
    assert longer[|t|] == first && longer[|t| + 1] == second;
  }

  /** The flags stay right when no alert is confirmed or unconfirmed. */
  lemma SameConfirmationsSameFlags(w: World, w': World)
    requires FlaggedIsConfirmed(w) && w'.flagged == w.flagged
    requires forall id, x :: Confirms(w', id, x) <==> Confirms(w, id, x)
    ensures FlaggedIsConfirmed(w')
  {
    forall x ensures x in w'.flagged <==> ConfirmedParty(w', x) {
      assert x in w.flagged <==> ConfirmedParty(w, x);
      if ConfirmedParty(w, x) {
        var id :| Confirms(w, id, x);
        assert Confirms(w', id, x);
      }
    }
  }

  /** Creating an alert under a fresh id. */
  lemma CreateKeepsInvariant(env: Env, w: World, alert: Alert, stamps: (Stamp, Stamp))
    requires Invariant(env, w) && alert.alertId !in w.alerts && alert.status == Open
    ensures Invariant(env, AfterCreate(env.h, w, alert, stamps))
    ensures w.log <= AfterCreate(env.h, w, alert, stamps).log
  {
    var w' := AfterCreate(env.h, w, alert, stamps);
    PairKeepsChain(env.h, w.log, alert.alertId, alert.tx.txHash, CreatedEvent(alert), TriggeredEvent(alert), stamps);
    forall id ensures TrailFits(w', id) {
      CreateKeepsTrail(env, w, alert, stamps, id);
    }
    forall id, x ensures Confirms(w', id, x) <==> Confirms(w, id, x) {
      CreateKeepsTrail(env, w, alert, stamps, id);
    }
    SameConfirmationsSameFlags(w, w');
  }

  lemma CreateKeepsTrail(env: Env, w: World, alert: Alert, stamps: (Stamp, Stamp), id: Uuid)
    requires TrailsTellStatus(w) && alert.alertId !in w.alerts && alert.status == Open
    ensures var w' := AfterCreate(env.h, w, alert, stamps);
            && TrailFits(w', id)
            && (id != alert.alertId ==> TrailOf(w'.log, id) == TrailOf(w.log, id))
            && (id == alert.alertId ==> !ConfirmedIn(TrailOf(w'.log, id)))
  {
    TrailOfPair(env.h, w.log, alert.alertId, alert.tx.txHash, CreatedEvent(alert), TriggeredEvent(alert), stamps, id);
    assert TrailFits(w, id);
    if id == alert.alertId {
      assert TrailOf(AfterCreate(env.h, w, alert, stamps).log, id) == [CreatedEvent(alert), TriggeredEvent(alert)];
      FirstTrail(alert);
    } else {
      assert TrailOf(w.log, id) + [] == TrailOf(w.log, id);
    }
  }

  lemma FirstTrail(alert: Alert)
    ensures var t := [CreatedEvent(alert), TriggeredEvent(alert)];
            WellFormedTrail(t, Open) && !ConfirmedIn(t)
  {
  }

  /** What the two kinds of pairs do to the alert they are about. */
  ghost predicate PairStep(w: World, w': World, id': Uuid, first: AuditEvent, second: AuditEvent) {
    && id' in w.alerts
    && w'.alerts.Keys == w.alerts.Keys && Keyed(w'.alerts)
    && (forall id :: id in w.alerts ==> w'.alerts[id].tx == w.alerts[id].tx)
    && (forall id :: id in w.alerts && id != id' ==> w'.alerts[id].status == w.alerts[id].status)
    && var from, to := w.alerts[id'].status, w'.alerts[id'].status;
       if first.InvestigatorDecision? then
         && second == StatusChanged(from, to) && first.decision == to
         && w'.flagged == if to == ConfirmedSuspicious then w.flagged + Parties(w.alerts[id'].tx) else w.flagged
       else
         first.AiContextSent? && second.AiRecommendationReceived? && from == to && w'.flagged == w.flagged
  }

  lemma PairKeepsInvariant(env: Env, w: World, w': World, id': Uuid, first: AuditEvent, second: AuditEvent, stamps: (Stamp, Stamp))
    requires Invariant(env, w) && PairStep(w, w', id', first, second)
    requires w'.log == LoggedPair(env.h, w.log, id', w.alerts[id'].tx.txHash, first, second, stamps)
    ensures Invariant(env, w')
    ensures w.log <= w'.log
  {
    PairKeepsChain(env.h, w.log, id', w.alerts[id'].tx.txHash, first, second, stamps);
    forall id ensures TrailFits(w', id) {
      PairKeepsTrail(env, w, w', id', first, second, stamps, id);
    }
    forall x ensures x in w'.flagged <==> ConfirmedParty(w', x) {
      PairKeepsFlag(env, w, w', id', first, second, stamps, x);
    }
  }

  lemma PairKeepsTrail(env: Env, w: World, w': World, id': Uuid, first: AuditEvent, second: AuditEvent, stamps: (Stamp, Stamp), id: Uuid)
    requires TrailsTellStatus(w) && PairStep(w, w', id', first, second)
    requires w'.log == LoggedPair(env.h, w.log, id', w.alerts[id'].tx.txHash, first, second, stamps)
    ensures TrailFits(w', id)
    ensures ConfirmedIn(TrailOf(w'.log, id)) <==>
              || ConfirmedIn(TrailOf(w.log, id))
              || (id == id' && first.InvestigatorDecision? && first.decision == ConfirmedSuspicious)
  {
    TrailOfPair(env.h, w.log, id', w.alerts[id'].tx.txHash, first, second, stamps, id);
    assert TrailFits(w, id);
    if id == id' {
      WellFormedSnoc(TrailOf(w.log, id), w.alerts[id].status, first, second);
      ConfirmedSnoc(TrailOf(w.log, id), first, second);
    } else {
      assert TrailOf(w.log, id) + [] == TrailOf(w.log, id);
    }
  }

  lemma PairKeepsFlag(env: Env, w: World, w': World, id': Uuid, first: AuditEvent, second: AuditEvent, stamps: (Stamp, Stamp), x: Account)
    requires TrailsTellStatus(w) && FlaggedIsConfirmed(w) && PairStep(w, w', id', first, second)
    requires w'.log == LoggedPair(env.h, w.log, id', w.alerts[id'].tx.txHash, first, second, stamps)
    ensures x in w'.flagged <==> ConfirmedParty(w', x)
  {
    var confirms := first.InvestigatorDecision? && first.decision == ConfirmedSuspicious;
    assert x in w.flagged <==> ConfirmedParty(w, x);
    forall id ensures Confirms(w', id, x) <==> Confirms(w, id, x) || (id == id' && confirms && x in Parties(w.alerts[id'].tx)) {
      PairKeepsTrail(env, w, w', id', first, second, stamps, id);
    }
    if x in w'.flagged {
      if x in w.flagged {
        var id :| Confirms(w, id, x);
        assert Confirms(w', id, x);
      } else {
        assert Confirms(w', id', x);
      }
    }
  }

  lemma SameViewSameInvariant(env: Env, w: World, w': World)
    requires Invariant(env, w)
    requires w'.alerts == w.alerts && w'.log == w.log && w'.flagged == w.flagged
    ensures Invariant(env, w')
  {
    forall id ensures TrailFits(w', id) {
      assert TrailFits(w, id);
    }
    SameConfirmationsSameFlags(w, w');
  }

  /** Every request keeps the invariant, only extends the log, and never unflags an account. */
  lemma HandleKeepsInvariant(env: Env, w: World, request: Request)
    requires Invariant(env, w) && Fresh(w, request)
    ensures var w' := Handle(env, w, request).0;
            Invariant(env, w') && w.log <= w'.log && w.flagged <= w'.flagged
  {
    var w' := Handle(env, w, request).0;
    match request
    case Ingest(tx) =>
      SameViewSameInvariant(env, w, w');
    case Evaluate(txHash, draw) =>
      if txHash in w.transactions {
        EvaluationKeepsInvariant(env, w, w.transactions[txHash], draw);
      }
    case IngestAndEvaluate(tx, draw) =>
      EvaluationKeepsInvariant(env, w, tx, draw);
      SameViewSameInvariant(env, RunEvaluation(env, w, tx, draw).0, w');
    case Investigate(alertId, answer, draw) =>
      if alertId in w.alerts {
        var alert := w.alerts[alertId];
        var rec := AfterInvestigate(env, w, alert, answer, draw).1;
        PairKeepsInvariant(env, w, w', alertId, AiContextSent(|Reasons(env, alert)|),
          AiRecommendationReceived(rec.confidence, rec.modelAvailable), draw.stamps);
      }
    case Decide(role, d, draw) =>
      if role.CanDecide() && d.alertId in w.alerts {
        PairKeepsInvariant(env, w, w', d.alertId, DecisionEvent(d),
          StatusChanged(w.alerts[d.alertId].status, d.decision), draw.stamps);
      }
  }

  lemma EvaluationKeepsInvariant(env: Env, w: World, tx: Transaction, draw: Draw)
    requires Invariant(env, w) && draw.alertId !in w.alerts
    ensures var w' := RunEvaluation(env, w, tx, draw).0;
            Invariant(env, w') && w.log <= w'.log && w.flagged == w'.flagged
  {
    var a := env.assess(tx, PriorHistory(w.history, tx), w.flagged);
    if a.triggers != [] {
      CreateKeepsInvariant(env, w, NewAlert(draw.alertId, tx, a.triggers, a.score, a.severity, draw.now), draw.stamps);
    }
  }

  /** So does every run, from any world that satisfies the invariant. */
  lemma {:induction false} RunKeepsInvariant(env: Env, w: World, requests: seq<Request>)
    requires Invariant(env, w) && FreshRun(env, w, requests)
    ensures var w' := Run(env, w, requests);
            Invariant(env, w') && w.log <= w'.log && w.flagged <= w'.flagged
    decreases |requests|
  {
    if requests != [] {
      HandleKeepsInvariant(env, w, requests[0]);
      RunKeepsInvariant(env, Handle(env, w, requests[0]).0, requests[1..]);
    }
  }

  lemma EmptyInvariant(env: Env)
    ensures Invariant(env, EMPTY_WORLD)
  {
    forall id ensures TrailFits(EMPTY_WORLD, id) {
      assert ForAlert([], id) == [];
    }
  }

  /** From empty: the log is accepted, each alert's trail is well formed and replays to its
      stored status, and exactly the parties of confirmed alerts are flagged. */
  lemma RunFromEmpty(env: Env, requests: seq<Request>)
    requires FreshRun(env, EMPTY_WORLD, requests)
    ensures var w := Run(env, EMPTY_WORLD, requests);
            && WellChained(env.h, w.log)
            && (forall id :: id in w.alerts ==> WellFormedTrail(TrailOf(w.log, id), w.alerts[id].status))
            && (forall id :: id in w.alerts ==> Replay(TrailOf(w.log, id), Open) == w.alerts[id].status)
            && (forall x :: x in w.flagged <==> ConfirmedParty(w, x))
  {
    EmptyInvariant(env);
    RunKeepsInvariant(env, EMPTY_WORLD, requests);
    var w := Run(env, EMPTY_WORLD, requests);
    forall id | id in w.alerts
      ensures WellFormedTrail(TrailOf(w.log, id), w.alerts[id].status)
      ensures Replay(TrailOf(w.log, id), Open) == w.alerts[id].status
    {
      assert TrailFits(w, id);
      TrailReplays(TrailOf(w.log, id), w.alerts[id].status);
    }
  }

  // ---------- The index refines the ingest log ----------

  function IngestedByOne(request: Request): seq<Transaction> {
    match request
    case Ingest(tx) => [tx]
    case IngestAndEvaluate(tx, _) => [tx]
    case _ => []
  }

  function IngestedBy(requests: seq<Request>): seq<Transaction> {
    if requests == [] then [] else IngestedByOne(requests[0]) + IngestedBy(requests[1..])
  }

  ghost predicate Mirrors(w: World, ingested: seq<Transaction>) {
    Indexes(w.history, ingested) && Stores(w.transactions, ingested)
  }

  lemma HandleMirrors(env: Env, w: World, ingested: seq<Transaction>, request: Request)
    requires Mirrors(w, ingested)
    ensures Mirrors(Handle(env, w, request).0, ingested + IngestedByOne(request))
  {
    if request.Ingest? || request.IngestAndEvaluate? {
      RecordingKeepsIndex(w.history, ingested, request.tx);
      RecordingKeepsStore(w.transactions, ingested, request.tx);
    } else {
      assert ingested + [] == ingested;
    }
  }

  lemma {:induction false} RunMirrors(env: Env, w: World, ingested: seq<Transaction>, requests: seq<Request>)
    requires Mirrors(w, ingested)
    ensures Mirrors(Run(env, w, requests), ingested + IngestedBy(requests))
    decreases |requests|
  {
    if requests == [] {
      assert ingested + [] == ingested;
    } else {
      HandleMirrors(env, w, ingested, requests[0]);
      RunMirrors(env, Handle(env, w, requests[0]).0, ingested + IngestedByOne(requests[0]), requests[1..]);
      assert ingested + IngestedByOne(requests[0]) + IngestedBy(requests[1..]) == ingested + IngestedBy(requests);
    }
  }

  /** After any run from empty, each account's history is the last 500 of all ingested transactions it
      is a party of, and each hash maps to the latest transaction bearing it. */
  lemma HistoryRefinesIngestLog(env: Env, requests: seq<Request>)
    ensures Mirrors(Run(env, EMPTY_WORLD, requests), IngestedBy(requests))
  {
    RunMirrors(env, EMPTY_WORLD, [], requests);
    assert [] + IngestedBy(requests) == IngestedBy(requests);
  }
}
