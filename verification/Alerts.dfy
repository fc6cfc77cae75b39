/** Alert lifecycle: creation, the one status change, listing and restoring (crates/alerts/src/lib.rs). */
module Alerts {
  import opened Common
  import opened Sorting
  import opened Audit

  type AlertMap = map<Uuid, Alert>

  /** Alerts are filed under their own ids. */
  ghost predicate Keyed(alerts: AlertMap) {
    forall id :: id in alerts ==> alerts[id].alertId == id
  }

  function RuleIds(triggers: seq<TriggeredRule>): seq<string> {
    seq(|triggers|, i requires 0 <= i < |triggers| => triggers[i].ruleId)
  }

  function NewAlert(alertId: Uuid, tx: Transaction, triggers: seq<TriggeredRule>, score: real, severity: Severity, now: Time): Alert {
    Alert(alertId, tx, triggers, score, severity, Open, now, now)
  }

  function CreatedEvent(alert: Alert): AuditEvent {
    AlertCreated(alert.anomalyScore, alert.severity)
  }

  function TriggeredEvent(alert: Alert): AuditEvent {
    RulesTriggered(RuleIds(alert.triggeredRules))
  }

  function DecisionEvent(d: Decision): AuditEvent {
    InvestigatorDecision(d.investigator, d.decision, d.notes)
  }

  /** Two appends for the same alert. */
  function LoggedPair(h: Hasher, log: seq<AuditRecord>, alertId: Uuid, txHash: string, first: AuditEvent, second: AuditEvent, stamps: (Stamp, Stamp))
    : seq<AuditRecord>
  {
    Appended(h, Appended(h, log, alertId, txHash, first, stamps.0), alertId, txHash, second, stamps.1)
  }

  function Revised(alert: Alert, status: Status, now: Time): Alert {
    alert.(status := status, updatedAt := now)
  }

  function NewestFirst(): (Alert, Alert) -> bool {
    (a: Alert, b: Alert) => a.createdAt >= b.createdAt
  }

  function Values(alerts: AlertMap, order: seq<Uuid>): (values: seq<Alert>)
    requires forall i :: 0 <= i < |order| ==> order[i] in alerts
    ensures |values| == |order|
    ensures forall i :: 0 <= i < |order| ==> values[i] == alerts[order[i]]
  {
    seq(|order|, i requires 0 <= i < |order| => alerts[order[i]])
  }

  /** An arbitrary order in which a hash map may yield its keys, each once. */
  ghost predicate Traversal(order: seq<Uuid>, alerts: AlertMap) {
    && (forall id :: id in order <==> id in alerts)
    && (forall i, j :: 0 <= i < j < |order| ==> order[i] != order[j])
  }

  /** Inserts one after another; a later alert with the same id replaces an earlier one. */
  function Restored(alerts: AlertMap, saved: seq<Alert>): AlertMap {
    if saved == [] then alerts
    else
      var last := saved[|saved| - 1];
      Restored(alerts, saved[..|saved| - 1])[last.alertId := last]
  }

  /** `listed` holds every alert of the map exactly once, newest first. */
  ghost predicate Lists(listed: seq<Alert>, alerts: AlertMap) {
    && (forall i, j :: 0 <= i < j < |listed| ==> listed[i].createdAt >= listed[j].createdAt)
    && (forall a :: a in listed <==> a.alertId in alerts && alerts[a.alertId] == a)
    && (forall i, j :: 0 <= i < j < |listed| ==> listed[i].alertId != listed[j].alertId)
  }

  lemma ListingIsComplete(alerts: AlertMap, order: seq<Uuid>)
    requires Keyed(alerts) && Traversal(order, alerts)
    ensures Lists(Sort(NewestFirst(), Values(alerts, order)), alerts)
  {
    var values := Values(alerts, order);
    var listed := Sort(NewestFirst(), values);
    SortSorts(NewestFirst(), values);
    forall a ensures a in listed <==> a.alertId in alerts && alerts[a.alertId] == a {
      assert a in listed <==> a in multiset(values);
      if a.alertId in alerts && alerts[a.alertId] == a {
        var i :| 0 <= i < |order| && order[i] == a.alertId;
        assert values[i] == a;
      }
    }
    forall i, j | 0 <= i < j < |listed| ensures listed[i].alertId != listed[j].alertId {
      assert listed[i] in multiset(values) && listed[j] in multiset(values);
      if listed[i].alertId == listed[j].alertId {
        TwiceMeansTwice(values, listed, i, j);
      }
    }
  }

  lemma TwiceMeansTwice(values: seq<Alert>, listed: seq<Alert>, i: nat, j: nat)
    requires multiset(values) == multiset(listed) && i < j < |listed| && listed[i] == listed[j]
    ensures exists m, n :: 0 <= m < n < |values| && values[m] == values[n]
  {
    var a := listed[i];
    WithoutMultiset(listed, i);
    assert Without(listed, i)[j - 1] == a;
    assert a in multiset(values);
    var m :| 0 <= m < |values| && values[m] == a;
    WithoutMultiset(values, m);
    assert a in multiset(Without(values, m));
    var k :| 0 <= k < |Without(values, m)| && Without(values, m)[k] == a;
    assert values[if k < m then k else k + 1] == a;
  }

  predicate LastUnder(saved: seq<Alert>, id: Uuid, i: int) {
    0 <= i < |saved| && saved[i].alertId == id && forall j :: i < j < |saved| ==> saved[j].alertId != id
  }

  /** Restoring leaves the last saved alert under each saved id, */
  lemma {:induction false} RestoredHas(alerts: AlertMap, saved: seq<Alert>, id: Uuid, i: nat)
    requires LastUnder(saved, id, i)
    ensures id in Restored(alerts, saved) && Restored(alerts, saved)[id] == saved[i]
  {
    var front := saved[..|saved| - 1];
    if i < |front| {
      assert LastUnder(front, id, i);
      RestoredHas(alerts, front, id, i);
    }
  }

  /** and everything under other ids as it was. */
  lemma {:induction false} RestoredUntouched(alerts: AlertMap, saved: seq<Alert>, id: Uuid)
    requires forall i :: 0 <= i < |saved| ==> saved[i].alertId != id
    ensures id in Restored(alerts, saved) <==> id in alerts
    ensures id in alerts ==> Restored(alerts, saved)[id] == alerts[id]
  {
    if saved != [] {
      RestoredUntouched(alerts, saved[..|saved| - 1], id);
    }
  }

  /** Listing the alerts and restoring the list into an empty store gives the same alerts. */
  lemma RestoreUndoesList(alerts: AlertMap, listed: seq<Alert>)
    requires Keyed(alerts) && Lists(listed, alerts)
    ensures Restored(map[], listed) == alerts
  {
    var restored := Restored(map[], listed);
    forall id ensures id in restored <==> id in alerts
      ensures id in alerts ==> id in restored && restored[id] == alerts[id]
    {
      if id in alerts {
        assert alerts[id] in listed;
        var i :| 0 <= i < |listed| && listed[i] == alerts[id];
        RestoredHas(map[], listed, id, i);
      } else {
        assert forall i :: 0 <= i < |listed| ==> listed[i] in listed;
        RestoredUntouched(map[], listed, id);
      }
    }
  }

  /** Each alert once, newest first. */
  ghost predicate InListingOrder(listed: seq<Alert>) {
    forall i, j :: 0 <= i < j < |listed| ==> listed[i].alertId != listed[j].alertId && listed[i].createdAt >= listed[j].createdAt
  }

  lemma {:induction false} FilterKeepsListing(keep: Alert -> bool, listed: seq<Alert>)
    requires InListingOrder(listed)
    ensures InListingOrder(Filter(keep, listed))
  {
    if listed != [] {
      var front, last := listed[..|listed| - 1], listed[|listed| - 1];
      FilterKeepsListing(keep, front);
      forall i | 0 <= i < |Filter(keep, front)|
        ensures Filter(keep, front)[i].alertId != last.alertId && Filter(keep, front)[i].createdAt >= last.createdAt
      {
        FilterMembers(keep, front, Filter(keep, front)[i]);
        var k :| 0 <= k < |front| && front[k] == Filter(keep, front)[i];
        assert listed[k] == front[k];
      }
    }
  }

  class AlertManager {
    var alerts: AlertMap
    const audit: AuditLog

    constructor (audit: AuditLog)
      ensures alerts == map[] && this.audit == audit
    {
      alerts := map[];
      this.audit := audit;
    }

    method CreateAlert(tx: Transaction, triggers: seq<TriggeredRule>, score: real, severity: Severity,
        alertId: Uuid, now: Time, stamps: (Stamp, Stamp)) returns (alert: Alert)
      modifies this, audit
      ensures alert == NewAlert(alertId, tx, triggers, score, severity, now)
      ensures alerts == old(alerts)[alertId := alert]
      ensures audit.records == LoggedPair(audit.hasher, old(audit.records), alertId, tx.txHash,
                                 CreatedEvent(alert), TriggeredEvent(alert), stamps)
    {
      alert := NewAlert(alertId, tx, triggers, score, severity, now);
      alerts := alerts[alertId := alert];
      var _ := audit.Append(alertId, tx.txHash, CreatedEvent(alert), stamps.0);
      var _ := audit.Append(alertId, tx.txHash, TriggeredEvent(alert), stamps.1);
    }

    method List(order: seq<Uuid>) returns (listed: seq<Alert>)
      requires Keyed(alerts) && Traversal(order, alerts)
      ensures Lists(listed, alerts)
    {
      ListingIsComplete(alerts, order);
      listed := Sort(NewestFirst(), Values(alerts, order));
    }

    method ListByStatus(order: seq<Uuid>, status: Status) returns (listed: seq<Alert>)
      requires Keyed(alerts) && Traversal(order, alerts)
      ensures forall a :: a in listed <==> a.alertId in alerts && alerts[a.alertId] == a && a.status == status
      ensures forall i, j :: 0 <= i < j < |listed| ==> listed[i].alertId != listed[j].alertId && listed[i].createdAt >= listed[j].createdAt
    {
      var all := List(order);
      var keep := (a: Alert) => a.status == status;
      listed := Filter(keep, all);
      forall a ensures a in listed <==> a in all && a.status == status {
        FilterMembers(keep, all, a);
      }
      FilterKeepsListing(keep, all);
    }

    method Restore(saved: seq<Alert>)
      modifies this
      ensures alerts == Restored(old(alerts), saved)
    {
      for i := 0 to |saved|
        invariant alerts == Restored(old(alerts), saved[..i])
      {
        assert saved[..i + 1][..i] == saved[..i];
        alerts := alerts[saved[i].alertId := saved[i]];
      }
      assert saved[..|saved|] == saved;
    }

    /** The only method that changes a status. Nothing changes when the alert is unknown. */
    method ApplyInvestigatorDecision(d: Decision, now: Time, stamps: (Stamp, Stamp)) returns (updated: Option<Alert>)
      modifies this, audit
      ensures updated.Some? <==> d.alertId in old(alerts)
      ensures updated.None? ==> alerts == old(alerts) && audit.records == old(audit.records)
      ensures updated.Some? ==>
                var before := old(alerts)[d.alertId];
                && updated.value == Revised(before, d.decision, now)
                && alerts == old(alerts)[d.alertId := updated.value]
                && audit.records == LoggedPair(audit.hasher, old(audit.records), d.alertId, before.tx.txHash,
                                      DecisionEvent(d), StatusChanged(before.status, d.decision), stamps)
    {
      if d.alertId !in alerts {
        return None;
      }
      var alert := alerts[d.alertId];
      var from := alert.status;
      alert := Revised(alert, d.decision, now);
      alerts := alerts[d.alertId := alert];
      var _ := audit.Append(d.alertId, alert.tx.txHash, DecisionEvent(d), stamps.0);
      var _ := audit.Append(d.alertId, alert.tx.txHash, StatusChanged(from, d.decision), stamps.1);
      updated := Some(alert);
    }
  }
}
