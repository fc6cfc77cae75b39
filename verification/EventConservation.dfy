/** No audit event is lost, made up or recorded twice, however requests interleave
    (crates/alerts/src/lib.rs:51-105, 154-198; crates/api/src/handlers.rs:182-237). */
module EventConservation {
  import opened Common
  import opened Audit
  import opened Alerts
  import opened Advisor
  import opened Interleaving

  /** What a record says, apart from its place in the log. Of an advisor's answer only that it came. */
  datatype Entry = Entry(alertId: Uuid, txHash: string, event: AuditEvent)

  const ANSWERED := AiRecommendationReceived(NaN, false)

  function WithoutAnswer(event: AuditEvent): AuditEvent {
    if event.AiRecommendationReceived? then ANSWERED else event
  }

  function EntryFor(alert: Alert, event: AuditEvent): Entry {
    Entry(alert.alertId, alert.tx.txHash, WithoutAnswer(event))
  }

  ghost function EntryRecorded(): AuditRecord -> multiset<Entry> {
    (r: AuditRecord) => multiset{Entry(r.content.alertId, r.content.txHash, WithoutAnswer(r.content.event))}
  }

  /** What a call in flight has still to record. */
  ghost function Owes(c: Call): multiset<Entry> {
    match c
    case Creating(a) => multiset{EntryFor(a, CreatedEvent(a))} + multiset{EntryFor(a, TriggeredEvent(a))}
    case CreationLogged(a) => multiset{EntryFor(a, TriggeredEvent(a))}
    case Deciding(d, a, from) => multiset{EntryFor(a, DecisionEvent(d))} + multiset{EntryFor(a, StatusChanged(from, d.decision))}
    case DecisionLogged(d, a, from) => multiset{EntryFor(a, StatusChanged(from, d.decision))}
    case Asking(a) => multiset{EntryFor(a, AiContextSent(|a.triggeredRules|))} + multiset{EntryFor(a, ANSWERED)}
    case Waiting(a) => multiset{EntryFor(a, ANSWERED)}
    case _ => multiset{}
  }

  ghost function EntriesOwed(): Call -> multiset<Entry> {
    (c: Call) => Owes(c)
  }

  /** The two events that a new request is to record, none if it names no alert. A decision is to record
      the status it overwrites, as its first lock region reads it. */
  ghost function Promised(s: Sys, l: Label): multiset<Entry> {
    match l
    case BeginCreate(a) => multiset{EntryFor(a, CreatedEvent(a))} + multiset{EntryFor(a, TriggeredEvent(a))}
    case BeginDecide(d, _) =>
      if d.alertId !in s.alerts then multiset{}
      else
        var a := s.alerts[d.alertId];
        multiset{EntryFor(a, DecisionEvent(d))} + multiset{EntryFor(a, StatusChanged(a.status, d.decision))}
    case BeginInvestigate(id) =>
      if id !in s.alerts then multiset{}
      else
        var a := s.alerts[id];
        multiset{EntryFor(a, AiContextSent(|a.triggeredRules|))} + multiset{EntryFor(a, ANSWERED)}
    case Advance(_, _, _) => multiset{}
  }

  ghost function PromisedBy(h: Hasher, s: Sys, labels: seq<Label>): multiset<Entry>
    requires EnabledRun(h, s, labels)
    decreases |labels|
  {
    if labels == [] then multiset{} else Promised(s, labels[0]) + PromisedBy(h, Next(h, s, labels[0]), labels[1..])
  }

  /** All that is recorded or still to be. */
  ghost function Total(s: Sys): multiset<Entry> {
    Gather(EntryRecorded(), s.log) + Gather(EntriesOwed(), s.calls)
  }

  /** What one lock region of a call appends. */
  ghost function Done(c: Call, advice: AiRecommendation): multiset<Entry> {
    var event := EventOf(c, advice);
    if event.Some? then multiset{EntryFor(c.alert, event.value)} else multiset{}
  }

  lemma CreationDelivers(c: Call, advice: AiRecommendation)
    requires c.Creating? || c.CreationLogged?
    ensures Done(c, advice) + Owes(Then(c, advice)) == Owes(c)
  {
  }

  lemma DecisionDelivers(c: Call, advice: AiRecommendation)
    requires c.Deciding? || c.DecisionLogged?
    ensures Done(c, advice) + Owes(Then(c, advice)) == Owes(c)
  {
  }

  lemma AdviceDelivers(c: Call, advice: AiRecommendation)
    requires c.Asking? || c.Waiting?
    ensures Done(c, advice) + Owes(Then(c, advice)) == Owes(c)
  {
  }

  lemma CallDelivers(c: Call, advice: AiRecommendation)
    ensures Done(c, advice) + Owes(Then(c, advice)) == Owes(c)
  {
    if c.Creating? || c.CreationLogged? {
      CreationDelivers(c, advice);
    } else if c.Deciding? || c.DecisionLogged? {
      DecisionDelivers(c, advice);
    } else if c.Asking? || c.Waiting? {
      AdviceDelivers(c, advice);
    }
  }

  lemma AddNone<T>(a: multiset<T>)
    ensures a + multiset{} == a
  {
  }

  lemma RecordedAfterResume(h: Hasher, s: Sys, i: nat, stamp: Stamp, advice: AiRecommendation)
    requires i < |s.calls|
    ensures Gather(EntryRecorded(), Resume(h, s, i, stamp, advice).log) == Gather(EntryRecorded(), s.log) + Done(s.calls[i], advice)
  {
    var s' := Resume(h, s, i, stamp, advice);
    if EventOf(s.calls[i], advice).Some? {
      GatherSnoc(EntryRecorded(), s.log, s'.log[|s.log|]);
    }
  }

  lemma ResumeDelivers(h: Hasher, s: Sys, i: nat, stamp: Stamp, advice: AiRecommendation)
    requires i < |s.calls|
    ensures Total(Resume(h, s, i, stamp, advice)) == Total(s)
  {
    var s' := Resume(h, s, i, stamp, advice);
    var c, c' := s.calls[i], Then(s.calls[i], advice);
    var owed, owed' := Gather(EntriesOwed(), s.calls), Gather(EntriesOwed(), s'.calls);
    CallDelivers(c, advice);
    GatherUpdate(EntriesOwed(), s.calls, i, c');
    SettleOwed(owed, Done(c, advice), Owes(c'), owed');
    RecordedAfterResume(h, s, i, stamp, advice);
    var recorded := Gather(EntryRecorded(), s.log);
    assert (recorded + Done(c, advice)) + owed' == recorded + (owed' + Done(c, advice));
  }

  lemma DecisionPromises(s: Sys, l: Label)
    requires Keyed(s.alerts) && l.BeginDecide?
    ensures Owes(Started(s, l)) == Promised(s, l)
  {
  }

  lemma AdvicePromises(s: Sys, l: Label)
    requires Keyed(s.alerts) && l.BeginInvestigate?
    ensures Owes(Started(s, l)) == Promised(s, l)
  {
  }

  lemma StartedPromises(s: Sys, l: Label)
    requires Keyed(s.alerts) && !l.Advance?
    ensures Owes(Started(s, l)) == Promised(s, l)
  {
    if l.BeginDecide? {
      DecisionPromises(s, l);
    } else if l.BeginInvestigate? {
      AdvicePromises(s, l);
    }
  }

  /** A step records what was to be recorded; a new request adds its two events and nothing else does. */
  lemma StepDelivers(h: Hasher, s: Sys, l: Label)
    requires Keyed(s.alerts) && Enabled(s, l)
    ensures Total(Next(h, s, l)) == Total(s) + Promised(s, l)
  {
    if l.Advance? {
      ResumeDelivers(h, s, l.call, l.stamp, l.advice);
    } else {
      GatherSnoc(EntriesOwed(), s.calls, Started(s, l));
      StartedPromises(s, l);
    }
  }

  lemma {:induction false} RunDelivers(h: Hasher, s: Sys, labels: seq<Label>)
    requires Keyed(s.alerts) && EnabledRun(h, s, labels)
    ensures Total(Exec(h, s, labels)) == Total(s) + PromisedBy(h, s, labels)
    decreases |labels|
  {
    if labels != [] {
      var next := Next(h, s, labels[0]);
      KeyedKept(h, s, labels[0]);
      StepDelivers(h, s, labels[0]);
      RunDelivers(h, next, labels[1..]);
    }
  }

  lemma QuiescentOwesNothing(s: Sys)
    requires Quiescent(s)
    ensures Gather(EntriesOwed(), s.calls) == multiset{}
  {
    GatherEmpty(EntriesOwed(), s.calls);
  }

  /** In every state of every interleaving the log holds only events that some request began, each at most
      as often as requests did. Once no call is in flight it holds exactly those, as a multiset. */
  lemma EventsDelivered(h: Hasher, labels: seq<Label>)
    requires EnabledRun(h, START, labels)
    ensures var s := Exec(h, START, labels);
            && Gather(EntryRecorded(), s.log) <= PromisedBy(h, START, labels)
            && (Quiescent(s) ==> Gather(EntryRecorded(), s.log) == PromisedBy(h, START, labels))
  {
    RunDelivers(h, START, labels);
    StartOwesNothing();
    AddNone(PromisedBy(h, START, labels));
    var s := Exec(h, START, labels);
    PartOf(Gather(EntryRecorded(), s.log), Gather(EntriesOwed(), s.calls), PromisedBy(h, START, labels));
    if Quiescent(s) {
      QuiescentOwesNothing(s);
    }
  }

  lemma StartOwesNothing()
    ensures Total(START) == multiset{}
  {
  }

  lemma PartOf<T>(part: multiset<T>, rest: multiset<T>, whole: multiset<T>)
    requires part + rest == multiset{} + whole
    ensures part <= whole
    ensures rest == multiset{} ==> part == whole
  {
    assert part + rest == whole;
  }
}
