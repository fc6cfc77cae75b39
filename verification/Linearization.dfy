/** The two machines agree: an interleaving of requests has, once all are finished, what handling the
    requests one after another in the order of their first lock regions has
    (crates/alerts/src/lib.rs:51-105, 154-198; crates/api/src/handlers.rs:182-291). Only the order of the
    audit records, and the stored recommendations, may differ. */
module Linearization {
  import opened Common
  import opened Audit
  import opened Alerts
  import opened Advisor
  import Service
  import opened Interleaving
  import opened EventConservation

  /** What a request handled alone draws: ids and clock readings, and the model's answer if it asks. */
  datatype Drawn = Drawn(draw: Service.Draw, answer: Option<AiRecommendation>)

  /** A request handled as a whole at the moment of its first lock region. */
  function SerialStep(env: Service.Env, w: Service.World, l: Label, drawn: Drawn): Service.World {
    match l
    case BeginCreate(alert) => Service.AfterCreate(env.h, w, alert, drawn.draw.stamps)
    case BeginDecide(d, now) => Service.Handle(env, w, Service.Decide(Investigator, d, drawn.draw.(now := now))).0
    case BeginInvestigate(id) => Service.Handle(env, w, Service.Investigate(id, drawn.answer, drawn.draw)).0
    case Advance(_, _, _) => w
  }

  function Serial(env: Service.Env, w: Service.World, labels: seq<Label>, drawn: seq<Drawn>): Service.World
    requires |drawn| == |labels|
    decreases |labels|
  {
    if labels == [] then w else Serial(env, SerialStep(env, w, labels[0], drawn[0]), labels[1..], drawn[1..])
  }

  /** The accounts that a call in flight has still to flag. */
  function FlagsOf(c: Call): set<Account> {
    if c.Flagging? || ((c.Deciding? || c.DecisionLogged?) && c.alert.status == ConfirmedSuspicious) then Parties(c.alert.tx) else {}
  }

  predicate Owing(calls: seq<Call>, x: Account) {
    exists i :: 0 <= i < |calls| && x in FlagsOf(calls[i])
  }

  /** The serial world is ahead of the interleaving by what the calls in flight still owe. */
  ghost predicate Ahead(s: Sys, w: Service.World) {
    && s.alerts == w.alerts && Keyed(s.alerts)
    && (forall x :: x in w.flagged <==> x in s.flagged || Owing(s.calls, x))
    && Gather(EntryRecorded(), w.log) == Total(s)
  }

  lemma PairRecorded(h: Hasher, log: seq<AuditRecord>, alertId: Uuid, txHash: string, first: AuditEvent, second: AuditEvent, stamps: (Stamp, Stamp))
    ensures Gather(EntryRecorded(), LoggedPair(h, log, alertId, txHash, first, second, stamps))
         == Gather(EntryRecorded(), log)
          + (multiset{Entry(alertId, txHash, WithoutAnswer(first))} + multiset{Entry(alertId, txHash, WithoutAnswer(second))})
  {
    var one := Appended(h, log, alertId, txHash, first, stamps.0);
    GatherSnoc(EntryRecorded(), log, one[|log|]);
    var two := Appended(h, one, alertId, txHash, second, stamps.1);
    GatherSnoc(EntryRecorded(), one, two[|one|]);
  }

  /** A request handled alone records what its interleaved form promises. */
  lemma SerialRecords(env: Service.Env, s: Sys, w: Service.World, l: Label, drawn: Drawn)
    requires s.alerts == w.alerts && Keyed(w.alerts)
    ensures Gather(EntryRecorded(), SerialStep(env, w, l, drawn).log) == Gather(EntryRecorded(), w.log) + Promised(s, l)
  {
    match l
    case BeginCreate(a) =>
      PairRecorded(env.h, w.log, a.alertId, a.tx.txHash, CreatedEvent(a), TriggeredEvent(a), drawn.draw.stamps);
    case BeginDecide(d, _) => SerialDecisionRecords(env, s, w, l, drawn);
    case BeginInvestigate(_) => SerialAdviceRecords(env, s, w, l, drawn);
    case Advance(_, _, _) => AddNone(Gather(EntryRecorded(), w.log));
  }

  lemma SerialDecisionRecords(env: Service.Env, s: Sys, w: Service.World, l: Label, drawn: Drawn)
    requires s.alerts == w.alerts && Keyed(w.alerts) && l.BeginDecide?
    ensures Gather(EntryRecorded(), SerialStep(env, w, l, drawn).log) == Gather(EntryRecorded(), w.log) + Promised(s, l)
  {
    var d := l.d;
    assert Investigator.CanDecide();
    if d.alertId in w.alerts {
      var a := w.alerts[d.alertId];
      PairRecorded(env.h, w.log, d.alertId, a.tx.txHash, DecisionEvent(d), StatusChanged(a.status, d.decision), drawn.draw.stamps);
    } else {
      AddNone(Gather(EntryRecorded(), w.log));
    }
  }

  lemma SerialAdviceRecords(env: Service.Env, s: Sys, w: Service.World, l: Label, drawn: Drawn)
    requires s.alerts == w.alerts && Keyed(w.alerts) && l.BeginInvestigate?
    ensures Gather(EntryRecorded(), SerialStep(env, w, l, drawn).log) == Gather(EntryRecorded(), w.log) + Promised(s, l)
  {
    if l.alertId in w.alerts {
      var a := w.alerts[l.alertId];
      var rec := Service.AfterInvestigate(env, w, a, drawn.answer, drawn.draw).1;
      PairRecorded(env.h, w.log, a.alertId, a.tx.txHash, AiContextSent(|Service.Reasons(env, a)|),
        AiRecommendationReceived(rec.confidence, rec.modelAvailable), drawn.draw.stamps);
    } else {
      AddNone(Gather(EntryRecorded(), w.log));
    }
  }

  lemma AlertsFollow(env: Service.Env, h: Hasher, s: Sys, w: Service.World, l: Label, drawn: Drawn)
    requires s.alerts == w.alerts && Enabled(s, l)
    ensures SerialStep(env, w, l, drawn).alerts == Next(h, s, l).alerts
  {
    assert Investigator.CanDecide();
  }

  lemma OwingAfterBegin(calls: seq<Call>, c: Call, x: Account)
    ensures Owing(calls + [c], x) <==> Owing(calls, x) || x in FlagsOf(c)
  {
    var more := calls + [c];
    assert more[|calls|] == c;
    if Owing(calls, x) {
      var i :| 0 <= i < |calls| && x in FlagsOf(calls[i]);
      assert more[i] == calls[i];
    }
  }

  lemma OwingAfterUpdate(calls: seq<Call>, i: nat, c: Call, x: Account)
    requires i < |calls|
    requires FlagsOf(c) <= FlagsOf(calls[i])
    ensures Owing(calls[i := c], x) ==> Owing(calls, x)
    ensures Owing(calls, x) ==> Owing(calls[i := c], x) || x in FlagsOf(calls[i]) - FlagsOf(c)
  {
    var calls' := calls[i := c];
    if Owing(calls, x) {
      var k :| 0 <= k < |calls| && x in FlagsOf(calls[k]);
      if k != i {
        assert calls'[k] == calls[k];
      } else if x in FlagsOf(c) {
        assert calls'[i] == c;
      }
    }
    if Owing(calls', x) {
      var k :| 0 <= k < |calls'| && x in FlagsOf(calls'[k]);
      assert k != i ==> calls[k] == calls'[k];
      assert x in FlagsOf(calls[k]);
    }
  }

  /** A lock region flags what the call owed, or leaves it owing. */
  lemma FlagsFollowAdvance(h: Hasher, s: Sys, i: nat, stamp: Stamp, advice: AiRecommendation, x: Account)
    requires i < |s.calls|
    ensures var s' := Resume(h, s, i, stamp, advice);
            x in s'.flagged || Owing(s'.calls, x) <==> x in s.flagged || Owing(s.calls, x)
  {
    var c, c' := s.calls[i], Then(s.calls[i], advice);
    OwingAfterUpdate(s.calls, i, c', x);
  }

  lemma FlagsFollowBegin(env: Service.Env, h: Hasher, s: Sys, w: Service.World, l: Label, drawn: Drawn, x: Account)
    requires s.alerts == w.alerts && Enabled(s, l) && !l.Advance?
    requires x in w.flagged <==> x in s.flagged || Owing(s.calls, x)
    ensures var s' := Next(h, s, l);
            x in SerialStep(env, w, l, drawn).flagged <==> x in s'.flagged || Owing(s'.calls, x)
  {
    assert Investigator.CanDecide();
    OwingAfterBegin(s.calls, Started(s, l), x);
  }

  lemma StepStaysAhead(env: Service.Env, s: Sys, w: Service.World, l: Label, drawn: Drawn)
    requires Ahead(s, w) && Enabled(s, l)
    ensures Ahead(Next(env.h, s, l), SerialStep(env, w, l, drawn))
  {
    var s', w' := Next(env.h, s, l), SerialStep(env, w, l, drawn);
    KeyedKept(env.h, s, l);
    AlertsFollow(env, env.h, s, w, l, drawn);
    StepDelivers(env.h, s, l);
    SerialRecords(env, s, w, l, drawn);
    forall x ensures x in w'.flagged <==> x in s'.flagged || Owing(s'.calls, x) {
      if l.Advance? {
        FlagsFollowAdvance(env.h, s, l.call, l.stamp, l.advice, x);
      } else {
        FlagsFollowBegin(env, env.h, s, w, l, drawn, x);
      }
    }
  }

  lemma {:induction false} RunStaysAhead(env: Service.Env, s: Sys, w: Service.World, labels: seq<Label>, drawn: seq<Drawn>)
    requires Ahead(s, w) && EnabledRun(env.h, s, labels) && |drawn| == |labels|
    ensures Ahead(Exec(env.h, s, labels), Serial(env, w, labels, drawn))
    decreases |labels|
  {
    if labels != [] {
      StepStaysAhead(env, s, w, labels[0], drawn[0]);
      RunStaysAhead(env, Next(env.h, s, labels[0]), SerialStep(env, w, labels[0], drawn[0]), labels[1..], drawn[1..]);
    }
  }

  lemma StartAhead()
    ensures Ahead(START, Service.EMPTY_WORLD)
  {
    StartOwesNothing();
  }

  /** Every interleaving has, at every moment, the alerts of the serial run of its requests in the order of
      their first lock regions, and no flag that it lacks. Once no call is in flight it has the same
      flags, and its log the same entries as often. */
  lemma Linearizes(env: Service.Env, labels: seq<Label>, drawn: seq<Drawn>)
    requires EnabledRun(env.h, START, labels) && |drawn| == |labels|
    ensures var s, w := Exec(env.h, START, labels), Serial(env, Service.EMPTY_WORLD, labels, drawn);
            && s.alerts == w.alerts
            && s.flagged <= w.flagged
            && Gather(EntryRecorded(), s.log) <= Gather(EntryRecorded(), w.log)
            && (Quiescent(s) ==> s.flagged == w.flagged && Gather(EntryRecorded(), s.log) == Gather(EntryRecorded(), w.log))
  {
    StartAhead();
    RunStaysAhead(env, START, Service.EMPTY_WORLD, labels, drawn);
    var s, w := Exec(env.h, START, labels), Serial(env, Service.EMPTY_WORLD, labels, drawn);
    AddNone(Gather(EntryRecorded(), w.log));
    PartOf(Gather(EntryRecorded(), s.log), Gather(EntriesOwed(), s.calls), Gather(EntryRecorded(), w.log));
    if Quiescent(s) {
      QuiescentOwesNothing(s);
      assert forall x :: !Owing(s.calls, x);
    }
  }
}
