/** What the audit log and the alerts say about each other under concurrency
    (crates/alerts/src/lib.rs:51-105, 154-198; crates/audit/src/lib.rs:106-142). */
module InterleavingTheorems {
  import opened Common
  import opened Audit
  import opened Alerts
  import opened Advisor
  import opened Interleaving

  // ---------- Status ----------

  lemma ExplainedBalances(s: Sys, id: Uuid, t: Status)
    requires Explained(s, id) && id in s.alerts
    ensures Balance(Logged(s, id) + Pending(s, id), t) == if t == s.alerts[id].status then 1 else 0
  {
    var moves :| ChainsTo(moves, s.alerts[id].status) && multiset(moves) == Logged(s, id) + Pending(s, id);
    ChainBalances(moves, s.alerts[id].status, t);
  }

  /** In every state of every interleaving: the log is accepted, and for each alert the changes into a
      status, logged or pending, less those out of it, are one more than expected of the current status
      and one less than expected of Open. Moves of unknown alerts do not exist. */
  lemma StatusMovesBalance(h: Hasher, labels: seq<Label>, id: Uuid, t: Status)
    requires EnabledRun(h, START, labels)
    ensures var s := Exec(h, START, labels);
            && WellChained(h, s.log)
            && var moves := Logged(s, id) + Pending(s, id);
               if id in s.alerts
               then Into(moves, t) - OutOf(moves, t) == (if t == s.alerts[id].status then 1 else 0) - (if t == Open then 1 else 0)
               else moves == multiset{}
  {
    StartConsistent(h);
    RunKeepsConsistent(h, START, labels);
    var s := Exec(h, START, labels);
    assert Explained(s, id);
    if id in s.alerts {
      ExplainedBalances(s, id, t);
    }
  }

  lemma QuiescentNothingPending(s: Sys, id: Uuid)
    requires Quiescent(s)
    ensures Pending(s, id) == multiset{}
  {
    GatherEmpty(MoveOwed(id), s.calls);
  }

  /** Once no decision on an alert is in flight, its status is the one status at which the
      unordered logged changes balance. */
  lemma StatusRecoverable(h: Hasher, s: Sys, id: Uuid, t: Status)
    requires Consistent(h, s) && id in s.alerts && Pending(s, id) == multiset{}
    ensures Balance(Logged(s, id), t) == 1 <==> t == s.alerts[id].status
  {
    assert Explained(s, id);
    assert Logged(s, id) + multiset{} == Logged(s, id);
    ExplainedBalances(s, id, t);
  }

  /** Two quiet ends of two runs whose logs hold the same changes of an alert, in whatever
      order, agree on its status. */
  lemma UnorderedLogFixesStatus(h: Hasher, a: seq<Label>, b: seq<Label>, id: Uuid)
    requires EnabledRun(h, START, a) && EnabledRun(h, START, b)
    requires var s, u := Exec(h, START, a), Exec(h, START, b);
             && Quiescent(s) && Quiescent(u)
             && id in s.alerts && id in u.alerts && Logged(s, id) == Logged(u, id)
    ensures Exec(h, START, a).alerts[id].status == Exec(h, START, b).alerts[id].status
  {
    var s, u := Exec(h, START, a), Exec(h, START, b);
    StartConsistent(h);
    RunKeepsConsistent(h, START, a);
    RunKeepsConsistent(h, START, b);
    QuiescentNothingPending(s, id);
    QuiescentNothingPending(u, id);
    StatusRecoverable(h, s, id, s.alerts[id].status);
    StatusRecoverable(h, u, id, s.alerts[id].status);
  }

  /** A snapshot that reads the alerts while no decision on `id` is in flight, and the log any
      number of steps later, saves a log that is accepted and has a prefix from which the saved
      status can be recovered. */
  lemma SnapshotStatusRecoverable(h: Hasher, before: seq<Label>, between: seq<Label>, id: Uuid, t: Status)
    requires EnabledRun(h, START, before) && EnabledRun(h, Exec(h, START, before), between)
    requires id in Exec(h, START, before).alerts && Pending(Exec(h, START, before), id) == multiset{}
    ensures var s := Exec(h, START, before);
            var savedLog := Exec(h, s, between).log;
            && WellChained(h, savedLog)
            && |s.log| <= |savedLog|
            && (Balance(Gather(MoveRecorded(id), savedLog[..|s.log|]), t) == 1 <==> t == s.alerts[id].status)
  {
    StartConsistent(h);
    RunKeepsConsistent(h, START, before);
    var s := Exec(h, START, before);
    RunKeepsConsistent(h, s, between);
    StatusRecoverable(h, s, id, t);
    assert Exec(h, s, between).log[..|s.log|] == s.log;
  }

  // ---------- Flags ----------

  /** Once no call is in flight, exactly the parties of alerts with a logged confirmation are flagged. */
  lemma QuiescentFlags(h: Hasher, labels: seq<Label>, x: Account)
    requires EnabledRun(h, START, labels) && Quiescent(Exec(h, START, labels))
    ensures var s := Exec(h, START, labels);
            x in s.flagged <==> exists id :: FlagDue(s, id, x)
  {
    StartConsistent(h);
    RunKeepsConsistent(h, START, labels);
    var s := Exec(h, START, labels);
    if id :| FlagDue(s, id, x) {
      assert !FlagOwed(s, id);
    }
  }

  // ---------- Log order ----------

  /** The status changes of an alert in the order they are logged. */
  function LoggedOrder(log: seq<AuditRecord>, id: Uuid): seq<Move> {
    if log == [] then []
    else
      var last := log[|log| - 1].content;
      LoggedOrder(log[..|log| - 1], id)
      + if last.alertId == id && last.event.StatusChanged? then [Move(last.event.from, last.event.to)] else []
  }

  lemma {:induction false} LoggedOrderMoves(log: seq<AuditRecord>, id: Uuid)
    ensures multiset(LoggedOrder(log, id)) == Gather(MoveRecorded(id), log)
  {
    if log != [] {
      LoggedOrderMoves(log[..|log| - 1], id);
    }
  }

  function MoveInOrder(c: Call, advice: AiRecommendation, id: Uuid): seq<Move> {
    var event := EventOf(c, advice);
    if event.Some? && c.alert.alertId == id && event.value.StatusChanged?
    then [Move(event.value.from, event.value.to)]
    else []
  }

  lemma OrderAfterResume(h: Hasher, s: Sys, i: nat, stamp: Stamp, advice: AiRecommendation, id: Uuid)
    requires i < |s.calls|
    ensures LoggedOrder(Resume(h, s, i, stamp, advice).log, id) == LoggedOrder(s.log, id) + MoveInOrder(s.calls[i], advice, id)
    ensures multiset(MoveInOrder(s.calls[i], advice, id)) == MoveOf(s.calls[i], advice, id)
  {
    var s' := Resume(h, s, i, stamp, advice);
    if EventOf(s.calls[i], advice).Some? {
      assert s'.log[..|s.log|] == s.log;
    }
  }

  /** No decision on `id` begins while another one on it is in flight. */
  ghost predicate SerialRun(h: Hasher, s: Sys, labels: seq<Label>, id: Uuid)
    requires EnabledRun(h, s, labels)
    decreases |labels|
  {
    labels == [] ||
    (&& (labels[0].BeginDecide? && labels[0].d.alertId == id ==> Pending(s, id) == multiset{})
     && SerialRun(h, Next(h, s, labels[0]), labels[1..], id))
  }

  /** The log, with the one pending change at its end, leads to the present status. */
  ghost predicate InOrder(s: Sys, id: Uuid, pending: seq<Move>) {
    && |pending| <= 1
    && Pending(s, id) == multiset(pending)
    && if id in s.alerts then ChainsTo(LoggedOrder(s.log, id) + pending, s.alerts[id].status)
       else LoggedOrder(s.log, id) + pending == []
  }

  ghost predicate InSomeOrder(s: Sys, id: Uuid) {
    exists pending :: InOrder(s, id, pending)
  }

  lemma OrderStill(s: Sys, s': Sys, id: Uuid, pending: seq<Move>)
    requires InOrder(s, id, pending) && s'.alerts == s.alerts
    requires Pending(s', id) == Pending(s, id) && LoggedOrder(s'.log, id) == LoggedOrder(s.log, id)
    ensures InOrder(s', id, pending)
  {
  }

  lemma OrderAdvanced(s: Sys, s': Sys, id: Uuid, m: Move)
    requires InOrder(s, id, [m]) && s'.alerts == s.alerts
    requires Pending(s', id) == multiset{} && LoggedOrder(s'.log, id) == LoggedOrder(s.log, id) + [m]
    ensures InOrder(s', id, [])
  {
    assert LoggedOrder(s'.log, id) + [] == LoggedOrder(s.log, id) + [m];
  }

  lemma ResumeKeepsOrder(h: Hasher, s: Sys, i: nat, stamp: Stamp, advice: AiRecommendation, id: Uuid, pending: seq<Move>)
    requires i < |s.calls| && InOrder(s, id, pending)
    ensures InSomeOrder(Resume(h, s, i, stamp, advice), id)
  {
    var s' := Resume(h, s, i, stamp, advice);
    var done := MoveInOrder(s.calls[i], advice, id);
    OrderAfterResume(h, s, i, stamp, advice, id);
    PendingAfterResume(h, s, i, stamp, advice, id);
    if done == [] {
      assert Pending(s', id) + multiset{} == Pending(s', id);
      assert LoggedOrder(s.log, id) + [] == LoggedOrder(s.log, id);
      OrderStill(s, s', id, pending);
    } else {
      assert done == [done[0]];
      OnlyOne(Pending(s', id), done[0], pending);
      OrderAdvanced(s, s', id, done[0]);
    }
  }

  lemma OnlyOne(rest: multiset<Move>, m: Move, pending: seq<Move>)
    requires |pending| <= 1 && multiset(pending) == rest + multiset{m}
    ensures pending == [m] && rest == multiset{}
  {
    assert m in multiset(pending);
    assert pending[0] == m;
    assert rest == multiset(pending) - multiset{m};
  }

  lemma BeginKeepsOrder(h: Hasher, s: Sys, l: Label, id: Uuid, pending: seq<Move>)
    requires Keyed(s.alerts) && Enabled(s, l) && !l.Advance? && InOrder(s, id, pending)
    requires l.BeginDecide? && l.d.alertId == id ==> Pending(s, id) == multiset{}
    ensures InSomeOrder(Next(h, s, l), id)
  {
    var s' := Next(h, s, l);
    GatherSnoc(MoveOwed(id), s.calls, Started(s, l));
    StartedOwes(s, l, id);
    StatusAfter(h, s, l, id);
    if l.BeginDecide? && l.d.alertId == id && id in s.alerts {
      OrderOwed(s, s', id, pending, Move(s.alerts[id].status, l.d.decision));
    } else {
      assert Pending(s, id) + multiset{} == Pending(s, id);
      assert InOrder(s', id, pending);
    }
  }

  lemma OrderOwed(s: Sys, s': Sys, id: Uuid, pending: seq<Move>, m: Move)
    requires InOrder(s, id, pending) && Pending(s, id) == multiset{} && Pending(s', id) == multiset{} + multiset{m}
    requires LoggedOrder(s'.log, id) == LoggedOrder(s.log, id)
    requires id in s.alerts && id in s'.alerts && m == Move(s.alerts[id].status, s'.alerts[id].status)
    ensures InOrder(s', id, [m])
  {
    assert |multiset(pending)| == 0;
    assert LoggedOrder(s.log, id) + [] == LoggedOrder(s.log, id);
    ChainExtends(LoggedOrder(s.log, id), m);
    assert multiset{} + multiset{m} == multiset([m]);
  }

  lemma StepKeepsOrder(h: Hasher, s: Sys, l: Label, id: Uuid)
    requires Keyed(s.alerts) && Enabled(s, l) && InSomeOrder(s, id)
    requires l.BeginDecide? && l.d.alertId == id ==> Pending(s, id) == multiset{}
    ensures InSomeOrder(Next(h, s, l), id) && Keyed(Next(h, s, l).alerts)
  {
    var pending :| InOrder(s, id, pending);
    KeyedKept(h, s, l);
    if l.Advance? {
      ResumeKeepsOrder(h, s, l.call, l.stamp, l.advice, id, pending);
    } else {
      BeginKeepsOrder(h, s, l, id, pending);
    }
  }

  lemma {:induction false} SerialKeepsOrder(h: Hasher, s: Sys, labels: seq<Label>, id: Uuid)
    requires Keyed(s.alerts) && InSomeOrder(s, id)
    requires EnabledRun(h, s, labels) && SerialRun(h, s, labels, id)
    ensures InSomeOrder(Exec(h, s, labels), id)
    decreases |labels|
  {
    if labels != [] {
      StepKeepsOrder(h, s, labels[0], id);
      SerialKeepsOrder(h, Next(h, s, labels[0]), labels[1..], id);
    }
  }

  /** If decisions on an alert never overlap, then once none is in flight its logged changes link
      up in log order, from Open to its status. */
  lemma SerialDecisionsReplay(h: Hasher, labels: seq<Label>, id: Uuid)
    requires EnabledRun(h, START, labels) && SerialRun(h, START, labels, id)
    requires id in Exec(h, START, labels).alerts && Pending(Exec(h, START, labels), id) == multiset{}
    ensures var s := Exec(h, START, labels);
            ChainsTo(LoggedOrder(s.log, id), s.alerts[id].status)
  {
    assert InOrder(START, id, []);
    SerialKeepsOrder(h, START, labels, id);
    var s := Exec(h, START, labels);
    var pending :| InOrder(s, id, pending);
    assert |multiset(pending)| == 0;
    assert LoggedOrder(s.log, id) + [] == LoggedOrder(s.log, id);
  }

  /** Without that, the last logged change need not name the current status. It does exactly when
      the logged changes balance at the status it names, which the log alone decides. */
  lemma LastChangeTellsStatusIff(h: Hasher, labels: seq<Label>, id: Uuid)
    requires EnabledRun(h, START, labels) && Quiescent(Exec(h, START, labels))
    requires id in Exec(h, START, labels).alerts && LoggedOrder(Exec(h, START, labels).log, id) != []
    ensures var s := Exec(h, START, labels);
            var order := LoggedOrder(s.log, id);
            var last := order[|order| - 1].to;
            last == s.alerts[id].status <==> Balance(multiset(order), last) == 1
  {
    StartConsistent(h);
    RunKeepsConsistent(h, START, labels);
    var s := Exec(h, START, labels);
    var order := LoggedOrder(s.log, id);
    QuiescentNothingPending(s, id);
    LoggedOrderMoves(s.log, id);
    StatusRecoverable(h, s, id, order[|order| - 1].to);
  }

  lemma {:induction false} ExecConcat(h: Hasher, s: Sys, a: seq<Label>, b: seq<Label>)
    requires EnabledRun(h, s, a) && EnabledRun(h, Exec(h, s, a), b)
    ensures EnabledRun(h, s, a + b) && Exec(h, s, a + b) == Exec(h, Exec(h, s, a), b)
    decreases |a|
  {
    if a == [] {
      assert a + b == b;
    } else {
      ExecConcat(h, Next(h, s, a[0]), a[1..], b);
      assert (a + b)[1..] == a[1..] + b;
    }
  }

  lemma ExecOne(h: Hasher, s: Sys, l: Label)
    requires Enabled(s, l)
    ensures EnabledRun(h, s, [l]) && Exec(h, s, [l]) == Next(h, s, l)
  {
    var next := Next(h, s, l);
    assert [l][1..] == [];
    assert EnabledRun(h, next, []) && Exec(h, next, []) == next;
  }

  /** After `labels`, the alert, the calls in flight and the logged changes are these. */
  ghost predicate Reaches(h: Hasher, labels: seq<Label>, alert: Alert, calls: seq<Call>, order: seq<Move>) {
    EnabledRun(h, START, labels) &&
    var s := Exec(h, START, labels);
    && s.calls == calls
    && alert.alertId in s.alerts && s.alerts[alert.alertId] == alert
    && LoggedOrder(s.log, alert.alertId) == order
  }

  lemma ReachesAdvance(h: Hasher, labels: seq<Label>, alert: Alert, calls: seq<Call>, order: seq<Move>, i: nat, stamp: Stamp, advice: AiRecommendation)
    requires Reaches(h, labels, alert, calls, order) && i < |calls| && !calls[i].Finished?
    ensures Reaches(h, labels + [Advance(i, stamp, advice)], alert, calls[i := Then(calls[i], advice)],
                    order + MoveInOrder(calls[i], advice, alert.alertId))
  {
    var s := Exec(h, START, labels);
    ExecOne(h, s, Advance(i, stamp, advice));
    ExecConcat(h, START, labels, [Advance(i, stamp, advice)]);
    OrderAfterResume(h, s, i, stamp, advice, alert.alertId);
  }

  lemma ReachesDecide(h: Hasher, labels: seq<Label>, alert: Alert, calls: seq<Call>, order: seq<Move>, d: Decision, now: Time)
    requires Reaches(h, labels, alert, calls, order) && d.alertId == alert.alertId
    ensures var after := Revised(alert, d.decision, now);
            Reaches(h, labels + [BeginDecide(d, now)], after, calls + [Deciding(d, after, alert.status)], order)
  {
    ExecOne(h, Exec(h, START, labels), BeginDecide(d, now));
    ExecConcat(h, START, labels, [BeginDecide(d, now)]);
  }

  /** As above, with the calls and the order after the step named. */
  lemma Step(h: Hasher, labels: seq<Label>, alert: Alert, calls: seq<Call>, order: seq<Move>, i: nat, stamp: Stamp, advice: AiRecommendation, calls': seq<Call>, order': seq<Move>)
    requires Reaches(h, labels, alert, calls, order) && i < |calls| && !calls[i].Finished?
    requires calls' == calls[i := Then(calls[i], advice)]
    requires order' == order + MoveInOrder(calls[i], advice, alert.alertId)
    ensures Reaches(h, labels + [Advance(i, stamp, advice)], alert, calls', order')
  {
    ReachesAdvance(h, labels, alert, calls, order, i, stamp, advice);
  }

  function CreateAlone(alert: Alert, stamp: Stamp, advice: AiRecommendation): seq<Label> {
    [BeginCreate(alert)] + [Advance(0, stamp, advice)] + [Advance(0, stamp, advice)]
  }

  lemma CreateAloneReaches(h: Hasher, alert: Alert, stamp: Stamp, advice: AiRecommendation)
    requires alert.status == Open
    ensures Reaches(h, CreateAlone(alert, stamp, advice), alert, [Finished], [])
  {
    var labels := [BeginCreate(alert)];
    ExecOne(h, START, BeginCreate(alert));
    Step(h, labels, alert, [Creating(alert)], [], 0, stamp, advice, [CreationLogged(alert)], []);
    Step(h, labels + [Advance(0, stamp, advice)], alert, [CreationLogged(alert)], [], 0, stamp, advice, [Finished], []);
  }

  /** A decision that does not confirm, `i`-th of the calls, runs to its end. */
  lemma DecisionFinishes(h: Hasher, labels: seq<Label>, alert: Alert, calls: seq<Call>, order: seq<Move>, i: nat, stamp: Stamp, advice: AiRecommendation)
    requires Reaches(h, labels, alert, calls, order) && i < |calls|
    requires calls[i].Deciding? && calls[i].alert.alertId == alert.alertId && calls[i].alert.status != ConfirmedSuspicious
    ensures Reaches(h, labels + [Advance(i, stamp, advice)] + [Advance(i, stamp, advice)], alert, calls[i := Finished],
                    order + [Move(calls[i].from, calls[i].d.decision)])
  {
    var c := calls[i];
    var logged := DecisionLogged(c.d, c.alert, c.from);
    assert order + [] == order;
    Step(h, labels, alert, calls, order, i, stamp, advice, calls[i := logged], order);
    assert calls[i := logged][i := Finished] == calls[i := Finished];
    Step(h, labels + [Advance(i, stamp, advice)], alert, calls[i := logged], order, i, stamp, advice,
         calls[i := Finished], order + [Move(c.from, c.d.decision)]);
  }

  function BothBegun(alert: Alert, first: Decision, second: Decision, stamp: Stamp, advice: AiRecommendation): seq<Label> {
    CreateAlone(alert, stamp, advice) + [BeginDecide(first, 1)] + [BeginDecide(second, 2)]
  }

  /** Two overlapping decisions: the first to write its status is the last to log it. */
  function Overtaking(alert: Alert, first: Decision, second: Decision, stamp: Stamp, advice: AiRecommendation): seq<Label> {
    BothBegun(alert, first, second, stamp, advice)
    + [Advance(2, stamp, advice)] + [Advance(2, stamp, advice)]
    + [Advance(1, stamp, advice)] + [Advance(1, stamp, advice)]
  }

  /** So the log of an alert can end in a status that the alert does not have, at rest. */
  lemma OvertakingMisleads(h: Hasher, alert: Alert, first: Decision, second: Decision, stamp: Stamp, advice: AiRecommendation)
    requires alert.status == Open && first.alertId == second.alertId == alert.alertId
    requires first.decision == Escalated && second.decision == Dismissed
    ensures var dismissed := Revised(Revised(alert, Escalated, 1), Dismissed, 2);
            Reaches(h, Overtaking(alert, first, second, stamp, advice), dismissed, [Finished, Finished, Finished],
                    [Move(Escalated, Dismissed), Move(Open, Escalated)])
  {
    var escalated := Revised(alert, Escalated, 1);
    var dismissed := Revised(escalated, Dismissed, 2);
    var one, two := Deciding(first, escalated, Open), Deciding(second, dismissed, Escalated);
    var labels := CreateAlone(alert, stamp, advice);
    CreateAloneReaches(h, alert, stamp, advice);
    ReachesDecide(h, labels, alert, [Finished], [], first, 1);
    ReachesDecide(h, labels + [BeginDecide(first, 1)], escalated, [Finished] + [one], [], second, 2);
    var both := BothBegun(alert, first, second, stamp, advice);
    var calls := [Finished] + [one] + [two];
    assert Reaches(h, both, dismissed, calls, []);
    DecisionFinishes(h, both, dismissed, calls, [], 2, stamp, advice);
    DecisionFinishes(h, both + [Advance(2, stamp, advice)] + [Advance(2, stamp, advice)], dismissed, calls[2 := Finished],
                     [] + [Move(Escalated, Dismissed)], 1, stamp, advice);
    assert calls[2 := Finished][1 := Finished] == [Finished, Finished, Finished];
  }
}
