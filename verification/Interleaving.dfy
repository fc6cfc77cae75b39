/** Concurrent requests, one transition per lock region. A request holds no lock between its writes to
    the alerts and its appends to the audit log (crates/alerts/src/lib.rs:75-94, 158-187;
    crates/api/src/handlers.rs:186-228, 272-281), so other requests may run in between. Transaction
    histories sit behind locks of their own and are not touched by any transition here; an evaluation
    enters as the creation of an arbitrary alert. */
module Interleaving {
  import opened Common
  import opened Audit
  import opened Alerts
  import opened Advisor

  /** A request in flight, by the lock region it is about to enter. */
  datatype Call =
    | Creating(alert: Alert)                                     // append AlertCreated
    | CreationLogged(alert: Alert)                               // append RulesTriggered
    | Deciding(d: Decision, alert: Alert, from: Status)          // append InvestigatorDecision
    | DecisionLogged(d: Decision, alert: Alert, from: Status)    // append StatusChanged
    | Flagging(alert: Alert)                                     // insert into the flagged accounts
    | Asking(alert: Alert)                                       // append AiContextSent
    | Waiting(alert: Alert)                                      // append AiRecommendationReceived
    | Storing(alertId: Uuid, rec: AiRecommendation)              // insert the recommendation
    | Finished

  datatype Sys = Sys(
    alerts: AlertMap,
    log: seq<AuditRecord>,
    flagged: set<Account>,
    recommendations: map<Uuid, AiRecommendation>,
    calls: seq<Call>
  )

  const START := Sys(map[], [], {}, map[], [])

  /** Which call takes the next step. A `Begin` label is a new request's first lock region. The advice,
      whatever the advisor makes of its model's answer, matters only to a call waiting for it. */
  datatype Label =
    | BeginCreate(alert: Alert)
    | BeginDecide(d: Decision, now: Time)
    | BeginInvestigate(alertId: Uuid)
    | Advance(call: nat, stamp: Stamp, advice: AiRecommendation)

  predicate Enabled(s: Sys, l: Label) {
    match l
    case BeginCreate(alert) => alert.status == Open && alert.alertId !in s.alerts
    case Advance(i, _, _) => i < |s.calls| && !s.calls[i].Finished?
    case _ => true
  }

  /** The event that a call in flight appends next, if an append is what it does next. */
  function EventOf(c: Call, advice: AiRecommendation): (event: Option<AuditEvent>)
    ensures event.Some? <==> !c.Flagging? && !c.Storing? && !c.Finished?
  {
    match c
    case Creating(alert) => Some(CreatedEvent(alert))
    case CreationLogged(alert) => Some(TriggeredEvent(alert))
    case Deciding(d, _, _) => Some(DecisionEvent(d))
    case DecisionLogged(d, _, from) => Some(StatusChanged(from, d.decision))
    case Asking(alert) => Some(AiContextSent(|alert.triggeredRules|))
    case Waiting(_) => Some(AiRecommendationReceived(advice.confidence, advice.modelAvailable))
    case _ => None
  }

  /** What it does after that. Only a confirmation goes on to flag accounts. */
  function Then(c: Call, advice: AiRecommendation): Call {
    match c
    case Creating(alert) => CreationLogged(alert)
    case Deciding(d, alert, from) => DecisionLogged(d, alert, from)
    case DecisionLogged(_, alert, _) => if alert.status == ConfirmedSuspicious then Flagging(alert) else Finished
    case Asking(alert) => Waiting(alert)
    case Waiting(alert) => Storing(alert.alertId, advice)
    case _ => Finished
  }

  /** One lock region of call `i`. */
  function Resume(h: Hasher, s: Sys, i: nat, stamp: Stamp, advice: AiRecommendation): Sys
    requires i < |s.calls|
  {
    var c := s.calls[i];
    var event := EventOf(c, advice);
    s.(calls := s.calls[i := Then(c, advice)],
    log := if event.Some? then Appended(h, s.log, c.alert.alertId, c.alert.tx.txHash, event.value, stamp) else s.log,
    flagged := if c.Flagging? then s.flagged + Parties(c.alert.tx) else s.flagged,
    recommendations := if c.Storing? then s.recommendations[c.alertId := c.rec] else s.recommendations)
  }

  /** The alert as a beginning decision leaves it. */
  function Decided(s: Sys, d: Decision, now: Time): Alert
    requires d.alertId in s.alerts
  {
    Revised(s.alerts[d.alertId], d.decision, now)
  }

  /** What a new request goes on to do after its first lock region. An unknown alert ends it. */
  function Started(s: Sys, l: Label): Call
    requires !l.Advance?
  {
    match l
    case BeginCreate(alert) => Creating(alert)
    case BeginDecide(d, now) => if d.alertId in s.alerts then Deciding(d, Decided(s, d, now), s.alerts[d.alertId].status) else Finished
    case BeginInvestigate(alertId) => if alertId in s.alerts then Asking(s.alerts[alertId]) else Finished
  }

  function Next(h: Hasher, s: Sys, l: Label): Sys
    requires Enabled(s, l)
  {
    match l
    case BeginCreate(alert) => s.(alerts := s.alerts[alert.alertId := alert], calls := s.calls + [Started(s, l)])
    case BeginDecide(d, now) =>
      s.(alerts := if d.alertId in s.alerts then s.alerts[d.alertId := Decided(s, d, now)] else s.alerts,
      calls := s.calls + [Started(s, l)])
    case BeginInvestigate(alertId) => s.(calls := s.calls + [Started(s, l)])
    case Advance(i, stamp, advice) => Resume(h, s, i, stamp, advice)
  }

  predicate EnabledRun(h: Hasher, s: Sys, labels: seq<Label>)
    decreases |labels|
  {
    labels == [] || (Enabled(s, labels[0]) && EnabledRun(h, Next(h, s, labels[0]), labels[1..]))
  }

  function Exec(h: Hasher, s: Sys, labels: seq<Label>): Sys
    requires EnabledRun(h, s, labels)
    decreases |labels|
  {
    if labels == [] then s else Exec(h, Next(h, s, labels[0]), labels[1..])
  }

  predicate Quiescent(s: Sys) {
    forall i :: 0 <= i < |s.calls| ==> s.calls[i].Finished?
  }

  // ---------- Status moves, logged and pending ----------

  datatype Move = Move(from: Status, to: Status)

  /** All that `f` yields over a sequence. */
  ghost function Gather<A, T>(f: A -> multiset<T>, s: seq<A>): multiset<T> {
    if s == [] then multiset{} else Gather(f, s[..|s| - 1]) + f(s[|s| - 1])
  }

  lemma GatherSnoc<A, T>(f: A -> multiset<T>, s: seq<A>, x: A)
    ensures Gather(f, s + [x]) == Gather(f, s) + f(x)
  {
    assert (s + [x])[..|s|] == s;
  }

  lemma {:induction false} GatherUpdate<A, T>(f: A -> multiset<T>, s: seq<A>, i: nat, x: A)
    requires i < |s|
    ensures Gather(f, s[i := x]) + f(s[i]) == Gather(f, s) + f(x)
  {
    var n := |s| - 1;
    if i == n {
      assert s[i := x][..n] == s[..n];
    } else {
      GatherUpdate(f, s[..n], i, x);
      assert s[i := x][..n] == s[..n][i := x];
      AddBoth(Gather(f, s[..n][i := x]), f(s[i]), Gather(f, s[..n]), f(x), f(s[n]));
    }
  }

  lemma AddBoth<T>(a: multiset<T>, b: multiset<T>, c: multiset<T>, d: multiset<T>, extra: multiset<T>)
    requires a + b == c + d
    ensures a + extra + b == c + extra + d
  {
    assert a + extra + b == a + b + extra;
    assert c + extra + d == c + d + extra;
  }

  lemma {:induction false} GatherContains<A, T>(f: A -> multiset<T>, s: seq<A>, i: nat)
    requires i < |s|
    ensures f(s[i]) <= Gather(f, s)
  {
    if i < |s| - 1 {
      GatherContains(f, s[..|s| - 1], i);
    }
  }

  lemma {:induction false} GatherEmpty<A, T>(f: A -> multiset<T>, s: seq<A>)
    requires forall i :: 0 <= i < |s| ==> f(s[i]) == multiset{}
    ensures Gather(f, s) == multiset{}
  {
    if s != [] {
      GatherEmpty(f, s[..|s| - 1]);
    }
  }

  ghost function MoveRecorded(id: Uuid): AuditRecord -> multiset<Move> {
    (r: AuditRecord) =>
      if r.content.alertId == id && r.content.event.StatusChanged?
      then multiset{Move(r.content.event.from, r.content.event.to)}
      else multiset{}
  }

  ghost function MoveOwed(id: Uuid): Call -> multiset<Move> {
    (c: Call) =>
      if (c.Deciding? || c.DecisionLogged?) && c.alert.alertId == id
      then multiset{Move(c.from, c.d.decision)}
      else multiset{}
  }

  /** The status changes of an alert that are in the log, in no particular order. */
  ghost function Logged(s: Sys, id: Uuid): multiset<Move> {
    Gather(MoveRecorded(id), s.log)
  }

  /** The status changes of an alert that are written but not yet in the log. */
  ghost function Pending(s: Sys, id: Uuid): multiset<Move> {
    Gather(MoveOwed(id), s.calls)
  }

  /** The moves lead, one after another, from Open to `status`. */
  predicate ChainsTo(moves: seq<Move>, status: Status) {
    if moves == [] then status == Open
    else moves[|moves| - 1].to == status && ChainsTo(moves[..|moves| - 1], moves[|moves| - 1].from)
  }

  function Into(ms: multiset<Move>, s: Status): int {
    ms[Move(Open, s)] + ms[Move(UnderInvestigation, s)] + ms[Move(Escalated, s)] + ms[Move(Dismissed, s)] + ms[Move(ConfirmedSuspicious, s)]
  }

  function OutOf(ms: multiset<Move>, s: Status): int {
    ms[Move(s, Open)] + ms[Move(s, UnderInvestigation)] + ms[Move(s, Escalated)] + ms[Move(s, Dismissed)] + ms[Move(s, ConfirmedSuspicious)]
  }

  /** Arrivals less departures, an alert counting as arrived in Open when it is created. */
  function Balance(ms: multiset<Move>, s: Status): int {
    Into(ms, s) - OutOf(ms, s) + if s == Open then 1 else 0
  }

  lemma IntoGrows(a: multiset<Move>, b: multiset<Move>, s: Status)
    ensures Into(a + b, s) == Into(a, s) + Into(b, s)
  {
    var both := a + b;
    assert forall m: Move :: both[m] == a[m] + b[m];
  }

  lemma OutOfGrows(a: multiset<Move>, b: multiset<Move>, s: Status)
    ensures OutOf(a + b, s) == OutOf(a, s) + OutOf(b, s)
  {
    var both := a + b;
    assert forall m: Move :: both[m] == a[m] + b[m];
  }

  lemma IntoOne(m: Move, s: Status)
    ensures Into(multiset{m}, s) == if m.to == s then 1 else 0
  {
    var one := multiset{m};
    assert forall k: Move :: one[k] == if k == m then 1 else 0;
  }

  lemma OutOfOne(m: Move, s: Status)
    ensures OutOf(multiset{m}, s) == if m.from == s then 1 else 0
  {
    var one := multiset{m};
    assert forall k: Move :: one[k] == if k == m then 1 else 0;
  }

  /** Moves that chain to a status balance there and nowhere else. */
  lemma {:induction false} ChainBalances(moves: seq<Move>, status: Status, s: Status)
    requires ChainsTo(moves, status)
    ensures Balance(multiset(moves), s) == if s == status then 1 else 0
  {
    if moves != [] {
      var n := |moves| - 1;
      ChainBalances(moves[..n], moves[n].from, s);
      assert moves == moves[..n] + [moves[n]];
      assert multiset(moves) == multiset(moves[..n]) + multiset{moves[n]};
      IntoGrows(multiset(moves[..n]), multiset{moves[n]}, s);
      OutOfGrows(multiset(moves[..n]), multiset{moves[n]}, s);
      IntoOne(moves[n], s);
      OutOfOne(moves[n], s);
    }
  }

  // ---------- The invariant ----------

  /** Some order of an alert's moves, logged and pending together, leads to its present status. */
  ghost predicate Explained(s: Sys, id: Uuid) {
    if id in s.alerts then exists moves :: ChainsTo(moves, s.alerts[id].status) && multiset(moves) == Logged(s, id) + Pending(s, id)
    else Logged(s, id) + Pending(s, id) == multiset{}
  }

  predicate CallFits(alerts: AlertMap, c: Call) {
    match c
    case Finished => true
    case Storing(_, _) => true
    case Deciding(d, alert, _) => alert.alertId in alerts && alerts[alert.alertId].tx == alert.tx && alert.status == d.decision
    case DecisionLogged(d, alert, _) => alert.alertId in alerts && alerts[alert.alertId].tx == alert.tx && alert.status == d.decision
    case _ => c.alert.alertId in alerts && alerts[c.alert.alertId].tx == c.alert.tx
  }

  /** The log holds a change of this alert to ConfirmedSuspicious. */
  ghost predicate ConfirmationLogged(s: Sys, id: Uuid) {
    Into(Logged(s, id), ConfirmedSuspicious) > 0
  }

  ghost predicate FlagDue(s: Sys, id: Uuid, x: Account) {
    id in s.alerts && ConfirmationLogged(s, id) && x in Parties(s.alerts[id].tx)
  }

  predicate FlagOwed(s: Sys, id: Uuid) {
    exists i :: 0 <= i < |s.calls| && s.calls[i].Flagging? && s.calls[i].alert.alertId == id
  }

  /** Accounts are flagged only for confirmations already in the log, and each of those has
      flagged its parties or is about to. */
  ghost predicate FlagsBacked(s: Sys) {
    && (forall x :: x in s.flagged ==> exists id :: FlagDue(s, id, x))
    && (forall id, x :: FlagDue(s, id, x) ==> x in s.flagged || FlagOwed(s, id))
    && (forall id :: FlagOwed(s, id) ==> ConfirmationLogged(s, id))
  }

  ghost predicate Consistent(h: Hasher, s: Sys) {
    && WellChained(h, s.log)
    && Keyed(s.alerts)
    && (forall i :: 0 <= i < |s.calls| ==> CallFits(s.alerts, s.calls[i]))
    && (forall id :: Explained(s, id))
    && FlagsBacked(s)
  }

  // ---------- What one step does ----------

  lemma ChainKept(h: Hasher, s: Sys, l: Label)
    requires WellChained(h, s.log) && Enabled(s, l)
    ensures WellChained(h, Next(h, s, l).log) && s.log <= Next(h, s, l).log
  {
    if l.Advance? {
      var c := s.calls[l.call];
      var event := EventOf(c, l.advice);
      if event.Some? {
        AppendKeepsChain(h, s.log, c.alert.alertId, c.alert.tx.txHash, event.value, l.stamp);
      }
    }
  }

  lemma KeyedKept(h: Hasher, s: Sys, l: Label)
    requires Keyed(s.alerts) && Enabled(s, l)
    ensures Keyed(Next(h, s, l).alerts)
  {
  }

  lemma CallsFitKept(h: Hasher, s: Sys, l: Label)
    requires Keyed(s.alerts) && Enabled(s, l) && forall i :: 0 <= i < |s.calls| ==> CallFits(s.alerts, s.calls[i])
    ensures var s' := Next(h, s, l);
            Keyed(s'.alerts) && forall i :: 0 <= i < |s'.calls| ==> CallFits(s'.alerts, s'.calls[i])
  {
    var s' := Next(h, s, l);
    forall i | 0 <= i < |s'.calls| ensures CallFits(s'.alerts, s'.calls[i]) {
      if i < |s.calls| {
        assert CallFits(s.alerts, s.calls[i]);
      }
    }
  }

  ghost function Begun(s: Sys, l: Label, id: Uuid): multiset<Move> {
    if l.BeginDecide? && l.d.alertId == id && id in s.alerts
    then multiset{Move(s.alerts[id].status, l.d.decision)}
    else multiset{}
  }

  ghost function MoveOf(c: Call, advice: AiRecommendation, id: Uuid): multiset<Move> {
    var event := EventOf(c, advice);
    if event.Some? && c.alert.alertId == id && event.value.StatusChanged?
    then multiset{Move(event.value.from, event.value.to)}
    else multiset{}
  }

  lemma LoggedAfterResume(h: Hasher, s: Sys, i: nat, stamp: Stamp, advice: AiRecommendation, id: Uuid)
    requires i < |s.calls|
    ensures Logged(Resume(h, s, i, stamp, advice), id) == Logged(s, id) + MoveOf(s.calls[i], advice, id)
  {
    var s' := Resume(h, s, i, stamp, advice);
    if EventOf(s.calls[i], advice).Some? {
      var record := s'.log[|s.log|];
      GatherSnoc(MoveRecorded(id), s.log, record);
    }
  }

  /** A resumed call logs what it owed, or goes on owing it. */
  lemma CallConserves(c: Call, advice: AiRecommendation, id: Uuid)
    ensures MoveOf(c, advice, id) + MoveOwed(id)(Then(c, advice)) == MoveOwed(id)(c)
  {
  }

  lemma AdvanceConserves(h: Hasher, s: Sys, i: nat, stamp: Stamp, advice: AiRecommendation, id: Uuid)
    requires i < |s.calls|
    ensures var s' := Resume(h, s, i, stamp, advice);
            Logged(s', id) + Pending(s', id) == Logged(s, id) + Pending(s, id)
  {
    var s' := Resume(h, s, i, stamp, advice);
    var done := MoveOf(s.calls[i], advice, id);
    LoggedAfterResume(h, s, i, stamp, advice, id);
    PendingAfterResume(h, s, i, stamp, advice, id);
    assert (Logged(s, id) + done) + Pending(s', id) == Logged(s, id) + (Pending(s', id) + done);
  }

  lemma PendingAfterResume(h: Hasher, s: Sys, i: nat, stamp: Stamp, advice: AiRecommendation, id: Uuid)
    requires i < |s.calls|
    ensures Pending(s, id) == Pending(Resume(h, s, i, stamp, advice), id) + MoveOf(s.calls[i], advice, id)
  {
    var c, c' := s.calls[i], Then(s.calls[i], advice);
    CallConserves(c, advice, id);
    GatherUpdate(MoveOwed(id), s.calls, i, c');
    SettleOwed(Pending(s, id), MoveOf(c, advice, id), MoveOwed(id)(c'), Pending(Resume(h, s, i, stamp, advice), id));
  }

  lemma BeginConserves(s: Sys, s': Sys, c: Call, id: Uuid)
    requires s'.calls == s.calls + [c] && s'.log == s.log
    ensures Logged(s', id) + Pending(s', id) == Logged(s, id) + Pending(s, id) + MoveOwed(id)(c)
  {
    GatherSnoc(MoveOwed(id), s.calls, c);
  }

  /** Conservation: a step moves status changes from pending to logged, and only a
      beginning decision adds one. */
  lemma MovesConserved(h: Hasher, s: Sys, l: Label, id: Uuid)
    requires Keyed(s.alerts) && Enabled(s, l)
    ensures var s' := Next(h, s, l);
            Logged(s', id) + Pending(s', id) == Logged(s, id) + Pending(s, id) + Begun(s, l, id)
  {
    if l.Advance? {
      AdvanceConserves(h, s, l.call, l.stamp, l.advice, id);
    } else {
      BeginConserves(s, Next(h, s, l), Started(s, l), id);
      StartedOwes(s, l, id);
    }
  }

  lemma StartedOwes(s: Sys, l: Label, id: Uuid)
    requires Keyed(s.alerts) && !l.Advance?
    ensures MoveOwed(id)(Started(s, l)) == Begun(s, l, id)
  {
  }

  lemma CancelRight<T>(a: multiset<T>, b: multiset<T>, c: multiset<T>)
    requires a + c == b + c
    ensures a == b
  {
    assert a == a + c - c;
    assert b == b + c - c;
  }

  lemma SettleOwed<T>(p: multiset<T>, done: multiset<T>, left: multiset<T>, p': multiset<T>)
    requires p' + (done + left) == p + left
    ensures p == p' + done
  {
    assert p' + (done + left) == (p' + done) + left;
    CancelRight(p' + done, p, left);
  }

  // ---------- The invariant over runs ----------

  lemma ChainExtends(moves: seq<Move>, m: Move)
    requires ChainsTo(moves, m.from)
    ensures ChainsTo(moves + [m], m.to)
    ensures multiset(moves + [m]) == multiset(moves) + multiset{m}
  {
    assert (moves + [m])[..|moves|] == moves;
  }

  lemma ExplainedBy(s: Sys, id: Uuid, moves: seq<Move>)
    requires id in s.alerts && ChainsTo(moves, s.alerts[id].status) && multiset(moves) == Logged(s, id) + Pending(s, id)
    ensures Explained(s, id)
  {
  }

  lemma StatusAfter(h: Hasher, s: Sys, l: Label, id: Uuid)
    requires Keyed(s.alerts) && Enabled(s, l)
    ensures var s' := Next(h, s, l);
            && (id in s.alerts ==> id in s'.alerts)
            && (id in s.alerts ==> s'.alerts[id].status == if l.BeginDecide? && l.d.alertId == id then l.d.decision else s.alerts[id].status)
            && (id !in s.alerts && id in s'.alerts ==> s'.alerts[id].status == Open)
  {
  }

  /** A decision adds the move from the status before it; nothing else changes status or moves. */
  lemma ExplainedStep(s: Sys, s': Sys, id: Uuid, m: Move)
    requires Explained(s, id) && id in s.alerts && id in s'.alerts && m == Move(s.alerts[id].status, s'.alerts[id].status)
    requires Logged(s', id) + Pending(s', id) == Logged(s, id) + Pending(s, id) + multiset{m}
    ensures Explained(s', id)
  {
    var moves :| ChainsTo(moves, s.alerts[id].status) && multiset(moves) == Logged(s, id) + Pending(s, id);
    ChainExtends(moves, m);
    ExplainedBy(s', id, moves + [m]);
  }

  lemma ExplainedStill(s: Sys, s': Sys, id: Uuid)
    requires Explained(s, id) && Logged(s', id) + Pending(s', id) == Logged(s, id) + Pending(s, id)
    requires if id in s.alerts then id in s'.alerts && s'.alerts[id].status == s.alerts[id].status
             else id in s'.alerts ==> s'.alerts[id].status == Open
    ensures Explained(s', id)
  {
    if id in s.alerts {
      var moves :| ChainsTo(moves, s.alerts[id].status) && multiset(moves) == Logged(s, id) + Pending(s, id);
      ExplainedBy(s', id, moves);
    } else if id in s'.alerts {
      ExplainedBy(s', id, []);
    }
  }

  lemma ExplainedKept(h: Hasher, s: Sys, l: Label, id: Uuid)
    requires Keyed(s.alerts) && Enabled(s, l) && Explained(s, id)
    ensures Explained(Next(h, s, l), id)
  {
    MovesConserved(h, s, l, id);
    StatusAfter(h, s, l, id);
    if l.BeginDecide? && l.d.alertId == id && id in s.alerts {
      ExplainedStep(s, Next(h, s, l), id, Move(s.alerts[id].status, l.d.decision));
    } else {
      ExplainedStill(s, Next(h, s, l), id);
    }
  }

  lemma ConfirmationKept(h: Hasher, s: Sys, l: Label, id: Uuid)
    requires Enabled(s, l) && ConfirmationLogged(s, id)
    ensures ConfirmationLogged(Next(h, s, l), id)
  {
    if l.Advance? {
      LoggedAfterResume(h, s, l.call, l.stamp, l.advice, id);
      IntoGrows(Logged(s, id), MoveOf(s.calls[l.call], l.advice, id), ConfirmedSuspicious);
    }
  }

  /** A confirmation enters the log only together with a call that goes on to flag. */
  lemma NewConfirmationFlags(h: Hasher, s: Sys, l: Label, id: Uuid)
    requires Enabled(s, l) && forall i :: 0 <= i < |s.calls| ==> CallFits(s.alerts, s.calls[i])
    requires ConfirmationLogged(Next(h, s, l), id) && !ConfirmationLogged(s, id)
    ensures FlagOwed(Next(h, s, l), id)
  {
    var s' := Next(h, s, l);
    assert l.Advance?;
    var c := s.calls[l.call];
    LoggedAfterResume(h, s, l.call, l.stamp, l.advice, id);
    IntoGrows(Logged(s, id), MoveOf(c, l.advice, id), ConfirmedSuspicious);
    assert CallFits(s.alerts, c);
    assert c.DecisionLogged? && c.alert.alertId == id;
    assert s'.calls[l.call] == Flagging(c.alert);
  }

  lemma FlagOwedKept(h: Hasher, s: Sys, l: Label, id: Uuid, x: Account)
    requires Enabled(s, l) && FlagOwed(s, id) && (forall i :: 0 <= i < |s.calls| ==> CallFits(s.alerts, s.calls[i]))
    requires id in s.alerts && x in Parties(s.alerts[id].tx)
    ensures x in Next(h, s, l).flagged || FlagOwed(Next(h, s, l), id)
  {
    var s' := Next(h, s, l);
    var i :| 0 <= i < |s.calls| && s.calls[i].Flagging? && s.calls[i].alert.alertId == id;
    assert CallFits(s.alerts, s.calls[i]);
    if !(l.Advance? && l.call == i) {
      assert s'.calls[i] == s.calls[i];
    }
  }

  lemma FlagsKept(h: Hasher, s: Sys, l: Label)
    requires Consistent(h, s) && Enabled(s, l)
    ensures FlagsBacked(Next(h, s, l))
  {
    var s' := Next(h, s, l);
    forall x | x in s'.flagged ensures exists id :: FlagDue(s', id, x) {
      FlaggedIsDue(h, s, l, x);
    }
    forall id, x | FlagDue(s', id, x) ensures x in s'.flagged || FlagOwed(s', id) {
      FlagDueKept(h, s, l, id, x);
    }
    forall id | FlagOwed(s', id) ensures ConfirmationLogged(s', id) {
      OwedFlagLogged(h, s, l, id);
    }
  }

  lemma FlaggedIsDue(h: Hasher, s: Sys, l: Label, x: Account)
    requires Consistent(h, s) && Enabled(s, l) && x in Next(h, s, l).flagged
    ensures exists id :: FlagDue(Next(h, s, l), id, x)
  {
    var s' := Next(h, s, l);
    if x in s.flagged {
      var id :| FlagDue(s, id, x);
      ConfirmationKept(h, s, l, id);
      assert FlagDue(s', id, x);
    } else {
      var c := s.calls[l.call];
      assert CallFits(s.alerts, c) && FlagOwed(s, c.alert.alertId);
      ConfirmationKept(h, s, l, c.alert.alertId);
      assert FlagDue(s', c.alert.alertId, x);
    }
  }

  lemma FlagDueKept(h: Hasher, s: Sys, l: Label, id: Uuid, x: Account)
    requires Consistent(h, s) && Enabled(s, l) && FlagDue(Next(h, s, l), id, x)
    ensures x in Next(h, s, l).flagged || FlagOwed(Next(h, s, l), id)
  {
    if !ConfirmationLogged(s, id) {
      NewConfirmationFlags(h, s, l, id);
    } else {
      assert Explained(s, id);
      NoMovesNoConfirmation(s, id);
      assert FlagDue(s, id, x);
      if x !in s.flagged {
        FlagOwedKept(h, s, l, id, x);
      }
    }
  }

  lemma NoMovesNoConfirmation(s: Sys, id: Uuid)
    requires Explained(s, id) && ConfirmationLogged(s, id)
    ensures id in s.alerts
  {
    if id !in s.alerts {
      IntoGrows(Logged(s, id), Pending(s, id), ConfirmedSuspicious);
    }
  }

  lemma OwedFlagLogged(h: Hasher, s: Sys, l: Label, id: Uuid)
    requires Consistent(h, s) && Enabled(s, l) && FlagOwed(Next(h, s, l), id)
    ensures ConfirmationLogged(Next(h, s, l), id)
  {
    var s' := Next(h, s, l);
    var i :| 0 <= i < |s'.calls| && s'.calls[i].Flagging? && s'.calls[i].alert.alertId == id;
    if i < |s.calls| && s.calls[i].Flagging? {
      assert s.calls[i] == s'.calls[i];
      assert FlagOwed(s, id);
      ConfirmationKept(h, s, l, id);
    } else {
      assert l.Advance? && l.call == i && s.calls[i].DecisionLogged?;
      assert CallFits(s.alerts, s.calls[i]);
      LoggedAfterResume(h, s, i, l.stamp, l.advice, id);
      IntoGrows(Logged(s, id), MoveOf(s.calls[i], l.advice, id), ConfirmedSuspicious);
      IntoOne(Move(s.calls[i].from, ConfirmedSuspicious), ConfirmedSuspicious);
    }
  }

  /** Every step, of any call, keeps the invariant and only extends the log. */
  lemma StepKeepsConsistent(h: Hasher, s: Sys, l: Label)
    requires Consistent(h, s) && Enabled(s, l)
    ensures Consistent(h, Next(h, s, l)) && s.log <= Next(h, s, l).log
  {
    ChainKept(h, s, l);
    CallsFitKept(h, s, l);
    forall id ensures Explained(Next(h, s, l), id) {
      ExplainedKept(h, s, l, id);
    }
    FlagsKept(h, s, l);
  }

  lemma {:induction false} RunKeepsConsistent(h: Hasher, s: Sys, labels: seq<Label>)
    requires Consistent(h, s) && EnabledRun(h, s, labels)
    ensures Consistent(h, Exec(h, s, labels)) && s.log <= Exec(h, s, labels).log
    decreases |labels|
  {
    if labels != [] {
      StepKeepsConsistent(h, s, labels[0]);
      RunKeepsConsistent(h, Next(h, s, labels[0]), labels[1..]);
    }
  }

  lemma StartConsistent(h: Hasher)
    ensures Consistent(h, START)
  {
    forall id ensures Logged(START, id) == multiset{} && Explained(START, id) {
    }
    forall id, x ensures !FlagDue(START, id, x) && !FlagOwed(START, id) {
    }
  }
}
