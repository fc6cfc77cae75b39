/** The advisory layer cannot influence triage at lock granularity either (docs/ai-boundary.md and
    crates/api/src/handlers.rs:182-237): an interleaving with its advisory calls erased goes the same way. */
module InterleavedAdvice {
  import opened Common
  import opened Audit
  import opened Advisor
  import opened Interleaving
  import opened InterleavingTheorems
  import opened NonInterference

  predicate Advisory(c: Call) {
    c.Asking? || c.Waiting? || c.Storing?
  }

  /** Some advice, where none is looked at. */
  const BLANK := Fallback(0, [], 0)

  /** The number of other calls before call `i`; `ai` tells which calls began as advisory ones. */
  function Rank(ai: seq<bool>, i: nat): nat
    requires i <= |ai|
  {
    if i == 0 then 0 else Rank(ai, i - 1) + if ai[i - 1] then 0 else 1
  }

  /** The other calls among the first `n`. */
  function Kept(calls: seq<Call>, ai: seq<bool>, n: nat): seq<Call>
    requires n <= |calls| && n <= |ai|
  {
    if n == 0 then [] else Kept(calls, ai, n - 1) + if ai[n - 1] then [] else [calls[n - 1]]
  }

  /** What is left of one step: nothing if it is an advisory call's, else the same step, renumbered. */
  function ErasedStep(l: Label, ai: seq<bool>): seq<Label> {
    match l
    case BeginInvestigate(_) => []
    case Advance(i, stamp, _) => if i < |ai| && !ai[i] then [Advance(Rank(ai, i), stamp, BLANK)] else []
    case _ => [l]
  }

  function Begun(l: Label): seq<bool> {
    if l.Advance? then [] else [l.BeginInvestigate?]
  }

  /** The steps without those of advisory calls, and without the advice they got. */
  function Erased(labels: seq<Label>, ai: seq<bool>): seq<Label> {
    if labels == [] then [] else ErasedStep(labels[0], ai) + Erased(labels[1..], ai + Begun(labels[0]))
  }

  /** Apart from advisory calls, advisory records, hashes and recommendations the two are the same. */
  ghost predicate Mirror(s: Sys, s': Sys, ai: seq<bool>) {
    && |ai| == |s.calls|
    && s.alerts == s'.alerts && s.flagged == s'.flagged && Scrubbed(s.log) == Scrubbed(s'.log)
    && Kept(s.calls, ai, |ai|) == s'.calls
    && forall i :: 0 <= i < |ai| ==> if ai[i] then Advisory(s.calls[i]) || s.calls[i].Finished? else !Advisory(s.calls[i])
  }

  lemma {:induction false} KeptAt(calls: seq<Call>, ai: seq<bool>, n: nat, i: nat)
    requires i < n <= |calls| && n <= |ai| && !ai[i]
    ensures Rank(ai, i) < |Kept(calls, ai, n)| && Kept(calls, ai, n)[Rank(ai, i)] == calls[i]
  {
    KeptCount(calls, ai, n - 1);
    if i < n - 1 {
      KeptAt(calls, ai, n - 1, i);
    }
  }

  lemma {:induction false} KeptCount(calls: seq<Call>, ai: seq<bool>, n: nat)
    requires n <= |calls| && n <= |ai|
    ensures |Kept(calls, ai, n)| == Rank(ai, n)
  {
    if n > 0 {
      KeptCount(calls, ai, n - 1);
    }
  }

  lemma {:induction false} KeptSame(calls: seq<Call>, calls': seq<Call>, ai: seq<bool>, ai': seq<bool>, n: nat)
    requires n <= |calls| && n <= |calls'| && n <= |ai| && n <= |ai'|
    requires forall k :: 0 <= k < n ==> ai[k] == ai'[k] && (!ai[k] ==> calls[k] == calls'[k])
    ensures Kept(calls, ai, n) == Kept(calls', ai', n)
  {
    if n > 0 {
      KeptSame(calls, calls', ai, ai', n - 1);
    }
  }

  lemma UpdateFront(a: seq<Call>, b: seq<Call>, i: nat, c: Call)
    requires i < |a|
    ensures (a + b)[i := c] == a[i := c] + b
  {
  }

  lemma {:induction false} KeptUpdate(calls: seq<Call>, ai: seq<bool>, n: nat, i: nat, c: Call)
    requires i < n <= |calls| && n <= |ai| && !ai[i]
    ensures Rank(ai, i) < |Kept(calls, ai, n)|
    ensures Kept(calls[i := c], ai, n) == Kept(calls, ai, n)[Rank(ai, i) := c]
  {
    KeptAt(calls, ai, n, i);
    KeptCount(calls, ai, n - 1);
    if i < n - 1 {
      KeptUpdate(calls, ai, n - 1, i, c);
      UpdateFront(Kept(calls, ai, n - 1), if ai[n - 1] then [] else [calls[n - 1]], Rank(ai, i), c);
    } else {
      KeptSame(calls, calls[i := c], ai, ai, n - 1);
    }
  }

  lemma KeptSnoc(calls: seq<Call>, ai: seq<bool>, c: Call, advisory: bool)
    requires |ai| == |calls|
    ensures Kept(calls + [c], ai + [advisory], |ai| + 1) == Kept(calls, ai, |ai|) + if advisory then [] else [c]
  {
    KeptSame(calls, calls + [c], ai, ai + [advisory], |ai|);
  }

  /** A step of an advisory call. */
  lemma AdvisoryStep(h: Hasher, s: Sys, s': Sys, ai: seq<bool>, i: nat, stamp: Stamp, advice: AiRecommendation)
    requires Mirror(s, s', ai) && i < |ai| && ai[i]
    ensures Mirror(Resume(h, s, i, stamp, advice), s', ai)
  {
    var c := s.calls[i];
    var event := EventOf(c, advice);
    assert Advisory(c) || c.Finished?;
    KeptSame(s.calls, Resume(h, s, i, stamp, advice).calls, ai, ai, |ai|);
    if event.Some? {
      ScrubbedAppended(h, s.log, c.alert.alertId, c.alert.tx.txHash, event.value, stamp);
      assert Scrubbed(s.log) + [] == Scrubbed(s.log);
    }
  }

  lemma AdviceUnread(c: Call, one: AiRecommendation, other: AiRecommendation)
    requires !Advisory(c)
    ensures EventOf(c, one) == EventOf(c, other) && Then(c, one) == Then(c, other) && !Advisory(Then(c, one))
  {
  }

  /** A step of any other call, which is call `Rank(ai, i)` among those. */
  lemma OtherStep(h: Hasher, s: Sys, s': Sys, ai: seq<bool>, i: nat, stamp: Stamp, advice: AiRecommendation)
    requires Mirror(s, s', ai) && i < |ai| && !ai[i]
    ensures Rank(ai, i) < |s'.calls| && s'.calls[Rank(ai, i)] == s.calls[i]
    ensures Mirror(Resume(h, s, i, stamp, advice), Resume(h, s', Rank(ai, i), stamp, BLANK), ai)
  {
    var c := s.calls[i];
    KeptAt(s.calls, ai, |ai|, i);
    AdviceUnread(c, advice, BLANK);
    KeptUpdate(s.calls, ai, |ai|, i, Then(c, advice));
    var event := EventOf(c, advice);
    if event.Some? {
      ScrubbedAppended(h, s.log, c.alert.alertId, c.alert.tx.txHash, event.value, stamp);
      ScrubbedAppended(h, s'.log, c.alert.alertId, c.alert.tx.txHash, event.value, stamp);
    }
  }

  lemma BeginStep(h: Hasher, s: Sys, s': Sys, ai: seq<bool>, l: Label)
    requires Mirror(s, s', ai) && Enabled(s, l) && !l.Advance?
    ensures l.BeginInvestigate? ==> Mirror(Next(h, s, l), s', ai + [true])
    ensures !l.BeginInvestigate? ==> Enabled(s', l) && Mirror(Next(h, s, l), Next(h, s', l), ai + [false])
  {
    var c := Started(s, l);
    KeptSnoc(s.calls, ai, c, l.BeginInvestigate?);
    var ai' := ai + [l.BeginInvestigate?];
    forall i | 0 <= i < |ai'|
      ensures if ai'[i] then Advisory((s.calls + [c])[i]) || (s.calls + [c])[i].Finished? else !Advisory((s.calls + [c])[i])
    {
      if i < |ai| {
        assert ai'[i] == ai[i] && (s.calls + [c])[i] == s.calls[i];
      }
    }
  }

  /** One step, and what is left of it. */
  lemma StepMirrors(h: Hasher, s: Sys, s': Sys, ai: seq<bool>, l: Label)
    requires Mirror(s, s', ai) && Enabled(s, l)
    ensures EnabledRun(h, s', ErasedStep(l, ai))
    ensures Mirror(Next(h, s, l), Exec(h, s', ErasedStep(l, ai)), ai + Begun(l))
  {
    assert ai + [] == ai;
    if l.Advance? {
      if ai[l.call] {
        AdvisoryStep(h, s, s', ai, l.call, l.stamp, l.advice);
      } else {
        OtherStep(h, s, s', ai, l.call, l.stamp, l.advice);
        ExecOne(h, s', Advance(Rank(ai, l.call), l.stamp, BLANK));
      }
    } else {
      BeginStep(h, s, s', ai, l);
      if !l.BeginInvestigate? {
        ExecOne(h, s', l);
      }
    }
  }

  /** Two runs that end alike but for advisory calls. */
  ghost predicate EndAlike(s: Sys, s': Sys) {
    s.alerts == s'.alerts && s.flagged == s'.flagged && Scrubbed(s.log) == Scrubbed(s'.log)
  }

  lemma {:induction false} RunMirrors(h: Hasher, s: Sys, s': Sys, ai: seq<bool>, labels: seq<Label>)
    requires Mirror(s, s', ai) && EnabledRun(h, s, labels)
    ensures EnabledRun(h, s', Erased(labels, ai))
    ensures EndAlike(Exec(h, s, labels), Exec(h, s', Erased(labels, ai)))
    decreases |labels|
  {
    if labels != [] {
      var step := ErasedStep(labels[0], ai);
      StepMirrors(h, s, s', ai, labels[0]);
      RunMirrors(h, Next(h, s, labels[0]), Exec(h, s', step), ai + Begun(labels[0]), labels[1..]);
      ExecConcat(h, s', step, Erased(labels[1..], ai + Begun(labels[0])));
    }
  }

  /** An interleaving with its advisory calls erased can still happen, and leaves the same alerts, flags, and
      log but for advisory records and hashes. */
  lemma AdvisoryCallsErasable(h: Hasher, labels: seq<Label>)
    requires EnabledRun(h, START, labels)
    ensures EnabledRun(h, START, Erased(labels, []))
    ensures EndAlike(Exec(h, START, labels), Exec(h, START, Erased(labels, [])))
  {
    RunMirrors(h, START, START, [], labels);
  }

  /** So two interleavings that differ only in the advice, or in advisory calls and where their steps fall,
      end alike. */
  lemma AdviceDoesNotInterfereInterleaved(h: Hasher, a: seq<Label>, b: seq<Label>)
    requires EnabledRun(h, START, a) && EnabledRun(h, START, b) && Erased(a, []) == Erased(b, [])
    ensures EndAlike(Exec(h, START, a), Exec(h, START, b))
  {
    AdvisoryCallsErasable(h, a);
    AdvisoryCallsErasable(h, b);
  }

  // ---------- Stored advice is on record ----------

  /** An answer about the alert is in the log, with the confidence and availability of `rec`. */
  predicate Answered(log: seq<AuditRecord>, id: Uuid, rec: AiRecommendation) {
    exists k :: 0 <= k < |log| && log[k].content.alertId == id
      && log[k].content.event == AiRecommendationReceived(rec.confidence, rec.modelAvailable)
  }

  predicate StoreOwed(calls: seq<Call>, id: Uuid) {
    exists i :: 0 <= i < |calls| && calls[i].Storing? && calls[i].alertId == id
  }

  predicate AnswersAt(record: AuditRecord, id: Uuid) {
    record.content.alertId == id && record.content.event.AiRecommendationReceived?
  }

  /** Advice is stored only after it was recorded, and what was recorded is stored or about to be. */
  ghost predicate AdviceBacked(s: Sys) {
    && (forall id :: id in s.recommendations ==> Answered(s.log, id, s.recommendations[id]))
    && (forall i :: 0 <= i < |s.calls| && s.calls[i].Storing? ==> Answered(s.log, s.calls[i].alertId, s.calls[i].rec))
    && (forall k, id :: 0 <= k < |s.log| && AnswersAt(s.log[k], id) ==> id in s.recommendations || StoreOwed(s.calls, id))
  }

  lemma AnsweredStays(log: seq<AuditRecord>, longer: seq<AuditRecord>, id: Uuid, rec: AiRecommendation)
    requires log <= longer && Answered(log, id, rec)
    ensures Answered(longer, id, rec)
  {
    var k :| 0 <= k < |log| && log[k].content.alertId == id
      && log[k].content.event == AiRecommendationReceived(rec.confidence, rec.modelAvailable);
    assert longer[k] == log[k];
  }

  lemma ResumeStores(h: Hasher, s: Sys, i: nat, stamp: Stamp, advice: AiRecommendation, id: Uuid)
    requires i < |s.calls|
    ensures var s' := Resume(h, s, i, stamp, advice);
            StoreOwed(s.calls, id) || id in s.recommendations ==> StoreOwed(s'.calls, id) || id in s'.recommendations
  {
    var s' := Resume(h, s, i, stamp, advice);
    if k :| 0 <= k < |s.calls| && s.calls[k].Storing? && s.calls[k].alertId == id {
      assert k != i ==> s'.calls[k] == s.calls[k];
    }
  }

  lemma ResumeBacked(h: Hasher, s: Sys, i: nat, stamp: Stamp, advice: AiRecommendation)
    requires AdviceBacked(s) && i < |s.calls|
    ensures AdviceBacked(Resume(h, s, i, stamp, advice))
  {
    var s' := Resume(h, s, i, stamp, advice);
    var c := s.calls[i];
    assert s.log <= s'.log;
    forall id | id in s'.recommendations ensures Answered(s'.log, id, s'.recommendations[id]) {
      if id in s.recommendations && s'.recommendations[id] == s.recommendations[id] {
        AnsweredStays(s.log, s'.log, id, s.recommendations[id]);
      } else {
        AnsweredStays(s.log, s'.log, c.alertId, c.rec);
      }
    }
    forall j | 0 <= j < |s'.calls| && s'.calls[j].Storing? ensures Answered(s'.log, s'.calls[j].alertId, s'.calls[j].rec) {
      if j == i {
        assert c.Waiting? && s'.log[|s.log|].content.event == AiRecommendationReceived(advice.confidence, advice.modelAvailable);
      } else {
        AnsweredStays(s.log, s'.log, s.calls[j].alertId, s.calls[j].rec);
      }
    }
    forall k, id | 0 <= k < |s'.log| && AnswersAt(s'.log[k], id) ensures id in s'.recommendations || StoreOwed(s'.calls, id) {
      ResumeStores(h, s, i, stamp, advice, id);
      if k < |s.log| {
        assert AnswersAt(s.log[k], id);
      } else {
        assert s'.calls[i].Storing? && s'.calls[i].alertId == id;
      }
    }
  }

  lemma StepBacked(h: Hasher, s: Sys, l: Label)
    requires AdviceBacked(s) && Enabled(s, l)
    ensures AdviceBacked(Next(h, s, l))
  {
    if l.Advance? {
      ResumeBacked(h, s, l.call, l.stamp, l.advice);
    } else {
      var s' := Next(h, s, l);
      forall k, id | 0 <= k < |s'.log| && AnswersAt(s'.log[k], id) ensures id in s'.recommendations || StoreOwed(s'.calls, id) {
        if i :| 0 <= i < |s.calls| && s.calls[i].Storing? && s.calls[i].alertId == id {
          assert s'.calls[i] == s.calls[i];
        }
      }
    }
  }

  lemma {:induction false} RunBacked(h: Hasher, s: Sys, labels: seq<Label>)
    requires AdviceBacked(s) && EnabledRun(h, s, labels)
    ensures AdviceBacked(Exec(h, s, labels))
    decreases |labels|
  {
    if labels != [] {
      StepBacked(h, s, labels[0]);
      RunBacked(h, Next(h, s, labels[0]), labels[1..]);
    }
  }

  /** In every interleaving the advice stored on an alert is advice on record for it; once no call is in flight,
      there is advice on exactly the alerts for which some is on record. */
  lemma StoredAdviceOnRecord(h: Hasher, labels: seq<Label>, id: Uuid)
    requires EnabledRun(h, START, labels)
    ensures var s := Exec(h, START, labels);
            && (id in s.recommendations ==> Answered(s.log, id, s.recommendations[id]))
            && (Quiescent(s) ==> (id in s.recommendations <==> exists k :: 0 <= k < |s.log| && AnswersAt(s.log[k], id)))
  {
    RunBacked(h, START, labels);
    var s := Exec(h, START, labels);
    if id in s.recommendations {
      var k :| 0 <= k < |s.log| && s.log[k].content.alertId == id
        && s.log[k].content.event == AiRecommendationReceived(s.recommendations[id].confidence, s.recommendations[id].modelAvailable);
      assert AnswersAt(s.log[k], id);
    }
  }
}
