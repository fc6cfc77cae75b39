/** The advisory layer: what is stored of a model's answer (crates/ai_advisor/src/lib.rs,
    crates/ai_advisor/src/sanitize.rs:16-39, 81-113). */
module Advisor {
  import opened Common
  import opened Sanitizer
  import opened Folding

  const MAX_FIELD_LENGTH: nat := 4000
  const MAX_LIST_ITEMS: nat := 20

  const REPLACEMENT: Replacement :=
    "[neutralized:" + " non-actionable" + " AI text removed]"

  /** Several words, the first of three to seven letters. */
  predicate SeveralWords(m: string) {
    |m| > 7 && (m[3] == ' ' || m[4] == ' ' || m[5] == ' ' || m[6] == ' ' || m[7] == ' ')
  }

  type Phrase = m: Marker | SeveralWords(m)
    witness "set status"

  const APPROVE: Phrase := "approve this transaction"
  const REJECT: Phrase := "reject this transaction"
  const FREEZE_THE: Phrase := "freeze the account"
  const FREEZE_THIS: Phrase := "freeze this account"
  const REVERSE: Phrase := "reverse this transaction"
  const BLOCK: Phrase := "block this transaction"
  const SET_STATUS: Phrase := "set status to"
  const FALSE_POSITIVE: Phrase := "mark as false positive"
  const IGNORE_PREVIOUS: Phrase := "ignore previous instructions"
  const IGNORE_PRIOR: Phrase := "ignore prior instructions"
  const DISMISS: Phrase := "dismiss and close"
  const AUTOMATICALLY: Marker := "automatically"

  const PHRASES: seq<Phrase> := [
    APPROVE, REJECT, FREEZE_THE, FREEZE_THIS, REVERSE, BLOCK,
    SET_STATUS, FALSE_POSITIVE, IGNORE_PREVIOUS, IGNORE_PRIOR, DISMISS
  ]

  const MARKERS: seq<Marker> := PHRASES + [AUTOMATICALLY]

  /** The markers to look for and the text to put in their place. What follows holds under every
      policy; the one that ships is `SHIPPED_POLICY`. */
  datatype Policy = Policy(markers: seq<Marker>, replacement: Replacement)

  const SHIPPED_POLICY: Policy := Policy(MARKERS, REPLACEMENT)

  const ADVISORY_LABEL: string :=
    "ADVISORY ONLY \U{2014} generated by AI, not a decision. A human investigator must decide."

  datatype AiRecommendation = AiRecommendation(
    alertId: Uuid,
    advisoryLabel: string,
    summary: string,
    suspiciousSignals: seq<string>,
    relevantHistoryContext: string,
    riskAssessment: string,
    recommendedNextSteps: seq<string>,
    confidence: Float,
    explanation: string,
    generatedAt: Time,
    modelAvailable: bool
  )

  function Take<T>(s: seq<T>, n: nat): seq<T> {
    if |s| > n then s[..n] else s
  }

  /** A field as it comes out, `None` if a pass panics. */
  function FieldOutcome(lower: LowerCase, policy: Policy, input: string): Option<string> {
    var neutralized := Neutralize(lower, Stripped(input, |input|), policy.markers, policy.replacement);
    if neutralized.None? then None else Some(Take(neutralized.value, MAX_FIELD_LENGTH))
  }

  method ComputeCleanField(lower: LowerCase, policy: Policy, input: string) returns (cleaned: Option<string>)
    ensures cleaned == FieldOutcome(lower, policy, input)
  {
    var stripped, _ := StripMarkup(input);
    cleaned := NeutralizeActionLanguage(lower, stripped, policy.markers, policy.replacement);
    if cleaned.Some? {
      cleaned := Some(Take(cleaned.value, MAX_FIELD_LENGTH));
    }
  }

  function EachOutcome(lower: LowerCase, policy: Policy, texts: seq<string>): (cleaned: Option<seq<string>>)
    ensures cleaned.Some? <==> forall i :: 0 <= i < |texts| ==> FieldOutcome(lower, policy, texts[i]).Some?
    ensures cleaned.Some? ==> |cleaned.value| == |texts|
    ensures cleaned.Some? ==> forall i :: 0 <= i < |texts| ==> FieldOutcome(lower, policy, texts[i]) == Some(cleaned.value[i])
  {
    if texts == [] then Some([])
    else
      var front, last := EachOutcome(lower, policy, texts[..|texts| - 1]), FieldOutcome(lower, policy, texts[|texts| - 1]);
      if front.Some? && last.Some? then Some(front.value + [last.value]) else None
  }

  function ListOutcome(lower: LowerCase, policy: Policy, texts: seq<string>): Option<seq<string>> {
    EachOutcome(lower, policy, Take(texts, MAX_LIST_ITEMS))
  }

  function ClampConfidence(c: Float): Float {
    if !c.Finite? || c.value < 0.0 then Finite(0.0)
    else if c.value > 1.0 then Finite(1.0)
    else c
  }

  /** The recommendation as it comes out, `None` if sanitizing any text panics. */
  function SanitizeOutcome(lower: LowerCase, policy: Policy, rec: AiRecommendation): Option<AiRecommendation> {
    var summary := FieldOutcome(lower, policy, rec.summary);
    var context := FieldOutcome(lower, policy, rec.relevantHistoryContext);
    var risk := FieldOutcome(lower, policy, rec.riskAssessment);
    var explanation := FieldOutcome(lower, policy, rec.explanation);
    var signals := ListOutcome(lower, policy, rec.suspiciousSignals);
    var steps := ListOutcome(lower, policy, rec.recommendedNextSteps);
    if summary.None? || context.None? || risk.None? || explanation.None? || signals.None? || steps.None? then None
    else Some(rec.(
      advisoryLabel := ADVISORY_LABEL,
      summary := summary.value,
      relevantHistoryContext := context.value,
      riskAssessment := risk.value,
      explanation := explanation.value,
      suspiciousSignals := signals.value,
      recommendedNextSteps := steps.value,
      confidence := ClampConfidence(rec.confidence)))
  }

  function Distance(x: real, y: real): real {
    if x >= y then x - y else y - x
  }

  /** A finite confidence becomes the nearest one between 0 and 1, any other none at all. */
  lemma ClampIsNearest(c: Float, other: real)
    requires 0.0 <= other <= 1.0
    ensures ClampConfidence(c).Finite? && 0.0 <= ClampConfidence(c).value <= 1.0
    ensures c.Finite? ==> Distance(c.value, ClampConfidence(c).value) <= Distance(c.value, other)
    ensures !c.Finite? ==> ClampConfidence(c).value == 0.0
  {
  }

  // ---------- What it is meant to do ----------

  function CleanField(policy: Policy, input: string): string {
    Take(Neutralized(Stripped(input, |input|), policy.markers, policy.replacement), MAX_FIELD_LENGTH)
  }

  function CleanList(policy: Policy, texts: seq<string>): (cleaned: seq<string>)
    ensures |cleaned| == |Take(texts, MAX_LIST_ITEMS)|
    ensures forall i :: 0 <= i < |cleaned| ==> cleaned[i] == CleanField(policy, texts[i])
  {
    seq(|Take(texts, MAX_LIST_ITEMS)|, i requires 0 <= i < |Take(texts, MAX_LIST_ITEMS)| => CleanField(policy, texts[i]))
  }

  function Sanitized(policy: Policy, rec: AiRecommendation): AiRecommendation {
    rec.(
    advisoryLabel := ADVISORY_LABEL,
    summary := CleanField(policy, rec.summary),
    relevantHistoryContext := CleanField(policy, rec.relevantHistoryContext),
    riskAssessment := CleanField(policy, rec.riskAssessment),
    explanation := CleanField(policy, rec.explanation),
    suspiciousSignals := CleanList(policy, rec.suspiciousSignals),
    recommendedNextSteps := CleanList(policy, rec.recommendedNextSteps),
    confidence := ClampConfidence(rec.confidence))
  }

  /** Every character of these texts keeps its width in lower case. */
  predicate SteadyTexts(lower: LowerCase, texts: seq<string>) {
    forall i :: 0 <= i < |texts| ==> Steady(lower, texts[i])
  }

  predicate SteadyRecommendation(lower: LowerCase, rec: AiRecommendation) {
    && Steady(lower, rec.summary) && Steady(lower, rec.relevantHistoryContext)
    && Steady(lower, rec.riskAssessment) && Steady(lower, rec.explanation)
    && SteadyTexts(lower, rec.suspiciousSignals) && SteadyTexts(lower, rec.recommendedNextSteps)
  }

  // ---------- What the sanitizer promises ----------

  ghost predicate CleanText(policy: Policy, text: string) {
    && |text| <= 4000
    && BracketFree(text)
    && forall m :: m in policy.markers ==> !Occurs(text, m)
  }

  ghost predicate CleanTexts(policy: Policy, texts: seq<string>) {
    |texts| <= 20 && forall i :: 0 <= i < |texts| ==> CleanText(policy, texts[i])
  }

  ghost predicate Presentable(policy: Policy, rec: AiRecommendation) {
    && rec.advisoryLabel == ADVISORY_LABEL
    && CleanText(policy, rec.summary) && CleanText(policy, rec.relevantHistoryContext)
    && CleanText(policy, rec.riskAssessment) && CleanText(policy, rec.explanation)
    && CleanTexts(policy, rec.suspiciousSignals) && CleanTexts(policy, rec.recommendedNextSteps)
    && rec.confidence.Finite? && 0.0 <= rec.confidence.value <= 1.0
  }

  lemma TakeKeepsClean(text: string, n: nat, m: Marker)
    requires Occurs(Take(text, n), m)
    ensures Occurs(text, m)
  {
    if |text| > n {
      var p: nat :| OccursAt(text[..n], m, p);
      OccursInPart("", text[..n], text[n..], m, p);
      assert "" + text[..n] + text[n..] == text;
    }
  }

  /** The intended text has no marker, no angle bracket and no excess length, whatever the input. */
  lemma IntendedIsClean(policy: Policy, input: string)
    ensures CleanText(policy, CleanField(policy, input))
  {
    var stripped := Stripped(input, |input|);
    var neutralized := Neutralized(stripped, policy.markers, policy.replacement);
    StrippedBracketFree(input, |input|);
    NeutralizedKeepsBracketFree(stripped, policy.markers, policy.replacement);
    forall m | m in policy.markers ensures !Occurs(CleanField(policy, input), m) {
      if Occurs(CleanField(policy, input), m) {
        TakeKeepsClean(neutralized, MAX_FIELD_LENGTH, m);
        NeutralizedHasNone(stripped, policy.markers, policy.replacement, m);
      }
    }
  }

  lemma {:induction false} StrippedSteady(lower: LowerCase, s: string, n: nat)
    requires n <= |s| && Steady(lower, s)
    ensures Steady(lower, Stripped(s, n))
  {
    if n > 0 {
      StrippedSteady(lower, s, n - 1);
    }
  }

  /** If every character of the input keeps its width in lower case, the field comes out as intended: no
      marker in any letter case, even after truncation, no angle bracket and no excess length. */
  lemma CleanFieldIsClean(lower: LowerCase, policy: Policy, input: string)
    requires LowerCasing(lower) && Steady(lower, input)
    ensures FieldOutcome(lower, policy, input) == Some(CleanField(policy, input))
    ensures CleanText(policy, CleanField(policy, input)) && Steady(lower, CleanField(policy, input))
    ensures forall m :: m in policy.markers ==> !Contains(Folded(lower, CleanField(policy, input)), m)
  {
    StrippedSteady(lower, input, |input|);
    SteadyNeutralize(lower, Stripped(input, |input|), policy.markers, policy.replacement);
    IntendedIsClean(policy, input);
    forall m | m in policy.markers ensures !Contains(Folded(lower, CleanField(policy, input)), m) {
      SteadyContains(lower, CleanField(policy, input), m);
    }
  }

  /** Text of any characters, without brackets, whose lower case has no marker is only ever cut to length. */
  lemma InnocentTextOnlyCut(lower: LowerCase, policy: Policy, input: string)
    requires BracketFree(input) && forall m :: m in policy.markers ==> !Contains(Folded(lower, input), m)
    ensures FieldOutcome(lower, policy, input) == Some(Take(input, 4000))
  {
    StrippedIdentity(input, |input|);
    assert input[..|input|] == input;
    QuietTextUntouched(lower, input, policy.markers, policy.replacement);
  }

  lemma IntendedFixesCleanText(policy: Policy, input: string)
    ensures CleanField(policy, input) == input <==> CleanText(policy, input)
  {
    IntendedIsClean(policy, input);
    if CleanText(policy, input) {
      StrippedIdentity(input, |input|);
      assert input[..|input|] == input;
      MarkerFreeUnchanged(input, policy.markers, policy.replacement);
    }
  }

  /** Cleaning leaves exactly the clean texts alone. */
  lemma CleanFieldFixesCleanText(lower: LowerCase, policy: Policy, input: string)
    requires LowerCasing(lower) && Steady(lower, input)
    ensures FieldOutcome(lower, policy, input) == Some(input) <==> CleanText(policy, input)
  {
    CleanFieldIsClean(lower, policy, input);
    IntendedFixesCleanText(policy, input);
  }

  lemma IntendedFixesCleanTexts(policy: Policy, texts: seq<string>)
    ensures CleanTexts(policy, CleanList(policy, texts))
    ensures CleanList(policy, texts) == texts <==> CleanTexts(policy, texts)
  {
    var cleaned := CleanList(policy, texts);
    forall i | 0 <= i < |cleaned| ensures CleanText(policy, cleaned[i]) {
      IntendedIsClean(policy, texts[i]);
    }
    if CleanTexts(policy, texts) {
      forall i | 0 <= i < |texts| ensures cleaned[i] == texts[i] {
        IntendedFixesCleanText(policy, texts[i]);
      }
    }
  }

  lemma CleanListIsClean(lower: LowerCase, policy: Policy, texts: seq<string>)
    requires LowerCasing(lower) && SteadyTexts(lower, texts)
    ensures ListOutcome(lower, policy, texts) == Some(CleanList(policy, texts))
    ensures SteadyTexts(lower, CleanList(policy, texts))
  {
    var some := Take(texts, MAX_LIST_ITEMS);
    forall i | 0 <= i < |some|
      ensures FieldOutcome(lower, policy, some[i]) == Some(CleanList(policy, texts)[i]) && Steady(lower, CleanList(policy, texts)[i])
    {
      assert some[i] == texts[i];
      CleanFieldIsClean(lower, policy, texts[i]);
    }
    var cleaned := EachOutcome(lower, policy, some);
    assert cleaned.value == CleanList(policy, texts);
  }

  /** A cleaned list is at most 20 clean texts, and cleaning leaves exactly such lists alone. */
  lemma CleanListFixesCleanTexts(lower: LowerCase, policy: Policy, texts: seq<string>)
    requires LowerCasing(lower) && SteadyTexts(lower, texts)
    ensures var cleaned := ListOutcome(lower, policy, texts);
            cleaned.Some? && CleanTexts(policy, cleaned.value) && (cleaned.value == texts <==> CleanTexts(policy, texts))
  {
    CleanListIsClean(lower, policy, texts);
    IntendedFixesCleanTexts(policy, texts);
  }

  lemma IntendedIsPresentable(policy: Policy, rec: AiRecommendation)
    ensures Presentable(policy, Sanitized(policy, rec))
    ensures Sanitized(policy, rec) == rec <==> Presentable(policy, rec)
  {
    IntendedIsClean(policy, rec.summary);
    IntendedIsClean(policy, rec.relevantHistoryContext);
    IntendedIsClean(policy, rec.riskAssessment);
    IntendedIsClean(policy, rec.explanation);
    IntendedFixesCleanText(policy, rec.summary);
    IntendedFixesCleanText(policy, rec.relevantHistoryContext);
    IntendedFixesCleanText(policy, rec.riskAssessment);
    IntendedFixesCleanText(policy, rec.explanation);
    IntendedFixesCleanTexts(policy, rec.suspiciousSignals);
    IntendedFixesCleanTexts(policy, rec.recommendedNextSteps);
  }

  lemma SanitizedAsIntended(lower: LowerCase, policy: Policy, rec: AiRecommendation)
    requires LowerCasing(lower) && SteadyRecommendation(lower, rec)
    ensures SanitizeOutcome(lower, policy, rec) == Some(Sanitized(policy, rec))
    ensures SteadyRecommendation(lower, Sanitized(policy, rec))
  {
    CleanFieldIsClean(lower, policy, rec.summary);
    CleanFieldIsClean(lower, policy, rec.relevantHistoryContext);
    CleanFieldIsClean(lower, policy, rec.riskAssessment);
    CleanFieldIsClean(lower, policy, rec.explanation);
    CleanListIsClean(lower, policy, rec.suspiciousSignals);
    CleanListIsClean(lower, policy, rec.recommendedNextSteps);
  }

  /** A recommendation whose characters keep their width comes out presentable, and sanitizing changes
      nothing else: it leaves exactly the presentable ones alone. So it is idempotent. */
  lemma SanitizedIsPresentable(lower: LowerCase, policy: Policy, rec: AiRecommendation)
    requires LowerCasing(lower) && SteadyRecommendation(lower, rec)
    ensures var outcome := SanitizeOutcome(lower, policy, rec);
            && outcome.Some? && Presentable(policy, outcome.value)
            && (outcome.value == rec <==> Presentable(policy, rec))
            && SanitizeOutcome(lower, policy, outcome.value) == outcome
  {
    SanitizedAsIntended(lower, policy, rec);
    IntendedIsPresentable(policy, rec);
    SanitizedAsIntended(lower, policy, Sanitized(policy, rec));
    IntendedIsPresentable(policy, Sanitized(policy, rec));
  }

  /** A recommendation on its way from the model to the store. */
  class Draft {
    var rec: AiRecommendation
    const policy: Policy

    constructor (policy: Policy, answer: AiRecommendation)
      ensures rec == answer && this.policy == policy
    {
      rec := answer;
      this.policy := policy;
    }

    /** In place, field by field; not `ok` if a field panics. */
    method SanitizeRecommendation(lower: LowerCase) returns (ok: bool)
      modifies this
      ensures ok <==> SanitizeOutcome(lower, policy, old(rec)).Some?
      ensures ok ==> SanitizeOutcome(lower, policy, old(rec)) == Some(rec)
      ensures ok && LowerCasing(lower) && SteadyRecommendation(lower, old(rec)) ==> Presentable(policy, rec)
    {
      ghost var answer := rec;
      rec := rec.(advisoryLabel := ADVISORY_LABEL);
      var summary := ComputeCleanField(lower, policy, rec.summary);
      if summary.None? { return false; }
      rec := rec.(summary := summary.value);
      var context := ComputeCleanField(lower, policy, rec.relevantHistoryContext);
      if context.None? { return false; }
      rec := rec.(relevantHistoryContext := context.value);
      var risk := ComputeCleanField(lower, policy, rec.riskAssessment);
      if risk.None? { return false; }
      rec := rec.(riskAssessment := risk.value);
      var explanation := ComputeCleanField(lower, policy, rec.explanation);
      if explanation.None? { return false; }
      rec := rec.(explanation := explanation.value);
      var signals := ListOutcome(lower, policy, rec.suspiciousSignals);
      if signals.None? { return false; }
      rec := rec.(suspiciousSignals := signals.value);
      var steps := ListOutcome(lower, policy, rec.recommendedNextSteps);
      if steps.None? { return false; }
      rec := rec.(recommendedNextSteps := steps.value);
      if !rec.confidence.Finite? {
        rec := rec.(confidence := Finite(0.0));
      }
      rec := rec.(confidence := ClampConfidence(rec.confidence));
      if LowerCasing(lower) && SteadyRecommendation(lower, answer) {
        SanitizedIsPresentable(lower, policy, answer);
      }
      return true;
    }
  }

  // ---------- The service ----------

  const FALLBACK_SUMMARY: string :=
    "AI investigation service was unavailable; this alert was not analyzed by the model."
  const FALLBACK_CONTEXT: string := "Not available \U{2014} AI service unreachable."
  const FALLBACK_RISK: string := "Unable to assess. Manual review required."
  const FALLBACK_STEPS: seq<string> :=
    ["Manually review triggered rules and transaction details.", "Retry AI analysis once the service is available."]
  const FALLBACK_EXPLANATION: string :=
    "Fallback response generated locally because the AI provider request failed or timed out."

  /** The recommendation made locally when the model fails. It repeats the reasons of the alert's rules. */
  function Fallback(alertId: Uuid, reasons: seq<string>, now: Time): AiRecommendation {
    AiRecommendation(
      alertId, ADVISORY_LABEL, FALLBACK_SUMMARY, reasons, FALLBACK_CONTEXT, FALLBACK_RISK,
      FALLBACK_STEPS, Finite(0.0), FALLBACK_EXPLANATION, now, false)
  }

  /** `answer` is the model's recommendation, or nothing when the call failed. */
  function Advise(lower: LowerCase, policy: Policy, alertId: Uuid, reasons: seq<string>, answer: Option<AiRecommendation>, now: Time): Option<AiRecommendation> {
    match answer
    case Some(rec) => SanitizeOutcome(lower, policy, rec)
    case None => Some(Fallback(alertId, reasons, now))
  }

  /** Every answer of the model whose characters keep their width is presentable when it leaves the service. */
  lemma ModelAnswerPresentable(lower: LowerCase, policy: Policy, alertId: Uuid, reasons: seq<string>, rec: AiRecommendation, now: Time)
    requires LowerCasing(lower) && SteadyRecommendation(lower, rec)
    ensures var advice := Advise(lower, policy, alertId, reasons, Some(rec), now);
            advice.Some? && Presentable(policy, advice.value)
  {
    SanitizedIsPresentable(lower, policy, rec);
  }
}
