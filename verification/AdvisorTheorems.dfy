/** The shipped policy: exactly which characters its sanitizer is safe for, and what the fallback
    recommendation can carry (crates/ai_advisor/src/sanitize.rs:26-85, crates/ai_advisor/src/lib.rs:57-114). */
module AdvisorTheorems {
  import opened Common
  import opened Sanitizer
  import opened Folding
  import opened Advisor

  // ---------- Where lower-casing changes widths ----------

  /** Beyond ASCII, lower-casing yields one to three characters, and several take more bytes than the one. */
  ghost predicate Expanding(lower: LowerCase) {
    forall c: char :: 1 <= |lower(c)| <= 3 && (|lower(c)| > 1 ==> Bytes(lower(c), |lower(c)|) > Width(c))
  }

  lemma BytesOfOne(s: string)
    requires |s| == 1
    ensures Bytes(s, 1) == Width(s[0])
  {
    assert Bytes(s, 0) == 0;
  }

  lemma AsciiBytes(lower: LowerCase, c: char)
    requires LowerCasing(lower) && c as int < 0x80
    ensures Bytes(lower(c), |lower(c)|) == Width(c)
  {
    BytesOfOne(lower(c));
  }

  lemma ChangedWidth(lower: LowerCase, c: char)
    requires Expanding(lower) && !KeepsWidth(lower, c)
    ensures 1 <= |lower(c)| <= 3 && Bytes(lower(c), |lower(c)|) != Width(c)
  {
    if |lower(c)| == 1 {
      BytesOfOne(lower(c));
    }
  }

  lemma {:induction false} FoldedConcat(lower: LowerCase, a: string, b: string, n: nat)
    requires n <= |b|
    ensures FoldedTo(lower, a + b, |a| + n) == Folded(lower, a) + FoldedTo(lower, b, n)
  {
    if n > 0 {
      FoldedConcat(lower, a, b, n - 1);
      assert (a + b)[|a| + n - 1] == b[n - 1];
    } else {
      FoldedFront(lower, a, b, |a|);
    }
  }

  lemma {:induction false} FoldedFront(lower: LowerCase, a: string, b: string, n: nat)
    requires n <= |a|
    ensures FoldedTo(lower, a + b, n) == FoldedTo(lower, a, n)
  {
    if n > 0 {
      FoldedFront(lower, a, b, n - 1);
    }
  }

  lemma {:induction false} BytesConcat(a: string, b: string, n: nat)
    requires n <= |b|
    ensures Bytes(a + b, |a| + n) == Bytes(a, |a|) + Bytes(b, n)
  {
    if n > 0 {
      BytesConcat(a, b, n - 1);
      assert (a + b)[|a| + n - 1] == b[n - 1];
    } else {
      BytesFront(a, b, |a|);
    }
  }

  lemma {:induction false} BytesFront(a: string, b: string, n: nat)
    requires n <= |a|
    ensures Bytes(a + b, n) == Bytes(a, n)
  {
    if n > 0 {
      BytesFront(a, b, n - 1);
    }
  }

  lemma {:induction false} MarkerFolds(lower: LowerCase, m: Marker, n: nat)
    requires LowerCasing(lower) && n <= |m|
    ensures FoldedTo(lower, m, n) == m[..n]
  {
    if n > 0 {
      MarkerFolds(lower, m, n - 1);
      assert lower(m[n - 1]) == [m[n - 1]];
      assert m[..n] == m[..n - 1] + [m[n - 1]];
    }
  }

  lemma {:induction false} MarkerBytes(m: Marker, n: nat)
    requires n <= |m|
    ensures Bytes(m, n) == n
  {
    if n > 0 {
      MarkerBytes(m, n - 1);
    }
  }

  lemma {:induction false} BytesGrowTo(s: string, i: nat, j: nat)
    requires i <= j <= |s|
    ensures Bytes(s, i) <= Bytes(s, j)
  {
    if i < j {
      BytesGrow(s, i, j);
    }
  }

  lemma {:induction false} FoundThere(t: string, m: string, at: nat, from: nat)
    requires from <= at <= |t| && MatchAt(t, m, at) && forall p: nat :: from <= p < at ==> !MatchAt(t, m, p)
    ensures FindText(t, m, from) == Some(at)
    decreases at - from
  {
    if from < at {
      FoundThere(t, m, at, from + 1);
    }
  }

  /** Its first letter does not come again among the next three, so one to three characters before a
      marker cannot be the beginning of a match. */
  predicate Distinctive(m: Marker) {
    |m| > 3 && m[0] != m[1] && m[0] != m[2] && m[0] != m[3]
  }

  lemma MatchBehind(front: string, m: Marker)
    requires |front| <= 3 && Distinctive(m)
    ensures FindText(front + m, m) == Some(|front|)
  {
    var t := front + m;
    forall p: nat | p < |front| ensures !MatchAt(t, m, p) {
      var k := |front| - p;
      assert t[p + k] == m[0] != m[k];
    }
    assert MatchAt(t, m, |front|);
    FoundThere(t, m, |front|, 0);
  }

  lemma FoldedBehind(lower: LowerCase, c: char, m: Marker)
    requires LowerCasing(lower)
    ensures Folded(lower, [c] + m) == lower(c) + m
  {
    FoldedConcat(lower, [c], m, |m|);
    MarkerFolds(lower, m, |m|);
    assert FoldedTo(lower, [c], 0) == "";
    assert Folded(lower, [c]) == "" + lower(c) == lower(c);
  }

  lemma BytesBehind(c: char, m: Marker)
    ensures Bytes([c] + m, |[c] + m|) == Width(c) + |m|
  {
    BytesConcat([c], m, |m|);
    MarkerBytes(m, |m|);
    BytesOfOne([c]);
  }

  lemma CutPanics(t: string, s: string, m: string, at: nat, pos: nat)
    requires m != "" && FindText(t, m) == Some(at) && Bytes(t, at) == pos
    requires CutAt(s, pos).None? || CutAt(s, pos + |m|).None?
    ensures NextCut(t, s, m).Panics?
  {
  }

  lemma FoundAfterLetter(lower: LowerCase, c: char, m: Marker)
    requires LowerCasing(lower) && 1 <= |lower(c)| <= 3 && Distinctive(m)
    ensures FindText(Folded(lower, [c] + m), m) == Some(|lower(c)|)
    ensures Bytes(Folded(lower, [c] + m), |lower(c)|) == Bytes(lower(c), |lower(c)|)
  {
    FoldedBehind(lower, c, m);
    MatchBehind(lower(c), m);
    BytesFront(lower(c), m, |lower(c)|);
  }

  /** A single character of another width before a marker makes the pass for it panic. */
  lemma ChangedWidthPanics(lower: LowerCase, c: char, m: Marker)
    requires LowerCasing(lower) && Expanding(lower) && !KeepsWidth(lower, c) && Distinctive(m)
    ensures NextCut(Folded(lower, [c] + m), [c] + m, m).Panics?
  {
    ChangedWidth(lower, c);
    FoundAfterLetter(lower, c, m);
    BytesBehind(c, m);
    PositionMisses([c] + m, Bytes(lower(c), |lower(c)|), Width(c), |m|);
    CutPanics(Folded(lower, [c] + m), [c] + m, m, |lower(c)|, Bytes(lower(c), |lower(c)|));
  }

  lemma PositionMisses(s: string, pos: nat, width: nat, length: nat)
    requires s != "" && width == Width(s[0]) && Bytes(s, |s|) == width + length && 0 < pos != width
    ensures CutAt(s, pos).None? || CutAt(s, pos + length).None?
  {
    NoBoundary(s, pos, pos + length);
  }

  lemma NoBoundary(s: string, pos: nat, end: nat)
    requires s != "" && pos > 0 && (pos < Width(s[0]) || end > Bytes(s, |s|))
    ensures CutAt(s, pos).None? || CutAt(s, end).None?
  {
    if pos < Width(s[0]) {
      var at := CutAt(s, pos);
      if at.Some? {
        assert Bytes(s, 0) == 0 && Bytes(s, 1) == Width(s[0]);
        BytesGrowTo(s, 1, at.value);
      }
    } else {
      var at := CutAt(s, end);
      if at.Some? {
        BytesGrowTo(s, at.value, |s|);
      }
    }
  }

  // ---------- Exactly the characters that are safe ----------

  /** The last marker is a single word, all others are phrases. */
  ghost predicate LastIsOneWord(policy: Policy) {
    && policy.markers != []
    && (forall i :: 0 <= i < |policy.markers| - 1 ==> SeveralWords(policy.markers[i]))
    && var last := policy.markers[|policy.markers| - 1];
       Distinctive(last) && ' ' !in last
  }

  ghost function LastMarker(policy: Policy): Marker
    requires LastIsOneWord(policy)
  {
    policy.markers[|policy.markers| - 1]
  }

  lemma OthersAbsent(t: string, m: string)
    requires SeveralWords(m)
    requires forall i :: 3 <= i < |t| ==> t[i] != ' '
    ensures !Contains(t, m)
  {
    var i := if m[3] == ' ' then 3 else if m[4] == ' ' then 4 else if m[5] == ' ' then 5 else if m[6] == ' ' then 6 else 7;
    forall p: nat ensures !MatchAt(t, m, p) {
      assert m[i] == ' ' && (p + |m| <= |t| ==> t[p + i] != ' ');
    }
  }

  /** On text with no later space, only the last pass runs. */
  lemma OnlyLastPass(lower: LowerCase, policy: Policy, input: string)
    requires LastIsOneWord(policy) && FindText(Folded(lower, input), LastMarker(policy)).Some?
    requires forall i :: 3 <= i < |Folded(lower, input)| ==> Folded(lower, input)[i] != ' '
    ensures Neutralize(lower, input, policy.markers, policy.replacement) == Pass(lower, input, LastMarker(policy), policy.replacement)
  {
    var front := policy.markers[..|policy.markers| - 1];
    forall m | m in front ensures !Contains(Folded(lower, input), m) {
      OthersAbsent(Folded(lower, input), m);
    }
    QuietTextUntouched(lower, input, front, policy.replacement);
  }

  /** The field comes out, and clean. */
  ghost predicate ComesOutClean(lower: LowerCase, policy: Policy, input: string) {
    FieldOutcome(lower, policy, input).Some? && CleanText(policy, FieldOutcome(lower, policy, input).value)
  }

  lemma UnsafeLetter(lower: LowerCase, policy: Policy, c: char)
    requires LowerCasing(lower) && Expanding(lower) && LastIsOneWord(policy) && !KeepsWidth(lower, c)
    ensures FieldOutcome(lower, policy, [c] + LastMarker(policy)) == None
  {
    var m, input := LastMarker(policy), [c] + LastMarker(policy);
    if c as int < 0x80 {
      AsciiKeepsWidth(lower, c);
    }
    StrippedIdentity(input, |input|);
    assert input[..|input|] == input;
    ChangedWidth(lower, c);
    ChangedWidthPanics(lower, c, m);
    FoldedBehind(lower, c, m);
    FoundAfterLetter(lower, c, m);
    OnlyLastPass(lower, policy, input);
  }

  ghost predicate Written(input: string, letters: char -> bool) {
    forall i :: 0 <= i < |input| ==> input[i] as int < 0x80 || letters(input[i])
  }

  /** Every field written in ASCII and these letters comes out clean if, and only if, each of the letters
      keeps its width in lower case. */
  lemma SafeLettersIff(lower: LowerCase, policy: Policy, letters: char -> bool)
    requires LowerCasing(lower) && Expanding(lower) && LastIsOneWord(policy)
    ensures (forall input :: Written(input, letters) ==> ComesOutClean(lower, policy, input))
       <==> (forall c :: letters(c) ==> KeepsWidth(lower, c))
  {
    if forall c :: letters(c) ==> KeepsWidth(lower, c) {
      forall input | Written(input, letters) ensures ComesOutClean(lower, policy, input) {
        forall i | 0 <= i < |input| ensures KeepsWidth(lower, input[i]) {
          if input[i] as int < 0x80 {
            AsciiKeepsWidth(lower, input[i]);
          }
        }
        CleanFieldIsClean(lower, policy, input);
      }
    } else {
      var c :| letters(c) && !KeepsWidth(lower, c);
      UnsafeLetter(lower, policy, c);
      assert Written([c] + LastMarker(policy), letters);
      assert !ComesOutClean(lower, policy, [c] + LastMarker(policy));
    }
  }

  lemma PhrasesThenOneWord(phrases: seq<Phrase>, last: Marker, r: Replacement)
    requires Distinctive(last) && ' ' !in last
    ensures LastIsOneWord(Policy(phrases + [last], r)) && LastMarker(Policy(phrases + [last], r)) == last
  {
  }

  lemma AutomaticallyIsOneWord()
    ensures Distinctive(AUTOMATICALLY) && ' ' !in AUTOMATICALLY
  {
  }

  lemma ShippedLastIsOneWord()
    ensures LastIsOneWord(SHIPPED_POLICY) && LastMarker(SHIPPED_POLICY) == AUTOMATICALLY
  {
    AutomaticallyIsOneWord();
    PhrasesThenOneWord(PHRASES, AUTOMATICALLY, REPLACEMENT);
  }

  // ---------- The twelve phrases ----------

  predicate Verdict(m: string) {
    || m == "approve this transaction"
    || m == "reject this transaction"
    || m == "freeze the account"
    || m == "freeze this account"
  }

  predicate Command(m: string) {
    || m == "reverse this transaction"
    || m == "block this transaction"
    || m == "set status to"
    || m == "mark as false positive"
  }

  predicate Override(m: string) {
    || m == "ignore previous instructions"
    || m == "ignore prior instructions"
    || m == "dismiss and close"
    || m == "automatically"
  }

  lemma AllShipped()
    ensures APPROVE in MARKERS && REJECT in MARKERS && FREEZE_THE in MARKERS && FREEZE_THIS in MARKERS
    ensures REVERSE in MARKERS && BLOCK in MARKERS && SET_STATUS in MARKERS && FALSE_POSITIVE in MARKERS
    ensures IGNORE_PREVIOUS in MARKERS && IGNORE_PRIOR in MARKERS && DISMISS in MARKERS && AUTOMATICALLY in MARKERS
  {
  }

  lemma VerdictsShipped(m: string)
    requires Verdict(m)
    ensures m in SHIPPED_POLICY.markers
  {
    assert m == APPROVE || m == REJECT || m == FREEZE_THE || m == FREEZE_THIS;
    AllShipped();
  }

  lemma CommandsShipped(m: string)
    requires Command(m)
    ensures m in SHIPPED_POLICY.markers
  {
    assert m == REVERSE || m == BLOCK || m == SET_STATUS || m == FALSE_POSITIVE;
    AllShipped();
  }

  lemma OverridesShipped(m: string)
    requires Override(m)
    ensures m in SHIPPED_POLICY.markers
  {
    assert m == IGNORE_PREVIOUS || m == IGNORE_PRIOR || m == DISMISS || m == AUTOMATICALLY;
    AllShipped();
  }

  /** None of the phrases that read as an instruction comes out of the shipped sanitizer, in any letter case. */
  lemma NoPhraseComesOut(lower: LowerCase, input: string, m: string)
    requires LowerCasing(lower) && Steady(lower, input) && (Verdict(m) || Command(m) || Override(m))
    ensures var out := FieldOutcome(lower, SHIPPED_POLICY, input);
            out.Some? && !Occurs(out.value, m) && !Contains(Folded(lower, out.value), m)
  {
    if Verdict(m) {
      VerdictsShipped(m);
    } else if Command(m) {
      CommandsShipped(m);
    } else {
      OverridesShipped(m);
    }
    CleanFieldIsClean(lower, SHIPPED_POLICY, input);
  }

  /** Whatever the model calls its answer, and whatever its characters, it leaves with this label. */
  lemma LabelOverwritten(lower: LowerCase, policy: Policy, rec: AiRecommendation)
    requires SanitizeOutcome(lower, policy, rec).Some?
    ensures SanitizeOutcome(lower, policy, rec).value.advisoryLabel
         == "ADVISORY ONLY \U{2014} generated by AI, not a decision. A human investigator must decide."
  {
  }

  // ---------- A marker that gets through ----------

  function Times(c: char, n: nat): (s: string)
    ensures |s| == n && forall i :: 0 <= i < n ==> s[i] == c
  {
    if n == 0 then "" else Times(c, n - 1) + [c]
  }

  lemma TimesFolds(lower: LowerCase, c: char, n: nat)
    requires n > 0
    ensures Folded(lower, Times(c, n)) == Folded(lower, Times(c, n - 1)) + lower(c)
    ensures Bytes(Times(c, n), n) == Bytes(Times(c, n - 1), n - 1) + Width(c)
  {
    FoldedFront(lower, Times(c, n - 1), [c], n - 1);
    BytesFront(Times(c, n - 1), [c], n - 1);
  }

  /** Each copy of a letter that grows by one byte shifts what follows by one. */
  lemma {:induction false} CopiesShift(lower: LowerCase, c: char, n: nat)
    requires Bytes(lower(c), |lower(c)|) == Width(c) + 1
    ensures Bytes(Folded(lower, Times(c, n)), |Folded(lower, Times(c, n))|) == Bytes(Times(c, n), n) + n
  {
    if n > 0 {
      CopiesShift(lower, c, n - 1);
      TimesFolds(lower, c, n);
      BytesConcat(Folded(lower, Times(c, n - 1)), lower(c), |lower(c)|);
    }
  }

  lemma {:induction false} CopiesFold(lower: LowerCase, c: char, n: nat, i: nat)
    requires i < |Folded(lower, Times(c, n))|
    ensures Folded(lower, Times(c, n))[i] in lower(c)
  {
    if n > 0 {
      TimesFolds(lower, c, n);
      if i < |Folded(lower, Times(c, n - 1))| {
        CopiesFold(lower, c, n - 1, i);
      }
    }
  }

  /** The text that gets a marker through: copies of the letter, the marker, and as many dots. */
  function Smuggling(c: char, m: Marker): string {
    Times(c, |m|) + (m + Times('.', |m|))
  }

  lemma MarkerAndDotsFold(lower: LowerCase, m: Marker)
    requires LowerCasing(lower)
    ensures Folded(lower, m + Times('.', |m|)) == m + Times('.', |m|)
  {
    FoldedConcat(lower, m, Times('.', |m|), |m|);
    MarkerFolds(lower, m, |m|);
    DotsFold(lower, |m|);
    assert m[..|m|] == m;
  }

  lemma SmugglingFolds(lower: LowerCase, c: char, m: Marker)
    requires LowerCasing(lower)
    ensures Folded(lower, Smuggling(c, m)) == Folded(lower, Times(c, |m|)) + (m + Times('.', |m|))
  {
    FoldedConcat(lower, Times(c, |m|), m + Times('.', |m|), |m + Times('.', |m|)|);
    MarkerAndDotsFold(lower, m);
  }

  lemma SmugglingBytes(c: char, m: Marker)
    ensures Bytes(Smuggling(c, m), |m| + |m|) == Bytes(Times(c, |m|), |m|) + |m|
  {
    BytesConcat(Times(c, |m|), m + Times('.', |m|), |m|);
    BytesFront(m, Times('.', |m|), |m|);
    MarkerBytes(m, |m|);
  }

  lemma SmugglingEnd(c: char, m: Marker)
    ensures Bytes(Smuggling(c, m), |m| + (|m| + |m|)) == Bytes(Times(c, |m|), |m|) + |m| + |m|
  {
    BytesConcat(Times(c, |m|), m + Times('.', |m|), |m| + |m|);
    BytesConcat(m, Times('.', |m|), |m|);
    MarkerBytes(m, |m|);
    DotBytes(|m|);
  }

  lemma {:induction false} DotBytes(n: nat)
    ensures Bytes(Times('.', n), n) == n
  {
    if n > 0 {
      DotBytes(n - 1);
      BytesFront(Times('.', n - 1), ['.'], n - 1);
    }
  }

  lemma {:induction false} DotsFold(lower: LowerCase, n: nat)
    requires LowerCasing(lower)
    ensures Folded(lower, Times('.', n)) == Times('.', n)
  {
    if n > 0 {
      TimesFolds(lower, '.', n);
      DotsFold(lower, n - 1);
      assert lower('.') == ['.'];
    }
  }

  lemma SmuggledFound(lower: LowerCase, c: char, m: Marker)
    requires LowerCasing(lower) && m[0] !in lower(c)
    ensures FindText(Folded(lower, Smuggling(c, m)), m) == Some(|Folded(lower, Times(c, |m|))|)
  {
    SmugglingFolds(lower, c, m);
    var front, t := Folded(lower, Times(c, |m|)), Folded(lower, Smuggling(c, m));
    forall p: nat | p < |front| ensures !MatchAt(t, m, p) {
      CopiesFold(lower, c, |m|, p);
      assert t[p + 0] == front[p];
    }
    assert MatchAt(t, m, |front|);
    FoundThere(t, m, |front|, 0);
  }

  lemma SmuggledPosition(lower: LowerCase, c: char, m: Marker)
    requires LowerCasing(lower) && Bytes(lower(c), |lower(c)|) == Width(c) + 1
    ensures |Folded(lower, Times(c, |m|))| <= |Folded(lower, Smuggling(c, m))|
    ensures Bytes(Folded(lower, Smuggling(c, m)), |Folded(lower, Times(c, |m|))|) == Bytes(Times(c, |m|), |m|) + |m|
  {
    SmugglingFolds(lower, c, m);
    CopiesShift(lower, c, |m|);
    BytesFront(Folded(lower, Times(c, |m|)), m + Times('.', |m|), |Folded(lower, Times(c, |m|))|);
  }

  lemma SmuggledCut(lower: LowerCase, c: char, m: Marker)
    requires LowerCasing(lower) && Bytes(lower(c), |lower(c)|) == Width(c) + 1 && m[0] !in lower(c)
    ensures NextCut(Folded(lower, Smuggling(c, m)), Smuggling(c, m), m) == Cut(|m| + |m|, |m| + (|m| + |m|))
  {
    SmuggledFound(lower, c, m);
    SmuggledPosition(lower, c, m);
    SmugglingBytes(c, m);
    SmugglingEnd(c, m);
    NextCutIs(Folded(lower, Smuggling(c, m)), Smuggling(c, m), m, |Folded(lower, Times(c, |m|))|, |m| + |m|, |m| + (|m| + |m|));
  }

  /** The pass for `m` cuts behind it, and leaves it where it is. */
  lemma SmuggledThrough(lower: LowerCase, c: char, m: Marker, r: Replacement)
    requires LowerCasing(lower) && Bytes(lower(c), |lower(c)|) == Width(c) + 1 && m[0] !in lower(c)
    ensures Pass(lower, Smuggling(c, m), m, r) == Some(Times(c, |m|) + m + r)
  {
    SmuggledCut(lower, c, m);
    PassTurn(lower, Smuggling(c, m), m, r);
    EmptyPass(lower, m, r);
    SmugglingParts(c, m);
    assert Times(c, |m|) + m + r + "" == Times(c, |m|) + m + r;
  }

  lemma SmugglingParts(c: char, m: Marker)
    ensures Smuggling(c, m)[..|m| + |m|] == Times(c, |m|) + m && Smuggling(c, m)[|m| + (|m| + |m|)..] == ""
  {
  }

  lemma EmptyPass(lower: LowerCase, m: Marker, r: Replacement)
    ensures Pass(lower, "", m, r) == Some("")
  {
  }

  lemma SmugglingSpaceless(lower: LowerCase, c: char, m: Marker)
    requires LowerCasing(lower) && ' ' !in lower(c) && ' ' !in m
    ensures forall i :: 0 <= i < |Folded(lower, Smuggling(c, m))| ==> Folded(lower, Smuggling(c, m))[i] != ' '
  {
    SmugglingFolds(lower, c, m);
    forall i | 0 <= i < |Folded(lower, Smuggling(c, m))| ensures Folded(lower, Smuggling(c, m))[i] != ' ' {
      if i < |Folded(lower, Times(c, |m|))| {
        CopiesFold(lower, c, |m|, i);
      }
    }
  }

  /** Any letter that grows by one byte, and whose lower case has neither a space nor the marker's first
      letter, lets the marker through: it is in what comes out as it was in what came in. */
  lemma GrowingLetterLeaks(lower: LowerCase, policy: Policy, c: char)
    requires LowerCasing(lower) && LastIsOneWord(policy) && Bytes(lower(c), |lower(c)|) == Width(c) + 1
    requires ' ' !in lower(c) && LastMarker(policy)[0] !in lower(c) && 2 * |LastMarker(policy)| <= MAX_FIELD_LENGTH
    ensures FieldOutcome(lower, policy, Smuggling(c, LastMarker(policy))).Some?
    ensures Occurs(FieldOutcome(lower, policy, Smuggling(c, LastMarker(policy))).value, LastMarker(policy))
  {
    var m, s := LastMarker(policy), Smuggling(c, LastMarker(policy));
    if c as int < 0x80 {
      AsciiBytes(lower, c);
    }
    StrippedIdentity(s, |s|);
    assert s[..|s|] == s;
    SmuggledFound(lower, c, m);
    SmugglingSpaceless(lower, c, m);
    OnlyLastPass(lower, policy, s);
    SmuggledThrough(lower, c, m, policy.replacement);
    StaysIn(Times(c, |m|), m, policy.replacement);
  }

  lemma StaysIn(front: string, m: Marker, tail: string)
    requires |front| + |m| <= MAX_FIELD_LENGTH
    ensures Occurs(Take(front + m + tail, MAX_FIELD_LENGTH), m)
  {
    var out := front + m + tail;
    forall k | 0 <= k < |m| ensures Lower(Take(out, MAX_FIELD_LENGTH)[|front| + k]) == m[k] {
      assert out[|front| + k] == m[k];
    }
    assert OccursAt(Take(out, MAX_FIELD_LENGTH), m, |front|);
  }

  lemma DottedCapitalGrows()
    ensures Bytes("i\U{307}", 2) == 3 == Width('\U{130}') + 1
  {
    assert Bytes("i\U{307}", 0) == 0 && Bytes("i\U{307}", 1) == 1;
  }

  lemma DottedCapitalShields(lower: LowerCase, policy: Policy, m: Marker)
    requires LowerCasing(lower) && lower('\U{130}') == "i\U{307}"
    requires LastIsOneWord(policy) && LastMarker(policy) == m && m[0] == 'a' && 2 * |m| <= MAX_FIELD_LENGTH
    ensures var out := FieldOutcome(lower, policy, Smuggling('\U{130}', m));
            out.Some? && Occurs(out.value, m)
  {
    DottedCapitalGrows();
    GrowingLetterLeaks(lower, policy, '\U{130}');
  }

  lemma AutomaticallyStarts()
    ensures AUTOMATICALLY[0] == 'a' && 2 * |AUTOMATICALLY| <= MAX_FIELD_LENGTH
  {
  }

  /** The capital I with a dot, two bytes, is an i and a combining dot in lower case, three bytes: thirteen
      of them shield "automatically". */
  lemma DottedCapitalLeaks(lower: LowerCase)
    requires LowerCasing(lower) && lower('\U{130}') == "i\U{307}"
    ensures var out := FieldOutcome(lower, SHIPPED_POLICY, Smuggling('\U{130}', AUTOMATICALLY));
            out.Some? && Occurs(out.value, AUTOMATICALLY)
  {
    ShippedLastIsOneWord();
    AutomaticallyStarts();
    DottedCapitalShields(lower, SHIPPED_POLICY, AUTOMATICALLY);
  }

  /** With the shipped markers, every field over an alphabet comes out clean exactly when the alphabet's
      letters keep their width. */
  lemma ShippedSafeLettersIff(lower: LowerCase, letters: char -> bool)
    requires LowerCasing(lower) && Expanding(lower)
    ensures (forall input :: Written(input, letters) ==> ComesOutClean(lower, SHIPPED_POLICY, input))
       <==> (forall c :: letters(c) ==> KeepsWidth(lower, c))
  {
    ShippedLastIsOneWord();
    SafeLettersIff(lower, SHIPPED_POLICY, letters);
  }

  // ---------- The fallback ----------

  /** The texts that every fallback has. */
  ghost predicate FixedTextsClean(policy: Policy) {
    && CleanText(policy, FALLBACK_SUMMARY) && CleanText(policy, FALLBACK_CONTEXT)
    && CleanText(policy, FALLBACK_RISK) && CleanText(policy, FALLBACK_EXPLANATION)
    && CleanTexts(policy, FALLBACK_STEPS)
  }

  /** docs/ai-boundary.md says that the fallback is sanitized as well. It is not: it is presentable exactly
      when its own texts and the reasons it repeats were clean to begin with. */
  lemma FallbackPresentableIff(lower: LowerCase, policy: Policy, alertId: Uuid, reasons: seq<string>, now: Time)
    ensures var advice := Advise(lower, policy, alertId, reasons, None, now);
            && advice.Some?
            && (Presentable(policy, advice.value) <==> FixedTextsClean(policy) && CleanTexts(policy, reasons))
            && (advice.value.suspiciousSignals == CleanList(policy, reasons) <==> CleanTexts(policy, reasons))
  {
    IntendedFixesCleanTexts(policy, reasons);
  }

  /** A marker anywhere in a reason comes out in the fallback. */
  lemma FallbackCarriesMarker(lower: LowerCase, policy: Policy, alertId: Uuid, reasons: seq<string>, i: nat, m: Marker, now: Time)
    requires m in policy.markers && i < |reasons| && Occurs(reasons[i], m)
    ensures !Presentable(policy, Advise(lower, policy, alertId, reasons, None, now).value)
  {
    FallbackPresentableIff(lower, policy, alertId, reasons, now);
  }

  /** The reason that the frequency rule gives (crates/rules_engine/src/rules.rs:153-159); the numbers enter
      as their texts. */
  function FrequencyReason(account: Account, count: string, seconds: string, threshold: string): string {
    "Account " + account + (" made " + count + " transactions within " + seconds + " seconds (threshold: " + threshold + ")")
  }

  /** So an account whose name contains a marker puts it before the reader, through the frequency rule alone. */
  lemma AccountNameReachesReader(lower: LowerCase, policy: Policy, alertId: Uuid, tx: Transaction, count: string, seconds: string, threshold: string, m: Marker, now: Time)
    requires m in policy.markers && Occurs(tx.source, m)
    ensures var reason := FrequencyReason(tx.source, count, seconds, threshold);
            !Presentable(policy, Advise(lower, policy, alertId, [reason], None, now).value)
  {
    var reason := FrequencyReason(tx.source, count, seconds, threshold);
    var p: nat :| OccursAt(tx.source, m, p);
    OccursInPart("Account ", tx.source, " made " + count + " transactions within " + seconds + " seconds (threshold: " + threshold + ")", m, p);
    assert Occurs(reason, m);
    FallbackCarriesMarker(lower, policy, alertId, [reason], 0, m, now);
  }

  lemma MarkerOccurs(policy: Policy)
    requires LastIsOneWord(policy)
    ensures LastMarker(policy) in policy.markers && Occurs(LastMarker(policy), LastMarker(policy))
  {
    assert OccursAt(LastMarker(policy), LastMarker(policy), 0);
  }

  /** With the shipped markers an account named "automatically" is one. */
  lemma AutomaticallyReachesReader(lower: LowerCase, alertId: Uuid, tx: Transaction, count: string, seconds: string, threshold: string, now: Time)
    requires tx.source == AUTOMATICALLY
    ensures var reason := FrequencyReason(tx.source, count, seconds, threshold);
            !Presentable(SHIPPED_POLICY, Advise(lower, SHIPPED_POLICY, alertId, [reason], None, now).value)
  {
    ShippedLastIsOneWord();
    MarkerOccurs(SHIPPED_POLICY);
    AccountNameReachesReader(lower, SHIPPED_POLICY, alertId, tx, count, seconds, threshold, LastMarker(SHIPPED_POLICY), now);
  }
}
