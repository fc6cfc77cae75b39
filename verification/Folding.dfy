/** The marker passes as they are (crates/ai_advisor/src/sanitize.rs:55-79): a marker is looked for in the
    lower-cased text, and the byte position found there is used to cut the text itself. Lower-casing is a
    parameter; it may make a character take more or fewer bytes. */
module Folding {
  import opened Common
  import opened Sanitizer

  type LowerCase = char -> string

  /** Bytes of a character in UTF-8 (section 3 of RFC 3629). */
  function Width(c: char): (w: nat)
    ensures 1 <= w <= 4
  {
    if c as int < 0x80 then 1 else if c as int < 0x800 then 2 else if c as int < 0x1_0000 then 3 else 4
  }

  /** Bytes of the first `n` characters. */
  function Bytes(s: string, n: nat): (total: nat)
    requires n <= |s|
    ensures n <= total
  {
    if n == 0 then 0 else Bytes(s, n - 1) + Width(s[n - 1])
  }

  /** The lower case of the first `n` characters. */
  function FoldedTo(lower: LowerCase, s: string, n: nat): string
    requires n <= |s|
  {
    if n == 0 then "" else FoldedTo(lower, s, n - 1) + lower(s[n - 1])
  }

  function Folded(lower: LowerCase, s: string): string {
    FoldedTo(lower, s, |s|)
  }

  /** Lower-casing folds ASCII letters and leaves other ASCII characters alone. */
  ghost predicate LowerCasing(lower: LowerCase) {
    forall c: char :: c as int < 0x80 ==> lower(c) == [Lower(c)]
  }

  /** It stays one character, of as many bytes. */
  predicate KeepsWidth(lower: LowerCase, c: char) {
    |lower(c)| == 1 && Width(lower(c)[0]) == Width(c)
  }

  /** Every character keeps its width in lower case. */
  predicate Steady(lower: LowerCase, s: string) {
    forall i :: 0 <= i < |s| ==> KeepsWidth(lower, s[i])
  }

  // ---------- Searching and cutting ----------

  predicate MatchAt(t: string, m: string, p: nat) {
    p + |m| <= |t| && forall k :: 0 <= k < |m| ==> t[p + k] == m[k]
  }

  ghost predicate Contains(t: string, m: string) {
    exists p: nat :: MatchAt(t, m, p)
  }

  function FindText(t: string, m: string, from: nat := 0): (at: Option<nat>)
    requires from <= |t|
    ensures at.Some? ==> from <= at.value && at.value + |m| <= |t|
    decreases |t| - from
  {
    if MatchAt(t, m, from) then Some(from)
    else if from == |t| then None
    else FindText(t, m, from + 1)
  }

  /** The number of characters before byte position `pos`, or nothing if the position is past the end or
      inside a character: slicing there panics. */
  function CutAt(s: string, pos: nat, from: nat := 0): (i: Option<nat>)
    requires from <= |s|
    ensures i.Some? ==> i.value <= |s| && Bytes(s, i.value) == pos
    decreases |s| - from
  {
    if Bytes(s, from) == pos then Some(from)
    else if from == |s| then None
    else CutAt(s, pos, from + 1)
  }

  // ---------- The passes ----------

  function Prefixed(front: string, rest: Option<string>): Option<string> {
    if rest.None? then None else Some(front + rest.value)
  }

  lemma PrefixedTwice(a: string, b: string, rest: Option<string>)
    ensures Prefixed("", rest) == rest
    ensures Prefixed(a, Prefixed(b, rest)) == Prefixed(a + b, rest)
  {
    if rest.Some? {
      assert "" + rest.value == rest.value && a + (b + rest.value) == a + b + rest.value;
    }
  }

  datatype Cutting = NoMatch | Panics | Cut(before: nat, after: nat)

  /** What a turn of a pass finds in the lower-cased text, and where it cuts the text. A marker is ASCII, so
      its length is its bytes. */
  function NextCut(folded: string, s: string, m: string): (cut: Cutting)
    requires m != ""
    ensures cut.Cut? ==> cut.before <= |s| && 0 < cut.after <= |s|
  {
    var at := FindText(folded, m);
    if at.None? then NoMatch
    else
      var pos := Bytes(folded, at.value);
      var before, after := CutAt(s, pos), CutAt(s, pos + |m|);
      if before.None? || after.None? then Panics else Cut(before.value, after.value)
  }

  /** One pass; `None` if it panics. */
  function Pass(lower: LowerCase, s: string, m: Marker, r: Replacement): Option<string>
    decreases |s|
  {
    match NextCut(Folded(lower, s), s, m)
    case NoMatch => Some(s)
    case Panics => None
    case Cut(i, j) => Prefixed(s[..i] + r, Pass(lower, s[j..], m, r))
  }

  /** One pass for each marker that the lower-cased original contains. */
  function Neutralize(lower: LowerCase, input: string, markers: seq<Marker>, r: Replacement): Option<string> {
    if markers == [] then Some(input)
    else
      var before, m := Neutralize(lower, input, markers[..|markers| - 1], r), markers[|markers| - 1];
      if before.Some? && FindText(Folded(lower, input), m).Some? then Pass(lower, before.value, m, r) else before
  }

  method RunPass(lower: LowerCase, s: string, m: Marker, r: Replacement) returns (result: Option<string>)
    ensures result == Pass(lower, s, m, r)
  {
    var rebuilt, rest := "", s;
    var cut := NextCut(Folded(lower, rest), rest, m);
    PrefixedTwice("", "", Pass(lower, s, m, r));
    while cut.Cut?
      invariant cut == NextCut(Folded(lower, rest), rest, m)
      invariant Prefixed(rebuilt, Pass(lower, rest, m, r)) == Pass(lower, s, m, r)
      decreases |rest|
    {
      PrefixedTwice(rebuilt, rest[..cut.before] + r, Pass(lower, rest[cut.after..], m, r));
      rebuilt := rebuilt + (rest[..cut.before] + r);
      rest := rest[cut.after..];
      cut := NextCut(Folded(lower, rest), rest, m);
    }
    return if cut.Panics? then None else Some(rebuilt + rest);
  }

  method NeutralizeActionLanguage(lower: LowerCase, input: string, markers: seq<Marker>, r: Replacement) returns (result: Option<string>)
    ensures result == Neutralize(lower, input, markers, r)
  {
    result := Some(input);
    var folded := Folded(lower, input);
    for i := 0 to |markers|
      invariant result == Neutralize(lower, input, markers[..i], r)
    {
      assert markers[..i + 1][..i] == markers[..i];
      if result.Some? && FindText(folded, markers[i]).Some? {
        result := RunPass(lower, result.value, markers[i], r);
      }
    }
    assert markers[..|markers|] == markers;
  }

  // ---------- Where positions agree ----------

  lemma AsciiKeepsWidth(lower: LowerCase, c: char)
    requires LowerCasing(lower) && c as int < 0x80
    ensures KeepsWidth(lower, c)
  {
  }

  /** A character that keeps its width folds to an ASCII character only by ASCII case. */
  lemma SteadyLetter(lower: LowerCase, c: char, x: char)
    requires LowerCasing(lower) && KeepsWidth(lower, c)
    ensures x as int < 0x80 ==> (lower(c)[0] == x <==> Lower(c) == x)
  {
  }

  lemma {:induction false} SteadyFold(lower: LowerCase, s: string, n: nat)
    requires Steady(lower, s) && n <= |s|
    ensures |FoldedTo(lower, s, n)| == n && forall i :: 0 <= i < n ==> FoldedTo(lower, s, n)[i] == lower(s[i])[0]
  {
    if n > 0 {
      SteadyFold(lower, s, n - 1);
    }
  }

  /** Character by character the two take the same number of bytes. */
  predicate Aligned(t: string, s: string) {
    |t| == |s| && forall i :: 0 <= i < |s| ==> Width(t[i]) == Width(s[i])
  }

  lemma SteadyAligned(lower: LowerCase, s: string)
    requires Steady(lower, s)
    ensures Aligned(Folded(lower, s), s)
  {
    SteadyFold(lower, s, |s|);
  }

  lemma SteadyMatch(lower: LowerCase, s: string, m: Marker, p: nat)
    requires LowerCasing(lower) && Steady(lower, s)
    ensures MatchAt(Folded(lower, s), m, p) <==> OccursAt(s, m, p)
  {
    SteadyFold(lower, s, |s|);
    if p + |m| <= |s| {
      forall k | 0 <= k < |m| ensures Folded(lower, s)[p + k] == m[k] <==> Lower(s[p + k]) == m[k] {
        SteadyLetter(lower, s[p + k], m[k]);
      }
    }
  }

  lemma {:induction false} SameMatchesSameFind(t: string, s: string, m: string, from: nat)
    requires from <= |s| == |t| && forall p: nat :: MatchAt(t, m, p) <==> OccursAt(s, m, p)
    ensures FindText(t, m, from) == Find(s, m, from)
    decreases |s| - from
  {
    if !OccursAt(s, m, from) && from < |s| {
      SameMatchesSameFind(t, s, m, from + 1);
    }
  }

  lemma SteadyFind(lower: LowerCase, s: string, m: Marker)
    requires LowerCasing(lower) && Steady(lower, s)
    ensures FindText(Folded(lower, s), m) == Find(s, m)
  {
    SteadyAligned(lower, s);
    forall p: nat ensures MatchAt(Folded(lower, s), m, p) <==> OccursAt(s, m, p) {
      SteadyMatch(lower, s, m, p);
    }
    SameMatchesSameFind(Folded(lower, s), s, m, 0);
  }

  lemma SteadyContains(lower: LowerCase, s: string, m: Marker)
    requires LowerCasing(lower) && Steady(lower, s)
    ensures Contains(Folded(lower, s), m) <==> Occurs(s, m)
  {
    forall p: nat ensures MatchAt(Folded(lower, s), m, p) <==> OccursAt(s, m, p) {
      SteadyMatch(lower, s, m, p);
    }
  }

  lemma {:induction false} BytesGrow(s: string, i: nat, j: nat)
    requires i < j <= |s|
    ensures Bytes(s, i) < Bytes(s, j)
    decreases j - i
  {
    if i < j - 1 {
      BytesGrow(s, i, j - 1);
    }
  }

  lemma {:induction false} CutsThere(s: string, i: nat, from: nat)
    requires from <= i <= |s|
    ensures CutAt(s, Bytes(s, i), from) == Some(i)
    decreases i - from
  {
    if from < i {
      BytesGrow(s, from, i);
      CutsThere(s, i, from + 1);
    }
  }

  lemma {:induction false} AlignedBytes(t: string, s: string, n: nat)
    requires Aligned(t, s) && n <= |s|
    ensures Bytes(t, n) == Bytes(s, n)
  {
    if n > 0 {
      AlignedBytes(t, s, n - 1);
    }
  }

  lemma {:induction false} MatchBytes(t: string, m: Marker, p: nat, n: nat)
    requires MatchAt(t, m, p) && n <= |m|
    ensures Bytes(t, p + n) == Bytes(t, p) + n
  {
    if n > 0 {
      MatchBytes(t, m, p, n - 1);
      assert t[p + (n - 1)] == m[n - 1];
    }
  }

  lemma CutsAtPosition(s: string, i: nat, pos: nat)
    requires i <= |s| && Bytes(s, i) == pos
    ensures CutAt(s, pos) == Some(i)
  {
    CutsThere(s, i, 0);
  }

  lemma CutsMade(t: string, s: string, m: string, at: nat, pos: nat, i: nat, j: nat)
    requires m != "" && FindText(t, m) == Some(at) && Bytes(t, at) == pos
    requires CutAt(s, pos) == Some(i) && CutAt(s, pos + |m|) == Some(j)
    ensures NextCut(t, s, m) == Cut(i, j)
  {
  }

  lemma NextCutIs(t: string, s: string, m: string, at: nat, i: nat, j: nat)
    requires m != "" && i <= |s| && j <= |s|
    requires FindText(t, m) == Some(at) && Bytes(t, at) == Bytes(s, i) && Bytes(t, at) + |m| == Bytes(s, j)
    ensures NextCut(t, s, m) == Cut(i, j)
  {
    CutsAtPosition(s, i, Bytes(t, at));
    CutsAtPosition(s, j, Bytes(t, at) + |m|);
    CutsMade(t, s, m, at, Bytes(t, at), i, j);
  }

  /** In aligned text the byte position of a match cuts the text where the match is. */
  lemma AlignedCut(t: string, s: string, m: Marker, at: nat)
    requires Aligned(t, s) && FindText(t, m) == Some(at) && MatchAt(t, m, at)
    ensures NextCut(t, s, m) == Cut(at, at + |m|)
  {
    AlignedBytes(t, s, at);
    AlignedBytes(t, s, at + |m|);
    MatchBytes(t, m, at, |m|);
    NextCutIs(t, s, m, at, at, at + |m|);
  }

  lemma SteadyNextCut(lower: LowerCase, s: string, m: Marker)
    requires LowerCasing(lower) && Steady(lower, s)
    ensures Find(s, m).None? ==> NextCut(Folded(lower, s), s, m).NoMatch?
    ensures Find(s, m).Some? ==> NextCut(Folded(lower, s), s, m) == Cut(Find(s, m).value, Find(s, m).value + |m|)
  {
    SteadyFind(lower, s, m);
    if Find(s, m).Some? {
      SteadyAligned(lower, s);
      FoundOccurs(s, m);
      SteadyMatch(lower, s, m, Find(s, m).value);
      AlignedCut(Folded(lower, s), s, m, Find(s, m).value);
    }
  }

  lemma FoundOccurs(s: string, m: Marker)
    requires Find(s, m).Some?
    ensures OccursAt(s, m, Find(s, m).value)
  {
    FindIsLeftmost(s, m, 0);
  }

  lemma SteadySuffix(lower: LowerCase, s: string, i: nat)
    requires Steady(lower, s) && i <= |s|
    ensures Steady(lower, s[i..])
  {
  }

  lemma ReplaceTurn(s: string, m: Marker, r: Replacement)
    requires Find(s, m).Some?
    ensures ReplaceAll(s, m, r) == s[..Find(s, m).value] + r + ReplaceAll(s[Find(s, m).value + |m|..], m, r)
  {
  }

  lemma PassTurn(lower: LowerCase, s: string, m: Marker, r: Replacement)
    requires NextCut(Folded(lower, s), s, m).Cut?
    ensures Pass(lower, s, m, r) == Prefixed(s[..NextCut(Folded(lower, s), s, m).before] + r, Pass(lower, s[NextCut(Folded(lower, s), s, m).after..], m, r))
  {
  }

  /** On steady text a pass does what it is meant to: it never panics and cuts out exactly the matches. */
  lemma {:induction false} SteadyPass(lower: LowerCase, s: string, m: Marker, r: Replacement)
    requires LowerCasing(lower) && Steady(lower, s)
    ensures Pass(lower, s, m, r) == Some(ReplaceAll(s, m, r))
    decreases |s|
  {
    SteadyNextCut(lower, s, m);
    if Find(s, m).Some? {
      SteadySuffix(lower, s, Find(s, m).value + |m|);
      SteadyPass(lower, s[Find(s, m).value + |m|..], m, r);
      ReplaceTurn(s, m, r);
      PassTurn(lower, s, m, r);
    }
  }

  lemma SteadyJoin(lower: LowerCase, a: string, r: Replacement, b: string)
    requires LowerCasing(lower) && Steady(lower, a) && Steady(lower, b)
    ensures Steady(lower, a + r + b)
  {
    forall k | 0 <= k < |r| ensures KeepsWidth(lower, r[k]) {
      AsciiKeepsWidth(lower, r[k]);
    }
  }

  lemma {:induction false} ReplaceKeepsSteady(lower: LowerCase, s: string, m: Marker, r: Replacement)
    requires LowerCasing(lower) && Steady(lower, s)
    ensures Steady(lower, ReplaceAll(s, m, r))
    decreases |s|
  {
    var at := Find(s, m);
    if at.Some? {
      var end := at.value + |m|;
      SteadySuffix(lower, s, end);
      ReplaceKeepsSteady(lower, s[end..], m, r);
      SteadyJoin(lower, s[..at.value], r, ReplaceAll(s[end..], m, r));
    }
  }

  /** So are all the passes together. */
  lemma {:induction false} SteadyNeutralize(lower: LowerCase, input: string, markers: seq<Marker>, r: Replacement)
    requires LowerCasing(lower) && Steady(lower, input)
    ensures Neutralize(lower, input, markers, r) == Some(Neutralized(input, markers, r))
    ensures Steady(lower, Neutralized(input, markers, r))
  {
    if markers != [] {
      var front, m := markers[..|markers| - 1], markers[|markers| - 1];
      var before := Neutralized(input, front, r);
      SteadyNeutralize(lower, input, front, r);
      SteadyFind(lower, input, m);
      SteadyPass(lower, before, m, r);
      ReplaceKeepsSteady(lower, before, m, r);
    }
  }

  lemma {:induction false} FindTextIsLeftmost(t: string, m: string, from: nat)
    requires from <= |t|
    ensures match FindText(t, m, from)
            case Some(v) => MatchAt(t, m, v) && forall p: nat :: from <= p < v ==> !MatchAt(t, m, p)
            case None => forall p: nat :: from <= p ==> !MatchAt(t, m, p)
    decreases |t| - from
  {
    if !MatchAt(t, m, from) && from < |t| {
      FindTextIsLeftmost(t, m, from + 1);
    }
  }

  /** Text of any characters whose lower case contains no marker is left alone. */
  lemma {:induction false} QuietTextUntouched(lower: LowerCase, input: string, markers: seq<Marker>, r: Replacement)
    requires forall m :: m in markers ==> !Contains(Folded(lower, input), m)
    ensures Neutralize(lower, input, markers, r) == Some(input)
  {
    if markers != [] {
      var front, m := markers[..|markers| - 1], markers[|markers| - 1];
      assert m in markers && forall k :: k in front ==> k in markers;
      QuietTextUntouched(lower, input, front, r);
      FindTextIsLeftmost(Folded(lower, input), m, 0);
    }
  }
}
