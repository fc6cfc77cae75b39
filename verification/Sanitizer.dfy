/** Sanitizing of advisory text (crates/ai_advisor/src/sanitize.rs): tag stripping, and what the marker
    passes are meant to do. Here letters are compared by ASCII case and a match is cut out where it is.
    `Folding` has the passes as they are, which reuse byte positions of the lower-cased text, and says
    when they do the same. */
module Sanitizer {
  import opened Common

  // ---------- Stripping markup ----------

  predicate Bracket(c: char) {
    c == '<' || c == '>'
  }

  /** The nearest bracket before position `n` is an opening one. */
  ghost predicate InsideTag(s: string, n: nat)
    requires n <= |s|
  {
    exists j :: 0 <= j < n && s[j] == '<' && forall k :: j < k < n ==> !Bracket(s[k])
  }

  predicate InTag(s: string, n: nat)
    requires n <= |s|
    ensures InTag(s, n) <==> InsideTag(s, n)
  {
    if n == 0 then false
    else if s[n - 1] == '<' then true
    else s[n - 1] != '>' && InTag(s, n - 1)
  }

  /** What remains of the first `n` characters. */
  function Stripped(s: string, n: nat): string
    requires n <= |s|
  {
    if n == 0 then ""
    else Stripped(s, n - 1) + if Bracket(s[n - 1]) || InTag(s, n - 1) then "" else [s[n - 1]]
  }

  /** Position `i` holds no bracket, and is not inside a tag. */
  ghost predicate Outside(s: string, i: nat)
    requires i < |s|
  {
    s[i] != '<' && s[i] != '>' && !InsideTag(s, i)
  }

  /** `out` is what stands at `positions`, in order: exactly those of the first `n` that are outside tags. */
  ghost predicate KeepsOutside(s: string, n: nat, out: string, positions: seq<nat>)
    requires n <= |s|
  {
    && |positions| == |out|
    && (forall i, j :: 0 <= i < j < |positions| ==> positions[i] < positions[j])
    && (forall k :: 0 <= k < |positions| ==> positions[k] < n && out[k] == s[positions[k]])
    && (forall i :: 0 <= i < n ==> (i in positions <==> Outside(s, i)))
  }

  lemma KeepsOne(s: string, n: nat, out: string, positions: seq<nat>)
    requires n < |s| && KeepsOutside(s, n, out, positions) && Outside(s, n)
    ensures KeepsOutside(s, n + 1, out + [s[n]], positions + [n])
  {
  }

  lemma SkipsOne(s: string, n: nat, out: string, positions: seq<nat>)
    requires n < |s| && KeepsOutside(s, n, out, positions) && !Outside(s, n)
    ensures KeepsOutside(s, n + 1, out, positions)
  {
  }

  lemma {:induction false} StrippedKeepsOutside(s: string, n: nat) returns (positions: seq<nat>)
    requires n <= |s|
    ensures KeepsOutside(s, n, Stripped(s, n), positions)
  {
    if n == 0 {
      positions := [];
    } else {
      positions := StrippedKeepsOutside(s, n - 1);
      if Bracket(s[n - 1]) || InTag(s, n - 1) {
        SkipsOne(s, n - 1, Stripped(s, n - 1), positions);
      } else {
        KeepsOne(s, n - 1, Stripped(s, n - 1), positions);
        positions := positions + [n - 1];
      }
    }
  }

  method StripMarkup(input: string) returns (out: string, ghost positions: seq<nat>)
    ensures out == Stripped(input, |input|)
    ensures KeepsOutside(input, |input|, out, positions)
  {
    out := "";
    var inTag := false;
    for i := 0 to |input|
      invariant inTag == InTag(input, i)
      invariant out == Stripped(input, i)
    {
      var c := input[i];
      if c == '<' {
        inTag := true;
      } else if c == '>' {
        inTag := false;
      } else if !inTag {
        out := out + [c];
      }
    }
    positions := StrippedKeepsOutside(input, |input|);
  }

  ghost predicate BracketFree(s: string) {
    forall i :: 0 <= i < |s| ==> !Bracket(s[i])
  }

  lemma {:induction false} StrippedBracketFree(s: string, n: nat)
    requires n <= |s|
    ensures BracketFree(Stripped(s, n))
  {
    if n > 0 {
      StrippedBracketFree(s, n - 1);
    }
  }

  lemma {:induction false} StrippedIdentity(s: string, n: nat)
    requires n <= |s| && BracketFree(s)
    ensures Stripped(s, n) == s[..n]
  {
    if n > 0 {
      StrippedIdentity(s, n - 1);
      assert s[..n] == s[..n - 1] + [s[n - 1]];
    }
  }

  // ---------- Occurrences ----------

  function Lower(c: char): char {
    if 'A' <= c <= 'Z' then (c as int + 32) as char else c
  }

  /** The same ASCII letter, one a capital, or the same character. */
  predicate SameLetter(a: char, b: char) {
    || a == b
    || ('A' <= a <= 'Z' && 'a' <= b <= 'z' && a as int - 'A' as int == b as int - 'a' as int)
    || ('a' <= a <= 'z' && 'A' <= b <= 'Z' && a as int - 'a' as int == b as int - 'A' as int)
  }

  lemma LowerIgnoresCase(a: char, b: char)
    ensures Lower(a) == Lower(b) <==> SameLetter(a, b)
  {
  }

  /** Pattern `m` matches the lower-cased text at position `p`. */
  predicate OccursAt(s: string, m: string, p: nat) {
    p + |m| <= |s| && forall k :: 0 <= k < |m| ==> Lower(s[p + k]) == m[k]
  }

  ghost predicate Occurs(s: string, m: string) {
    exists p: nat :: OccursAt(s, m, p)
  }

  /** The leftmost match at or after `from`. */
  function Find(s: string, m: string, from: nat := 0): (at: Option<nat>)
    requires from <= |s|
    ensures at.Some? ==> from <= at.value && at.value + |m| <= |s|
    decreases |s| - from
  {
    if OccursAt(s, m, from) then Some(from)
    else if from == |s| then None
    else Find(s, m, from + 1)
  }

  lemma {:induction false} FindIsLeftmost(s: string, m: string, from: nat)
    requires from <= |s|
    ensures var at := Find(s, m, from);
            match at
            case Some(v) => OccursAt(s, m, v) && forall p: nat :: from <= p < v ==> !OccursAt(s, m, p)
            case None => forall p: nat :: from <= p ==> !OccursAt(s, m, p)
    decreases |s| - from
  {
    if !OccursAt(s, m, from) && from < |s| {
      FindIsLeftmost(s, m, from + 1);
    }
  }

  lemma OccursInPart(a: string, b: string, c: string, m: string, p: nat)
    requires OccursAt(b, m, p)
    ensures OccursAt(a + b + c, m, |a| + p)
  {
    forall k | 0 <= k < |m| ensures Lower((a + b + c)[|a| + p + k]) == m[k] {
      assert (a + b + c)[|a| + p + k] == b[p + k];
    }
  }

  // ---------- Neutralizing ----------

  /** A letter that every marker has somewhere and the replacement text nowhere. */
  predicate Telltale(c: char) {
    c == 's' || c == 'f' || c == 'y'
  }

  ghost predicate LowerCaseWords(s: string) {
    forall k :: 0 <= k < |s| ==> s[k] == ' ' || 'a' <= s[k] <= 'z'
  }

  ghost predicate NoTelltale(s: string) {
    forall k :: 0 <= k < |s| ==> !Telltale(Lower(s[k]))
  }

  type Marker = m: string | |m| > 0 && LowerCaseWords(m) && ('s' in m || 'f' in m || 'y' in m)
    witness "s"

  ghost predicate Ascii(s: string) {
    forall k :: 0 <= k < |s| ==> s[k] as int < 0x80
  }

  type Replacement = r: string | |r| >= 2 && r[0] == '[' && r[|r| - 1] == ']' && BracketFree(r) && NoTelltale(r) && Ascii(r)
    witness "[]"

  /** A marker matches exactly where the text reads the same but for the case of ASCII letters. */
  lemma OccursIgnoringCase(s: string, m: Marker, p: nat)
    ensures OccursAt(s, m, p) <==> p + |m| <= |s| && forall k :: 0 <= k < |m| ==> SameLetter(s[p + k], m[k])
  {
    if p + |m| <= |s| {
      forall k | 0 <= k < |m| ensures Lower(s[p + k]) == m[k] <==> SameLetter(s[p + k], m[k]) {
        LowerIgnoresCase(s[p + k], m[k]);
      }
    }
  }

  /** Every leftmost, non-overlapping match of `m` gives way to `r`. */
  function ReplaceAll(s: string, m: Marker, r: Replacement): string
    decreases |s|
  {
    var at := Find(s, m);
    if at.None? then s
    else s[..at.value] + r + ReplaceAll(s[at.value + |m|..], m, r)
  }

  /** One pass per marker, in order. Whether a pass runs is decided on the original text. */
  function Neutralized(input: string, markers: seq<Marker>, r: Replacement): string {
    if markers == [] then input
    else
      var before := Neutralized(input, markers[..|markers| - 1], r);
      var m := markers[|markers| - 1];
      if Find(input, m).Some? then ReplaceAll(before, m, r) else before
  }

  // ---------- No marker survives, and none is made ----------

  /** A match in `a + r + c` lies wholly in `a` or wholly in `c`: overlapping `r` it would
      contain one of its brackets, or be made of its letters alone. */
  lemma MatchAvoidsReplacement(a: string, r: Replacement, c: string, m: Marker, q: nat)
    requires OccursAt(a + r + c, m, q)
    ensures (q + |m| <= |a| && OccursAt(a, m, q)) || (q >= |a + r| && OccursAt(c, m, q - |a + r|))
  {
    var whole := a + r + c;
    assert forall i {:trigger whole[i]} :: q <= i < q + |m| ==> Lower(whole[q + (i - q)]) == m[i - q];
    forall i | |a| <= i < |a + r| ensures !Telltale(Lower(whole[i])) {
      assert whole[i] == r[i - |a|];
    }
    var k :| 0 <= k < |m| && Telltale(m[k]);
    assert Telltale(Lower(whole[q + k]));
    assert whole[|a|] == r[0] && whole[|a + r| - 1] == r[|r| - 1];
    if q + |m| <= |a| {
      assert forall i {:trigger a[i]} :: q <= i < q + |m| ==> whole[i] == a[i];
    } else if q >= |a + r| {
      assert forall i {:trigger c[i]} :: 0 <= i < |c| ==> whole[|a + r| + i] == c[i];
    }
  }

  lemma Reassociate(a: string, b: string, c: string)
    ensures "" + a + (b + c) == a + b + c && a + b + c + "" == a + b + c
  {
  }

  /** A pass for `m` leaves no match of `m`, and makes no match of any marker. */
  lemma {:induction false} PassRemovesAndMakesNone(s: string, m: Marker, r: Replacement, other: Marker, q: nat)
    requires OccursAt(ReplaceAll(s, m, r), other, q)
    ensures Occurs(s, other) && other != m
    decreases |s|
  {
    var at := Find(s, m);
    FindIsLeftmost(s, m, 0);
    if at.None? {
      assert OccursAt(s, other, q);
    } else {
      var before, matched, after := s[..at.value], s[at.value..at.value + |m|], s[at.value + |m|..];
      CutTwice(s, at.value, at.value + |m|);
      MatchAvoidsReplacement(before, r, ReplaceAll(after, m, r), other, q);
      if q + |other| <= |before| {
        OccursInPart("", before, matched + after, other, q);
        Reassociate(before, matched, after);
      } else {
        PassRemovesAndMakesNone(after, m, r, other, q - |before + r|);
        var p: nat :| OccursAt(after, other, p);
        OccursInPart(before + matched, after, "", other, p);
        Reassociate(before, matched, after);
      }
    }
  }

  /** After all passes none of the markers is left, and whatever marker is found was there before. */
  lemma {:induction false} NeutralizedHasNone(input: string, markers: seq<Marker>, r: Replacement, m: Marker)
    requires Occurs(Neutralized(input, markers, r), m)
    ensures Occurs(input, m) && m !in markers
  {
    if markers != [] {
      var front, last := markers[..|markers| - 1], markers[|markers| - 1];
      var before := Neutralized(input, front, r);
      FindIsLeftmost(input, last, 0);
      if Find(input, last).Some? {
        var q: nat :| OccursAt(ReplaceAll(before, last, r), m, q);
        PassRemovesAndMakesNone(before, last, r, m, q);
      }
      NeutralizedHasNone(input, front, r, m);
      assert markers == front + [last];
    }
  }

  lemma {:induction false} MarkerFreeUnchanged(input: string, markers: seq<Marker>, r: Replacement)
    requires forall m :: m in markers ==> !Occurs(input, m)
    ensures Neutralized(input, markers, r) == input
  {
    if markers != [] {
      var front, last := markers[..|markers| - 1], markers[|markers| - 1];
      assert last in markers;
      FindIsLeftmost(input, last, 0);
      assert forall m :: m in front ==> m in markers;
      MarkerFreeUnchanged(input, front, r);
    }
  }

  lemma {:induction false} ReplaceKeepsBracketFree(s: string, m: Marker, r: Replacement)
    requires BracketFree(s)
    ensures BracketFree(ReplaceAll(s, m, r))
    decreases |s|
  {
    var at := Find(s, m);
    if at.Some? {
      ReplaceKeepsBracketFree(s[at.value + |m|..], m, r);
    }
  }

  lemma {:induction false} NeutralizedKeepsBracketFree(s: string, markers: seq<Marker>, r: Replacement)
    requires BracketFree(s)
    ensures BracketFree(Neutralized(s, markers, r))
  {
    if markers != [] {
      NeutralizedKeepsBracketFree(s, markers[..|markers| - 1], r);
      ReplaceKeepsBracketFree(Neutralized(s, markers[..|markers| - 1], r), markers[|markers| - 1], r);
    }
  }

  // ---------- A pass, spelled out as a factorization ----------

  /** `gaps[0] + hits[0] + gaps[1] + ... + hits[n-1] + gaps[n]` */
  function Weave(gaps: seq<string>, hits: seq<string>): string
    requires |gaps| == |hits| + 1
  {
    if hits == [] then gaps[0] else gaps[0] + hits[0] + Weave(gaps[1..], hits[1..])
  }

  ghost predicate Matches(hit: string, m: string) {
    |hit| == |m| && forall k :: 0 <= k < |m| ==> Lower(hit[k]) == m[k]
  }

  /** The text is cut at its leftmost non-overlapping matches. */
  ghost predicate Factors(s: string, m: string, gaps: seq<string>, hits: seq<string>) {
    && |gaps| == |hits| + 1
    && s == Weave(gaps, hits)
    && (forall k :: 0 <= k < |hits| ==> Matches(hits[k], m))
    && (forall k :: 0 <= k < |hits| ==> Find(Weave(gaps[k..], hits[k..]), m) == Some(|gaps[k]|))
    && Find(gaps[|hits|], m).None?
  }

  lemma WeaveCons(gap: string, hit: string, gaps: seq<string>, hits: seq<string>)
    requires |gaps| == |hits| + 1
    ensures Weave([gap] + gaps, [hit] + hits) == gap + hit + Weave(gaps, hits)
  {
    assert ([gap] + gaps)[1..] == gaps && ([hit] + hits)[1..] == hits;
  }

  lemma FactorsCons(s: string, m: string, gap: string, hit: string, gaps: seq<string>, hits: seq<string>)
    requires |gaps| == |hits| + 1 && s == gap + hit + Weave(gaps, hits)
    requires Matches(hit, m) && Find(s, m) == Some(|gap|)
    requires Factors(Weave(gaps, hits), m, gaps, hits)
    ensures Factors(s, m, [gap] + gaps, [hit] + hits)
  {
    var gaps', hits' := [gap] + gaps, [hit] + hits;
    WeaveCons(gap, hit, gaps, hits);
    forall k | 0 <= k < |hits'|
      ensures Matches(hits'[k], m) && Find(Weave(gaps'[k..], hits'[k..]), m) == Some(|gaps'[k]|)
    {
      if k == 0 {
        assert gaps'[0..] == gaps' && hits'[0..] == hits';
      } else {
        assert gaps'[k..] == gaps[k - 1..] && hits'[k..] == hits[k - 1..];
      }
    }
  }

  lemma FoundMatches(s: string, m: string)
    requires Find(s, m).Some?
    ensures var v := Find(s, m).value; Matches(s[v..v + |m|], m)
  {
    FindIsLeftmost(s, m, 0);
    var v := Find(s, m).value;
    assert forall i {:trigger s[v..v + |m|][i]} :: 0 <= i < |m| ==> s[v..v + |m|][i] == s[v + i];
  }

  function Repeat(r: string, n: nat): (copies: seq<string>)
    ensures |copies| == n
  {
    if n == 0 then [] else [r] + Repeat(r, n - 1)
  }

  /** A pass replaces the leftmost non-overlapping matches, and keeps the rest. */
  lemma {:induction false} PassFactors(s: string, m: Marker, r: Replacement) returns (gaps: seq<string>, hits: seq<string>)
    ensures Factors(s, m, gaps, hits)
    ensures ReplaceAll(s, m, r) == Weave(gaps, Repeat(r, |hits|))
    decreases |s|
  {
    var at := Find(s, m);
    if at.None? {
      gaps, hits := [s], [];
    } else {
      var gap, hit, rest := s[..at.value], s[at.value..at.value + |m|], s[at.value + |m|..];
      FoundMatches(s, m);
      var gaps', hits' := PassFactors(rest, m, r);
      CutTwice(s, at.value, at.value + |m|);
      FactorsCons(s, m, gap, hit, gaps', hits');
      gaps, hits := [gap] + gaps', [hit] + hits';
      WeaveCons(gap, r, gaps', Repeat(r, |hits'|));
    }
  }
}
