/**
 * The regular expressions of the classifier, restricted to the one shape they
 * all have: an optional leading `\b`, literal words joined by `\s+`, and an
 * optional trailing `\b` or multiline `$`. With the `i` flag, matching is done
 * on lower-cased text against the lower-cased pattern.
 */
module Patterns {
  import opened Strings
  import opened Wrappers

  /** How a match has to end. */
  datatype End = Anywhere | WordBoundary | LineEnd

  /**
   * `[\b] w1 \s+ w2 \s+ ... wn [\b | $]`. Each word is literal text that does
   * not start with whitespace, so `\s+` consumes the whole whitespace run.
   */
  datatype Pattern = Pattern(boundaryBefore: bool, words: seq<string>, end: End)

  /** `\b` holds between positions `k - 1` and `k` of `t`. */
  predicate BoundaryAt(t: string, k: nat)
    requires k <= |t|
  {
    (k > 0 && IsWordChar(t[k - 1])) != (k < |t| && IsWordChar(t[k]))
  }

  /** The first position at or after `j` that is not whitespace. */
  function SkipSpaces(t: string, j: nat): (k: nat)
    requires j <= |t|
    ensures j <= k <= |t|
    ensures forall i :: j <= i < k ==> IsSpace(t[i])
    ensures k == |t| || !IsSpace(t[k])
    decreases |t| - j
  {
    if j < |t| && IsSpace(t[j]) then SkipSpaces(t, j + 1) else j
  }

  /** Where `w1 \s+ ... wn` matching from position `i` ends, if it matches there. */
  function MatchWords(t: string, i: nat, words: seq<string>): (r: Option<nat>)
    requires i <= |t|
    ensures r.Some? ==> i <= r.value <= |t|
    decreases |words|
  {
    if words == [] then Some(i)
    else if !StartsWith(t[i..], words[0]) then None
    else
      var j := i + |words[0]|;
      if |words| == 1 then Some(j)
      else if j < |t| && IsSpace(t[j]) then MatchWords(t, SkipSpaces(t, j), words[1..])
      else None
  }

  predicate EndsAt(t: string, e: nat, end: End)
    requires e <= |t|
  {
    match end
    case Anywhere => true
    case WordBoundary => BoundaryAt(t, e)
    case LineEnd => e == |t| || IsLineTerminator(t[e])
  }

  predicate MatchesAt(t: string, i: nat, p: Pattern)
    requires i <= |t|
  {
    && (!p.boundaryBefore || BoundaryAt(t, i))
    && var r := MatchWords(t, i, p.words);
       r.Some? && EndsAt(t, r.value, p.end)
  }

  function Lowered(p: Pattern): Pattern {
    Pattern(p.boundaryBefore, seq(|p.words|, k requires 0 <= k < |p.words| => ToLower(p.words[k])), p.end)
  }

  /** `p.test(text)` for a case-insensitive `p`. */
  predicate Test(p: Pattern, text: string) {
    var t := ToLower(text);
    exists i | 0 <= i <= |t| :: MatchesAt(t, i, Lowered(p))
  }

  /** Some pattern of the list matches: the source's `for (const pattern of ...) if (pattern.test(...)) return true`. */
  predicate TestAny(ps: seq<Pattern>, text: string) {
    exists k | 0 <= k < |ps| :: Test(ps[k], text)
  }

  /** One pattern of the list that matches is enough. */
  lemma TestAnyAt(ps: seq<Pattern>, k: nat, text: string)
    requires k < |ps| && Test(ps[k], text)
    ensures TestAny(ps, text)
  {
  }

  /** A match of the lowered pattern anywhere in the lowered text is a `test` hit. */
  lemma TestAt(p: Pattern, text: string, i: nat)
    requires i <= |ToLower(text)| && MatchesAt(ToLower(text), i, Lowered(p))
    ensures Test(p, text)
  {
  }

  /** A run of whitespace from `i` to `e`, followed by something else, is what `SkipSpaces` skips. */
  lemma SkipSpacesOfRun(t: string, i: nat, e: nat)
    requires i <= e <= |t|
    requires forall k :: i <= k < e ==> IsSpace(t[k])
    requires e == |t| || !IsSpace(t[e])
    ensures SkipSpaces(t, i) == e
    decreases e - i
  {
    if i < e {
      SkipSpacesOfRun(t, i + 1, e);
    }
  }

  /** A word that starts at `|a|` of `a + w + b` is where it is. */
  lemma WordStarts(a: string, w: string, b: string)
    ensures StartsWith((a + w + b)[|a|..], w)
  {
    assert (a + w + b)[|a|..][..|w|] == w;
  }

  /** `\bw\b` matches at the start of `w` when `w` stands between two boundaries. */
  lemma WordMatchAt(a: string, w: string, b: string)
    requires w != [] && IsWordChar(w[0]) && IsWordChar(w[|w| - 1])
    requires a == [] || !IsWordChar(a[|a| - 1])
    requires b == [] || !IsWordChar(b[0])
    ensures MatchesAt(a + w + b, |a|, Pattern(true, [w], WordBoundary))
  {
    var t := a + w + b;
    WordStarts(a, w, b);
    assert MatchWords(t, |a|, [w]) == Some(|a| + |w|);
    assert t[|a|] == w[0];
    if a != [] {
      assert t[|a| - 1] == a[|a| - 1];
    }
    assert t[|a| + |w| - 1] == w[|w| - 1];
    if b != [] {
      assert t[|a| + |w|] == b[0];
    }
  }

  lemma LoweredOneWord(w: string)
    ensures Lowered(Pattern(true, [w], WordBoundary)) == Pattern(true, [ToLower(w)], WordBoundary)
  {
    assert Lowered(Pattern(true, [w], WordBoundary)).words == [ToLower(w)];
  }

  /** Lowercasing keeps which end characters are word characters. */
  lemma LowerWordEnds(s: string)
    ensures |ToLower(s)| == |s|
    ensures s != [] ==> IsWordChar(ToLower(s)[0]) == IsWordChar(s[0])
    ensures s != [] ==> IsWordChar(ToLower(s)[|s| - 1]) == IsWordChar(s[|s| - 1])
  {
  }

  /** A one-word pattern `\bw\b` matches wherever `w` occurs between two boundaries. */
  lemma TestWordAt(w: string, pre: string, post: string)
    requires w != [] && !IsSpace(w[0])
    requires pre == [] || !IsWordChar(pre[|pre| - 1])
    requires post == [] || !IsWordChar(post[0])
    requires IsWordChar(w[0]) && IsWordChar(w[|w| - 1])
    ensures Test(Pattern(true, [w], WordBoundary), pre + w + post)
  {
    var lp, lw, lq := ToLower(pre), ToLower(w), ToLower(post);
    ToLowerAppend(pre + w, post);
    ToLowerAppend(pre, w);
    LowerWordEnds(pre);
    LowerWordEnds(w);
    LowerWordEnds(post);
    WordMatchAt(lp, lw, lq);
    LoweredOneWord(w);
    TestAt(Pattern(true, [w], WordBoundary), pre + w + post, |pre|);
  }
}
