/**
 * `cleanSnippet`: collapses every whitespace run to one space, trims, and
 * truncates to `maxLen` characters plus an ellipsis.
 */
module Snippets {
  import opened Strings

  /** Every whitespace character is a plain space and no two are adjacent. */
  predicate SingleSpaced(s: string) {
    && (forall i :: 0 <= i < |s| ==> IsSpace(s[i]) ==> s[i] == ' ')
    && (forall i :: 0 <= i < |s| - 1 ==> !(IsSpace(s[i]) && IsSpace(s[i + 1])))
  }

  /** What `replace(/\s+/g, ' ').trim()` produces: single-spaced, no whitespace at either end. */
  predicate IsClean(s: string) {
    SingleSpaced(s) && (s == [] || (!IsSpace(s[0]) && !IsSpace(s[|s| - 1])))
  }

  /** The non-whitespace characters of `s`, in order: the text's content. */
  function NonSpace(s: string): (r: string)
    ensures |r| <= |s|
  {
    if s == [] then ""
    else if IsSpace(s[0]) then NonSpace(s[1..])
    else [s[0]] + NonSpace(s[1..])
  }

  /** `s.replace(/\s+/g, ' ')`. */
  function Collapse(s: string): (r: string)
    ensures |r| <= |s|
    ensures r == [] <==> s == []
    ensures r != [] ==> (IsSpace(r[0]) <==> IsSpace(s[0]))
    decreases |s|
  {
    if s == [] then ""
    else if IsSpace(s[0]) then " " + Collapse(TrimStart(s[1..]))
    else [s[0]] + Collapse(s[1..])
  }

  /** `cleanSnippet(text, maxLen)`; the empty text gives the empty snippet. */
  function CleanSnippet(text: string, maxLen: nat): (r: string)
    ensures |r| <= maxLen + 3
  {
    var cleaned := Trim(Collapse(text));
    if |cleaned| <= maxLen then cleaned
    else Trim(cleaned[..maxLen]) + "..."
  }

  lemma {:induction false} NonSpaceAppend(a: string, b: string)
    ensures NonSpace(a + b) == NonSpace(a) + NonSpace(b)
    decreases |a|
  {
    if a == [] {
      assert a + b == b;
    } else {
      assert (a + b)[1..] == a[1..] + b;
      NonSpaceAppend(a[1..], b);
    }
  }

  lemma {:induction false} NonSpaceBlank(s: string, lo: nat, hi: nat)
    requires lo <= hi <= |s|
    requires forall i :: lo <= i < hi ==> IsSpace(s[i])
    ensures NonSpace(s[lo..hi]) == ""
    decreases hi - lo
  {
    if lo < hi {
      var t := s[lo..hi];
      assert t[0] == s[lo];
      assert t[1..] == s[lo + 1..hi];
      NonSpaceBlank(s, lo + 1, hi);
    }
  }

  lemma NonSpaceThree(pre: string, mid: string, post: string)
    ensures NonSpace(pre + mid + post) == NonSpace(pre) + NonSpace(mid) + NonSpace(post)
  {
    NonSpaceAppend(pre + mid, post);
    NonSpaceAppend(pre, mid);
  }

  lemma SliceThree(s: string, a: nat, b: nat)
    requires a <= b <= |s|
    ensures s == s[0..a] + s[a..b] + s[b..|s|]
  {
  }

  /** Whitespace around a text adds nothing to its content. */
  lemma NonSpaceSpacesAround(s: string, a: nat, b: nat)
    requires a <= b <= |s|
    requires forall i :: 0 <= i < a ==> IsSpace(s[i])
    requires forall i :: b <= i < |s| ==> IsSpace(s[i])
    ensures NonSpace(s[a..b]) == NonSpace(s)
  {
    SliceThree(s, a, b);
    NonSpaceThree(s[0..a], s[a..b], s[b..|s|]);
    NonSpaceBlank(s, 0, a);
    NonSpaceBlank(s, b, |s|);
  }

  lemma NonSpaceTrimStart(s: string)
    ensures NonSpace(TrimStart(s)) == NonSpace(s)
  {
    NonSpaceSpacesAround(s, |s| - |TrimStart(s)|, |s|);
  }

  lemma NonSpaceTrim(s: string)
    ensures NonSpace(Trim(s)) == NonSpace(s)
  {
    var t := TrimStart(s);
    NonSpaceTrimStart(s);
    NonSpaceSpacesAround(t, 0, |TrimEnd(t)|);
  }

  /** Collapsing whitespace keeps every other character, in order. */
  lemma {:induction false} CollapseKeepsContent(s: string)
    ensures NonSpace(Collapse(s)) == NonSpace(s)
    decreases |s|
  {
    if s != [] {
      if IsSpace(s[0]) {
        var t := TrimStart(s[1..]);
        CollapseKeepsContent(t);
        NonSpaceTrimStart(s[1..]);
        NonSpaceAppend(" ", Collapse(t));
      } else {
        CollapseKeepsContent(s[1..]);
        NonSpaceAppend([s[0]], Collapse(s[1..]));
      }
    }
  }

  /** A character put in front of a single-spaced text that does not start a whitespace pair keeps it single-spaced. */
  lemma SingleSpacedCons(c: char, r: string)
    requires SingleSpaced(r)
    requires IsSpace(c) ==> c == ' ' && (r == [] || !IsSpace(r[0]))
    ensures SingleSpaced([c] + r)
  {
    var t := [c] + r;
    forall i | 0 <= i < |t| ensures IsSpace(t[i]) ==> t[i] == ' ' {
      if i > 0 { assert t[i] == r[i - 1]; }
    }
    forall i | 0 <= i < |t| - 1 ensures !(IsSpace(t[i]) && IsSpace(t[i + 1])) {
      if i > 0 { assert t[i] == r[i - 1] && t[i + 1] == r[i]; }
    }
  }

  /** Collapsing leaves only single plain spaces. */
  lemma {:induction false} CollapseSingleSpaced(s: string)
    ensures SingleSpaced(Collapse(s))
    decreases |s|
  {
    if s != [] {
      if IsSpace(s[0]) {
        var t := TrimStart(s[1..]);
        CollapseSingleSpaced(t);
        SingleSpacedCons(' ', Collapse(t));
      } else {
        CollapseSingleSpaced(s[1..]);
        SingleSpacedCons(s[0], Collapse(s[1..]));
      }
    }
  }

  /** `Trim(s)` is a contiguous piece of `s`. */
  lemma TrimIsSlice(s: string) returns (a: nat, b: nat)
    ensures a <= b <= |s| && Trim(s) == s[a..b]
  {
    var t := TrimStart(s);
    a := |s| - |t|;
    var u := TrimEnd(t);
    b := a + |u|;
    SliceOfSlice(s, a, |u|);
  }

  lemma SliceOfSlice(s: string, a: nat, n: nat)
    requires a + n <= |s|
    ensures s[a..][..n] == s[a..a + n]
  {
  }

  lemma SingleSpacedSlice(s: string, a: nat, b: nat)
    requires SingleSpaced(s) && a <= b <= |s|
    ensures SingleSpaced(s[a..b])
  {
    var t := s[a..b];
    forall i | 0 <= i < |t| - 1 ensures !(IsSpace(t[i]) && IsSpace(t[i + 1])) {
      assert t[i] == s[a + i] && t[i + 1] == s[a + i + 1];
    }
  }

  /** Collapsing whitespace keeps the words, in order. */
  lemma {:induction false} CollapseWords(s: string)
    ensures Words(Collapse(s)) == Words(s)
    decreases |s|
  {
    if s != [] {
      var y := s[1..];
      assert s == [s[0]] + y;
      if IsSpace(s[0]) {
        var u := TrimStart(y);
        CollapseWords(u);
        WordsSpaceCons(' ', Collapse(u));
        assert " " + Collapse(u) == [' '] + Collapse(u);
        WordsTrimStart(y);
        WordsSpaceCons(s[0], y);
      } else {
        var x := Collapse(y);
        CollapseWords(y);
        if y == [] || IsSpace(y[0]) {
          WordsAlone(s[0], x);
          WordsAlone(s[0], y);
        } else {
          WordsJoin(s[0], x);
          WordsJoin(s[0], y);
        }
      }
    }
  }

  /** `replace(/\s+/g, ' ')` turns every whitespace run into one plain space: only single spaces are left, between the same words. */
  lemma CollapseMeaning(s: string)
    ensures SingleSpaced(Collapse(s)) && Words(Collapse(s)) == Words(s)
  {
    CollapseSingleSpaced(s);
    CollapseWords(s);
  }

  /** A clean text is its words joined by single spaces. */
  lemma {:induction false} CleanJoin(r: string)
    requires IsClean(r)
    ensures Join(Words(r), " ") == r
    decreases |r|
  {
    if r != [] {
      TrimStartNone(r);
      var k := SpaceIndex(r);
      WordsStep(r, r, k);
      if k == |r| {
        assert r[..k] == r && r[k..] == [];
      } else {
        var rest := r[k + 1..];
        CleanRest(r, k);
        CleanJoin(rest);
        CleanJoinStep(r, k, rest);
      }
    }
  }

  /** The step of `CleanJoin`: the first word, one space, and the rest rejoined. */
  lemma CleanJoinStep(r: string, k: nat, rest: string)
    requires IsClean(r) && r != [] && k == SpaceIndex(r) && k + 1 < |r| && r[k] == ' ' && rest == r[k + 1..]
    requires IsClean(rest) && Join(Words(rest), " ") == rest
    ensures Join(Words(r), " ") == r
  {
    TrimStartNone(r);
    WordsStep(r, r, k);
    SliceHead(r, k);
    WordsSpaceCons(r[k], rest);
    var ws := Words(rest);
    assert ws != [];
    JoinCons(r[..k], ws, " ");
    SliceAround(r, k);
  }

  lemma SliceHead(s: string, k: nat)
    requires k < |s|
    ensures s[k..] == [s[k]] + s[k + 1..]
  {
  }

  /** After the first word of a clean text with more than one word: one plain space, then a clean text. */
  lemma CleanRest(r: string, k: nat)
    requires IsClean(r) && r != [] && k == SpaceIndex(r) < |r|
    ensures r[k] == ' ' && k + 1 < |r| && IsClean(r[k + 1..])
  {
    assert k + 1 < |r|;
    SingleSpacedSlice(r, k + 1, |r|);
    assert r[k + 1..|r|] == r[k + 1..];
    assert r[k + 1..][0] == r[k + 1];
  }

  /** The collapsed and trimmed text is the text's words joined by single spaces. */
  lemma CleanedWords(text: string)
    ensures Trim(Collapse(text)) == Join(Words(text), " ")
  {
    CleanedText(text);
    CleanJoin(Trim(Collapse(text)));
    WordsTrim(Collapse(text));
    CollapseWords(text);
  }

  /** Trimming a single-spaced text gives a clean text. */
  lemma TrimClean(s: string)
    requires SingleSpaced(s)
    ensures IsClean(Trim(s))
  {
    var a, b := TrimIsSlice(s);
    SingleSpacedSlice(s, a, b);
  }

  lemma {:induction false} CollapseFixpoint(s: string)
    requires SingleSpaced(s)
    ensures Collapse(s) == s
    decreases |s|
  {
    if s != [] {
      SingleSpacedSlice(s, 1, |s|);
      CollapseFixpoint(s[1..]);
      if IsSpace(s[0]) && |s| > 1 {
        assert !IsSpace(s[1..][0]);
      }
    }
  }

  /** A clean text is left as it is by collapsing and trimming. */
  lemma CleanFixpoint(s: string)
    requires IsClean(s)
    ensures Trim(Collapse(s)) == s
  {
    CollapseFixpoint(s);
    if s != [] {
      TrimUnspaced(s);
    }
  }

  /** The collapsed and trimmed text is clean and keeps all the content. */
  lemma CleanedText(text: string)
    ensures IsClean(Trim(Collapse(text)))
    ensures NonSpace(Trim(Collapse(text))) == NonSpace(text)
  {
    CollapseSingleSpaced(text);
    TrimClean(Collapse(text));
    CleanedContent(text);
  }

  lemma CleanedContent(text: string)
    ensures NonSpace(Trim(Collapse(text))) == NonSpace(text)
  {
    CollapseKeepsContent(text);
    NonSpaceTrim(Collapse(text));
  }

  /** Cutting a clean text and trimming the cut gives a clean text whose content starts the original's. */
  lemma CutClean(cleaned: string, n: nat)
    requires IsClean(cleaned) && n <= |cleaned|
    ensures IsClean(Trim(cleaned[..n]))
    ensures StartsWith(NonSpace(cleaned), NonSpace(Trim(cleaned[..n])))
  {
    CutIsClean(cleaned, n);
    CutContent(cleaned, n);
  }

  lemma CutIsClean(cleaned: string, n: nat)
    requires SingleSpaced(cleaned) && n <= |cleaned|
    ensures IsClean(Trim(cleaned[..n]))
  {
    SingleSpacedSlice(cleaned, 0, n);
    assert cleaned[0..n] == cleaned[..n];
    TrimClean(cleaned[..n]);
  }

  lemma CutContent(cleaned: string, n: nat)
    requires n <= |cleaned|
    ensures StartsWith(NonSpace(cleaned), NonSpace(Trim(cleaned[..n])))
  {
    SliceTwo(cleaned, n);
    HeadContent(cleaned[..n], cleaned[n..]);
    NonSpaceTrim(cleaned[..n]);
  }

  lemma HeadContent(head: string, tail: string)
    ensures StartsWith(NonSpace(head + tail), NonSpace(head))
  {
    NonSpaceAppend(head, tail);
    PrefixStarts(NonSpace(head), NonSpace(tail));
  }

  lemma PrefixStarts(a: string, b: string)
    ensures StartsWith(a + b, a)
  {
    assert (a + b)[..|a|] == a;
  }

  /**
   * What `cleanSnippet` promises: the cleaned text is the text's words
   * joined by single spaces. A snippet that fits is that text, clean and with
   * all of the content; a longer one is its first `maxLen` characters trimmed,
   * a clean prefix of the content, followed by `...`.
   */
  lemma CleanSnippetMeaning(text: string, maxLen: nat)
    ensures var r := CleanSnippet(text, maxLen);
      var cleaned := Join(Words(text), " ");
      if |cleaned| <= maxLen then
        r == cleaned && IsClean(r) && NonSpace(r) == NonSpace(text)
      else
        r == Trim(cleaned[..maxLen]) + "..."
        && |r| >= 3 && r[|r| - 3..] == "..." && |r| - 3 <= maxLen
        && IsClean(r[..|r| - 3])
        && StartsWith(NonSpace(text), NonSpace(r[..|r| - 3]))
  {
    var cleaned := Trim(Collapse(text));
    CleanedText(text);
    CleanedWords(text);
    if |cleaned| > maxLen {
      CutClean(cleaned, maxLen);
      var r := CleanSnippet(text, maxLen);
      assert r[..|r| - 3] == Trim(cleaned[..maxLen]);
    }
  }

  /** Cleaning a snippet that fits a second time changes nothing. */
  lemma CleanSnippetIdempotent(text: string, maxLen: nat)
    requires |Trim(Collapse(text))| <= maxLen
    ensures CleanSnippet(CleanSnippet(text, maxLen), maxLen) == CleanSnippet(text, maxLen)
  {
    CollapseSingleSpaced(text);
    TrimClean(Collapse(text));
    CleanFixpoint(Trim(Collapse(text)));
  }

  /** Cleaning a text with some non-whitespace character gives a non-empty snippet. */
  lemma CleanSnippetNonEmpty(text: string, maxLen: nat)
    requires Trim(text) != ""
    ensures CleanSnippet(text, maxLen) != ""
  {
    NonSpaceStart(Trim(text));
    NonSpaceTrim(text);
    CleanedContent(text);
    NonSpaceEmpty(Trim(Collapse(text)));
  }

  lemma NonSpaceStart(t: string)
    requires t != [] && !IsSpace(t[0])
    ensures NonSpace(t) != ""
  {
    assert NonSpace(t) == [t[0]] + NonSpace(t[1..]);
  }

  lemma NonSpaceEmpty(t: string)
    requires NonSpace(t) != ""
    ensures t != []
  {
  }
}
