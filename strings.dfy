/**
 * Character and string primitives with the meaning JavaScript gives them:
 * the whitespace class `\s` (also what `trim` strips), the word class `\w`,
 * `toLowerCase`, `includes`, `startsWith`, `split` on one character and `join`.
 */
module Strings {

  /** JavaScript's `\s`: the characters `String.prototype.trim` strips. */
  predicate IsSpace(c: char) {
    || c == ' ' || c == '\t' || c == '\n' || c == '\r' || c == '\U{B}' || c == '\U{C}'
    || c == '\U{A0}' || c == '\U{1680}' || ('\U{2000}' <= c <= '\U{200A}')
    || c == '\U{2028}' || c == '\U{2029}' || c == '\U{202F}' || c == '\U{205F}'
    || c == '\U{3000}' || c == '\U{FEFF}'
  }

  /** The line terminators a multiline `$` stops at. */
  predicate IsLineTerminator(c: char) {
    c == '\n' || c == '\r' || c == '\U{2028}' || c == '\U{2029}'
  }

  /** JavaScript's `\w` (without the `u` flag). */
  predicate IsWordChar(c: char) {
    ('a' <= c <= 'z') || ('A' <= c <= 'Z') || ('0' <= c <= '9') || c == '_'
  }

  predicate IsDigit(c: char) {
    '0' <= c <= '9'
  }

  /** `toLowerCase` on one character, exact for the range U+0000..U+00FF. */
  function Lower(c: char): (d: char)
    ensures IsWordChar(d) == IsWordChar(c)
    ensures IsSpace(d) == IsSpace(c)
    ensures IsDigit(d) == IsDigit(c)
    ensures IsLineTerminator(d) == IsLineTerminator(c)
    ensures !('A' <= d <= 'Z')
  {
    if ('A' <= c <= 'Z') || ('\U{C0}' <= c <= '\U{DE}' && c != '\U{D7}') then
      (c as int + 32) as char
    else
      c
  }

  function ToLower(s: string): (r: string)
    ensures |r| == |s|
    ensures forall i :: 0 <= i < |s| ==> r[i] == Lower(s[i])
  {
    seq(|s|, i requires 0 <= i < |s| => Lower(s[i]))
  }

  lemma LowerIdempotent(c: char)
    ensures Lower(Lower(c)) == Lower(c)
  {
  }

  lemma ToLowerIdempotent(s: string)
    ensures ToLower(ToLower(s)) == ToLower(s)
  {
    forall i | 0 <= i < |s| ensures ToLower(ToLower(s))[i] == ToLower(s)[i] {
      LowerIdempotent(s[i]);
    }
  }

  lemma ToLowerAppend(a: string, b: string)
    ensures ToLower(a + b) == ToLower(a) + ToLower(b)
  {
  }

  predicate StartsWith(s: string, p: string) {
    |p| <= |s| && s[..|p|] == p
  }

  /** `s.includes(sub)`. */
  predicate Contains(s: string, sub: string) {
    exists i | 0 <= i <= |s| :: StartsWith(s[i..], sub)
  }

  lemma ContainsAt(s: string, sub: string, i: nat)
    requires i + |sub| <= |s| && s[i..i + |sub|] == sub
    ensures Contains(s, sub)
  {
    assert StartsWith(s[i..], sub);
  }

  /** A text that contains `sub` still contains it with anything put around it. */
  lemma ContainsExtend(pre: string, s: string, post: string, sub: string)
    requires Contains(s, sub)
    ensures Contains(pre + s + post, sub)
  {
    var i :| 0 <= i <= |s| && StartsWith(s[i..], sub);
    var t := pre + s + post;
    assert t[|pre| + i..|pre| + i + |sub|] == s[i..i + |sub|];
    ContainsAt(t, sub, |pre| + i);
  }

  /** A text that contains `a + b` contains `a`. */
  lemma ContainsPrefix(s: string, a: string, b: string)
    requires Contains(s, a + b)
    ensures Contains(s, a)
  {
    var i :| 0 <= i <= |s| && StartsWith(s[i..], a + b);
    assert s[i..][..|a|] == (a + b)[..|a|] == a;
    assert StartsWith(s[i..], a);
  }

  /** `s.trimStart()`: drops the leading whitespace. */
  function TrimStart(s: string): (r: string)
    ensures |r| <= |s| && r == s[|s| - |r|..]
    ensures r == [] || !IsSpace(r[0])
    ensures forall i :: 0 <= i < |s| - |r| ==> IsSpace(s[i])
  {
    if s != [] && IsSpace(s[0]) then TrimStart(s[1..]) else s
  }

  /** `s.trimEnd()`: drops the trailing whitespace. */
  function TrimEnd(s: string): (r: string)
    ensures |r| <= |s| && r == s[..|r|]
    ensures r == [] || !IsSpace(r[|r| - 1])
    ensures forall i :: |r| <= i < |s| ==> IsSpace(s[i])
  {
    if s != [] && IsSpace(s[|s| - 1]) then TrimEnd(s[..|s| - 1]) else s
  }

  /** `s.trim()`. */
  function Trim(s: string): (r: string)
    ensures |r| <= |s|
    ensures r == [] || (!IsSpace(r[0]) && !IsSpace(r[|r| - 1]))
  {
    TrimEnd(TrimStart(s))
  }

  /** The index of the first `c` in `s`, or `|s|` when there is none. */
  function IndexOf(s: string, c: char): (k: nat)
    ensures k <= |s|
    ensures k < |s| ==> s[k] == c
    ensures forall i :: 0 <= i < k ==> s[i] != c
  {
    if s == [] then 0
    else if s[0] == c then 0
    else 1 + IndexOf(s[1..], c)
  }

  /** `s.split(c)` for a one-character separator. */
  function Split(s: string, c: char): (parts: seq<string>)
    ensures |parts| >= 1
    ensures parts[0] == s[..IndexOf(s, c)]
    decreases |s|
  {
    var k := IndexOf(s, c);
    if k == |s| then [s] else [s[..k]] + Split(s[k + 1..], c)
  }

  /** `parts.join(sep)`; the empty array joins to the empty string. */
  function Join(parts: seq<string>, sep: string): string {
    if parts == [] then ""
    else if |parts| == 1 then parts[0]
    else parts[0] + sep + Join(parts[1..], sep)
  }

  /** The index of the first whitespace character of `s`, or `|s|`. */
  function SpaceIndex(s: string): (k: nat)
    ensures k <= |s|
    ensures forall i :: 0 <= i < k ==> !IsSpace(s[i])
    ensures k < |s| ==> IsSpace(s[k])
  {
    if s == [] || IsSpace(s[0]) then 0 else 1 + SpaceIndex(s[1..])
  }

  /** A non-empty run of non-whitespace characters. */
  predicate IsWord(w: string) {
    w != "" && forall i :: 0 <= i < |w| ==> !IsSpace(w[i])
  }

  /**
   * The non-empty pieces of `s.split(/\s+/)`, in order: whitespace separates
   * words, and a non-whitespace character followed by another one belongs to
   * the same word.
   */
  function Words(s: string): (ws: seq<string>)
    ensures s != [] && !IsSpace(s[0]) ==> ws != []
    decreases |s|
  {
    if s == [] then []
    else if IsSpace(s[0]) then Words(s[1..])
    else
      var ws := Words(s[1..]);
      if |s| > 1 && !IsSpace(s[1]) then [[s[0]] + ws[0]] + ws[1..] else [[s[0]]] + ws
  }

  /** The words of a text are non-empty and contain no whitespace. */
  lemma {:induction false} WordsAreWords(s: string)
    ensures forall k :: 0 <= k < |Words(s)| ==> IsWord(Words(s)[k])
    decreases |s|
  {
    if s != [] {
      WordsAreWords(s[1..]);
      if !IsSpace(s[0]) {
        var ws := Words(s[1..]);
        if |s| > 1 && !IsSpace(s[1]) {
          var w := [s[0]] + ws[0];
          assert IsWord(ws[0]);
          assert forall i :: 0 < i < |w| ==> w[i] == ws[0][i - 1];
          WordsCons(w, ws[1..]);
        } else {
          WordsCons([s[0]], ws);
        }
      }
    }
  }

  lemma WordsCons(w: string, rest: seq<string>)
    requires IsWord(w) && forall k :: 0 <= k < |rest| ==> IsWord(rest[k])
    ensures forall k :: 0 <= k < |[w] + rest| ==> IsWord(([w] + rest)[k])
  {
  }

  /** The text up to the first whitespace of a text that does not start with whitespace is a word. */
  lemma FirstWord(t: string)
    requires t != [] && !IsSpace(t[0])
    ensures 0 < SpaceIndex(t) && IsWord(t[..SpaceIndex(t)])
  {
  }

  /** `TrimStart` is the suffix after a leading whitespace run that ends at a non-whitespace character or the end. */
  lemma TrimStartIs(s: string, n: nat)
    requires n <= |s| && (forall i :: 0 <= i < n ==> IsSpace(s[i])) && (n == |s| || !IsSpace(s[n]))
    ensures TrimStart(s) == s[n..]
  {
  }

  /** A text that does not start with whitespace is its own `TrimStart`. */
  lemma TrimStartNone(s: string)
    requires s == [] || !IsSpace(s[0])
    ensures TrimStart(s) == s
  {
  }

  /** `SpaceIndex` is the end of a leading non-whitespace run that stops at whitespace or the end. */
  lemma SpaceIndexIs(s: string, n: nat)
    requires n <= |s| && (forall i :: 0 <= i < n ==> !IsSpace(s[i])) && (n == |s| || IsSpace(s[n]))
    ensures SpaceIndex(s) == n
  {
  }

  /** A text is its part before `n` followed by its part from `n`. */
  lemma SliceTwo(s: string, n: nat)
    requires n <= |s|
    ensures s == s[..n] + s[n..]
  {
  }

  /** The head and the tail of a sequence built by putting `a` in front of `x`. */
  lemma HeadTail<T>(a: T, x: seq<T>)
    ensures ([a] + x)[0] == a && ([a] + x)[1..] == x
  {
  }

  /** Leading whitespace adds no word. */
  lemma WordsSpaceCons(c: char, s: string)
    requires IsSpace(c)
    ensures Words([c] + s) == Words(s)
  {
    HeadTail(c, s);
  }

  /** A non-whitespace character before whitespace, or at the end, is a word of its own. */
  lemma WordsAlone(c: char, s: string)
    requires !IsSpace(c) && (s == [] || IsSpace(s[0]))
    ensures Words([c] + s) == [[c]] + Words(s)
  {
    HeadTail(c, s);
  }

  /** A non-whitespace character before a word joins that word. */
  lemma WordsJoin(c: char, s: string)
    requires !IsSpace(c) && s != [] && !IsSpace(s[0])
    ensures Words(s) != [] && Words([c] + s) == [[c] + Words(s)[0]] + Words(s)[1..]
  {
    HeadTail(c, s);
    assert ([c] + s)[1] == s[0];
  }

  /** Whitespace before the character at `n` adds no word. */
  lemma {:induction false} WordsLeading(s: string, n: nat)
    requires n <= |s| && forall i :: 0 <= i < n ==> IsSpace(s[i])
    ensures Words(s) == Words(s[n..])
    decreases n
  {
    if n > 0 {
      WordsLeading(s[1..], n - 1);
      assert s[1..][n - 1..] == s[n..];
    }
  }

  /** The words of a text are those of the text without its leading whitespace. */
  lemma WordsTrimStart(s: string)
    ensures Words(TrimStart(s)) == Words(s)
  {
    WordsLeading(s, |s| - |TrimStart(s)|);
  }

  /** A word followed by whitespace, or by nothing, is the first word. */
  lemma {:induction false} WordsWordThen(w: string, rest: string)
    requires IsWord(w) && (rest == [] || IsSpace(rest[0]))
    ensures Words(w + rest) == [w] + Words(rest)
    decreases |w|
  {
    var tail := w[1..] + rest;
    assert w + rest == [w[0]] + tail;
    if |w| == 1 {
      assert tail == rest;
      WordsAlone(w[0], rest);
      assert [w[0]] == w;
    } else {
      WordsWordThen(w[1..], rest);
      assert tail[0] == w[1];
      WordsJoin(w[0], tail);
      HeadTail(w[1..], Words(rest));
      assert [w[0]] + w[1..] == w;
    }
  }

  /** One unfolding of `Words`: the first word runs from the first non-whitespace character to the next whitespace. */
  lemma WordsStep(s: string, t: string, k: nat)
    requires t == TrimStart(s) && t != [] && k == SpaceIndex(t)
    ensures Words(s) == [t[..k]] + Words(t[k..])
  {
    WordsTrimStart(s);
    FirstWord(t);
    SliceTwo(t, k);
    WordsWordThen(t[..k], t[k..]);
  }

  /** Whitespace alone has no words. */
  lemma {:induction false} WordsBlank(b: string)
    requires forall i :: 0 <= i < |b| ==> IsSpace(b[i])
    ensures Words(b) == []
    decreases |b|
  {
    if b != [] {
      WordsBlank(b[1..]);
    }
  }

  /** Trailing whitespace adds no word. */
  lemma {:induction false} WordsSpacesAfter(a: string, b: string)
    requires forall i :: 0 <= i < |b| ==> IsSpace(b[i])
    ensures Words(a + b) == Words(a)
    decreases |a|
  {
    if a == [] {
      assert a + b == b;
      WordsBlank(b);
    } else {
      var tail := a[1..] + b;
      assert a + b == [a[0]] + tail;
      WordsSpacesAfter(a[1..], b);
      HeadTail(a[0], tail);
      HeadTail(a[0], a[1..]);
      if |a| == 1 {
        assert tail == b;
      } else {
        assert tail[0] == a[1];
      }
    }
  }

  /** The words of the trimmed text are those of the text. */
  lemma WordsTrim(s: string)
    ensures Words(Trim(s)) == Words(s)
  {
    var t := TrimStart(s);
    var u := TrimEnd(t);
    SliceTwo(t, |u|);
    WordsSpacesAfter(u, t[|u|..]);
    WordsTrimStart(s);
  }

  /** A text with a `c` splits into the piece before its first `c` and the split of the rest. */
  lemma SplitAt(s: string, c: char)
    requires IndexOf(s, c) < |s|
    ensures Split(s, c) == [s[..IndexOf(s, c)]] + Split(s[IndexOf(s, c) + 1..], c)
  {
  }

  /** Joining a first piece with the rest puts one separator between them. */
  lemma JoinCons(first: string, rest: seq<string>, sep: string)
    requires rest != []
    ensures Join([first] + rest, sep) == first + sep + Join(rest, sep)
  {
    assert ([first] + rest)[1..] == rest;
  }

  /** A text without `c` is its own split. */
  lemma SplitNone(s: string, c: char)
    requires IndexOf(s, c) == |s|
    ensures Split(s, c) == [s]
  {
  }

  /** Splitting on `c` and joining with `c` gives the text back. */
  lemma {:induction false} JoinSplit(s: string, c: char)
    ensures Join(Split(s, c), [c]) == s
    decreases |s|
  {
    var k := IndexOf(s, c);
    if k < |s| {
      var rest := s[k + 1..];
      JoinSplit(rest, c);
      JoinSplitStep(s, c, k, rest);
    } else {
      JoinSplitNone(s, c);
    }
  }

  /** The base case of `JoinSplit`: a text without `c` is one piece. */
  lemma JoinSplitNone(s: string, c: char)
    requires IndexOf(s, c) == |s|
    ensures Join(Split(s, c), [c]) == s
  {
    SplitNone(s, c);
  }

  /** The inductive step of `JoinSplit`: the first piece, a `c`, and the rest rejoined. */
  lemma JoinSplitStep(s: string, c: char, k: nat, rest: string)
    requires k == IndexOf(s, c) < |s| && rest == s[k + 1..]
    requires Join(Split(rest, c), [c]) == rest
    ensures Join(Split(s, c), [c]) == s
  {
    var first := s[..k];
    var tail := Split(rest, c);
    SplitAt(s, c);
    assert Split(s, c) == [first] + tail;
    JoinCons(first, tail, [c]);
    assert Join(Split(s, c), [c]) == first + [c] + rest;
    SliceAround(s, k);
  }

  /** A text is the part before index `k`, the character at `k`, and the part after it. */
  lemma SliceAround(s: string, k: nat)
    requires k < |s|
    ensures s == s[..k] + [s[k]] + s[k + 1..]
  {
  }

  /**
   * Everything after the first `c`, joined back with `c`, is the text after
   * the first `c`: `[first, ...rest] = s.split(c); rest.join(c)`.
   */
  lemma RestAfterFirst(s: string, c: char)
    ensures Join(Split(s, c)[1..], [c]) == if c in s then s[IndexOf(s, c) + 1..] else ""
  {
    var k := IndexOf(s, c);
    if k < |s| {
      var rest := s[k + 1..];
      SplitAt(s, c);
      assert Split(s, c)[1..] == Split(rest, c);
      JoinSplit(rest, c);
      assert c in s by { assert s[k] == c; }
    } else {
      SplitNone(s, c);
      assert Split(s, c)[1..] == [];
      assert c !in s;
    }
  }

  /** A text without whitespace at either end is its own trim. */
  lemma TrimUnspaced(s: string)
    requires s != [] && !IsSpace(s[0]) && !IsSpace(s[|s| - 1])
    ensures Trim(s) == s
  {
    var a := TrimStart(s);
    assert |a| == |s|;
    assert a == s;
    var b := TrimEnd(a);
    assert |b| == |a|;
  }

  /** `s.split('\n')[0]`. */
  function FirstLine(s: string): (r: string)
    ensures r == s[..IndexOf(s, '\n')]
  {
    Split(s, '\n')[0]
  }
}
