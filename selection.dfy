/**
 * The day's top 3: by total interactions when enough posts have metrics,
 * topped up or replaced by the longest snippets otherwise.
 */
module Selection {
  import opened Sorting
  import opened Posts

  const DAILY_COUNT := 3

  function Total(p: Post): int {
    p.total
  }

  function SnippetLength(p: Post): int {
    |p.snippet|
  }

  predicate HasMetrics(p: Post) {
    p.total > 0
  }

  predicate TextOnly(p: Post) {
    p.total == 0 && |p.snippet| > 0
  }

  /** `s.filter(f)`. */
  function Filter(s: seq<Post>, f: Post -> bool): (r: seq<Post>)
    ensures |r| <= |s|
  {
    if s == [] then [] else (if f(s[0]) then [s[0]] else []) + Filter(s[1..], f)
  }

  /** `postsWithMetrics`. */
  function WithMetrics(posts: seq<Post>): seq<Post> {
    Filter(posts, HasMetrics)
  }

  /** `postsWithoutMetrics`. */
  function WithoutMetrics(posts: seq<Post>): seq<Post> {
    Filter(posts, TextOnly)
  }

  function ByTotal(s: seq<Post>): seq<Post> {
    SortDesc(s, Total)
  }

  function BySnippet(s: seq<Post>): seq<Post> {
    SortDesc(s, SnippetLength)
  }

  /** The `top3` selection of `main`. */
  function SelectTop3(posts: seq<Post>): seq<Post> {
    var m := WithMetrics(posts);
    var w := WithoutMetrics(posts);
    if |m| >= DAILY_COUNT then Take(ByTotal(m), DAILY_COUNT)
    else if |m| > 0 then ByTotal(m) + Take(BySnippet(w), DAILY_COUNT - |m|)
    else if |w| > 0 then Take(BySnippet(w), DAILY_COUNT)
    else []
  }

  /** A filter keeps each element as often as it occurs, when it passes, and no other. */
  lemma {:induction false} FilterCount(s: seq<Post>, f: Post -> bool)
    ensures forall x :: multiset(Filter(s, f))[x] == if f(x) then multiset(s)[x] else 0
    decreases |s|
  {
    if s != [] {
      FilterCount(s[1..], f);
      assert s == [s[0]] + s[1..];
    }
  }

  lemma FilterMembers(s: seq<Post>, f: Post -> bool)
    ensures forall x :: x in Filter(s, f) <==> x in s && f(x)
  {
    FilterCount(s, f);
    forall x ensures x in Filter(s, f) <==> x in s && f(x) {
      assert x in Filter(s, f) <==> multiset(Filter(s, f))[x] > 0;
      assert x in s <==> multiset(s)[x] > 0;
    }
  }

  /** Posts with metrics and text-only posts never overlap, so together they are part of the input. */
  lemma GroupsArePart(posts: seq<Post>)
    ensures multiset(WithMetrics(posts)) + multiset(WithoutMetrics(posts)) <= multiset(posts)
  {
    FilterCount(posts, HasMetrics);
    FilterCount(posts, TextOnly);
  }

  lemma TakePart(s: seq<Post>, n: nat)
    ensures multiset(Take(s, n)) <= multiset(s)
  {
    var t := Take(s, n);
    assert s == t + s[|t|..];
  }

  /** At most three posts, and three whenever the two groups together hold three. */
  lemma Top3Size(posts: seq<Post>)
    ensures var n := |WithMetrics(posts)| + |WithoutMetrics(posts)|;
      |SelectTop3(posts)| == if n < DAILY_COUNT then n else DAILY_COUNT
  {
  }

  /** Every selected post is one of the day's posts, with metrics or with text, never repeated beyond its own count. */
  lemma Top3FromPosts(posts: seq<Post>)
    ensures multiset(SelectTop3(posts)) <= multiset(posts)
    ensures forall p :: p in SelectTop3(posts) ==> HasMetrics(p) || TextOnly(p)
  {
    var m := WithMetrics(posts);
    var w := WithoutMetrics(posts);
    var r := SelectTop3(posts);
    assert multiset(r) <= multiset(m) + multiset(w) by {
      SortDescCorrect(m, Total);
      SortDescCorrect(w, SnippetLength);
      if |m| >= DAILY_COUNT {
        TakePart(ByTotal(m), DAILY_COUNT);
      } else {
        TakePart(BySnippet(w), DAILY_COUNT - |m|);
      }
    }
    GroupsArePart(posts);
    forall p | p in r ensures HasMetrics(p) || TextOnly(p) {
      assert p in multiset(r);
      assert p in multiset(m) || p in multiset(w);
      FilterMembers(posts, HasMetrics);
      FilterMembers(posts, TextOnly);
    }
  }

  /**
   * With three or more posts with metrics the top 3 are three of them in
   * order of total, no post left out has a larger total than one kept, and
   * among equal totals the posts found first are taken first.
   */
  lemma Top3ByMetrics(posts: seq<Post>, q: Post)
    requires |WithMetrics(posts)| >= DAILY_COUNT
    requires q in posts && q !in SelectTop3(posts)
    ensures |SelectTop3(posts)| == DAILY_COUNT
    ensures SortedDesc(SelectTop3(posts), Total)
    ensures forall i :: 0 <= i < DAILY_COUNT ==> HasMetrics(SelectTop3(posts)[i]) && SelectTop3(posts)[i].total >= q.total
    ensures forall k :: PrefixOf(WithKey(SelectTop3(posts), Total, k), WithKey(WithMetrics(posts), Total, k))
  {
    forall k ensures PrefixOf(WithKey(SelectTop3(posts), Total, k), WithKey(WithMetrics(posts), Total, k)) {
      Top3Stable(posts, k);
    }
    var m := WithMetrics(posts);
    var r := Take(ByTotal(m), DAILY_COUNT);
    assert SelectTop3(posts) == r;
    SortDescCorrect(m, Total);
    TakeSorted(ByTotal(m), Total, DAILY_COUNT);
    FromMetrics(posts, r);
    if HasMetrics(q) {
      FilterMembers(posts, HasMetrics);
      SortDescMembers(m, Total);
      TakeBeatsRest(ByTotal(m), Total, DAILY_COUNT, q);
    }
  }

  /** Every post taken from the sorted posts with metrics has metrics. */
  lemma FromMetrics(posts: seq<Post>, r: seq<Post>)
    requires r == Take(ByTotal(WithMetrics(posts)), DAILY_COUNT)
    ensures forall i :: 0 <= i < |r| ==> HasMetrics(r[i])
  {
    TakeMembers(ByTotal(WithMetrics(posts)), DAILY_COUNT);
    SortDescMembers(WithMetrics(posts), Total);
    FilterMembers(posts, HasMetrics);
    assert forall i :: 0 <= i < |r| ==> r[i] in r;
  }

  /** Every post taken from the sorted text-only posts is text-only. */
  lemma FromTextOnly(posts: seq<Post>, n: nat, fill: seq<Post>)
    requires fill == Take(BySnippet(WithoutMetrics(posts)), n)
    ensures forall i :: 0 <= i < |fill| ==> TextOnly(fill[i])
  {
    TakeMembers(BySnippet(WithoutMetrics(posts)), n);
    SortDescMembers(WithoutMetrics(posts), SnippetLength);
    FilterMembers(posts, TextOnly);
    assert forall i :: 0 <= i < |fill| ==> fill[i] in fill;
  }

  lemma ConcatParts(a: seq<Post>, b: seq<Post>)
    ensures (a + b)[..|a|] == a && (a + b)[|a|..] == b
  {
  }

  /**
   * With one or two posts with metrics all of them come first, by total,
   * and the longest text-only snippets fill the remaining places.
   */
  lemma Top3Mixed(posts: seq<Post>)
    requires 0 < |WithMetrics(posts)| < DAILY_COUNT
    ensures var r := SelectTop3(posts);
      var m := WithMetrics(posts);
      && |m| <= |r|
      && SortedDesc(r[..|m|], Total) && multiset(r[..|m|]) == multiset(m)
      && SortedDesc(r[|m|..], SnippetLength)
      && (forall i :: |m| <= i < |r| ==> TextOnly(r[i]))
    ensures var r := SelectTop3(posts);
      var m := WithMetrics(posts);
      forall q :: TextOnly(q) && q in posts && q !in r[|m|..] ==>
        forall i :: |m| <= i < |r| ==> |r[i].snippet| >= |q.snippet|
    ensures var r := SelectTop3(posts);
      var m := WithMetrics(posts);
      forall k ::
        && WithKey(r[..|m|], Total, k) == WithKey(m, Total, k)
        && PrefixOf(WithKey(r[|m|..], SnippetLength, k), WithKey(WithoutMetrics(posts), SnippetLength, k))
  {
    var m := WithMetrics(posts);
    var w := WithoutMetrics(posts);
    var fill := Take(BySnippet(w), DAILY_COUNT - |m|);
    var r := SelectTop3(posts);
    assert r == ByTotal(m) + fill;
    ConcatParts(ByTotal(m), fill);
    forall k ensures WithKey(r[..|m|], Total, k) == WithKey(m, Total, k)
      && PrefixOf(WithKey(r[|m|..], SnippetLength, k), WithKey(w, SnippetLength, k))
    {
      Top3Stable(posts, k);
    }
    MixedFillLongest(posts, fill);
    assert SortedDesc(ByTotal(m), Total) && multiset(ByTotal(m)) == multiset(m) by {
      SortDescCorrect(m, Total);
    }
    assert SortedDesc(fill, SnippetLength) by {
      SortDescCorrect(w, SnippetLength);
      TakeSorted(BySnippet(w), SnippetLength, DAILY_COUNT - |m|);
    }
    FromTextOnly(posts, DAILY_COUNT - |m|, fill);
    MixedShape(ByTotal(m), fill, m);
  }

  /** No text-only post left out of the fill has a longer snippet than one in it. */
  lemma MixedFillLongest(posts: seq<Post>, fill: seq<Post>)
    requires 0 < |WithMetrics(posts)| < DAILY_COUNT
    requires fill == Take(BySnippet(WithoutMetrics(posts)), DAILY_COUNT - |WithMetrics(posts)|)
    ensures forall q :: TextOnly(q) && q in posts && q !in fill ==>
      forall i :: 0 <= i < |fill| ==> |fill[i].snippet| >= |q.snippet|
  {
    var w := WithoutMetrics(posts);
    FilterMembers(posts, TextOnly);
    SortDescCorrect(w, SnippetLength);
    SortDescMembers(w, SnippetLength);
    forall q | TextOnly(q) && q in posts && q !in fill
      ensures forall i :: 0 <= i < |fill| ==> |fill[i].snippet| >= |q.snippet|
    {
      TakeBeatsRest(BySnippet(w), SnippetLength, DAILY_COUNT - |WithMetrics(posts)|, q);
    }
  }

  /** The shape `Top3Mixed` promises, for posts by total followed by text-only posts by snippet length. */
  lemma MixedShape(a: seq<Post>, b: seq<Post>, m: seq<Post>)
    requires |a| == |m| && SortedDesc(a, Total) && multiset(a) == multiset(m)
    requires SortedDesc(b, SnippetLength) && forall i :: 0 <= i < |b| ==> TextOnly(b[i])
    ensures var r := a + b;
      && |m| <= |r|
      && SortedDesc(r[..|m|], Total) && multiset(r[..|m|]) == multiset(m)
      && SortedDesc(r[|m|..], SnippetLength)
      && (forall i :: |m| <= i < |r| ==> TextOnly(r[i]))
  {
    ConcatParts(a, b);
    var r := a + b;
    forall i | |m| <= i < |r| ensures TextOnly(r[i]) {
      assert r[i] == b[i - |a|];
    }
  }

  /** Without posts with metrics the top 3 are the three longest snippets, those found first first among equal lengths. */
  lemma Top3BySnippet(posts: seq<Post>, q: Post)
    requires |WithMetrics(posts)| == 0
    requires TextOnly(q) && q in posts && q !in SelectTop3(posts)
    ensures SortedDesc(SelectTop3(posts), SnippetLength)
    ensures forall i :: 0 <= i < |SelectTop3(posts)| ==> |SelectTop3(posts)[i].snippet| >= |q.snippet|
    ensures forall k :: PrefixOf(WithKey(SelectTop3(posts), SnippetLength, k), WithKey(WithoutMetrics(posts), SnippetLength, k))
  {
    forall k ensures PrefixOf(WithKey(SelectTop3(posts), SnippetLength, k), WithKey(WithoutMetrics(posts), SnippetLength, k)) {
      Top3Stable(posts, k);
    }
    var w := WithoutMetrics(posts);
    var r := Take(BySnippet(w), DAILY_COUNT);
    FilterMembers(posts, TextOnly);
    assert q in w;
    assert SelectTop3(posts) == r;
    SortDescCorrect(w, SnippetLength);
    TakeSorted(BySnippet(w), SnippetLength, DAILY_COUNT);
    SortDescMembers(w, SnippetLength);
    TakeBeatsRest(BySnippet(w), SnippetLength, DAILY_COUNT, q);
  }

  /**
   * `sort` is stable, so posts with the same total, or text-only posts with
   * snippets of the same length, keep the order in which they were collected:
   * of those with one key value, the selection takes the first ones found.
   */
  lemma Top3Stable(posts: seq<Post>, k: int)
    ensures var m := WithMetrics(posts);
      |m| >= DAILY_COUNT ==> PrefixOf(WithKey(SelectTop3(posts), Total, k), WithKey(m, Total, k))
    ensures var m := WithMetrics(posts);
      var r := SelectTop3(posts);
      0 < |m| < DAILY_COUNT ==>
        && |m| <= |r|
        && WithKey(r[..|m|], Total, k) == WithKey(m, Total, k)
        && PrefixOf(WithKey(r[|m|..], SnippetLength, k), WithKey(WithoutMetrics(posts), SnippetLength, k))
    ensures |WithMetrics(posts)| == 0 ==>
      PrefixOf(WithKey(SelectTop3(posts), SnippetLength, k), WithKey(WithoutMetrics(posts), SnippetLength, k))
  {
    var m := WithMetrics(posts);
    var w := WithoutMetrics(posts);
    if |m| >= DAILY_COUNT {
      TakeStable(m, Total, DAILY_COUNT, k);
    } else if |m| > 0 {
      var fill := Take(BySnippet(w), DAILY_COUNT - |m|);
      ConcatParts(ByTotal(m), fill);
      SortDescStable(m, Total, k);
      TakeStable(w, SnippetLength, DAILY_COUNT - |m|, k);
    } else {
      TakeStable(w, SnippetLength, DAILY_COUNT, k);
    }
  }

  /** Nothing is selected exactly when no post has metrics or any text. */
  lemma Top3Empty(posts: seq<Post>)
    ensures SelectTop3(posts) == [] <==> forall p :: p in posts ==> !HasMetrics(p) && !TextOnly(p)
  {
    FilterMembers(posts, HasMetrics);
    FilterMembers(posts, TextOnly);
    var m := WithMetrics(posts);
    var w := WithoutMetrics(posts);
    if m != [] {
      assert m[0] in m;
    }
    if w != [] {
      assert w[0] in w;
    }
  }
}
