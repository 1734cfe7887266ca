/**
 * The all-time history: `mergeHistory` appends the day's top posts whose
 * normalized URL the history does not hold yet, stamped with the date, and
 * `generateTop10` ranks the whole history by `calcScore`.
 */
module History {
  import opened Wrappers
  import opened Urls
  import opened Sorting
  import opened Posts

  /** The normalized URLs already in a history. */
  function HistoryUrls(history: seq<Entry>): set<string> {
    Keys(history, EntryKey)
  }

  /** Each post as a history entry captured on `date`. */
  function Stamp(posts: seq<Post>, date: string): (r: seq<Entry>)
    ensures |r| == |posts|
    ensures forall i :: 0 <= i < |posts| ==> r[i] == EntryOf(posts[i], date)
  {
    seq(|posts|, i requires 0 <= i < |posts| => EntryOf(posts[i], date))
  }

  /** The entries `mergeHistory` appends to `history` for `newPosts`. */
  function Appended(history: seq<Entry>, newPosts: seq<Post>, date: string): seq<Entry> {
    Stamp(Dedupe(newPosts, PostKey, HistoryUrls(history)), date)
  }

  /** The history file's array, which `mergeHistory` extends in place. */
  class Log {
    var entries: seq<Entry>

    /** `loadHistory()`: the parsed array, or the empty one when the file is missing or unreadable. */
    constructor (loaded: seq<Entry>)
      ensures entries == loaded
    {
      entries := loaded;
    }

    /** `mergeHistory(history, newPosts, date)`. */
    method Merge(newPosts: seq<Post>, date: string)
      modifies this
      ensures entries == old(entries) + Appended(old(entries), newPosts, date)
    {
      var seen := set i | 0 <= i < |entries| :: NormalizeUrl(entries[i].url);
      ghost var seen0 := seen;
      assert seen0 == HistoryUrls(entries);
      ghost var entries0 := entries;
      var i := 0;
      assert newPosts[..0] == [];
      while i < |newPosts|
        invariant 0 <= i <= |newPosts|
        invariant entries == entries0 + Stamp(Dedupe(newPosts[..i], PostKey, seen0), date)
        invariant seen == seen0 + Keys(Dedupe(newPosts[..i], PostKey, seen0), PostKey)
      {
        ghost var kept := Dedupe(newPosts[..i], PostKey, seen0);
        var post := newPosts[i];
        var normalized := NormalizeUrl(post.url);
        MergeStep(newPosts, i, seen0, kept, seen);
        if normalized !in seen {
          seen := seen + {normalized};
          entries := entries + [EntryOf(post, date)];
          StampExtend(entries0, kept, post, date);
          KeysSnoc(kept, post, PostKey);
        }
        i := i + 1;
      }
      assert newPosts[..|newPosts|] == newPosts;
    }
  }

  /** One iteration of the merge loop, stated on the specification. */
  lemma MergeStep(posts: seq<Post>, i: nat, seen0: set<string>, kept: seq<Post>, seen: set<string>)
    requires i < |posts| && kept == Dedupe(posts[..i], PostKey, seen0) && seen == seen0 + Keys(kept, PostKey)
    ensures NormalizeUrl(posts[i].url) !in seen ==> Dedupe(posts[..i + 1], PostKey, seen0) == kept + [posts[i]]
    ensures NormalizeUrl(posts[i].url) in seen ==> Dedupe(posts[..i + 1], PostKey, seen0) == kept
  {
    assert posts[..i + 1] == posts[..i] + [posts[i]];
    DedupeSnoc(posts[..i], posts[i], PostKey, seen0);
  }

  lemma StampSnoc(posts: seq<Post>, p: Post, date: string)
    ensures Stamp(posts + [p], date) == Stamp(posts, date) + [EntryOf(p, date)]
  {
  }

  lemma StampExtend(entries: seq<Entry>, posts: seq<Post>, p: Post, date: string)
    ensures entries + Stamp(posts, date) + [EntryOf(p, date)] == entries + Stamp(posts + [p], date)
  {
    StampSnoc(posts, p, date);
    assert entries + Stamp(posts, date) + [EntryOf(p, date)] == entries + (Stamp(posts, date) + [EntryOf(p, date)]);
  }

  lemma StampKeys(posts: seq<Post>, date: string)
    ensures Keys(Stamp(posts, date), EntryKey) == Keys(posts, PostKey)
  {
    var s := Stamp(posts, date);
    assert forall i :: 0 <= i < |posts| ==> EntryKey(s[i]) == PostKey(posts[i]);
  }

  /** Merging no posts leaves the history as it is. */
  lemma MergeNothing(history: seq<Entry>, date: string)
    ensures Appended(history, [], date) == []
  {
  }

  /**
   * The appended entries carry the date, have distinct normalized URLs none
   * of which the history held, and come from the new posts in their order.
   */
  lemma AppendedFresh(history: seq<Entry>, newPosts: seq<Post>, date: string)
    ensures var a := Appended(history, newPosts, date);
      && (forall i :: 0 <= i < |a| ==> a[i].date == Some(date))
      && DistinctKeys(a, EntryKey)
      && Keys(a, EntryKey) !! HistoryUrls(history)
      && |a| <= |newPosts|
  {
    var kept := Dedupe(newPosts, PostKey, HistoryUrls(history));
    DedupeSound(newPosts, PostKey, HistoryUrls(history));
    StampKeys(kept, date);
    var a := Stamp(kept, date);
    assert forall i :: 0 <= i < |a| ==> EntryKey(a[i]) == PostKey(kept[i]);
  }

  /** After the merge every new post's normalized URL is in the history. */
  lemma MergeComplete(history: seq<Entry>, newPosts: seq<Post>, date: string)
    ensures HistoryUrls(history + Appended(history, newPosts, date)) == HistoryUrls(history) + Keys(newPosts, PostKey)
  {
    var kept := Dedupe(newPosts, PostKey, HistoryUrls(history));
    DedupeComplete(newPosts, PostKey, HistoryUrls(history));
    StampKeys(kept, date);
    KeysAppend(history, Stamp(kept, date), EntryKey);
  }

  /** A history without repeated URLs keeps that property through a merge. */
  lemma MergeKeepsDistinct(history: seq<Entry>, newPosts: seq<Post>, date: string)
    requires DistinctKeys(history, EntryKey)
    ensures DistinctKeys(history + Appended(history, newPosts, date), EntryKey)
  {
    AppendedFresh(history, newPosts, date);
    AppendDistinct(history, Appended(history, newPosts, date), EntryKey);
  }

  /** Merging the same posts a second time, on any date, adds nothing. */
  lemma MergeTwice(history: seq<Entry>, newPosts: seq<Post>, date: string, later: string)
    ensures Appended(history + Appended(history, newPosts, date), newPosts, later) == []
  {
    MergeComplete(history, newPosts, date);
    DedupeAllSeen(newPosts, PostKey, HistoryUrls(history + Appended(history, newPosts, date)));
  }

  // ----- top 10 -----

  /** An element of `top10.json`: a history entry with its missing fields defaulted. */
  datatype TopEntry = TopEntry(
    url: string,
    author: string,
    snippet: string,
    keyword: string,
    keywordId: string,
    language: string,
    date: string,
    likes: int,
    comments: int,
    reposts: int,
    total: int)

  const TOP_COUNT := 10

  /** The `map` step of `generateTop10`. */
  function ToTop(e: Entry): (t: TopEntry)
    ensures t.total == t.likes + t.comments + t.reposts
    ensures t.language != ""
  {
    var likes := OrZero(e.likes);
    var comments := OrZero(e.comments);
    var reposts := OrZero(e.reposts);
    TopEntry(e.url, OrText(e.author, ""), OrText(e.snippet, ""), OrText(e.keyword, ""), OrText(e.keywordId, ""),
      OrText(e.language, "EN"), OrText(e.date, ""), likes, comments, reposts, likes + comments + reposts)
  }

  function Tops(history: seq<Entry>): (r: seq<TopEntry>)
    ensures |r| == |history|
    ensures forall i :: 0 <= i < |history| ==> r[i] == ToTop(history[i])
  {
    seq(|history|, i requires 0 <= i < |history| => ToTop(history[i]))
  }

  /** `calcScore`: likes plus comments; reposts do not count. */
  function CalcScore(t: TopEntry): int {
    t.likes + t.comments
  }

  /** `generateTop10(history)`. */
  function GenerateTop10(history: seq<Entry>): seq<TopEntry> {
    Take(SortDesc(Tops(history), CalcScore), TOP_COUNT)
  }

  /** At most ten entries; exactly ten when the history has that many. */
  lemma Top10Size(history: seq<Entry>)
    ensures |GenerateTop10(history)| == if |history| < TOP_COUNT then |history| else TOP_COUNT
  {
  }

  /** The top 10 is ordered by score, highest first, and every entry in it comes from the history. */
  lemma Top10Ordered(history: seq<Entry>)
    ensures SortedDesc(GenerateTop10(history), CalcScore)
    ensures multiset(GenerateTop10(history)) <= multiset(Tops(history))
  {
    var s := SortDesc(Tops(history), CalcScore);
    SortDescCorrect(Tops(history), CalcScore);
    var r := GenerateTop10(history);
    assert s == r + s[|r|..];
  }

  /** No history entry left out of the top 10 scores higher than one in it. */
  lemma Top10Highest(history: seq<Entry>, k: nat)
    requires k < |history| && ToTop(history[k]) !in GenerateTop10(history)
    ensures forall i :: 0 <= i < |GenerateTop10(history)| ==>
      CalcScore(GenerateTop10(history)[i]) >= CalcScore(ToTop(history[k]))
  {
    var tops := Tops(history);
    var s := SortDesc(tops, CalcScore);
    var r := GenerateTop10(history);
    SortDescCorrect(tops, CalcScore);
    assert tops[k] in multiset(s);
    var j :| 0 <= j < |s| && s[j] == tops[k];
  }

  /** Entries with equal scores keep their history order: the oldest ones make the top 10 first. */
  lemma Top10Stable(history: seq<Entry>, score: int)
    ensures var w := WithKey(GenerateTop10(history), CalcScore, score);
      |w| <= |WithKey(Tops(history), CalcScore, score)| && w == WithKey(Tops(history), CalcScore, score)[..|w|]
  {
    var s := SortDesc(Tops(history), CalcScore);
    SortDescStable(Tops(history), CalcScore, score);
    WithKeyPrefix(s, CalcScore, score, |GenerateTop10(history)|);
  }
}
