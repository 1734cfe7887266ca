/**
 * The records the run produces: a collected post, a history entry as read
 * back from `history.json`, and the engagement score.
 */
module Posts {
  import opened Wrappers
  import opened Language
  import opened Urls

  /** A post as `extractPostData` returns it and the verification merge updates it. */
  datatype Post = Post(
    url: string,
    author: string,
    title: string,
    snippet: string,
    likes: nat,
    comments: nat,
    reposts: nat,
    total: nat,
    keyword: string,
    keywordId: string,
    language: Lang,
    verified: bool)

  /**
   * One element of the history array. Entries written by earlier runs are
   * read back from a file, so every field but the URL may be missing.
   */
  datatype Entry = Entry(
    url: string,
    author: Option<string>,
    title: Option<string>,
    snippet: Option<string>,
    likes: Option<int>,
    comments: Option<int>,
    reposts: Option<int>,
    total: Option<int>,
    keyword: Option<string>,
    keywordId: Option<string>,
    language: Option<string>,
    verified: Option<bool>,
    date: Option<string>)

  /** The deduplication key of a post: its normalized URL. */
  function PostKey(p: Post): string {
    NormalizeUrl(p.url)
  }

  /** The deduplication key of a history entry. */
  function EntryKey(e: Entry): string {
    NormalizeUrl(e.url)
  }

  function LangName(l: Lang): string {
    match l
    case EN => "EN"
    case ES => "ES"
  }

  /** `{ ...post, date }`. */
  function EntryOf(p: Post, date: string): (e: Entry)
    ensures e.url == p.url && e.date == Some(date)
  {
    Entry(p.url, Some(p.author), Some(p.title), Some(p.snippet), Some(p.likes as int), Some(p.comments as int),
      Some(p.reposts as int), Some(p.total as int), Some(p.keyword), Some(p.keywordId), Some(LangName(p.language)),
      Some(p.verified), Some(date))
  }

  /** `x || d` for a string field: a missing or empty value reads as `d`. */
  function OrText(x: Option<string>, d: string): (r: string)
    ensures x.Some? && x.value != "" ==> r == x.value
    ensures (x.None? || x.value == "") ==> r == d
  {
    if x.Some? && x.value != "" then x.value else d
  }

  /** `x || 0` for a number field: a missing value reads as 0. */
  function OrZero(x: Option<int>): (r: int)
    ensures x.Some? ==> r == x.value
    ensures x.None? ==> r == 0
  {
    if x.Some? then x.value else 0
  }
}
