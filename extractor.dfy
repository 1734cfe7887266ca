/**
 * `extractPostData`: the per-card decision cascade that either discards a
 * card with a reason or builds a post from it.
 */
module Extractor {
  import opened Strings
  import opened Wrappers
  import opened Patterns
  import opened Snippets
  import opened Language
  import opened Keywords
  import opened Classifier
  import opened Posts

  /** The `discardReason` values. */
  datatype Discard = Activity | Repost | NoUrl | ShortSnippet | NoKeyword

  /** `{ post }` or `{ discardReason }`. */
  datatype Extraction = Accepted(post: Post) | Discarded(reason: Discard)

  const MIN_SNIPPET_LENGTH := 40
  const SNIPPET_MAX := 240
  const MAX_LIKES := 1000000
  const MAX_COMMENTS := 10000
  const LINKEDIN := "https://www.linkedin.com"
  const FEED_UPDATE := "https://www.linkedin.com/feed/update/"
  const ACTIVITY_URN := "urn:li:activity:"
  const DEFAULT_TITLE := "Publicaci\U{C3}\U{B3}n LinkedIn"
  const FALLBACK_SOURCE := "search_fallback"
  const FALLBACK_KEYWORD := "#esg+climatetech+sustainability"
  const FALLBACK_KEYWORD_ID := "global"

  // ----- numbers -----

  /** The end of the run of ASCII digits that starts at `i`. */
  function DigitEnd(s: string, i: nat): (e: nat)
    requires i <= |s|
    ensures i <= e <= |s|
    ensures forall k :: i <= k < e ==> IsDigit(s[k])
    ensures e == |s| || !IsDigit(s[e])
    decreases |s| - i
  {
    if i < |s| && IsDigit(s[i]) then DigitEnd(s, i + 1) else i
  }

  predicate AllDigits(s: string) {
    forall k :: 0 <= k < |s| ==> IsDigit(s[k])
  }

  /** `parseInt(s, 10)` of a string of digits. */
  function DigitsValue(s: string): nat
    requires AllDigits(s)
    decreases |s|
  {
    if s == [] then 0 else 10 * DigitsValue(s[..|s| - 1]) + (s[|s| - 1] as int - '0' as int)
  }

  /** The decimal digits of `n`, without leading zeros. */
  function NatDigits(n: nat): (s: string)
    ensures s != [] && AllDigits(s)
  {
    if n < 10 then [('0' as int + n) as char] else NatDigits(n / 10) + [('0' as int + n % 10) as char]
  }

  /** `text.match(/^[\s]*(\d+)/)`, read with `parseInt`. */
  function LeadingNumber(text: string): Option<nat> {
    var t := TrimStart(text);
    var e := DigitEnd(t, 0);
    DigitRun(t, 0);
    assert t[..e] == t[0..e];
    if e == 0 then None else Some(DigitsValue(t[..e]))
  }

  /** The run `DigitEnd` finds is all digits. */
  lemma DigitRun(t: string, i: nat)
    requires i <= |t|
    ensures AllDigits(t[i..DigitEnd(t, i)])
  {
    var e := DigitEnd(t, i);
    forall k | 0 <= k < e - i
      ensures IsDigit(t[i..e][k])
    {
      assert t[i..e][k] == t[i + k];
    }
  }

  /** The first digit run, from `i` on, that `\s*comment` follows in the lowercased text `t`. */
  function CommentCountFrom(t: string, i: nat): Option<nat>
    requires i <= |t|
    decreases |t| - i
  {
    if i == |t| then None
    else if IsDigit(t[i]) then
      var e := DigitEnd(t, i);
      DigitRun(t, i);
      var k := SkipSpaces(t, e);
      if StartsWith(t[k..], "comment") then Some(DigitsValue(t[i..e])) else CommentCountFrom(t, e)
    else CommentCountFrom(t, i + 1)
  }

  /** `text.match(/(\d+)\s*comment/i)`, read with `parseInt`. */
  function CommentCount(text: string): Option<nat> {
    CommentCountFrom(ToLower(text), 0)
  }

  /** `likes`: the reactions count if in range, otherwise the leading number of the counts text if in range, otherwise 0. */
  function Likes(card: Card): (n: nat)
    ensures n < MAX_LIKES
  {
    var fromSpan := if card.reactionsCount.Some? && 0 < card.reactionsCount.value < MAX_LIKES then card.reactionsCount.value else 0;
    if fromSpan != 0 then fromSpan
    else if card.socialCountsText.Some? then
      match LeadingNumber(card.socialCountsText.value)
      case Some(n) => if 0 < n < MAX_LIKES then n else 0
      case None => 0
    else 0
  }

  /** `comments`: the number before `comment` in the counts text if in range, otherwise 0. */
  function Comments(card: Card): (n: nat)
    ensures n < MAX_COMMENTS
  {
    if card.socialCountsText.Some? then
      match CommentCount(card.socialCountsText.value)
      case Some(n) => if 0 < n < MAX_COMMENTS then n else 0
      case None => 0
    else 0
  }

  // ----- URL strategies -----

  /** `cardText.match(/urn:li:activity:(\d+)/)[1]`, the leftmost match at or after `i`. */
  function ActivityIdFrom(text: string, i: nat): (r: Option<string>)
    ensures r.Some? ==> r.value != "" && AllDigits(r.value)
    decreases |text| - i
  {
    if i + |ACTIVITY_URN| >= |text| then None
    else if text[i..i + |ACTIVITY_URN|] == ACTIVITY_URN && IsDigit(text[i + |ACTIVITY_URN|]) then
      Some(text[i + |ACTIVITY_URN|..DigitEnd(text, i + |ACTIVITY_URN|)])
    else ActivityIdFrom(text, i + 1)
  }

  /** The first non-empty post link of the card. */
  function FirstPostHref(hrefs: seq<string>): (r: Option<string>)
    ensures r.Some? ==> r.value != "" && IsPostHref(r.value) && r.value in hrefs
    ensures r.None? <==> forall k :: 0 <= k < |hrefs| ==> hrefs[k] == "" || !IsPostHref(hrefs[k])
  {
    if hrefs == [] then None
    else if hrefs[0] != "" && IsPostHref(hrefs[0]) then Some(hrefs[0])
    else FirstPostHref(hrefs[1..])
  }

  /** The post URL, by the four strategies in order: card data-urn, post link, inner data-urn, activity id in the text. */
  function PostUrlOf(card: Card): Option<string> {
    if card.dataUrn.Some? && Contains(card.dataUrn.value, ACTIVITY_URN) then
      Some(FEED_UPDATE + card.dataUrn.value + "/")
    else
      match FirstPostHref(card.hrefs)
      case Some(h) => Some(if StartsWith(h, "http") then h else LINKEDIN + h)
      case None =>
        if card.innerUrn.Some? && card.innerUrn.value != "" then Some(FEED_UPDATE + card.innerUrn.value + "/")
        else
          match ActivityIdFrom(card.text, 0)
          case Some(id) => Some(FEED_UPDATE + ACTIVITY_URN + id + "/")
          case None => None
  }

  // ----- author, snippet, keyword -----

  /** The author: the first selector text longer than one character once trimmed, cut to its first line and trimmed. */
  function AuthorOf(texts: seq<string>): string {
    if texts == [] then ""
    else
      if AuthorText(texts[0]) then Trim(FirstLine(Trim(texts[0]))) else AuthorOf(texts[1..])
  }

  /** The first selector text longer than 20 characters once trimmed, cleaned; `""` when there is none. */
  function FirstSnippet(texts: seq<string>): (r: string)
    ensures |r| <= SNIPPET_MAX + 3
  {
    if texts == [] then ""
    else if SnippetText(texts[0]) then CleanSnippet(texts[0], SNIPPET_MAX)
    else FirstSnippet(texts[1..])
  }

  /** The snippet, falling back to the cleaned card text. */
  function SnippetOf(texts: seq<string>, cardText: string): (r: string)
    ensures |r| <= SNIPPET_MAX + 3
  {
    var found := FirstSnippet(texts);
    if found == "" then CleanSnippet(cardText, SNIPPET_MAX) else found
  }

  /** `source.startsWith('#') ? source.substring(1) : source`, as `scrapePage` computes it. */
  function HashtagOf(source: string): string {
    if StartsWith(source, "#") then source[1..] else source
  }

  /** `keyword` for a source. */
  function KeywordOf(source: string): string {
    if !StartsWith(source, "#") && source == FALLBACK_SOURCE then FALLBACK_KEYWORD else source
  }

  /** `keywordId` for a source. */
  function KeywordIdOf(source: string): string {
    if StartsWith(source, "#") then
      match FindByHashtag(KEYWORDS_CONFIG, ToLower(source[1..]))
      case Some(c) => c.id
      case None => ""
    else if source == FALLBACK_SOURCE then FALLBACK_KEYWORD_ID
    else ""
  }

  /** Whether the keyword filter applies and rejects the card. */
  predicate MissesKeyword(snippet: string, cardText: string, hashtag: string) {
    hashtag != "" && hashtag != FALLBACK_SOURCE && !ContainsKeyword(ToLower(snippet + " " + cardText), hashtag)
  }

  /** `extractPostData(card, source, hashtag)`. */
  function ExtractPostData(card: Card, source: string, hashtag: string): Extraction {
    if IsActivityCard(card.text) then Discarded(Activity)
    else if IsRepostCard(card) then Discarded(Repost)
    else
      match PostUrlOf(card)
      case None => Discarded(NoUrl)
      case Some(url) =>
        var author := AuthorOf(card.authorTexts);
        if author != "" && ProbableRepost(author, ProfileUrls(card.hrefs)) then Discarded(Repost)
        else
          var snippet := SnippetOf(card.snippetTexts, card.text);
          if |snippet| < MIN_SNIPPET_LENGTH then Discarded(ShortSnippet)
          else if MissesKeyword(snippet, card.text, hashtag) then Discarded(NoKeyword)
          else Accepted(BuildPost(card, url, author, snippet, source))
  }

  // ----- properties -----

  lemma {:induction false} DigitsValueOfNatDigits(n: nat)
    ensures DigitsValue(NatDigits(n)) == n
    decreases n
  {
    if n >= 10 {
      var s := NatDigits(n);
      DigitsValueOfNatDigits(n / 10);
      assert s[..|s| - 1] == NatDigits(n / 10);
    }
  }

  lemma {:induction false} TrimStartSpaces(a: string, b: string)
    requires forall k :: 0 <= k < |a| ==> IsSpace(a[k])
    requires b == [] || !IsSpace(b[0])
    ensures TrimStart(a + b) == b
    decreases |a|
  {
    if a != [] {
      assert (a + b)[1..] == a[1..] + b;
      TrimStartSpaces(a[1..], b);
    } else {
      assert a + b == b;
    }
  }

  lemma DigitEndOfRun(s: string, i: nat, e: nat)
    requires i <= e <= |s|
    requires forall k :: i <= k < e ==> IsDigit(s[k])
    requires e == |s| || !IsDigit(s[e])
    ensures DigitEnd(s, i) == e
  {
  }

  /** The likes pattern reads back a number written after leading whitespace. */
  lemma LeadingNumberReads(spaces: string, n: nat, rest: string)
    requires forall k :: 0 <= k < |spaces| ==> IsSpace(spaces[k])
    requires rest == [] || !IsDigit(rest[0])
    ensures LeadingNumber(spaces + NatDigits(n) + rest) == Some(n)
  {
    var d := NatDigits(n);
    var t := d + rest;
    assert spaces + d + rest == spaces + t;
    TrimStartSpaces(spaces, t);
    DigitEndOfRun(t, 0, |d|);
    assert t[..|d|] == d;
    DigitsValueOfNatDigits(n);
  }

  /** Text with no digit at all gives no likes number. */
  lemma LeadingNumberNeedsDigit(text: string)
    requires forall k :: 0 <= k < |text| ==> !IsDigit(text[k])
    ensures LeadingNumber(text) == None
  {
  }

  lemma LowerDigits(d: string)
    requires AllDigits(d)
    ensures ToLower(d) == d
  {
  }

  /** The comments pattern reads back a number directly followed, after optional whitespace, by `comment` in any case. */
  lemma CommentCountReads(n: nat, spaces: string, rest: string)
    requires forall k :: 0 <= k < |spaces| ==> IsSpace(spaces[k])
    ensures CommentCount(NatDigits(n) + spaces + "comment" + rest) == Some(n)
  {
    var d := NatDigits(n);
    LowerCommentText(d, spaces, rest);
    LowerSpaces(spaces);
    CommentCountAtStart(d, ToLower(spaces), "comment" + ToLower(rest));
    DigitsValueOfNatDigits(n);
  }

  /** Lowercasing digits, whitespace, `comment` and a rest lowercases only the whitespace and the rest. */
  lemma LowerCommentText(d: string, spaces: string, rest: string)
    requires AllDigits(d)
    ensures ToLower(d + spaces + "comment" + rest) == d + ToLower(spaces) + ("comment" + ToLower(rest))
  {
    ToLowerAppend(d + spaces + "comment", rest);
    ToLowerAppend(d + spaces, "comment");
    ToLowerAppend(d, spaces);
    LowerDigits(d);
    assert ToLower("comment") == "comment";
  }

  lemma LowerSpaces(spaces: string)
    requires forall k :: 0 <= k < |spaces| ==> IsSpace(spaces[k])
    ensures forall k :: 0 <= k < |ToLower(spaces)| ==> IsSpace(ToLower(spaces)[k])
  {
  }

  /** Digits, whitespace and then `comment` at the start of a text give the digits' value. */
  lemma CommentCountAtStart(d: string, sp: string, tail: string)
    requires d != [] && AllDigits(d)
    requires forall k :: 0 <= k < |sp| ==> IsSpace(sp[k])
    requires StartsWith(tail, "comment")
    ensures CommentCountFrom(d + sp + tail, 0) == Some(DigitsValue(d))
  {
    var t := d + sp + tail;
    var c := |d| + |sp|;
    assert t[0] == d[0];
    DigitEndOfRun(t, 0, |d|);
    assert t[c] == tail[0];
    SkipSpacesOfRun(t, |d|, c);
    assert t[c..] == tail;
    assert t[0..|d|] == d;
  }

  /** `urn:li:activity:` followed by digits yields those digits as the activity id. */
  lemma ActivityIdReads(d: string, rest: string)
    requires d != "" && AllDigits(d)
    requires rest == [] || !IsDigit(rest[0])
    ensures ActivityIdFrom(ACTIVITY_URN + d + rest, 0) == Some(d)
  {
    var t := ACTIVITY_URN + d + rest;
    var n := |ACTIVITY_URN|;
    assert t[0..n] == ACTIVITY_URN;
    assert t[n] == d[0];
    assert DigitEnd(t, n) == n + |d|;
    assert t[n..n + |d|] == d;
  }

  /** Any `urn:li:activity:<digit>` at or after `i` is found. */
  lemma {:induction false} ActivityIdFound(text: string, i: nat, j: nat)
    requires i <= j && j + |ACTIVITY_URN| < |text|
    requires text[j..j + |ACTIVITY_URN|] == ACTIVITY_URN && IsDigit(text[j + |ACTIVITY_URN|])
    ensures ActivityIdFrom(text, i).Some?
    decreases j - i
  {
    if i < j && !(text[i..i + |ACTIVITY_URN|] == ACTIVITY_URN && IsDigit(text[i + |ACTIVITY_URN|])) {
      ActivityIdFound(text, i + 1, j);
    }
  }

  /** A card whose text mentions an activity urn always yields a URL. */
  lemma UrnInTextGivesUrl(card: Card, j: nat)
    requires j + |ACTIVITY_URN| < |card.text|
    requires card.text[j..j + |ACTIVITY_URN|] == ACTIVITY_URN && IsDigit(card.text[j + |ACTIVITY_URN|])
    ensures PostUrlOf(card).Some?
  {
    ActivityIdFound(card.text, 0, j);
  }

  /** Every URL a strategy builds is absolute. */
  lemma PostUrlIsAbsolute(card: Card)
    requires PostUrlOf(card).Some?
    ensures StartsWith(PostUrlOf(card).value, "http")
  {
    if card.dataUrn.Some? && Contains(card.dataUrn.value, ACTIVITY_URN) {
      FeedUpdateAbsolute(card.dataUrn.value);
    } else if FirstPostHref(card.hrefs).Some? {
      var h := FirstPostHref(card.hrefs).value;
      if !StartsWith(h, "http") {
        LinkedInAbsolute(h);
      }
    } else if card.innerUrn.Some? && card.innerUrn.value != "" {
      FeedUpdateAbsolute(card.innerUrn.value);
    } else {
      FeedUpdateAbsolute(ACTIVITY_URN + ActivityIdFrom(card.text, 0).value);
      assert FEED_UPDATE + ACTIVITY_URN + ActivityIdFrom(card.text, 0).value + "/"
        == FEED_UPDATE + (ACTIVITY_URN + ActivityIdFrom(card.text, 0).value) + "/";
    }
  }

  lemma HttpStart(u: string)
    requires |u| >= 4 && u[0] == 'h' && u[1] == 't' && u[2] == 't' && u[3] == 'p'
    ensures StartsWith(u, "http")
  {
    assert u[..4] == "http";
  }

  lemma LinkedInAbsolute(rest: string)
    ensures StartsWith(LINKEDIN + rest, "http")
  {
    var u := LINKEDIN + rest;
    assert u[0] == LINKEDIN[0] && u[1] == LINKEDIN[1] && u[2] == LINKEDIN[2] && u[3] == LINKEDIN[3];
    HttpStart(u);
  }

  lemma FeedUpdateAbsolute(id: string)
    ensures StartsWith(FEED_UPDATE + id + "/", "http")
  {
    var u := FEED_UPDATE + id + "/";
    assert u[0] == FEED_UPDATE[0] && u[1] == FEED_UPDATE[1] && u[2] == FEED_UPDATE[2] && u[3] == FEED_UPDATE[3];
    HttpStart(u);
  }

  lemma NoNewlineInSlice(s: string, a: nat, b: nat)
    requires '\n' !in s && a <= b <= |s|
    ensures '\n' !in s[a..b]
  {
  }

  /** The first line of a trimmed text of two or more characters is non-empty once trimmed. */
  lemma FirstLineOfTrimmed(t: string)
    requires |t| > 1 && !IsSpace(t[0])
    ensures Trim(FirstLine(t)) != ""
    ensures '\n' !in Trim(FirstLine(t))
  {
    var f := FirstLine(t);
    assert IndexOf(t, '\n') > 0;
    assert f[0] == t[0];
    assert TrimStart(f) == f;
    var r := TrimEnd(f);
    assert '\n' !in f;
    NoNewlineInSlice(f, 0, |r|);
  }

  /** An author selector text that `extractPostData` accepts. */
  predicate AuthorText(text: string) {
    |Trim(text)| > 1
  }

  /** The author is found exactly when some author text is longer than one character once trimmed. */
  lemma {:induction false} AuthorOfFound(texts: seq<string>)
    ensures AuthorOf(texts) != "" <==> exists k :: 0 <= k < |texts| && AuthorText(texts[k])
    decreases |texts|
  {
    if texts != [] {
      if AuthorText(texts[0]) {
        FirstLineOfTrimmed(Trim(texts[0]));
      } else {
        AuthorOfFound(texts[1..]);
        assert forall k :: 0 < k < |texts| ==> texts[k] == texts[1..][k - 1];
      }
    }
  }

  /** The author is a single line with no whitespace at either end. */
  lemma {:induction false} AuthorOfShape(texts: seq<string>)
    ensures '\n' !in AuthorOf(texts)
    ensures var a := AuthorOf(texts); a == [] || (!IsSpace(a[0]) && !IsSpace(a[|a| - 1]))
    decreases |texts|
  {
    if texts != [] {
      if AuthorText(texts[0]) {
        FirstLineOfTrimmed(Trim(texts[0]));
      } else {
        AuthorOfShape(texts[1..]);
      }
    }
  }

  /** A snippet selector text that `extractPostData` accepts. */
  predicate SnippetText(text: string) {
    |Trim(text)| > 20
  }

  lemma {:induction false} FirstSnippetFinds(texts: seq<string>, k: nat)
    requires k < |texts| && SnippetText(texts[k])
    requires forall j :: 0 <= j < k ==> !SnippetText(texts[j])
    ensures FirstSnippet(texts) == CleanSnippet(texts[k], SNIPPET_MAX)
    decreases k
  {
    if k > 0 {
      assert forall j :: 0 <= j < k - 1 ==> texts[1..][j] == texts[j + 1];
      FirstSnippetFinds(texts[1..], k - 1);
    }
  }

  /** The snippet is the cleaned first selector text longer than 20 characters once trimmed. */
  lemma FirstSnippetSelects(texts: seq<string>, cardText: string, k: nat)
    requires k < |texts| && SnippetText(texts[k])
    requires forall j :: 0 <= j < k ==> !SnippetText(texts[j])
    ensures SnippetOf(texts, cardText) == CleanSnippet(texts[k], SNIPPET_MAX)
  {
    FirstSnippetFinds(texts, k);
    CleanSnippetNonEmpty(texts[k], SNIPPET_MAX);
  }

  /** Without such a selector text the snippet is the cleaned card text. */
  lemma {:induction false} SnippetFallsBack(texts: seq<string>, cardText: string)
    requires forall j :: 0 <= j < |texts| ==> !SnippetText(texts[j])
    ensures SnippetOf(texts, cardText) == CleanSnippet(cardText, SNIPPET_MAX)
    decreases |texts|
  {
    if texts != [] {
      assert forall j :: 0 <= j < |texts| - 1 ==> texts[1..][j] == texts[j + 1];
      SnippetFallsBack(texts[1..], cardText);
    }
  }

  /** Activity cards are discarded as activity, before anything else is looked at; nothing else is. */
  lemma ActivityFirst(card: Card, source: string, hashtag: string)
    ensures ExtractPostData(card, source, hashtag) == Discarded(Activity) <==> IsActivityCard(card.text)
  {
  }

  /** A card with a repost sign is discarded as a repost whatever its author, snippet or URL. */
  lemma RepostSignsDiscard(card: Card, source: string, hashtag: string)
    requires !IsActivityCard(card.text) && IsRepostCard(card)
    ensures ExtractPostData(card, source, hashtag) == Discarded(Repost)
  {
  }

  /** `no_url` is given exactly to cards with no activity, no repost sign and no URL by any strategy. */
  lemma NoUrlMeaning(card: Card, source: string, hashtag: string)
    ensures ExtractPostData(card, source, hashtag) == Discarded(NoUrl)
      <==> !IsActivityCard(card.text) && !IsRepostCard(card) && PostUrlOf(card).None?
  {
  }

  /** The fallback search and an empty hashtag never lose a card to the keyword filter. */
  lemma FallbackKeepsOffTopic(card: Card, source: string, hashtag: string)
    requires hashtag == "" || hashtag == FALLBACK_SOURCE
    ensures ExtractPostData(card, source, hashtag) != Discarded(NoKeyword)
  {
  }

  /** The post `extractPostData` builds once a card has passed every filter. */
  function BuildPost(card: Card, url: string, author: string, snippet: string, source: string): (p: Post)
    ensures p.reposts == 0 && p.total == p.likes + p.comments + p.reposts
    ensures p.likes < MAX_LIKES && p.comments < MAX_COMMENTS
    ensures p.title == (if author != "" then author else DEFAULT_TITLE)
    ensures p.url == url && p.author == author && p.snippet == snippet && !p.verified
    ensures p.language == DetectedLanguage(snippet)
  {
    var likes := Likes(card);
    var comments := Comments(card);
    Post(url, author, if author != "" then author else DEFAULT_TITLE, snippet,
      likes, comments, 0, likes + comments, KeywordOf(source), KeywordIdOf(source),
      DetectedLanguage(snippet), false)
  }

  /** The filters every post that `extractPostData` returns has passed. */
  lemma AcceptedPassedFilters(card: Card, source: string, hashtag: string)
    requires ExtractPostData(card, source, hashtag).Accepted?
    ensures var p := ExtractPostData(card, source, hashtag).post;
      && !IsActivityCard(card.text) && !IsRepostCard(card)
      && Some(p.url) == PostUrlOf(card)
      && p.author == AuthorOf(card.authorTexts)
      && !(p.author != "" && ProbableRepost(p.author, ProfileUrls(card.hrefs)))
      && p.snippet == SnippetOf(card.snippetTexts, card.text)
      && MIN_SNIPPET_LENGTH <= |p.snippet|
      && (hashtag == "" || hashtag == FALLBACK_SOURCE || ContainsKeyword(ToLower(p.snippet + " " + card.text), hashtag))
  {
  }

  /** What holds of every post that `extractPostData` returns. */
  lemma AcceptedPost(card: Card, source: string, hashtag: string)
    requires ExtractPostData(card, source, hashtag).Accepted?
    ensures var p := ExtractPostData(card, source, hashtag).post;
      && StartsWith(p.url, "http")
      && '\n' !in p.author
      && p.title == (if p.author != "" then p.author else DEFAULT_TITLE)
      && MIN_SNIPPET_LENGTH <= |p.snippet| <= SNIPPET_MAX + 3
      && p.likes < MAX_LIKES && p.comments < MAX_COMMENTS && p.reposts == 0
      && p.total == p.likes + p.comments + p.reposts
      && p.language == DetectedLanguage(p.snippet)
      && !p.verified
  {
    AcceptedPassedFilters(card, source, hashtag);
    PostUrlIsAbsolute(card);
    AuthorOfShape(card.authorTexts);
  }
}
