/**
 * The card classifiers: `isActivityCard`, `isRepostByText`, `isRepostCard`
 * over an abstracted card, and `isProbableRepost` over the card's profile links.
 */
module Classifier {
  import opened Strings
  import opened Wrappers
  import opened Patterns
  import opened Urls

  /**
   * What the browser reports about one result card. Each `seq<string>` of
   * selector texts holds the inner text of every selector of the source's
   * list that found an element, in the list's order.
   */
  datatype Card = Card(
    text: string,                  // the card's innerText
    dataUrn: Option<string>,       // its data-urn attribute
    className: Option<string>,     // its class attribute
    dataIsRepost: Option<string>,  // its data-is-repost attribute
    hrefs: seq<string>,            // the href of every `a[href]` inside, in document order
    innerUrn: Option<string>,      // data-urn of the first descendant whose data-urn names an activity
    headerTexts: seq<string>,      // texts of the four header selectors
    hasEmbeddedUpdate: bool,       // one of the four embedded-update selectors found an element
    actorNameCount: nat,           // elements matched by the two actor-name selectors
    authorTexts: seq<string>,      // texts of the six author selectors
    snippetTexts: seq<string>,     // texts of the six commentary selectors
    reactionsCount: Option<int>,   // parseNumber of the reactions-count span, when there is one
    socialCountsText: Option<string>)  // text of the social-counts element, when there is one

  /** The activity patterns of `isActivityCard`, the Spanish ones first, then the English ones. */
  const ACTIVITY_PATTERNS: seq<Pattern> := SPANISH_ACTIVITY_PATTERNS + ENGLISH_ACTIVITY_PATTERNS

  /** The Spanish activity patterns; `[oÃ³]` is written as three patterns. */
  const SPANISH_ACTIVITY_PATTERNS: seq<Pattern> := [
    Pattern(true, ["coment\U{C3}\U{B3}"], WordBoundary),
    Pattern(true, ["coment\U{C3}\U{B3} en"], WordBoundary),
    Pattern(true, ["le gust\U{C3}\U{B3}"], WordBoundary),
    Pattern(true, ["reaccion\U{C3}\U{B3}"], WordBoundary),
    Pattern(true, ["celebr\U{C3}\U{B3}"], WordBoundary),
    Pattern(true, ["recomend\U{C3}\U{B3}"], WordBoundary),
    Pattern(true, ["respondio"], WordBoundary),
    Pattern(true, ["respondi\U{C3}"], WordBoundary),
    Pattern(true, ["respondi\U{B3}"], WordBoundary)
  ]

  const ENGLISH_ACTIVITY_PATTERNS: seq<Pattern> := [
    Pattern(true, ["commented on"], WordBoundary),
    Pattern(true, ["replied to"], WordBoundary),
    Pattern(true, ["liked"], WordBoundary),
    Pattern(true, ["likes this"], WordBoundary),
    Pattern(true, ["reacted to"], WordBoundary),
    Pattern(true, ["celebrated"], WordBoundary),
    Pattern(true, ["recommended"], WordBoundary),
    Pattern(true, ["follows"], WordBoundary),
    Pattern(true, ["found this interesting"], WordBoundary),
    Pattern(true, ["supports this"], WordBoundary),
    Pattern(true, ["loves this"], WordBoundary),
    Pattern(true, ["funny"], WordBoundary)
  ]

  /** The header patterns of `isRepostByText`. */
  const REPOST_TEXT_PATTERNS: seq<Pattern> := [
    Pattern(false, ["reposted", "this"], Anywhere),
    Pattern(false, ["reposted"], LineEnd),
    Pattern(true, ["reposted"], WordBoundary),
    Pattern(true, ["shared", "this"], WordBoundary),
    Pattern(true, ["shared", "a", "post"], WordBoundary),
    Pattern(true, ["comparti\U{C3}\U{B3}", "esto"], WordBoundary),
    Pattern(true, ["comparti\U{C3}\U{B3}", "una", "publicaci\U{C3}\U{B3}n"], WordBoundary),
    Pattern(true, ["ha", "compartido"], WordBoundary),
    Pattern(true, ["volvi\U{C3}\U{B3}", "a", "publicar"], WordBoundary)
  ]

  /** The patterns `isRepostCard` tries on each header element's text. */
  const HEADER_PATTERNS: seq<Pattern> := [
    Pattern(false, ["reposted"], Anywhere),
    Pattern(false, ["shared"], Anywhere),
    Pattern(false, ["comparti\U{C3}\U{B3}"], Anywhere),
    Pattern(false, ["ha compartido"], Anywhere),
    Pattern(false, ["volvi\U{C3}\U{B3} a publicar"], Anywhere)
  ]

  /**
   * The attribution patterns of `isRepostCard`. `\bde\s+@\w+` is written as
   * `\bde\s+@` followed by `\b`: after `@`, a boundary holds exactly when a
   * word character follows.
   */
  const ATTRIBUTION_PATTERNS: seq<Pattern> := [
    Pattern(true, ["via", "@"], Anywhere),
    Pattern(true, ["shared", "from"], WordBoundary),
    Pattern(true, ["originally", "posted", "by"], WordBoundary),
    Pattern(true, ["de", "@"], WordBoundary)
  ]

  const HEADER_LENGTH := 500

  /** `isActivityCard(cardText)`. */
  predicate IsActivityCard(cardText: string) {
    cardText != "" && TestAny(ACTIVITY_PATTERNS, cardText)
  }

  /** `cardText.substring(0, 500)`. */
  function Header(cardText: string): (h: string)
    ensures |h| == if |cardText| <= HEADER_LENGTH then |cardText| else HEADER_LENGTH
    ensures h == cardText[..|h|]
  {
    if |cardText| <= HEADER_LENGTH then cardText else cardText[..HEADER_LENGTH]
  }

  /** `isRepostByText(cardText)`: a repost pattern in the lowercased first 500 characters. */
  predicate IsRepostByText(cardText: string) {
    cardText != "" && TestAny(REPOST_TEXT_PATTERNS, ToLower(Header(cardText)))
  }

  /** A link `isRepostCard` and the URL strategy count as a post link. */
  predicate IsPostHref(href: string) {
    Contains(href, "/feed/update/") || Contains(href, "/posts/") || Contains(href, "urn:li:activity")
  }

  /** A link that points to a person or a company. */
  predicate IsProfileHref(href: string) {
    Contains(href, "/in/") || Contains(href, "/company/")
  }

  /** The non-empty hrefs satisfying `keep`, each cut at its first `?`, in order. */
  function NormalizedLinks(hrefs: seq<string>, keep: string -> bool): (r: seq<string>)
    ensures |r| <= |hrefs|
  {
    if hrefs == [] then []
    else
      var rest := NormalizedLinks(hrefs[1..], keep);
      if hrefs[0] != "" && keep(hrefs[0]) then [NormalizeUrl(hrefs[0])] + rest else rest
  }

  function Id(s: string): string { s }

  /** The distinct normalized post links of a card (`postUrls`). */
  function PostUrls(hrefs: seq<string>): seq<string> {
    Dedupe(NormalizedLinks(hrefs, IsPostHref), Id, {})
  }

  /** The distinct normalized profile links of a card (`profileUrls`). */
  function ProfileUrls(hrefs: seq<string>): seq<string> {
    Dedupe(NormalizedLinks(hrefs, IsProfileHref), Id, {})
  }

  /** `isRepostCard(card, cardText)`: any one of its eight signs. */
  predicate IsRepostCard(card: Card) {
    || IsRepostByText(card.text)
    || (exists k | 0 <= k < |card.headerTexts| :: TestAny(HEADER_PATTERNS, card.headerTexts[k]))
    || card.hasEmbeddedUpdate
    || (card.className.Some? && (Contains(card.className.value, "repost") || Contains(card.className.value, "reshare")))
    || card.dataIsRepost == Some("true")
    || card.actorNameCount > 1
    || TestAny(ATTRIBUTION_PATTERNS, card.text)
    || |PostUrls(card.hrefs)| > 1
  }

  // ----- isProbableRepost -----

  /**
   * The accent folding `isProbableRepost` applies after `toLowerCase`. Each
   * source class lists U+00C3 and one second character per vowel; U+00C3 is
   * taken by the first class, so the later ones are written without it.
   */
  function FoldAccent(c: char): char {
    if c in "\U{C3}\U{A1}\U{A0}\U{A4}\U{A2}" then 'a'
    else if c in "\U{A9}\U{A8}\U{AB}\U{AA}" then 'e'
    else if c in "\U{AD}\U{AC}\U{AF}\U{AE}" then 'i'
    else if c in "\U{B3}\U{B2}\U{B6}\U{B4}" then 'o'
    else if c in "\U{BA}\U{B9}\U{BC}\U{BB}" then 'u'
    else c
  }

  /** The characters `[a-z0-9\s]` that survive the last `replace`. */
  predicate IsNameChar(c: char) {
    ('a' <= c <= 'z') || ('0' <= c <= '9') || IsSpace(c)
  }

  function KeepNameChars(s: string): (r: string)
    ensures |r| <= |s|
    ensures forall i :: 0 <= i < |r| ==> IsNameChar(r[i])
  {
    if s == [] then ""
    else if IsNameChar(s[0]) then [s[0]] + KeepNameChars(s[1..])
    else KeepNameChars(s[1..])
  }

  /** `authorNormalized`. */
  function NormalizeAuthor(author: string): (r: string)
    ensures forall i :: 0 <= i < |r| ==> IsNameChar(r[i])
  {
    var lower := ToLower(author);
    KeepNameChars(seq(|lower|, i requires 0 <= i < |lower| => FoldAccent(lower[i])))
  }

  function LongWords(ws: seq<string>): (r: seq<string>)
    ensures forall k :: 0 <= k < |r| ==> |r[k]| > 2
  {
    if ws == [] then []
    else if |ws[0]| > 2 then [ws[0]] + LongWords(ws[1..])
    else LongWords(ws[1..])
  }

  /** `authorParts`: the words of the normalized name longer than two characters. */
  function AuthorParts(author: string): seq<string> {
    LongWords(Words(NormalizeAuthor(author)))
  }

  const COMPANY := "/company/"

  /** `url.match(/\/company\/([^/]+)/)[1]`, the leftmost match at or after `i`. */
  function SlugFrom(url: string, i: nat): (r: Option<string>)
    ensures r.Some? ==> r.value != "" && Contains(url, COMPANY + r.value)
    decreases |url| - i
  {
    if i + |COMPANY| >= |url| then None
    else if url[i..i + |COMPANY|] == COMPANY && url[i + |COMPANY|] != '/' then
      var rest := url[i + |COMPANY|..];
      var slug := rest[..IndexOf(rest, '/')];
      assert url[i..][..|COMPANY + slug|] == COMPANY + slug;
      Some(slug)
    else SlugFrom(url, i + 1)
  }

  function CompanySlug(url: string): Option<string> {
    SlugFrom(url, 0)
  }

  /** `match[1].toLowerCase().replace(/-/g, '')`. */
  function SlugKey(slug: string): string {
    DropDashes(ToLower(slug))
  }

  function DropDashes(s: string): (r: string)
    ensures '-' !in r
  {
    if s == [] then "" else if s[0] == '-' then DropDashes(s[1..]) else [s[0]] + DropDashes(s[1..])
  }

  /** `hasAuthorRelation`: some long author part occurs in the slug key. */
  predicate Related(parts: seq<string>, key: string) {
    exists k | 0 <= k < |parts| :: |parts[k]| > 2 && Contains(key, parts[k])
  }

  /** The slug a profile URL contributes to `unrelatedCompanies`, if any. */
  function UnrelatedSlug(parts: seq<string>, url: string): Option<string> {
    if Contains(url, COMPANY) && !Contains(url, "/posts") then
      match CompanySlug(url)
      case None => None
      case Some(slug) => if Related(parts, SlugKey(slug)) then None else Some(slug)
    else None
  }

  /** `unrelatedCompanies` after the loop has seen `urls`. */
  function Unrelated(parts: seq<string>, urls: seq<string>): seq<string>
    decreases |urls|
  {
    if urls == [] then []
    else
      var init := Unrelated(parts, urls[..|urls| - 1]);
      match UnrelatedSlug(parts, urls[|urls| - 1])
      case None => init
      case Some(slug) => init + [slug]
  }

  /** The index of the first URL containing `sub`, or `|urls|` when there is none. */
  function FirstContaining(urls: seq<string>, sub: string): (k: nat)
    ensures k <= |urls|
    ensures k < |urls| ==> Contains(urls[k], sub)
    ensures forall i :: 0 <= i < k ==> !Contains(urls[i], sub)
  {
    if urls == [] then 0
    else if Contains(urls[0], sub) then 0
    else 1 + FirstContaining(urls[1..], sub)
  }

  const EARLY_LINKS := 4

  /** `isProbableRepost(author, profileUrls)`. */
  predicate ProbableRepost(author: string, urls: seq<string>) {
    && author != "" && urls != []
    && var unrelated := Unrelated(AuthorParts(author), urls);
       |unrelated| > 0
       && var index := FirstContaining(urls, COMPANY + unrelated[0]);
          index < |urls| && index < EARLY_LINKS
  }

  /** `isProbableRepost` with its accumulator loop. */
  method IsProbableRepost(author: string, profileUrls: seq<string>) returns (b: bool)
    ensures b == ProbableRepost(author, profileUrls)
  {
    if author == "" || profileUrls == [] {
      return false;
    }
    var parts := AuthorParts(author);
    var unrelated: seq<string> := [];
    for i := 0 to |profileUrls|
      invariant unrelated == Unrelated(parts, profileUrls[..i])
    {
      assert profileUrls[..i + 1][..i] == profileUrls[..i];
      var url := profileUrls[i];
      if Contains(url, COMPANY) && !Contains(url, "/posts") {
        var slug := CompanySlug(url);
        if slug.Some? && !Related(parts, SlugKey(slug.value)) {
          unrelated := unrelated + [slug.value];
        }
      }
    }
    assert profileUrls[..|profileUrls|] == profileUrls;
    b := false;
    if |unrelated| > 0 {
      var index := FirstContaining(profileUrls, COMPANY + unrelated[0]);
      b := index < |profileUrls| && index < EARLY_LINKS;
    }
  }

  // ----- properties -----

  /** `isRepostByText` reads nothing past the first 500 characters. */
  lemma RepostByTextReadsHeaderOnly(a: string, b: string)
    requires |a| >= HEADER_LENGTH
    ensures IsRepostByText(a + b) == IsRepostByText(a)
  {
    assert (a + b)[..HEADER_LENGTH] == a[..HEADER_LENGTH];
  }

  /** "reposted this" within the first 500 characters marks the card as a repost. */
  lemma RepostedThisIsRepost(pre: string, post: string)
    requires |pre| + 13 <= HEADER_LENGTH
    ensures IsRepostByText(pre + "reposted this" + post)
  {
    var m := "reposted this";
    var h := Header(pre + m + post);
    var rest := HeaderAround(pre, m, post);
    var t := ToLower(pre) + m + ToLower(rest);
    LowerAround(pre, m, rest);
    PhraseMatchAt(ToLower(pre), ToLower(rest));
    ToLowerIdempotent(h);
    LoweredRepostedThis();
    TestAt(REPOST_TEXT_PATTERNS[0], ToLower(h), |ToLower(pre)|);
  }

  /** The first 500 characters of `pre + m + post` keep all of `pre + m` when it fits. */
  lemma HeaderAround(pre: string, m: string, post: string) returns (rest: string)
    requires |pre| + |m| <= HEADER_LENGTH
    ensures Header(pre + m + post) == pre + m + rest
  {
    var s := pre + m + post;
    var h := Header(s);
    rest := post[..|h| - |pre| - |m|];
    assert h == s[..|h|];
    assert s[..|h|] == pre + m + rest;
  }

  /** Lowercasing around an already lowercase middle. */
  lemma LowerAround(pre: string, m: string, rest: string)
    requires ToLower(m) == m
    ensures ToLower(pre + m + rest) == ToLower(pre) + m + ToLower(rest)
  {
    ToLowerAppend(pre + m, rest);
    ToLowerAppend(pre, m);
  }

  /** The first repost pattern, `reposted\s+this`, is already lowercase. */
  lemma LoweredRepostedThis()
    ensures ToLower("reposted this") == "reposted this"
    ensures Lowered(REPOST_TEXT_PATTERNS[0]) == REPOST_TEXT_PATTERNS[0]
  {
    assert ToLower("reposted") == "reposted" && ToLower("this") == "this";
    assert Lowered(REPOST_TEXT_PATTERNS[0]).words == ["reposted", "this"];
  }

  /** `reposted\s+this` matches where "reposted this" starts. */
  lemma PhraseMatchAt(a: string, b: string)
    ensures MatchesAt(a + "reposted this" + b, |a|, REPOST_TEXT_PATTERNS[0])
  {
    var t := a + "reposted this" + b;
    var n := |a|;
    WordStarts(a, "reposted this", b);
    assert t[n..][..8] == "reposted";
    assert t[n + 8] == ' ' && t[n + 9] == 't';
    SkipSpacesOfRun(t, n + 8, n + 9);
    assert t[n + 9..][..4] == "this";
    assert MatchWords(t, n + 9, ["this"]) == Some(n + 13);
    assert MatchWords(t, n, ["reposted", "this"]) == Some(n + 13);
  }

  /** "commented on" standing as its own words marks the card as activity. */
  lemma CommentedOnIsActivity(pre: string, post: string)
    requires pre == [] || !IsWordChar(pre[|pre| - 1])
    requires post == [] || !IsWordChar(post[0])
    ensures IsActivityCard(pre + "commented on" + post)
  {
    var w := "commented on";
    assert w[0] == 'c' && w[|w| - 1] == 'n';
    TestWordAt(w, pre, post);
    assert ENGLISH_ACTIVITY_PATTERNS[0] == Pattern(true, [w], WordBoundary);
    assert ACTIVITY_PATTERNS[9] == ENGLISH_ACTIVITY_PATTERNS[0] by {
      assert |SPANISH_ACTIVITY_PATTERNS| == 9;
    }
    TestAnyAt(ACTIVITY_PATTERNS, 9, pre + w + post);
  }

  lemma TestIgnoresCase(ps: seq<Pattern>, text: string)
    ensures TestAny(ps, ToLower(text)) == TestAny(ps, text)
  {
    ToLowerIdempotent(text);
  }

  /** The activity filter does not depend on letter case. */
  lemma ActivityIgnoresCase(text: string)
    ensures IsActivityCard(ToLower(text)) == IsActivityCard(text)
  {
    TestIgnoresCase(ACTIVITY_PATTERNS, text);
  }

  /** More than one post link means two links whose URLs differ before the `?`. */
  /** A link is kept exactly when some non-empty href that `keep` accepts normalizes to it. */
  lemma {:induction false} NormalizedLinksMembers(hrefs: seq<string>, keep: string -> bool)
    ensures forall x :: x in NormalizedLinks(hrefs, keep) <==>
      exists k :: 0 <= k < |hrefs| && hrefs[k] != "" && keep(hrefs[k]) && x == NormalizeUrl(hrefs[k])
    decreases |hrefs|
  {
    if hrefs != [] {
      var tail := hrefs[1..];
      NormalizedLinksMembers(tail, keep);
      forall x ensures x in NormalizedLinks(hrefs, keep) <==>
        exists k :: 0 <= k < |hrefs| && hrefs[k] != "" && keep(hrefs[k]) && x == NormalizeUrl(hrefs[k])
      {
        if exists k :: 0 <= k < |hrefs| && hrefs[k] != "" && keep(hrefs[k]) && x == NormalizeUrl(hrefs[k]) {
          var k :| 0 <= k < |hrefs| && hrefs[k] != "" && keep(hrefs[k]) && x == NormalizeUrl(hrefs[k]);
          if k > 0 {
            assert tail[k - 1] == hrefs[k];
          }
        }
        if x in NormalizedLinks(tail, keep) {
          var k :| 0 <= k < |tail| && tail[k] != "" && keep(tail[k]) && x == NormalizeUrl(tail[k]);
          assert hrefs[k + 1] == tail[k];
        }
      }
    }
  }

  /** The links of two lists of hrefs are those of the first followed by those of the second: the href order is kept. */
  lemma {:induction false} NormalizedLinksAppend(a: seq<string>, b: seq<string>, keep: string -> bool)
    ensures NormalizedLinks(a + b, keep) == NormalizedLinks(a, keep) + NormalizedLinks(b, keep)
    decreases |a|
  {
    if a == [] {
      assert a + b == b;
    } else {
      assert (a + b)[1..] == a[1..] + b;
      NormalizedLinksAppend(a[1..], b, keep);
    }
  }

  lemma PostLinksMeaning(hrefs: seq<string>)
    ensures |PostUrls(hrefs)| > 1 <==>
      var links := NormalizedLinks(hrefs, IsPostHref);
      exists i, j :: 0 <= i < |links| && 0 <= j < |links| && links[i] != links[j]
  {
    var links := NormalizedLinks(hrefs, IsPostHref);
    DedupeMoreThanOne(links, Id);
    IdDiffer(links, Id);
  }

  lemma IdDiffer(links: seq<string>, key: string -> string)
    requires forall x :: key(x) == x
    ensures (exists i, j :: 0 <= i < |links| && 0 <= j < |links| && key(links[i]) != key(links[j]))
      <==> (exists i, j :: 0 <= i < |links| && 0 <= j < |links| && links[i] != links[j])
  {
    if exists i, j :: 0 <= i < |links| && 0 <= j < |links| && links[i] != links[j] {
      var i, j :| 0 <= i < |links| && 0 <= j < |links| && links[i] != links[j];
      assert key(links[i]) != key(links[j]);
    }
    if exists i, j :: 0 <= i < |links| && 0 <= j < |links| && key(links[i]) != key(links[j]) {
      var i, j :| 0 <= i < |links| && 0 <= j < |links| && key(links[i]) != key(links[j]);
      assert links[i] != links[j];
    }
  }

  lemma {:induction false} UnrelatedNonEmpty(parts: seq<string>, urls: seq<string>, k: nat)
    requires k < |urls| && UnrelatedSlug(parts, urls[k]).Some?
    ensures |Unrelated(parts, urls)| > 0
    decreases |urls|
  {
    var init := urls[..|urls| - 1];
    if k < |urls| - 1 {
      assert init[k] == urls[k];
      UnrelatedNonEmpty(parts, init, k);
    }
  }

  /** The first unrelated slug comes from the first URL that has one. */
  lemma {:induction false} UnrelatedHead(parts: seq<string>, urls: seq<string>) returns (j: nat)
    requires |Unrelated(parts, urls)| > 0
    ensures j < |urls| && UnrelatedSlug(parts, urls[j]) == Some(Unrelated(parts, urls)[0])
    ensures forall i :: 0 <= i < j ==> UnrelatedSlug(parts, urls[i]).None?
    decreases |urls|
  {
    var init := urls[..|urls| - 1];
    if |Unrelated(parts, init)| > 0 {
      j := UnrelatedHead(parts, init);
      assert init[j] == urls[j];
      forall i | 0 <= i < j ensures UnrelatedSlug(parts, urls[i]).None? {
        assert init[i] == urls[i];
      }
    } else {
      j := |urls| - 1;
      forall i | 0 <= i < j ensures UnrelatedSlug(parts, urls[i]).None? {
        if UnrelatedSlug(parts, urls[i]).Some? {
          assert init[i] == urls[i];
          UnrelatedNonEmpty(parts, init, i);
        }
      }
    }
  }

  /** A probable repost always has a company link among its first four profile URLs. */
  lemma ProbableRepostHasEarlyCompanyLink(author: string, urls: seq<string>)
    requires ProbableRepost(author, urls)
    ensures exists k :: 0 <= k < |urls| && k < EARLY_LINKS && Contains(urls[k], COMPANY)
  {
    var unrelated := Unrelated(AuthorParts(author), urls);
    var k := FirstContaining(urls, COMPANY + unrelated[0]);
    ContainsPrefix(urls[k], COMPANY, unrelated[0]);
  }

  /** A company link among the first four whose slug does not name the author makes a probable repost. */
  lemma EarlyUnrelatedCompanyIsRepost(author: string, urls: seq<string>, k: nat)
    requires author != "" && k < |urls| && k < EARLY_LINKS
    requires UnrelatedSlug(AuthorParts(author), urls[k]).Some?
    ensures ProbableRepost(author, urls)
  {
    var parts := AuthorParts(author);
    UnrelatedNonEmpty(parts, urls, k);
    var j := UnrelatedHead(parts, urls);
    var slug := Unrelated(parts, urls)[0];
    assert j <= k;
    assert CompanySlug(urls[j]) == Some(slug);
    var index := FirstContaining(urls, COMPANY + slug);
    assert index <= j;
  }

  /** When every company slug relates to the author, the card is not a probable repost. */
  lemma RelatedCompaniesAreNotRepost(author: string, urls: seq<string>)
    requires forall k :: 0 <= k < |urls| ==> UnrelatedSlug(AuthorParts(author), urls[k]).None?
    ensures !ProbableRepost(author, urls)
  {
    if |Unrelated(AuthorParts(author), urls)| > 0 {
      var j := UnrelatedHead(AuthorParts(author), urls);
    }
  }
}
