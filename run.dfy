/**
 * One run of the collector: every search result page is scraped in turn
 * into one list of posts without repeated URLs, a checkpoint stops the run
 * without writing anything, and otherwise the posts are verified, the top 3
 * chosen, the history extended and the all-time top 10 recomputed.
 */
module Run {
  import opened Strings
  import opened Urls
  import opened Sorting
  import opened Keywords
  import opened Classifier
  import opened Posts
  import opened Extractor
  import opened Verifier
  import opened Selection
  import opened History

  /** `CARDS_PER_SOURCE_V2`: how many cards of a page are looked at. */
  const CARDS_PER_SOURCE := 40

  /** The filtering counters of `scrapePage` and `main`. */
  datatype Stats = Stats(
    totalCards: nat,
    discardedActivity: nat,
    discardedRepost: nat,
    discardedNoKeyword: nat,
    discardedShortSnippet: nat,
    discardedNoUrl: nat,
    accepted: nat)

  const NO_STATS := Stats(0, 0, 0, 0, 0, 0, 0)

  /** The number of cards discarded, for any reason. */
  function DiscardCount(s: Stats): nat {
    s.discardedActivity + s.discardedRepost + s.discardedNoKeyword + s.discardedShortSnippet + s.discardedNoUrl
  }

  /** The counter of the cards discarded for `reason`. */
  function Counter(s: Stats, reason: Discard): nat {
    match reason
    case Activity => s.discardedActivity
    case Repost => s.discardedRepost
    case NoKeyword => s.discardedNoKeyword
    case ShortSnippet => s.discardedShortSnippet
    case NoUrl => s.discardedNoUrl
  }

  /** One more card discarded for `reason`. */
  function CountDiscard(s: Stats, reason: Discard): (t: Stats)
    ensures Counter(t, reason) == Counter(s, reason) + 1
    ensures forall other :: other != reason ==> Counter(t, other) == Counter(s, other)
    ensures DiscardCount(t) == DiscardCount(s) + 1
    ensures t.totalCards == s.totalCards && t.accepted == s.accepted
  {
    match reason
    case Activity => s.(discardedActivity := s.discardedActivity + 1)
    case Repost => s.(discardedRepost := s.discardedRepost + 1)
    case NoKeyword => s.(discardedNoKeyword := s.discardedNoKeyword + 1)
    case ShortSnippet => s.(discardedShortSnippet := s.discardedShortSnippet + 1)
    case NoUrl => s.(discardedNoUrl := s.discardedNoUrl + 1)
  }

  /** The counters of `globalStats` after adding one page's. */
  function AddStats(a: Stats, b: Stats): (c: Stats)
    ensures forall reason :: Counter(c, reason) == Counter(a, reason) + Counter(b, reason)
    ensures DiscardCount(c) == DiscardCount(a) + DiscardCount(b)
    ensures c.totalCards == a.totalCards + b.totalCards && c.accepted == a.accepted + b.accepted
  {
    Stats(a.totalCards + b.totalCards, a.discardedActivity + b.discardedActivity,
      a.discardedRepost + b.discardedRepost, a.discardedNoKeyword + b.discardedNoKeyword,
      a.discardedShortSnippet + b.discardedShortSnippet, a.discardedNoUrl + b.discardedNoUrl,
      a.accepted + b.accepted)
  }

  /** What loading a search URL shows: an error, a login or checkpoint page, or result cards. */
  datatype SearchPage = LoadFailed | Checkpoint | Loaded(cards: seq<Card>)

  /** `{ posts, checkpointDetected, stats }`. */
  datatype PageResult = PageResult(posts: seq<Post>, checkpointDetected: bool, stats: Stats)

  /** `cards.slice(0, CARDS_PER_SOURCE_V2)`. */
  function CardsToProcess(cards: seq<Card>): seq<Card> {
    Take(cards, CARDS_PER_SOURCE)
  }

  /**
   * What `scrapePage` applies to each card, given the card, the source and the
   * hashtag. The phase 1 methods take it as an argument and a run passes
   * `ExtractPostData`, so their proofs do not depend on how a card is read.
   */
  type CardReader = (Card, string, string) -> Extraction

  /** What `extract` returns for each of `cards`. */
  function Extractions(cards: seq<Card>, source: string, hashtag: string, extract: CardReader): (r: seq<Extraction>)
    ensures |r| == |cards|
  {
    seq(|cards|, i requires 0 <= i < |cards| => extract(cards[i], source, hashtag))
  }

  lemma ExtractionAt(cards: seq<Card>, source: string, hashtag: string, extract: CardReader, i: nat)
    requires i < |cards|
    ensures Extractions(cards, source, hashtag, extract)[i] == extract(cards[i], source, hashtag)
  {
  }

  /** The posts with a URL among `results`, in order. */
  function Extracted(results: seq<Extraction>): seq<Post> {
    if results == [] then []
    else
      Extracted(results[..|results| - 1])
      + match results[|results| - 1]
        case Accepted(p) => if p.url != "" then [p] else []
        case Discarded(_) => []
  }

  /** The discard counters for `results`. */
  function Tally(results: seq<Extraction>): Stats {
    if results == [] then NO_STATS
    else
      var s := Tally(results[..|results| - 1]);
      match results[|results| - 1]
      case Accepted(_) => s
      case Discarded(reason) => CountDiscard(s, reason)
  }

  /** What a search page yields before its posts are checked against the URLs seen: nothing, a checkpoint, or one extraction per card looked at. */
  datatype Scan = NotLoaded | CheckpointShown | Scanned(results: seq<Extraction>, cardCount: nat)

  function ScanOf(page: SearchPage, source: string, extract: CardReader): Scan {
    match page
    case LoadFailed => NotLoaded
    case Checkpoint => CheckpointShown
    case Loaded(cards) =>
      var cs := CardsToProcess(cards);
      Scanned(Extractions(cs, source, HashtagOf(source), extract), |cs|)
  }

  /** The scan of each search's page. */
  function Scans(pages: seq<SearchPage>, searches: seq<SearchEntry>, extract: CardReader): (r: seq<Scan>)
    requires |pages| == |searches|
    ensures |r| == |pages|
  {
    if pages == [] then []
    else Scans(pages[..|pages| - 1], searches[..|pages| - 1], extract) + [ScanOf(pages[|pages| - 1], searches[|pages| - 1].searchTerm, extract)]
  }

  lemma {:induction false} ScansAt(pages: seq<SearchPage>, searches: seq<SearchEntry>, extract: CardReader, i: nat)
    requires i < |pages| == |searches|
    ensures Scans(pages, searches, extract)[i] == ScanOf(pages[i], searches[i].searchTerm, extract)
    decreases |pages|
  {
    var n := |pages| - 1;
    if i < n {
      ScansAt(pages[..n], searches[..n], extract, i);
      assert pages[..n][i] == pages[i] && searches[..n][i] == searches[i];
    }
  }

  /** What `scrapePage` returns for a scanned page, `seen` being `seenUrls` before the call. */
  function PageOf(scan: Scan, seen: set<string>): PageResult {
    match scan
    case NotLoaded => PageResult([], false, NO_STATS)
    case CheckpointShown => PageResult([], true, NO_STATS)
    case Scanned(results, cardCount) =>
      var posts := Dedupe(Extracted(results), PostKey, seen);
      PageResult(posts, false, Tally(results).(totalCards := cardCount, accepted := |posts|))
  }

  lemma ScanStep(results: seq<Extraction>, i: nat, seen: set<string>)
    requires i < |results|
    ensures var before := Extracted(results[..i]);
      var kept := Dedupe(before, PostKey, seen);
      && Tally(results[..i + 1]) == (match results[i] case Accepted(_) => Tally(results[..i]) case Discarded(r) => CountDiscard(Tally(results[..i]), r))
      && Dedupe(Extracted(results[..i + 1]), PostKey, seen) == (match results[i]
        case Accepted(p) => if p.url != "" && PostKey(p) !in seen + Keys(kept, PostKey) then kept + [p] else kept
        case Discarded(_) => kept)
  {
    var prefix := results[..i + 1];
    assert prefix[..i] == results[..i];
    assert prefix[|prefix| - 1] == results[i];
    var before := Extracted(results[..i]);
    match results[i]
    case Accepted(p) =>
      if p.url != "" {
        assert Extracted(prefix) == before + [p];
        DedupeSnoc(before, p, PostKey, seen);
      } else {
        assert Extracted(prefix) == before + [];
        assert before + [] == before;
      }
    case Discarded(_) =>
      assert Extracted(prefix) == before + [];
      assert before + [] == before;
  }

  lemma ScannedPage(cards: seq<Card>, source: string, extract: CardReader, seen: set<string>, cs: seq<Card>, hashtag: string, posts: seq<Post>, counts: Stats)
    requires cs == Take(cards, CARDS_PER_SOURCE) && hashtag == HashtagOf(source)
    requires var results := Extractions(cs, source, hashtag, extract);
      posts == Dedupe(Extracted(results), PostKey, seen) && counts == Tally(results)
    ensures PageOf(ScanOf(Loaded(cards), source, extract), seen) == PageResult(posts, false, counts.(totalCards := |cs|, accepted := |posts|))
  {
  }

  /** Posts without a keyword id take the search's. */
  function FillIds(posts: seq<Post>, keywordId: string): (r: seq<Post>)
    ensures |r| == |posts|
    ensures forall i :: 0 <= i < |posts| ==>
      r[i] == if posts[i].keywordId == "" then posts[i].(keywordId := keywordId) else posts[i]
  {
    seq(|posts|, i requires 0 <= i < |posts| => if posts[i].keywordId == "" then posts[i].(keywordId := keywordId) else posts[i])
  }

  /** The state of phase 1 after some searches; `stopped` once a checkpoint was met. */
  datatype Gathered = Gathered(posts: seq<Post>, seen: set<string>, stats: Stats, stopped: bool)

  const FRESH := Gathered([], {}, NO_STATS, false)

  /** One iteration of the phase 1 loop. */
  function Collect(g: Gathered, scan: Scan, search: SearchEntry): Gathered {
    var r := PageOf(scan, g.seen);
    if r.checkpointDetected then g.(stopped := true)
    else Gathered(g.posts + FillIds(r.posts, search.keywordId), g.seen + Keys(r.posts, PostKey), AddStats(g.stats, r.stats), false)
  }

  /** Phase 1 from state `g` over the searches from `i` on, stopping at the first checkpoint. */
  function Gather(g: Gathered, scans: seq<Scan>, searches: seq<SearchEntry>, i: nat): Gathered
    requires i <= |scans| == |searches|
    decreases |scans| - i
  {
    if i == |scans| || g.stopped then g
    else Gather(Collect(g, scans[i], searches[i]), scans, searches, i + 1)
  }

  /** What a run leaves behind: nothing, or the day's file, the history and the top 10. */
  datatype Outcome = Blocked | Published(top3: seq<Post>, allPosts: seq<Post>, top10: seq<TopEntry>)

  /** The shared state of `main`: the posts gathered so far, the URLs seen, the counters. */
  class Session {
    var seenUrls: set<string>
    var allPosts: seq<Post>
    var stats: Stats
    var checkpointDetected: bool

    constructor ()
      ensures seenUrls == {} && allPosts == [] && stats == NO_STATS && !checkpointDetected
    {
      seenUrls := {};
      allPosts := [];
      stats := NO_STATS;
      checkpointDetected := false;
    }

    /** `scrapePage`: the new posts of one page, each URL added to `seenUrls`. */
    method ScrapePage(page: SearchPage, source: string, extract: CardReader) returns (result: PageResult)
      modifies this`seenUrls
      ensures result == PageOf(ScanOf(page, source, extract), old(seenUrls))
      ensures seenUrls == old(seenUrls) + Keys(result.posts, PostKey)
    {
      if !page.Loaded? {
        result := PageResult([], page.Checkpoint?, NO_STATS);
        return;
      }
      var cardsToProcess := if |page.cards| > CARDS_PER_SOURCE then page.cards[..CARDS_PER_SOURCE] else page.cards;
      var hashtag := if |source| > 0 && source[0] == '#' then source[1..] else source;
      assert hashtag == HashtagOf(source) && cardsToProcess == CardsToProcess(page.cards);
      ghost var seen0 := seenUrls;
      var posts, counts := ScanCards(cardsToProcess, source, hashtag, extract);
      ScannedPage(page.cards, source, extract, seen0, cardsToProcess, hashtag, posts, counts);
      result := PageResult(posts, false, counts.(totalCards := |cardsToProcess|, accepted := |posts|));
    }

    /** The loop of `scrapePage` over the cards looked at. */
    method ScanCards(cards: seq<Card>, source: string, hashtag: string, extract: CardReader) returns (posts: seq<Post>, counts: Stats)
      modifies this`seenUrls
      ensures var results := Extractions(cards, source, hashtag, extract);
        posts == Dedupe(Extracted(results), PostKey, old(seenUrls)) && counts == Tally(results)
      ensures seenUrls == old(seenUrls) + Keys(posts, PostKey)
    {
      ghost var results := Extractions(cards, source, hashtag, extract);
      ghost var seen0 := seenUrls;
      posts := [];
      counts := NO_STATS;
      for i := 0 to |cards|
        invariant posts == Dedupe(Extracted(results[..i]), PostKey, seen0)
        invariant seenUrls == seen0 + Keys(posts, PostKey)
        invariant counts == Tally(results[..i])
      {
        ExtractionAt(cards, source, hashtag, extract, i);
        var extraction := extract(cards[i], source, hashtag);
        ScanStep(results, i, seen0);
        match extraction
        case Discarded(reason) =>
          counts := CountDiscard(counts, reason);
        case Accepted(post) =>
          if post.url != "" {
            var normalized := NormalizeUrl(post.url);
            if normalized !in seenUrls {
              KeysSnoc(posts, post, PostKey);
              seenUrls := seenUrls + {normalized};
              posts := posts + [post];
            }
          }
      }
      assert results[..|results|] == results;
    }

    /** Phase 1: every search in turn, stopping at the first checkpoint. */
    method CollectAll(pages: seq<SearchPage>, searches: seq<SearchEntry>, extract: CardReader)
      requires |pages| == |searches|
      modifies this
      ensures var g := Gather(Gathered(old(allPosts), old(seenUrls), old(stats), false), Scans(pages, searches, extract), searches, 0);
        allPosts == g.posts && seenUrls == g.seen && stats == g.stats
        && checkpointDetected == (old(checkpointDetected) || g.stopped)
    {
      ghost var g0 := Gathered(allPosts, seenUrls, stats, false);
      ghost var scans := Scans(pages, searches, extract);
      var i := 0;
      while i < |pages|
        invariant 0 <= i <= |pages|
        invariant Gather(Gathered(allPosts, seenUrls, stats, false), scans, searches, i) == Gather(g0, scans, searches, 0)
        invariant checkpointDetected == old(checkpointDetected)
      {
        ghost var before := Gathered(allPosts, seenUrls, stats, false);
        var stop := CollectOne(pages, searches, i, extract);
        ghost var after := Collect(before, scans[i], searches[i]);
        GatherStep(before, scans, searches, i);
        if stop {
          GatherStays(after, scans, searches, i + 1);
          return;
        }
        i := i + 1;
      }
    }

    /** One iteration of phase 1: the page of search `i` scraped, and its new posts added unless it showed a checkpoint. */
    method CollectOne(pages: seq<SearchPage>, searches: seq<SearchEntry>, i: nat, extract: CardReader) returns (stop: bool)
      requires i < |pages| == |searches|
      modifies this
      ensures var g := Collect(Gathered(old(allPosts), old(seenUrls), old(stats), false), Scans(pages, searches, extract)[i], searches[i]);
        allPosts == g.posts && seenUrls == g.seen && stats == g.stats && stop == g.stopped
        && checkpointDetected == (old(checkpointDetected) || stop)
    {
      var search := searches[i];
      ScansAt(pages, searches, extract, i);
      var result := ScrapePage(pages[i], search.searchTerm, extract);
      if result.checkpointDetected {
        checkpointDetected := true;
        return true;
      }
      allPosts := allPosts + FillIds(result.posts, search.keywordId);
      stats := AddStats(stats, result.stats);
      stop := false;
    }

    /** Phase 3: `allPosts` replaced by its verified originals, when it has any posts. */
    method VerifyPosts(verify: string -> Verification)
      modifies this`allPosts
      ensures allPosts == VerifiedPosts(old(allPosts), verify)
    {
      if |allPosts| > 0 {
        var verified: seq<Post> := [];
        for i := 0 to |allPosts|
          invariant verified == VerifiedPosts(allPosts[..i], verify)
        {
          var post := allPosts[i];
          assert allPosts[..i + 1][..i] == allPosts[..i];
          var verification := verify(post.url);
          if verification.isOriginal {
            verified := verified + [ApplyVerification(post, verification)];
          }
        }
        assert allPosts[..|allPosts|] == allPosts;
        allPosts := verified;
      }
    }

    /** Everything after phase 1: nothing when a checkpoint was met, otherwise verification, top 3, history and top 10. */
    method Finish(verify: string -> Verification, log: Log, today: string) returns (outcome: Outcome)
      modifies this`allPosts, log
      ensures checkpointDetected ==> outcome == Blocked && allPosts == old(allPosts) && log.entries == old(log.entries)
      ensures !checkpointDetected ==>
        && allPosts == VerifiedPosts(old(allPosts), verify)
        && log.entries == old(log.entries) + Appended(old(log.entries), SelectTop3(allPosts), today)
        && outcome == Published(SelectTop3(allPosts), allPosts, GenerateTop10(log.entries))
    {
      if checkpointDetected {
        return Blocked;
      }
      VerifyPosts(verify);
      var top3 := SelectTop3(allPosts);
      log.Merge(top3, today);
      outcome := Published(top3, allPosts, GenerateTop10(log.entries));
    }
  }

  /** A whole run, one result page per search of `generateSearchUrls`, on the history read at the start. */
  method FetchTop3(encode: string -> string, pages: seq<SearchPage>, verify: string -> Verification, log: Log, today: string)
    returns (outcome: Outcome)
    requires |pages| == |SearchEntries(KEYWORDS_CONFIG, encode)|
    modifies log
    ensures RunOutcome(SearchEntries(KEYWORDS_CONFIG, encode), pages, verify, old(log.entries), today) == (outcome, log.entries)
  {
    var searches := GenerateSearchUrls(encode);
    outcome := RunSearches(searches, pages, verify, log, today);
  }

  /** The body of `main` once the searches are known. */
  method RunSearches(searches: seq<SearchEntry>, pages: seq<SearchPage>, verify: string -> Verification, log: Log, today: string)
    returns (outcome: Outcome)
    requires |pages| == |searches|
    modifies log
    ensures RunOutcome(searches, pages, verify, old(log.entries), today) == (outcome, log.entries)
  {
    var session := new Session();
    session.CollectAll(pages, searches, ExtractPostData);
    outcome := session.Finish(verify, log, today);
  }

  /** What a run publishes and the history it leaves, from the history `history` it started with. */
  function RunOutcome(searches: seq<SearchEntry>, pages: seq<SearchPage>, verify: string -> Verification, history: seq<Entry>, today: string): (Outcome, seq<Entry>)
    requires |pages| == |searches|
  {
    var g := Gather(FRESH, Scans(pages, searches, ExtractPostData), searches, 0);
    if g.stopped then (Blocked, history)
    else
      var day := VerifiedPosts(g.posts, verify);
      var top3 := SelectTop3(day);
      var extended := history + Appended(history, top3, today);
      (Published(top3, day, GenerateTop10(extended)), extended)
  }

  /** A search with no checkpoint before it collects its page and goes on with the next one. */
  lemma GatherStep(g: Gathered, scans: seq<Scan>, searches: seq<SearchEntry>, i: nat)
    requires i < |scans| == |searches| && !g.stopped
    ensures Gather(g, scans, searches, i) == Gather(Collect(g, scans[i], searches[i]), scans, searches, i + 1)
  {
  }

  /** After a checkpoint, no later search changes the state of phase 1. */
  lemma GatherStays(g: Gathered, scans: seq<Scan>, searches: seq<SearchEntry>, i: nat)
    requires i <= |scans| == |searches| && (g.stopped || i == |scans|)
    ensures Gather(g, scans, searches, i) == g
  {
  }

  // ----- properties of phase 1 -----

  /** A post as `extractPostData` builds it. */
  predicate Candidate(p: Post) {
    && StartsWith(p.url, "http")
    && MIN_SNIPPET_LENGTH <= |p.snippet| <= SNIPPET_MAX + 3
    && p.reposts == 0 && p.total == p.likes + p.comments
    && !p.verified
  }

  /** What every scan of a real page satisfies: one result per card looked at, at most 40, every accepted post a candidate. */
  predicate SoundScan(scan: Scan) {
    scan.Scanned? ==>
      && scan.cardCount == |scan.results| <= CARDS_PER_SOURCE
      && forall i :: 0 <= i < |scan.results| && scan.results[i].Accepted? ==> Candidate(scan.results[i].post)
  }

  /** The state of phase 1 is consistent: no URL twice, `seenUrls` exactly the URLs collected, the counters balanced, every post a candidate. */
  predicate Consistent(g: Gathered) {
    && DistinctKeys(g.posts, PostKey)
    && Keys(g.posts, PostKey) == g.seen
    && g.stats.accepted == |g.posts|
    && g.stats.accepted + DiscardCount(g.stats) <= g.stats.totalCards
    && forall i :: 0 <= i < |g.posts| ==> Candidate(g.posts[i])
  }

  lemma ScanOfSound(page: SearchPage, source: string)
    ensures SoundScan(ScanOf(page, source, ExtractPostData))
  {
    if page.Loaded? {
      var cs := CardsToProcess(page.cards);
      var results := Extractions(cs, source, HashtagOf(source), ExtractPostData);
      forall i | 0 <= i < |results| && results[i].Accepted? ensures Candidate(results[i].post) {
        ExtractionAt(cs, source, HashtagOf(source), ExtractPostData, i);
        AcceptedPost(cs[i], source, HashtagOf(source));
      }
    }
  }

  lemma ScansSound(pages: seq<SearchPage>, searches: seq<SearchEntry>)
    requires |pages| == |searches|
    ensures forall i :: 0 <= i < |pages| ==> SoundScan(Scans(pages, searches, ExtractPostData)[i])
  {
    forall i | 0 <= i < |pages| ensures SoundScan(Scans(pages, searches, ExtractPostData)[i]) {
      ScansAt(pages, searches, ExtractPostData, i);
      ScanOfSound(pages[i], searches[i].searchTerm);
    }
  }

  /** Each post of `Extracted(results)` is one of the accepted results, with a URL. */
  lemma {:induction false} ExtractedFrom(results: seq<Extraction>)
    ensures forall p :: p in Extracted(results) ==> p.url != "" && exists i :: 0 <= i < |results| && results[i] == Accepted(p)
    decreases |results|
  {
    if results != [] {
      var init := results[..|results| - 1];
      ExtractedFrom(init);
      forall p | p in Extracted(results) ensures p.url != "" && exists i :: 0 <= i < |results| && results[i] == Accepted(p) {
        if p in Extracted(init) {
          var i :| 0 <= i < |init| && init[i] == Accepted(p);
          assert results[i] == init[i];
        } else {
          assert results[|results| - 1] == Accepted(p);
        }
      }
    }
  }

  /** Every card is counted at most once: accepted with a URL, or discarded for one reason. */
  lemma {:induction false} TallyBalance(results: seq<Extraction>)
    ensures |Extracted(results)| + DiscardCount(Tally(results)) <= |results|
    ensures Tally(results).totalCards == 0 && Tally(results).accepted == 0
    decreases |results|
  {
    if results != [] {
      TallyBalance(results[..|results| - 1]);
    }
  }

  /** Filling in keyword ids keeps the URLs and the candidates. */
  lemma FillIdsKeeps(posts: seq<Post>, keywordId: string)
    ensures Keys(FillIds(posts, keywordId), PostKey) == Keys(posts, PostKey)
    ensures DistinctKeys(posts, PostKey) ==> DistinctKeys(FillIds(posts, keywordId), PostKey)
    ensures (forall i :: 0 <= i < |posts| ==> Candidate(posts[i])) ==> forall i :: 0 <= i < |posts| ==> Candidate(FillIds(posts, keywordId)[i])
  {
    var r := FillIds(posts, keywordId);
    assert forall i :: 0 <= i < |posts| ==> PostKey(r[i]) == PostKey(posts[i]);
  }

  /** Every post a sound scan keeps is a candidate. */
  lemma PageCandidates(scan: Scan, seen: set<string>)
    requires SoundScan(scan) && scan.Scanned?
    ensures var posts := PageOf(scan, seen).posts; forall i :: 0 <= i < |posts| ==> Candidate(posts[i])
  {
    var results := scan.results;
    var extracted := Extracted(results);
    var posts := Dedupe(extracted, PostKey, seen);
    DedupeSound(extracted, PostKey, seen);
    ExtractedFrom(results);
    forall i | 0 <= i < |posts| ensures Candidate(posts[i]) {
      assert posts[i] in multiset(extracted);
      var k :| 0 <= k < |results| && results[k] == Accepted(posts[i]);
    }
  }

  lemma CandidatesAppend(a: seq<Post>, b: seq<Post>)
    requires forall i :: 0 <= i < |a| ==> Candidate(a[i])
    requires forall i :: 0 <= i < |b| ==> Candidate(b[i])
    ensures forall i :: 0 <= i < |a + b| ==> Candidate((a + b)[i])
  {
  }

  /** One page keeps the state consistent and adds at most 40 cards. */
  lemma CollectConsistent(g: Gathered, scan: Scan, search: SearchEntry)
    requires Consistent(g) && SoundScan(scan)
    ensures Consistent(Collect(g, scan, search))
    ensures Collect(g, scan, search).stats.totalCards <= g.stats.totalCards + CARDS_PER_SOURCE
  {
    var r := PageOf(scan, g.seen);
    if scan.Scanned? {
      var results := scan.results;
      var extracted := Extracted(results);
      var posts := Dedupe(extracted, PostKey, g.seen);
      DedupeSound(extracted, PostKey, g.seen);
      TallyBalance(results);
      PageCandidates(scan, g.seen);
      var filled := FillIds(posts, search.keywordId);
      FillIdsKeeps(posts, search.keywordId);
      AppendDistinct(g.posts, filled, PostKey);
      KeysAppend(g.posts, filled, PostKey);
      CandidatesAppend(g.posts, filled);
    } else {
      assert g.posts + FillIds([], search.keywordId) == g.posts;
      assert Keys([], PostKey) == {};
    }
  }

  /** One page adds at most 40 cards. */
  lemma CollectCards(g: Gathered, scan: Scan, search: SearchEntry)
    requires SoundScan(scan)
    ensures Collect(g, scan, search).stats.totalCards <= g.stats.totalCards + CARDS_PER_SOURCE
  {
  }

  /** Phase 1 keeps the state consistent. */
  lemma {:induction false} GatherConsistent(g: Gathered, scans: seq<Scan>, searches: seq<SearchEntry>, i: nat)
    requires i <= |scans| == |searches|
    requires Consistent(g) && forall k :: 0 <= k < |scans| ==> SoundScan(scans[k])
    ensures Consistent(Gather(g, scans, searches, i))
    decreases |scans| - i
  {
    if i < |scans| && !g.stopped {
      var next := Collect(g, scans[i], searches[i]);
      CollectConsistent(g, scans[i], searches[i]);
      GatherConsistent(next, scans, searches, i + 1);
      GatherStep(g, scans, searches, i);
      ConsistentSame(Gather(g, scans, searches, i), Gather(next, scans, searches, i + 1));
    } else {
      GatherStays(g, scans, searches, i);
    }
  }

  /** Phase 1 looks at no more than 40 cards per search. */
  lemma {:induction false} GatherCards(g: Gathered, scans: seq<Scan>, searches: seq<SearchEntry>, i: nat)
    requires i <= |scans| == |searches|
    requires forall k :: 0 <= k < |scans| ==> SoundScan(scans[k])
    ensures Gather(g, scans, searches, i).stats.totalCards <= g.stats.totalCards + CARDS_PER_SOURCE * (|scans| - i)
    decreases |scans| - i
  {
    if i < |scans| && !g.stopped {
      var next := Collect(g, scans[i], searches[i]);
      CollectCards(g, scans[i], searches[i]);
      GatherCards(next, scans, searches, i + 1);
      GatherStep(g, scans, searches, i);
      CardBudget(g.stats.totalCards, next.stats.totalCards, Gather(next, scans, searches, i + 1).stats.totalCards, |scans| - i);
    } else {
      GatherStays(g, scans, searches, i);
      NoCardBudget(|scans| - i);
    }
  }

  /** Consistency carried over an equality of states. */
  lemma ConsistentSame(a: Gathered, b: Gathered)
    requires a == b && Consistent(b)
    ensures Consistent(a)
  {
  }

  /** At most 40 more cards, then at most 40 for each of the `n - 1` searches after: at most 40 for each of the `n`. */
  lemma CardBudget(before: int, middle: int, after: int, n: nat)
    requires n > 0 && middle <= before + CARDS_PER_SOURCE && after <= middle + CARDS_PER_SOURCE * (n - 1)
    ensures after <= before + CARDS_PER_SOURCE * n
  {
  }

  /** The card allowance of `n` searches is never negative. */
  lemma NoCardBudget(n: nat)
    ensures CARDS_PER_SOURCE * n >= 0
  {
  }

  /** The posts a run collects have distinct URLs, balanced counters and at most 40 cards per search. */
  lemma GatheredConsistent(pages: seq<SearchPage>, searches: seq<SearchEntry>)
    requires |pages| == |searches|
    ensures var g := Gather(FRESH, Scans(pages, searches, ExtractPostData), searches, 0);
      Consistent(g) && g.stats.totalCards <= CARDS_PER_SOURCE * |pages|
  {
    var scans := Scans(pages, searches, ExtractPostData);
    ScansSound(pages, searches);
    GatherConsistent(FRESH, scans, searches, 0);
    GatherCards(FRESH, scans, searches, 0);
    assert |scans| - 0 == |pages|;
  }

  // ----- properties of a whole run -----

  /** A checkpoint anywhere in phase 1 publishes nothing and leaves the history as it was. */
  lemma CheckpointBlocks(searches: seq<SearchEntry>, pages: seq<SearchPage>, verify: string -> Verification, history: seq<Entry>, today: string)
    requires |pages| == |searches|
    ensures var g := Gather(FRESH, Scans(pages, searches, ExtractPostData), searches, 0);
      RunOutcome(searches, pages, verify, history, today).0.Blocked? <==> g.stopped
    ensures RunOutcome(searches, pages, verify, history, today).0.Blocked? ==> RunOutcome(searches, pages, verify, history, today).1 == history
  {
  }

  /**
   * A published run: at most three posts of the day, all of them verified
   * originals with distinct URLs; the history only grows, keeps its URLs
   * distinct, and the top 10 is computed on the grown history.
   */
  lemma RunPublishes(searches: seq<SearchEntry>, pages: seq<SearchPage>, verify: string -> Verification, history: seq<Entry>, today: string)
    requires |pages| == |searches| && DistinctKeys(history, EntryKey)
    ensures var (outcome, extended) := RunOutcome(searches, pages, verify, history, today);
      outcome.Published? ==>
        && |outcome.top3| <= DAILY_COUNT
        && multiset(outcome.top3) <= multiset(outcome.allPosts)
        && DistinctKeys(outcome.allPosts, PostKey)
        && (forall i :: 0 <= i < |outcome.allPosts| ==> outcome.allPosts[i].verified)
        && |history| <= |extended| && extended[..|history|] == history
        && DistinctKeys(extended, EntryKey)
        && outcome.top10 == GenerateTop10(extended)
  {
    var g := Gather(FRESH, Scans(pages, searches, ExtractPostData), searches, 0);
    if !g.stopped {
      GatheredConsistent(pages, searches);
      var day := VerifiedPosts(g.posts, verify);
      VerifiedPostsDistinct(g.posts, verify);
      VerifiedPostsOrigin(g.posts, verify);
      forall i | 0 <= i < |day| ensures day[i].verified {
        assert day[i] in day;
      }
      var top3 := SelectTop3(day);
      Top3Size(day);
      Top3FromPosts(day);
      MergeKeepsDistinct(history, top3, today);
      var extended := history + Appended(history, top3, today);
      assert extended[..|history|] == history;
    }
  }
}
