# ESG post collector, modelled in Dafny

The repository runs a daily LinkedIn collector for ESG, sustainability and
climate-technology posts, and publishes the results on a small static site.

Each run of `scripts/fetch_top3.mjs` goes through these steps:

- It builds one content search, limited to the last 24 hours, for every
  search term of every configured keyword.
- It loads each search page and looks at up to 40 result cards per page.
- It discards each card that is one of the following:
  - activity (someone commented, liked, reacted);
  - a repost or share;
  - a card without a post URL;
  - a card whose snippet is too short;
  - a card off the searched keyword.
- It keeps the remaining posts, with one post per normalized URL (the URL
  with its query string cut off) across the whole run.
- If LinkedIn shows a login or checkpoint page, the run stops and writes
  nothing.
- Otherwise each post is visited again:
  - posts that turn out not to be originals are dropped;
  - the others take the author, snippet and counters shown on the post's own
    page.
- The day's top 3 are chosen by total interactions. The longest snippets top
  them up or replace them when too few posts have metrics.
- The top 3 are appended to the all-time history, deduplicated by normalized
  URL and stamped with the date.
- The all-time top 10 is recomputed by likes plus comments.

The site's edge function, `functions/_middleware.js`, lets four public paths
through. It sends every other request to `/login` unless the request's `auth`
cookie equals the configured `APP_TOKEN`.

The Dafny modules follow the source's structure:

| module | file | contents |
|---|---|---|
| `Strings` | strings.dfy | the JavaScript string operations the source relies on: `\s`, `\w`, `toLowerCase`, `includes`, `trim`, `split`, `join` |
| `Wrappers` | wrappers.dfy | `Option`, for missing fields and `null` |
| `Urls` | urls.dfy | `normalizeUrl` and deduplication by normalized URL |
| `Patterns` | patterns.dfy | the regular-expression shapes the classifiers use |
| `Sorting` | sorting.dfy | the stable descending sort and `slice` |
| `Snippets` | snippets.dfy | `cleanSnippet` |
| `Language` | language.dfy | `detectLanguage` |
| `Posts` | posts.dfy | the post and history-entry records |
| `Keywords` | keywords.dfy | `KEYWORDS_CONFIG`, `containsKeyword`, `matchesKeyword`, `generateSearchUrls` |
| `Classifier` | classifier.dfy | `isActivityCard`, `isRepostByText`, `isRepostCard`, `isProbableRepost` |
| `Extractor` | extractor.dfy | `extractPostData` |
| `History` | history.dfy | `loadHistory`'s result, `mergeHistory`, `calcScore`, `generateTop10` |
| `Selection` | selection.dfy | the top-3 selection of `main` |
| `Verifier` | verifier.dfy | the verification merge of `main` |
| `Run` | run.dfy | `scrapePage`, the shared state of `main`, and a whole run |
| `Middleware` | middleware.dfy | `onRequest` and `parseCookies` |

The code that updates state in place is modelled with classes:

- `Run.Session` holds `allPosts`, `seenUrls`, the global counters and
  `checkpointDetected`;
- `History.Log` holds the history array that `mergeHistory` pushes to.

The phase 1 methods of `Run.Session` take the per-card extraction as an
argument of type `Run.CardReader`, and `Run.RunSearches` passes
`Extractor.ExtractPostData`. Their contracts therefore hold for any card
reader. `Run.ScanOfSound` and `Run.ScansSound` state what `ExtractPostData`
adds to them.

Each method that loops is proved equal to a specification function. The
properties of the source are then proved about those functions.

A browser result card is a value, `Classifier.Card`. It holds what the page
reports:
- the card's text and attributes;
- the href of every link;
- the texts found by each selector list.

A search page is `LoadFailed`, `Checkpoint` or `Loaded(cards)`.

## Model

| member | source | states |
|---|---|---|
| Urls.NormalizeUrl | scripts/fetch_top3.mjs:390-393 | the normalized URL is the part of the URL before its first `?`; it contains no `?`; the empty URL gives the empty string |
| Urls.NormalizeUrlIdempotent | scripts/fetch_top3.mjs:390-393 | normalizing a normalized URL changes nothing |
| Urls.NormalizeUrlDropsQuery | scripts/fetch_top3.mjs:390-393 | `base?query` normalizes like `base`, whatever the query |
| Urls.SameBaseSameNormal | scripts/fetch_top3.mjs:390-393 | two URLs that differ only in their query string are the same post for deduplication |
| Urls.DedupeSound | scripts/fetch_top3.mjs:1161-1169 | the kept posts have pairwise distinct normalized URLs, none of them already seen, and are drawn from the input without repetition |
| Urls.DedupeSnoc | scripts/fetch_top3.mjs:1163-1169 | one step of the loop: the next post is kept exactly when its normalized URL was neither seen before nor kept so far |
| Urls.DedupeComplete | scripts/fetch_top3.mjs:1163-1169 | every normalized URL of the input ends up among the seen URLs, so nothing is dropped except repeats |
| Urls.DedupeKeepsDistinct | scripts/fetch_top3.mjs:1163-1169 | posts whose URLs are already distinct and unseen all pass |
| Urls.DedupeIdempotent | scripts/fetch_top3.mjs:1163-1169 | deduplicating twice gives the same as once |
| Urls.DedupeAllSeen | scripts/fetch_top3.mjs:910-919 | when every URL is already in the set, nothing is added |
| Urls.DedupeMoreThanOne | scripts/fetch_top3.mjs:768-771 | the distinct list has more than one element exactly when two links differ |
| Keywords.TokensFor | scripts/fetch_top3.mjs:802 | `containsKeyword` always has at least one token to try |
| Keywords.FindById | scripts/fetch_top3.mjs:279 | `find` by id gives an entry with that id from the configuration, or nothing exactly when no entry has that id |
| Keywords.FindByHashtag | scripts/fetch_top3.mjs:1426-1430 | the configuration found for a `#` source matches the hashtag by id or by search term; nothing is found exactly when no entry matches |
| Keywords.GenerateSearchUrls | scripts/fetch_top3.mjs:170-184 | the searches of a run are the entries of `SearchEntries` for the configured keywords: one per keyword and search term, keywords and terms in their configured order |
| Keywords.SearchUrlsFor | scripts/fetch_top3.mjs:171-183 | the nested loop produces, for every keyword in order and every search term in order, the entry with the 24-hour search URL of the encoded term and the keyword's id and label |
| Keywords.SearchEntriesCount | scripts/fetch_top3.mjs:170-184 | one search per search term |
| Keywords.AllSearchesCount | scripts/fetch_top3.mjs:85-184 | the configured 13 keywords make 31 searches per run |
| Keywords.EntriesForSound | scripts/fetch_top3.mjs:172-181 | the entries of one keyword are exactly one per term, labelled with that keyword |
| Keywords.SearchEntriesSoundComplete | scripts/fetch_top3.mjs:170-184 | every entry comes from a configured (keyword, term) pair, and every such pair has its entry |
| Keywords.ContainsKeywordIgnoresCase | scripts/fetch_top3.mjs:799-812 | the keyword filter ignores letter case in both the text and the hashtag |
| Keywords.ContainsKeywordExtend | scripts/fetch_top3.mjs:799-812 | a text that passes the filter still passes with any text added around it |
| Keywords.ContainsKeywordUnlisted | scripts/fetch_top3.mjs:802-809 | for a hashtag without a token list, the filter is a case-insensitive search for the hashtag itself |
| Keywords.MatchesKeywordUnknown | scripts/fetch_top3.mjs:276-284 | a keyword id that is not configured never matches |
| Keywords.MatchesKeywordIgnoresCase | scripts/fetch_top3.mjs:276-284 | `matchesKeyword` ignores letter case in the text |
| Keywords.EmptyHashtagSelectsFirst | scripts/fetch_top3.mjs:1423-1430 | the source `#` alone is assigned the first keyword, `esg` |
| Language.Score | scripts/fetch_top3.mjs:258-267 | a score never exceeds the number of markers |
| Language.CountMarkers | scripts/fetch_top3.mjs:261-267 | a counting loop yields the score of its marker list |
| Language.DetectLanguage | scripts/fetch_top3.mjs:232-271 | the two counting loops answer ES exactly when the text is not empty and more Spanish than English markers occur in the lowercased text |
| Language.ScoreZero | scripts/fetch_top3.mjs:261-267 | a score is zero exactly when no marker occurs |
| Language.ScoreFull | scripts/fetch_top3.mjs:261-267 | a score is full exactly when every marker occurs |
| Language.ScoreExtend | scripts/fetch_top3.mjs:261-267 | adding text around a text never lowers a score |
| Language.ScoreWithout | scripts/fetch_top3.mjs:261-267 | markers that never occur bound the score from above |
| Language.ChangedByLowerNeverFound | scripts/fetch_top3.mjs:235-262 | a marker with a character that lowercasing changes is never found in the lowercased text |
| Language.SpanishScoreBound | scripts/fetch_top3.mjs:238-262 | the seven Spanish markers written with U+00C3 never count, so the Spanish score is at most 45 |
| Language.DetectedLanguageIgnoresCase | scripts/fetch_top3.mjs:232-271 | the detected language does not depend on letter case |
| Snippets.Collapse | scripts/fetch_top3.mjs:375 | the collapsed text is no longer than the text, starts with whitespace exactly when the text does, and is empty only for the empty text |
| Snippets.CollapseWords | scripts/fetch_top3.mjs:375 | collapsing keeps the words of the text, in order |
| Snippets.CollapseMeaning | scripts/fetch_top3.mjs:375 | every whitespace run becomes one plain space: only single spaces are left, between the same words as in the text |
| Snippets.CleanJoin | scripts/fetch_top3.mjs:375 | a clean text is its words joined by single spaces |
| Snippets.CleanedWords | scripts/fetch_top3.mjs:375 | the collapsed and trimmed text is the text's words joined by single spaces |
| Snippets.CleanSnippet | scripts/fetch_top3.mjs:373-378 | a snippet has at most `maxLen` characters plus the three dots |
| Snippets.CollapseKeepsContent | scripts/fetch_top3.mjs:375 | collapsing whitespace keeps every other character in order |
| Snippets.NonSpaceTrim | scripts/fetch_top3.mjs:375 | trimming keeps every non-whitespace character |
| Snippets.TrimClean | scripts/fetch_top3.mjs:375 | trimming a single-spaced text gives a clean one |
| Snippets.CollapseFixpoint | scripts/fetch_top3.mjs:375 | collapsing a single-spaced text changes nothing |
| Snippets.CleanFixpoint | scripts/fetch_top3.mjs:375 | a clean text is its own collapsed and trimmed form |
| Snippets.CleanedText | scripts/fetch_top3.mjs:375 | the collapsed, trimmed text is clean and has all the content of the input |
| Snippets.CutClean | scripts/fetch_top3.mjs:377 | cutting a clean text and trimming it leaves a clean text whose content begins the original's |
| Snippets.CleanSnippetMeaning | scripts/fetch_top3.mjs:373-378 | with the text's words joined by single spaces as the cleaned text: a snippet that fits is exactly that text, clean and with all the content; a longer one is its first `maxLen` characters trimmed, a clean prefix of the content, followed by `...` |
| Snippets.CleanSnippetIdempotent | scripts/fetch_top3.mjs:373-378 | cleaning a snippet that fits a second time changes nothing |
| Sorting.SortDescCorrect | scripts/fetch_top3.mjs:1658 | the descending sort orders by key and is a permutation of its input |
| Sorting.SortDescStable | scripts/fetch_top3.mjs:944 | among equal keys the sort keeps the input order |
| Sorting.Take | scripts/fetch_top3.mjs:945 | `slice(0, n)` is the first n elements, or all of them when there are fewer |
| Sorting.TakeStable | scripts/fetch_top3.mjs:1657-1658 | after sorting and slicing, the elements with one key are the first of those in the input, in input order |
| Sorting.TopAreHighest | scripts/fetch_top3.mjs:944-945 | every element kept after sorting and slicing has a key at least as large as every one dropped |
| Classifier.Header | scripts/fetch_top3.mjs:638 | the header is the first 500 characters of the card text, or all of it when it is shorter |
| Classifier.RepostByTextReadsHeaderOnly | scripts/fetch_top3.mjs:634-660 | the text repost test reads nothing past the first 500 characters |
| Classifier.RepostedThisIsRepost | scripts/fetch_top3.mjs:641-657 | "reposted this" within the first 500 characters marks a repost |
| Classifier.CommentedOnIsActivity | scripts/fetch_top3.mjs:590-626 | "commented on" standing as its own words marks activity |
| Classifier.ActivityIgnoresCase | scripts/fetch_top3.mjs:590-626 | the activity test does not depend on letter case |
| Classifier.TestIgnoresCase | scripts/fetch_top3.mjs:619-623 | a list of case-insensitive patterns gives the same answer on the lowercased text |
| Classifier.NormalizedLinks | scripts/fetch_top3.mjs:758-781 | no more normalized links than hrefs |
| Classifier.NormalizedLinksMembers | scripts/fetch_top3.mjs:758-781 | a link is kept exactly when some non-empty href the filter accepts, cut at its `?`, is that link |
| Classifier.NormalizedLinksAppend | scripts/fetch_top3.mjs:758-781 | the links keep the order of the hrefs: the links of two lists of hrefs are those of the first followed by those of the second |
| Classifier.PostLinksMeaning | scripts/fetch_top3.mjs:752-786 | more than one distinct post URL means two post links that differ before their `?` |
| Classifier.NormalizeAuthor | scripts/fetch_top3.mjs:828-834 | the normalized author has only lowercase letters, digits and whitespace |
| Classifier.KeepNameChars | scripts/fetch_top3.mjs:834 | only lowercase letters, digits and whitespace are kept |
| Strings.WordsAreWords | scripts/fetch_top3.mjs:836 | the words of a text are non-empty and contain no whitespace |
| Strings.WordsSpaceCons | scripts/fetch_top3.mjs:836 | leading whitespace adds no word |
| Strings.WordsSpacesAfter | scripts/fetch_top3.mjs:836 | trailing whitespace adds no word |
| Strings.WordsTrim | scripts/fetch_top3.mjs:836 | trimming keeps the words |
| Strings.WordsAlone | scripts/fetch_top3.mjs:836 | a non-whitespace character before whitespace, or at the end, is a word of its own |
| Strings.WordsJoin | scripts/fetch_top3.mjs:836 | a non-whitespace character before a word becomes part of that word |
| Strings.WordsWordThen | scripts/fetch_top3.mjs:836 | a word followed by whitespace, or by nothing, is the first word of the text |
| Strings.WordsStep | scripts/fetch_top3.mjs:836 | the first word runs from the first non-whitespace character up to the next whitespace, and the rest of the text splits the same way |
| Classifier.LongWords | scripts/fetch_top3.mjs:836 | only the words longer than two characters are kept |
| Classifier.SlugFrom | scripts/fetch_top3.mjs:844 | a company slug found is non-empty and follows `/company/` in the URL |
| Classifier.DropDashes | scripts/fetch_top3.mjs:846 | the slug key has no dashes |
| Classifier.FirstContaining | scripts/fetch_top3.mjs:865-866 | the index found is that of the first URL containing the company path, or nothing |
| Classifier.IsProbableRepost | scripts/fetch_top3.mjs:824-876 | the loop over profile URLs answers the same as the specification: an author, and an unrelated company found among the first four profile URLs |
| Classifier.UnrelatedNonEmpty | scripts/fetch_top3.mjs:841-858 | one URL with an unrelated company slug makes the list of unrelated companies non-empty |
| Classifier.UnrelatedHead | scripts/fetch_top3.mjs:841-864 | the first unrelated company comes from the first URL that has one |
| Classifier.ProbableRepostHasEarlyCompanyLink | scripts/fetch_top3.mjs:860-875 | a probable repost always has a company link among its first four profile URLs |
| Classifier.EarlyUnrelatedCompanyIsRepost | scripts/fetch_top3.mjs:824-875 | an author plus a company among the first four links whose slug does not name the author makes a probable repost |
| Classifier.RelatedCompaniesAreNotRepost | scripts/fetch_top3.mjs:841-875 | when every company slug names the author, the card is not a probable repost |
| Patterns.TestWordAt | scripts/fetch_top3.mjs:597-616 | a `\bword\b` pattern matches wherever the word stands between two word boundaries |
| Extractor.Likes | scripts/fetch_top3.mjs:1363-1396 | likes are always below one million |
| Extractor.Comments | scripts/fetch_top3.mjs:1398-1412 | comments are always below ten thousand |
| Extractor.LeadingNumberReads | scripts/fetch_top3.mjs:1387-1389 | a number written after leading whitespace is read back exactly |
| Extractor.LeadingNumberNeedsDigit | scripts/fetch_top3.mjs:1387-1389 | a text without digits gives no number |
| Extractor.CommentCountReads | scripts/fetch_top3.mjs:1404-1406 | a number followed, after optional whitespace, by "comment" in any case is read back exactly |
| Extractor.ActivityIdFrom | scripts/fetch_top3.mjs:1268 | an activity id found is a non-empty run of digits |
| Extractor.ActivityIdReads | scripts/fetch_top3.mjs:1268-1270 | `urn:li:activity:` followed by digits yields exactly those digits |
| Extractor.ActivityIdFound | scripts/fetch_top3.mjs:1268-1269 | any `urn:li:activity:` followed by a digit is found |
| Extractor.UrnInTextGivesUrl | scripts/fetch_top3.mjs:1266-1272 | a card whose text mentions an activity urn always has a URL |
| Extractor.FirstPostHref | scripts/fetch_top3.mjs:1238-1250 | the link chosen is the first non-empty href to a post; there is none exactly when no href qualifies |
| Extractor.PostUrlIsAbsolute | scripts/fetch_top3.mjs:1227-1272 | every URL that any of the four strategies builds starts with `http` |
| Extractor.FirstLineOfTrimmed | scripts/fetch_top3.mjs:1297-1298 | the author cut from an accepted selector text is non-empty and a single line |
| Extractor.AuthorOfFound | scripts/fetch_top3.mjs:1291-1300 | an author is found exactly when some selector text is longer than one character once trimmed |
| Extractor.AuthorOfShape | scripts/fetch_top3.mjs:1291-1300 | the author is one line without whitespace at either end |
| Extractor.FirstSnippet | scripts/fetch_top3.mjs:1330-1339 | the selector snippet fits the length bound |
| Extractor.SnippetOf | scripts/fetch_top3.mjs:1330-1344 | the snippet fits the length bound |
| Snippets.CleanSnippetNonEmpty | scripts/fetch_top3.mjs:373-378 | a text with some non-whitespace character gives a non-empty snippet |
| Extractor.FirstSnippetSelects | scripts/fetch_top3.mjs:1332-1339 | the snippet is the cleaned first selector text longer than 20 characters once trimmed |
| Extractor.SnippetFallsBack | scripts/fetch_top3.mjs:1341-1344 | without such a selector text the snippet is the cleaned card text |
| Extractor.ActivityFirst | scripts/fetch_top3.mjs:1209-1212 | a card is discarded as activity exactly when its text is activity |
| Extractor.RepostSignsDiscard | scripts/fetch_top3.mjs:1214-1221 | a card with any repost sign, and no activity, is discarded as a repost |
| Extractor.NoUrlMeaning | scripts/fetch_top3.mjs:1226-1276 | `no_url` is given exactly to cards that are not activity, have no repost sign and have no URL by any strategy |
| Extractor.FallbackKeepsOffTopic | scripts/fetch_top3.mjs:1351-1357 | with the fallback source or an empty hashtag no card is lost to the keyword filter |
| Extractor.BuildPost | scripts/fetch_top3.mjs:1363-1453 | the built post has the URL, author and snippet it was given, the default title when there is no author, reposts 0, bounded counters, total as their sum, the detected language and `verified` false |
| Extractor.AcceptedPassedFilters | scripts/fetch_top3.mjs:1201-1357 | every accepted post passed every filter in order: not activity, no repost sign, a URL by the strategies, not a probable repost, a snippet of at least 40 characters, the keyword when one applies |
| Extractor.AcceptedPost | scripts/fetch_top3.mjs:1201-1454 | every accepted post has an absolute URL, a one-line author, a snippet of 40 to 243 characters, bounded counters with reposts 0 and their sum as total, the detected language, and is not verified |
| Posts.EntryOf | scripts/fetch_top3.mjs:914-917 | the history entry keeps the post's URL and carries the date |
| Posts.OrText | scripts/fetch_top3.mjs:933-938 | a missing or empty field reads as the default, any other value as itself |
| Posts.OrZero | scripts/fetch_top3.mjs:939-941 | a missing number reads as 0 |
| History.Stamp | scripts/fetch_top3.mjs:914-917 | each appended entry is the post with the date added |
| History.Log.constructor | scripts/fetch_top3.mjs:885-896 | the history starts as the array read from the file |
| History.Log.Merge | scripts/fetch_top3.mjs:905-922 | the history afterwards is the old one followed by the new posts whose normalized URL it did not hold, first occurrence only, each stamped with the date |
| History.MergeNothing | scripts/fetch_top3.mjs:905-922 | merging no posts adds nothing |
| History.AppendedFresh | scripts/fetch_top3.mjs:905-922 | the appended entries carry the date, have distinct normalized URLs, none already in the history, and are no more than the new posts |
| History.MergeComplete | scripts/fetch_top3.mjs:905-922 | after the merge the history holds the URL of every new post |
| History.MergeKeepsDistinct | scripts/fetch_top3.mjs:905-922 | a history without repeated URLs keeps that property |
| History.MergeTwice | scripts/fetch_top3.mjs:905-922 | merging the same posts again, on any date, adds nothing |
| History.ToTop | scripts/fetch_top3.mjs:931-943 | a top-10 entry's total is its likes plus comments plus reposts, and its language is never empty |
| History.Tops | scripts/fetch_top3.mjs:930-943 | one top-10 entry per history entry, in order |
| History.Top10Size | scripts/fetch_top3.mjs:929-946 | the top 10 has ten entries, or every entry of a shorter history |
| History.Top10Ordered | scripts/fetch_top3.mjs:929-946 | the top 10 is ordered by likes plus comments, highest first, and every entry comes from the history |
| History.Top10Highest | scripts/fetch_top3.mjs:929-946 | no entry left out of the top 10 scores higher than one in it |
| History.Top10Stable | scripts/fetch_top3.mjs:929-946 | among equal scores, the entries that come first in the history make the top 10 first |
| Selection.FilterCount | scripts/fetch_top3.mjs:1652-1653 | a filter keeps each element as often as it occurs when it passes, and drops it otherwise |
| Selection.FilterMembers | scripts/fetch_top3.mjs:1652-1653 | an element is in the filtered list exactly when it is in the list and passes |
| Selection.GroupsArePart | scripts/fetch_top3.mjs:1652-1653 | the posts with metrics and the text-only posts do not overlap and together are part of the day's posts |
| Selection.Top3Size | scripts/fetch_top3.mjs:1652-1671 | the top 3 has three posts, or as many as the two groups hold together when that is fewer |
| Selection.Top3FromPosts | scripts/fetch_top3.mjs:1652-1671 | every selected post is one of the day's posts, with metrics or with text, and no post is selected more often than it occurs |
| Selection.Top3ByMetrics | scripts/fetch_top3.mjs:1657-1658 | with three or more posts with metrics the top 3 are three of them by total, none left out has a larger total, and among equal totals the posts collected first are taken first |
| Selection.Top3Mixed | scripts/fetch_top3.mjs:1660-1664 | with one or two posts with metrics they all come first, by total and in collection order among equal totals; text-only posts fill the rest by snippet length, no text-only post left out has a longer snippet than one taken, and among equal lengths the first collected are taken |
| Selection.Top3BySnippet | scripts/fetch_top3.mjs:1666-1667 | without posts with metrics the top 3 are the longest text-only snippets, the first collected taken first among equal lengths |
| Selection.Top3Stable | scripts/fetch_top3.mjs:1652-1671 | in each of the three cases, posts with equal totals or equal snippet lengths are taken in the order they were collected |
| Selection.MixedFillLongest | scripts/fetch_top3.mjs:1660-1664 | no text-only post left out of the fill has a longer snippet than one in it |
| Selection.Top3Empty | scripts/fetch_top3.mjs:1652-1671 | nothing is selected exactly when no post has metrics or text |
| Verifier.ApplyVerification | scripts/fetch_top3.mjs:1616-1633 | the verified post keeps its URL and keyword, is marked verified, has its author as title, its counters' sum as total and the language of its snippet |
| Verifier.VerificationPrefersPageData | scripts/fetch_top3.mjs:1616-1631 | each field the post's page reports replaces the collected one; a missing one keeps it |
| Verifier.VerificationKeepsData | scripts/fetch_top3.mjs:1616-1631 | a field is missing after verification only when it was missing both before and on the page |
| Verifier.VerifiedPostsOrigin | scripts/fetch_top3.mjs:1609-1634 | every verified post comes from a collected post whose visit found it original, and there are no more verified posts than collected ones |
| Verifier.OriginalsKept | scripts/fetch_top3.mjs:1611-1634 | every post whose visit finds it original is kept |
| Verifier.VerifiedPostsDistinct | scripts/fetch_top3.mjs:1609-1644 | verification keeps the normalized URLs distinct and adds none |
| Verifier.AllOriginal | scripts/fetch_top3.mjs:1611-1634 | when every post is original none is dropped |
| Verifier.NoneOriginal | scripts/fetch_top3.mjs:1611-1634 | when no post is original none is left |
| Run.CountDiscard | scripts/fetch_top3.mjs:1151-1158 | a discard adds one to the counter of its reason, leaves the other four discard counters, the card total and the accepted count alone, and so adds one to the number of discarded cards |
| Run.AddStats | scripts/fetch_top3.mjs:1548-1554 | every global discard counter, the card total and the accepted count each become their old value plus the page's |
| Run.FillIds | scripts/fetch_top3.mjs:1539-1543 | posts without a keyword id take the search's id; the others are unchanged |
| Run.Session.constructor | scripts/fetch_top3.mjs:1504-1517 | a run starts with no posts, no URLs seen, zero counters and no checkpoint |
| Run.Session.ScrapePage | scripts/fetch_top3.mjs:1057-1191 | a page that failed to load yields nothing; a checkpoint page yields only the checkpoint flag; otherwise the new posts of the first 40 cards, deduplicated against `seenUrls`, with their counters, and `seenUrls` gains exactly their URLs |
| Run.Session.ScanCards | scripts/fetch_top3.mjs:1142-1172 | the card loop returns the posts with a new URL in card order and the discard counters, and adds exactly those URLs to `seenUrls` |
| Run.Session.CollectOne | scripts/fetch_top3.mjs:1528-1554 | one search: the page scraped, and on no checkpoint its posts added with keyword ids filled in and its counters added |
| Run.Session.CollectAll | scripts/fetch_top3.mjs:1527-1554 | phase 1 leaves the state of every search in turn up to the first checkpoint, and sets the checkpoint flag exactly when one was met |
| Run.Session.VerifyPosts | scripts/fetch_top3.mjs:1603-1645 | `allPosts` becomes its verified originals |
| Run.Session.Finish | scripts/fetch_top3.mjs:1589-1726 | a checkpoint publishes nothing and leaves the history alone; otherwise the posts are verified, the top 3 merged into the history on today's date, and the top 10 computed on the new history |
| Run.RunSearches | scripts/fetch_top3.mjs:1504-1726 | the body of `main` yields the outcome and the history of the run's specification |
| Run.FetchTop3 | scripts/fetch_top3.mjs:1460-1730 | a whole run over the generated searches yields the outcome and the history of the run's specification |
| Run.GatherStays | scripts/fetch_top3.mjs:1533-1536 | after a checkpoint no later search changes the state |
| Run.ScanOfSound | scripts/fetch_top3.mjs:1136-1172 | every page gives at most 40 results, one per card looked at, and every accepted post is a well-formed candidate |
| Run.ScansSound | scripts/fetch_top3.mjs:1527-1531 | so does every page of the run |
| Run.ExtractedFrom | scripts/fetch_top3.mjs:1161-1162 | each post taken from a page is an accepted result with a URL |
| Run.TallyBalance | scripts/fetch_top3.mjs:1142-1172 | every card is counted at most once, as a post or as one discard |
| Run.FillIdsKeeps | scripts/fetch_top3.mjs:1539-1543 | filling in keyword ids keeps the URLs, their distinctness and the candidates |
| Run.CollectConsistent | scripts/fetch_top3.mjs:1531-1554 | one search keeps the URLs distinct and equal to `seenUrls`, keeps the counters balanced, and adds at most 40 cards |
| Run.GatherConsistent | scripts/fetch_top3.mjs:1527-1554 | phase 1 keeps that consistency over every remaining search |
| Run.CollectCards | scripts/fetch_top3.mjs:1548-1554 | one page adds at most 40 to the number of cards looked at |
| Run.GatherCards | scripts/fetch_top3.mjs:1527-1554 | phase 1 looks at no more than 40 cards for each remaining search |
| Run.GatheredConsistent | scripts/fetch_top3.mjs:1504-1554 | the posts of a run have distinct normalized URLs equal to `seenUrls`, the accepted counter equals their number and at most 40 cards per search are looked at |
| Run.CheckpointBlocks | scripts/fetch_top3.mjs:1533-1598 | a run publishes nothing exactly when a checkpoint was met, and then the history is unchanged |
| Run.RunPublishes | scripts/fetch_top3.mjs:1603-1726 | a published run has at most three top posts, all among the day's verified posts with distinct URLs; the history only grows at its end, keeps its URLs distinct, and the top 10 is that of the grown history |
| Middleware.ParseCookies | functions/_middleware.js:30-42 | the segment loop builds the cookie object of its specification |
| Middleware.OnRequest | functions/_middleware.js:1-28 | the handler's answer is the decision of its specification |
| Middleware.DecideMeaning | functions/_middleware.js:13-27 | a request passes exactly when its path is public or its `auth` cookie is present, non-empty and equal to `APP_TOKEN`; every other request is redirected to `/login` |
| Middleware.NoTokenNoAccess | functions/_middleware.js:20-25 | without `APP_TOKEN` only the public paths are reachable |
| Middleware.NoCookieRedirects | functions/_middleware.js:18-25 | a private path without cookies, or with an empty header, goes to `/login` |
| Middleware.LoginReachable | functions/_middleware.js:6-15 | `/login` is always reachable, so a redirect never loops |
| Middleware.ParseSegmentAtFirstEquals | functions/_middleware.js:35-37 | a cookie's name is the trimmed segment up to its first `=`, and its value is all of the rest, later `=` signs included |
| Middleware.AssignHas | functions/_middleware.js:34-39 | a name is in the cookie object exactly when some segment sets it |
| Middleware.AssignLastWins | functions/_middleware.js:34-39 | a name holds the value of the last segment that sets it |
| Middleware.AssignSkips | functions/_middleware.js:36-37 | the empty name and `__proto__` never become entries |
| Middleware.AuthCookieRoundTrip | functions/_middleware.js:30-42 | the header `auth=<token>` parses back to exactly that one cookie |
| Middleware.TokenGivesAccess | functions/_middleware.js:17-27 | that cookie, with the same token configured, reaches every path |
| Middleware.WrongTokenRedirects | functions/_middleware.js:17-25 | the same cookie against a different token sends a private path to `/login` |
| Strings.JoinSplit | functions/_middleware.js:35-37 | splitting on a character and joining with it gives the text back |
| Strings.RestAfterFirst | functions/_middleware.js:35-37 | the pieces after the first separator, joined again, are the text after it |

## Left out

- Browser automation is not modelled (Playwright, launching, scrolling, screenshots, debug files, diagnostics). What a page shows is input data: `SearchPage` and `Classifier.Card`.
- `isOnLoginOrCheckpoint` is not modelled. It depends on the browser, so a checkpoint is the `Checkpoint` page variant.
- Random and fixed delays between searches and verifications, and the time-limit bookkeeping of the loop, are left out. They do not change what is collected.
- `verifyAndExtractPost` is not modelled. It visits a post in the browser, so its answer for each URL is the function parameter `verify`.
- `parseNumber` is not modelled. It works on floating point and rounds, so the number it reads from the reactions span is a card field.
- File I/O, JSON parsing and serialization, and the exit code are left out. The history read at the start is the `Log` constructor's argument. `data.json` is written before the history is merged; its `lastUpdated` and `keywords` fields and the file writes are not modelled.
- The clock is not modelled: `today` is a parameter.
- `encodeURIComponent` is not modelled: it is the parameter `encode`.
- `QUICK_TEST` is not modelled. The model runs every generated search.
- The older constants `CARDS_PER_SOURCE`, `HASHTAGS` and `SEARCH_URLS` are not modelled. Only `CARDS_PER_SOURCE_V2` and `generateSearchUrls` are.
- Exceptions are not modelled. A card whose processing throws is skipped by the source's `try`; the model has no throwing card.
- `VERIFY_POSTS` is taken as its configured value, true.
- The in-place `sort` of freshly filtered arrays is modelled as a stable sort on values. Those arrays are not shared, so aliasing is not observable.
- `toLowerCase` is exact only on U+0000 to U+00FF. Other characters are left unchanged.
- JavaScript strings are UTF-16 code units in the source; the model uses Dafny characters.
- The regular expressions are modelled only in the shape they take here: an optional `\b`, literal words joined by `\s+`, and an optional trailing `\b` or multiline `$`.
- `isProbableRepost`'s third parameter `cardText` is not modelled. The source never reads it.
- `KEYWORD_TOKENS` lookups are modelled as a map of its three keys. A hashtag naming an `Object.prototype` member, such as `constructor`, is treated like any unlisted hashtag.
- `scrapePage` receives the search term as its `source`. The `search_fallback` branch of `extractPostData` is modelled, but no configured search term reaches it.
- The `Response` and `next()` objects of the middleware are not modelled. They become the `Decision` values `Next` and `RedirectTo("/login")`.
- The login page script and the site's front end are not part of this model.
- Logging output is left out.
