/**
 * The keyword configuration, the keyword filters `containsKeyword` and
 * `matchesKeyword`, and `generateSearchUrls`.
 */
module Keywords {
  import opened Strings
  import opened Wrappers

  /** One entry of `KEYWORDS_CONFIG`; `displayLabel` is its `label`. */
  datatype KeywordConfig = KeywordConfig(id: string, displayLabel: string, searchTerms: seq<string>, tokens: seq<string>)

  /** `KEYWORDS_CONFIG`, in source order. */
  const KEYWORDS_CONFIG: seq<KeywordConfig> := [
    KW_ESG, KW_SUSTAINABILITY, KW_CLIMATETECH, KW_CSRD,
    KW_ESRS, KW_VSME, KW_NON_FINANCIAL_REPORTING, KW_DOUBLE_MATERIALITY,
    KW_LCA, KW_SCOPE_EMISSIONS, KW_EU_TAXONOMY, KW_GHG_PROTOCOL,
    KW_ESG_DATA
  ]

  const KW_ESG: KeywordConfig := KeywordConfig("esg", "ESG",
    ["#esg", "ESG"],
    ["#esg", " esg ", " esg.", " esg,", "(esg)", "esg-", "esg reporting", "esg criteria"])

  const KW_SUSTAINABILITY: KeywordConfig := KeywordConfig("sustainability", "Sustainability",
    ["#sustainability", "#sostenibilidad"],
    ["#sustainability", "sustainability", "sostenibilidad", "sustentabilidad", "sustainable"])

  const KW_CLIMATETECH: KeywordConfig := KeywordConfig("climatetech", "Climate Tech",
    ["#climatetech", "climate tech"],
    ["#climatetech", "climatetech", "climate tech", "climate-tech", "climatech"])

  const KW_CSRD: KeywordConfig := KeywordConfig("csrd", "CSRD",
    ["CSRD", "#csrd"],
    ["csrd", "#csrd", "corporate sustainability reporting directive"])

  const KW_ESRS: KeywordConfig := KeywordConfig("esrs", "ESRS",
    ["ESRS", "#esrs"],
    ["esrs", "#esrs", "european sustainability reporting standards"])

  const KW_VSME: KeywordConfig := KeywordConfig("vsme", "VSME",
    ["VSME", "#vsme"],
    ["vsme", "#vsme", "voluntary sme standard"])

  const KW_NON_FINANCIAL_REPORTING: KeywordConfig := KeywordConfig("non-financial-reporting", "Non-Financial Reporting",
    ["non-financial reporting", "informaci\U{C3}\U{B3}n no financiera"],
    ["non-financial reporting", "non financial reporting", "informaci\U{C3}\U{B3}n no financiera", "informe no financiero", "nfrd"])

  const KW_DOUBLE_MATERIALITY: KeywordConfig := KeywordConfig("double-materiality", "Double Materiality",
    ["double materiality", "doble materialidad"],
    ["double materiality", "doble materialidad", "materiality assessment", "an\U{C3}\U{A1}lisis de materialidad"])

  const KW_LCA: KeywordConfig := KeywordConfig("lca", "LCA / ACV",
    ["life cycle assessment", "an\U{C3}\U{A1}lisis ciclo vida", "LCA"],
    ["lca", "acv", "life cycle assessment", "an\U{C3}\U{A1}lisis ciclo vida", "an\U{C3}\U{A1}lisis de ciclo de vida", "life-cycle assessment"])

  const KW_SCOPE_EMISSIONS: KeywordConfig := KeywordConfig("scope-emissions", "Scope 1 2 3",
    ["scope 1 2 3", "scope emissions", "alcance 1 2 3"],
    ["scope 1", "scope 2", "scope 3", "alcance 1", "alcance 2", "alcance 3", "scope emissions", "emisiones alcance"])

  const KW_EU_TAXONOMY: KeywordConfig := KeywordConfig("eu-taxonomy", "EU Taxonomy",
    ["EU taxonomy", "taxonom\U{C3}\U{AD}a europea", "#eutaxonomy"],
    ["eu taxonomy", "taxonom\U{C3}\U{AD}a europea", "taxonomia europea", "european taxonomy", "#eutaxonomy", "taxonomy regulation"])

  const KW_GHG_PROTOCOL: KeywordConfig := KeywordConfig("ghg-protocol", "GHG Protocol",
    ["GHG protocol", "protocolo GEI", "#ghgprotocol"],
    ["ghg protocol", "protocolo gei", "greenhouse gas protocol", "gases efecto invernadero", "#ghgprotocol"])

  const KW_ESG_DATA: KeywordConfig := KeywordConfig("esg-data", "ESG Data",
    ["ESG data", "datos ESG", "#esgdata"],
    ["esg data", "datos esg", "esg metrics", "m\U{C3}\U{A9}tricas esg", "esg reporting data", "#esgdata"])

  /** `KEYWORD_TOKENS`, the older per-hashtag token lists `containsKeyword` reads. */
  const KEYWORD_TOKENS: map<string, seq<string>> := map[
    "esg" := ["#esg", " esg ", " esg.", " esg,", "(esg)", "esg-"],
    "climatetech" := ["#climatetech", "climate tech", "climatetech", "climate-tech"],
    "sustainability" := ["#sustainability", "sustainability", "sostenibilidad", "sustentabilidad"]
  ]

  /** The tokens `containsKeyword` tries: the listed ones, or `#hashtag` and `hashtag`. */
  function TokensFor(hashtag: string): (tokens: seq<string>)
    ensures |tokens| > 0
  {
    var key := ToLower(hashtag);
    if key in KEYWORD_TOKENS && |KEYWORD_TOKENS[key]| > 0 then KEYWORD_TOKENS[key] else ["#" + hashtag, hashtag]
  }

  /** Some token occurs in the text, both lowercased. */
  predicate AnyTokenIn(tokens: seq<string>, text: string) {
    exists k | 0 <= k < |tokens| :: Contains(ToLower(text), ToLower(tokens[k]))
  }

  /** `containsKeyword(text, hashtag)`; empty text or hashtag never matches. */
  predicate ContainsKeyword(text: string, hashtag: string) {
    text != "" && hashtag != "" && AnyTokenIn(TokensFor(hashtag), text)
  }

  /** `KEYWORDS_CONFIG.find(k => k.id === id)`. */
  function FindById(configs: seq<KeywordConfig>, id: string): (r: Option<KeywordConfig>)
    ensures r.Some? ==> r.value in configs && r.value.id == id
    ensures r.None? <==> forall k :: 0 <= k < |configs| ==> configs[k].id != id
  {
    if configs == [] then None
    else if configs[0].id == id then Some(configs[0])
    else FindById(configs[1..], id)
  }

  /** `matchesKeyword(text, keywordId)`: a token of that keyword occurs in the text. */
  predicate MatchesKeyword(text: string, keywordId: string) {
    && text != "" && keywordId != ""
    && var c := FindById(KEYWORDS_CONFIG, keywordId);
       c.Some? && AnyTokenIn(c.value.tokens, text)
  }

  /**
   * The config `extractPostData` assigns to a `#` source: the first whose id is
   * the lowercased hashtag or one of whose lowercased search terms contains it.
   */
  function FindByHashtag(configs: seq<KeywordConfig>, hashtagLower: string): (r: Option<KeywordConfig>)
    ensures r.Some? ==> r.value in configs && HashtagSelects(r.value, hashtagLower)
    ensures r.None? <==> forall k :: 0 <= k < |configs| ==> !HashtagSelects(configs[k], hashtagLower)
  {
    if configs == [] then None
    else if HashtagSelects(configs[0], hashtagLower) then Some(configs[0])
    else FindByHashtag(configs[1..], hashtagLower)
  }

  predicate HashtagSelects(c: KeywordConfig, hashtagLower: string) {
    c.id == hashtagLower || exists k | 0 <= k < |c.searchTerms| :: Contains(ToLower(c.searchTerms[k]), hashtagLower)
  }

  /** One entry of `generateSearchUrls`. */
  datatype SearchEntry = SearchEntry(url: string, keywordId: string, keywordLabel: string, searchTerm: string)

  const SEARCH_URL_PREFIX := "https://www.linkedin.com/search/results/content/?keywords="
  const SEARCH_URL_SUFFIX := "&datePosted=%22past-24h%22"

  /** The search URL for an already encoded term, filtered to the last 24 hours. */
  function SearchUrl(encoded: string): string {
    SEARCH_URL_PREFIX + encoded + SEARCH_URL_SUFFIX
  }

  /** The entries for `terms` of keyword `c`, in order. */
  function EntriesFor(c: KeywordConfig, terms: seq<string>, encode: string -> string): (r: seq<SearchEntry>)
    ensures |r| == |terms|
    decreases |terms|
  {
    if terms == [] then []
    else
      var t := terms[|terms| - 1];
      EntriesFor(c, terms[..|terms| - 1], encode) + [SearchEntry(SearchUrl(encode(t)), c.id, c.displayLabel, t)]
  }

  /** All entries: for each keyword in order, one per search term in order. */
  function SearchEntries(configs: seq<KeywordConfig>, encode: string -> string): seq<SearchEntry>
    decreases |configs|
  {
    if configs == [] then []
    else
      var c := configs[|configs| - 1];
      SearchEntries(configs[..|configs| - 1], encode) + EntriesFor(c, c.searchTerms, encode)
  }

  /** The number of search terms over all keywords. */
  function TermCount(configs: seq<KeywordConfig>): nat {
    if configs == [] then 0 else TermCount(configs[..|configs| - 1]) + |configs[|configs| - 1].searchTerms|
  }

  /** The loops of `generateSearchUrls` over a keyword list. */
  method SearchUrlsFor(configs: seq<KeywordConfig>, encode: string -> string) returns (urls: seq<SearchEntry>)
    ensures urls == SearchEntries(configs, encode)
  {
    urls := [];
    for i := 0 to |configs|
      invariant urls == SearchEntries(configs[..i], encode)
    {
      var kw := configs[i];
      ghost var done := SearchEntries(configs[..i], encode);
      assert urls == done + EntriesFor(kw, kw.searchTerms[..0], encode);
      for j := 0 to |kw.searchTerms|
        invariant urls == done + EntriesFor(kw, kw.searchTerms[..j], encode)
      {
        var term := kw.searchTerms[j];
        EntriesForSnoc(kw, j, encode);
        AppendAssoc(done, EntriesFor(kw, kw.searchTerms[..j], encode), [SearchEntry(SearchUrl(encode(term)), kw.id, kw.displayLabel, term)]);
        urls := urls + [SearchEntry(SearchUrl(encode(term)), kw.id, kw.displayLabel, term)];
      }
      assert kw.searchTerms[..|kw.searchTerms|] == kw.searchTerms;
      SearchEntriesSnoc(configs, i, encode);
    }
    assert configs[..|configs|] == configs;
  }

  lemma EntriesForSnoc(c: KeywordConfig, j: nat, encode: string -> string)
    requires j < |c.searchTerms|
    ensures var t := c.searchTerms[j];
      EntriesFor(c, c.searchTerms[..j + 1], encode) == EntriesFor(c, c.searchTerms[..j], encode) + [SearchEntry(SearchUrl(encode(t)), c.id, c.displayLabel, t)]
  {
    assert c.searchTerms[..j + 1][..j] == c.searchTerms[..j];
  }

  lemma SearchEntriesSnoc(configs: seq<KeywordConfig>, i: nat, encode: string -> string)
    requires i < |configs|
    ensures SearchEntries(configs[..i + 1], encode) == SearchEntries(configs[..i], encode) + EntriesFor(configs[i], configs[i].searchTerms, encode)
  {
    assert configs[..i + 1][..i] == configs[..i];
  }

  lemma AppendAssoc<T>(a: seq<T>, b: seq<T>, c: seq<T>)
    ensures a + b + c == a + (b + c)
  {
  }

  /** `generateSearchUrls()`; `encode` stands for `encodeURIComponent`. */
  method GenerateSearchUrls(encode: string -> string) returns (urls: seq<SearchEntry>)
    ensures urls == SearchEntries(KEYWORDS_CONFIG, encode)
  {
    urls := SearchUrlsFor(KEYWORDS_CONFIG, encode);
  }

  lemma {:induction false} SearchEntriesCount(configs: seq<KeywordConfig>, encode: string -> string)
    ensures |SearchEntries(configs, encode)| == TermCount(configs)
    decreases |configs|
  {
    if configs != [] {
      var init := configs[..|configs| - 1];
      SearchEntriesCount(init, encode);
    }
  }

  /** The 13 keywords have 31 search terms, so a run makes 31 searches. */
  lemma AllSearchesCount(encode: string -> string)
    ensures |SearchEntries(KEYWORDS_CONFIG, encode)| == 31
  {
    SearchEntriesCount(KEYWORDS_CONFIG, encode);
    var k := KEYWORDS_CONFIG;
    assert k[..0] == [];
    TermCountPrefix(k, 0); TermCountPrefix(k, 1); TermCountPrefix(k, 2); TermCountPrefix(k, 3);
    TermCountPrefix(k, 4); TermCountPrefix(k, 5); TermCountPrefix(k, 6); TermCountPrefix(k, 7);
    TermCountPrefix(k, 8); TermCountPrefix(k, 9); TermCountPrefix(k, 10); TermCountPrefix(k, 11);
    TermCountPrefix(k, 12);
    assert k[..13] == k;
  }

  lemma TermCountPrefix(configs: seq<KeywordConfig>, i: nat)
    requires i < |configs|
    ensures TermCount(configs[..i + 1]) == TermCount(configs[..i]) + |configs[i].searchTerms|
  {
    assert configs[..i + 1][..i] == configs[..i];
  }

  /** Each entry is the search for one term of one keyword, labelled with that keyword. */
  lemma {:induction false} EntriesForSound(c: KeywordConfig, terms: seq<string>, encode: string -> string)
    ensures forall e :: e in EntriesFor(c, terms, encode) ==>
      e.searchTerm in terms && e.keywordId == c.id && e.keywordLabel == c.displayLabel
      && e.url == SearchUrl(encode(e.searchTerm))
    ensures forall t :: t in terms ==> SearchEntry(SearchUrl(encode(t)), c.id, c.displayLabel, t) in EntriesFor(c, terms, encode)
    decreases |terms|
  {
    if terms != [] {
      var init := terms[..|terms| - 1];
      EntriesForSound(c, init, encode);
      assert terms == init + [terms[|terms| - 1]];
    }
  }

  /** Every entry comes from some keyword's term, and every (keyword, term) pair has its entry. */
  lemma {:induction false} SearchEntriesSoundComplete(configs: seq<KeywordConfig>, encode: string -> string)
    ensures forall e :: e in SearchEntries(configs, encode) ==>
      exists c :: c in configs && e.searchTerm in c.searchTerms && e.keywordId == c.id
        && e.keywordLabel == c.displayLabel && e.url == SearchUrl(encode(e.searchTerm))
    ensures forall c, t :: c in configs && t in c.searchTerms ==>
      SearchEntry(SearchUrl(encode(t)), c.id, c.displayLabel, t) in SearchEntries(configs, encode)
    decreases |configs|
  {
    if configs != [] {
      var init := configs[..|configs| - 1];
      var last := configs[|configs| - 1];
      SearchEntriesSoundComplete(init, encode);
      EntriesForSound(last, last.searchTerms, encode);
      assert configs == init + [last];
    }
  }

  lemma LowerTokensAgree(a: seq<string>, b: seq<string>, text: string)
    requires |a| == |b| && forall k :: 0 <= k < |a| ==> ToLower(a[k]) == ToLower(b[k])
    ensures AnyTokenIn(a, text) == AnyTokenIn(b, text)
  {
  }

  /** The keyword filter ignores letter case in the text and in the hashtag. */
  lemma ContainsKeywordIgnoresCase(text: string, hashtag: string)
    ensures ContainsKeyword(ToLower(text), hashtag) == ContainsKeyword(text, hashtag)
    ensures ContainsKeyword(text, ToLower(hashtag)) == ContainsKeyword(text, hashtag)
  {
    ToLowerIdempotent(text);
    ToLowerIdempotent(hashtag);
    var h := ToLower(hashtag);
    if !(h in KEYWORD_TOKENS && |KEYWORD_TOKENS[h]| > 0) {
      ToLowerAppend("#", hashtag);
      ToLowerAppend("#", h);
      LowerTokensAgree(TokensFor(h), TokensFor(hashtag), text);
    }
    forall k | 0 <= k < |TokensFor(hashtag)|
      ensures Contains(ToLower(ToLower(text)), ToLower(TokensFor(hashtag)[k])) == Contains(ToLower(text), ToLower(TokensFor(hashtag)[k]))
    {
    }
  }

  /** Text that contains a keyword still contains it with anything added around it. */
  lemma ContainsKeywordExtend(pre: string, text: string, post: string, hashtag: string)
    requires ContainsKeyword(text, hashtag)
    ensures ContainsKeyword(pre + text + post, hashtag)
  {
    var tokens := TokensFor(hashtag);
    var k :| 0 <= k < |tokens| && Contains(ToLower(text), ToLower(tokens[k]));
    ToLowerAppend(pre + text, post);
    ToLowerAppend(pre, text);
    ContainsExtend(ToLower(pre), ToLower(text), ToLower(post), ToLower(tokens[k]));
  }

  /** For a hashtag without a token list, the filter is a case-insensitive search for the hashtag itself. */
  lemma ContainsKeywordUnlisted(text: string, hashtag: string)
    requires ToLower(hashtag) !in KEYWORD_TOKENS
    ensures ContainsKeyword(text, hashtag) <==> text != "" && hashtag != "" && Contains(ToLower(text), ToLower(hashtag))
  {
    var t, h := ToLower(text), ToLower(hashtag);
    var tok := ToLower("#" + hashtag);
    ToLowerAppend("#", hashtag);
    assert ToLower("#") == "#";
    assert tok == "#" + h;
    var tokens := TokensFor(hashtag);
    assert tokens == ["#" + hashtag, hashtag];
    assert AnyTokenIn(tokens, text) <==> Contains(t, tok) || Contains(t, h) by {
      assert ToLower(tokens[0]) == tok && ToLower(tokens[1]) == h;
    }
    if Contains(t, tok) {
      var i :| 0 <= i <= |t| && StartsWith(t[i..], tok);
      forall j | 0 <= j < |h| ensures t[i + 1 + j] == h[j] {
        assert t[i..][..|tok|][j + 1] == tok[j + 1];
      }
      assert t[i + 1..i + 1 + |h|] == h;
      ContainsAt(t, h, i + 1);
    }
  }

  /** A keyword id that is not configured never matches. */
  lemma MatchesKeywordUnknown(text: string, keywordId: string)
    requires forall k :: 0 <= k < |KEYWORDS_CONFIG| ==> KEYWORDS_CONFIG[k].id != keywordId
    ensures !MatchesKeyword(text, keywordId)
  {
  }

  /** `matchesKeyword` ignores letter case in the text. */
  lemma MatchesKeywordIgnoresCase(text: string, keywordId: string)
    ensures MatchesKeyword(ToLower(text), keywordId) == MatchesKeyword(text, keywordId)
  {
    ToLowerIdempotent(text);
  }

  /** The source `#` alone selects the first keyword: every search term contains the empty string. */
  lemma EmptyHashtagSelectsFirst()
    ensures FindByHashtag(KEYWORDS_CONFIG, "") == Some(KEYWORDS_CONFIG[0])
  {
    var c := KEYWORDS_CONFIG[0];
    assert StartsWith(ToLower(c.searchTerms[0])[0..], "");
  }
}
