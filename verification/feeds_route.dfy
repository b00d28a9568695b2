/**
 * The feed endpoint: keyword categorisation of items, the item shaping with
 * its defaults, the category filter and count window, and the three tiers
 * (the FreshRSS API, the RSS feed, mock data) that `GET` falls through.
 */
module FeedsRoute {
  import opened Wrappers
  import opened Text
  import opened Lists
  import FreshRss

  datatype Category = Policy | Research | News | Analysis

  function CategoryName(c: Category): string {
    match c
    case Policy => "policy"
    case Research => "research"
    case News => "news"
    case Analysis => "analysis"
  }

  /** JavaScript's `s || fallback` on an optional string. */
  function OrDefault(s: Option<string>, fallback: string): (r: string)
    ensures s.Some? && s.value != "" ==> r == s.value
    ensures s.None? || s.value == "" ==> r == fallback
  {
    if s.Some? && s.value != "" then s.value else fallback
  }

  // ---------------------------------------------------------------------------
  // Categorisation
  // ---------------------------------------------------------------------------

  /** Keywords that make an API item a policy item (any of them in the feed name, or `regulation` or `compliance` in the title). */
  predicate PolicySignal(feedName: string, title: string) {
    Contains(feedName, "regulation") || Contains(feedName, "policy")
    || Contains(feedName, "government") || Contains(feedName, "compliance")
    || Contains(title, "regulation") || Contains(title, "compliance")
  }

  predicate ResearchSignal(feedName: string) {
    Contains(feedName, "research") || Contains(feedName, "paper")
    || Contains(feedName, "journal") || Contains(feedName, "academic")
  }

  predicate AnalysisSignal(feedName: string) {
    Contains(feedName, "analysis") || Contains(feedName, "blog")
    || Contains(feedName, "commentary") || Contains(feedName, "opinion")
  }

  /** The lower-cased feed name of an API item, `''` without an origin. */
  function LowerFeedName(item: FreshRss.Item): string {
    if item.origin.Some? then Lower(item.origin.value.title) else ""
  }

  /**
   * `categorizeFeedItem`: policy, research and analysis keywords are tried
   * in that order; an item matching none is news.
   */
  function CategorizeFeedItem(item: FreshRss.Item): (c: Category)
    ensures var name, title := LowerFeedName(item), Lower(item.title);
      (c == Policy <==> PolicySignal(name, title))
      && (c == Research <==> !PolicySignal(name, title) && ResearchSignal(name))
      && (c == Analysis <==> !PolicySignal(name, title) && !ResearchSignal(name) && AnalysisSignal(name))
      && (c == News <==> !PolicySignal(name, title) && !ResearchSignal(name) && !AnalysisSignal(name))
  {
    var feedName := LowerFeedName(item);
    var title := Lower(item.title);
    if PolicySignal(feedName, title) then Policy
    else if ResearchSignal(feedName) then Research
    else if AnalysisSignal(feedName) then Analysis
    else News
  }

  /**
   * The title matters only through `regulation` and `compliance`: two items
   * from the same feed whose titles mention neither get the same category.
   */
  lemma TitleOnlyForPolicy(a: FreshRss.Item, b: FreshRss.Item)
    requires a.origin == b.origin
    requires !Contains(Lower(a.title), "regulation") && !Contains(Lower(a.title), "compliance")
    requires !Contains(Lower(b.title), "regulation") && !Contains(Lower(b.title), "compliance")
    ensures CategorizeFeedItem(a) == CategorizeFeedItem(b)
  {
  }

  /** A feed whose name mentions policy puts every one of its items under policy, whatever the title. */
  lemma PolicyFeedWins(item: FreshRss.Item)
    requires Contains(LowerFeedName(item), "policy")
    ensures CategorizeFeedItem(item) == Policy
  {
  }

  /** `categories?.join(' ').toLowerCase() || ''` */
  function CategoryText(categories: Option<seq<string>>): string {
    if categories.Some? then Lower(Join(categories.value, ' ')) else ""
  }

  predicate RssPolicy(title: string, categoryText: string) {
    Contains(title, "policy") || Contains(title, "regulation")
    || Contains(title, "government") || Contains(categoryText, "policy")
  }

  predicate RssResearch(title: string, categoryText: string) {
    Contains(title, "research") || Contains(title, "study") || Contains(categoryText, "research")
  }

  predicate RssAnalysis(title: string, categoryText: string) {
    Contains(title, "analysis") || Contains(title, "opinion") || Contains(categoryText, "analysis")
  }

  /** `categorizeRSSItem`: the same priority, over the title and the item's own categories. */
  function CategorizeRssItem(title: string, categories: Option<seq<string>>): (c: Category)
    ensures var t, k := Lower(title), CategoryText(categories);
      (c == Policy <==> RssPolicy(t, k))
      && (c == Research <==> !RssPolicy(t, k) && RssResearch(t, k))
      && (c == Analysis <==> !RssPolicy(t, k) && !RssResearch(t, k) && RssAnalysis(t, k))
      && (c == News <==> !RssPolicy(t, k) && !RssResearch(t, k) && !RssAnalysis(t, k))
  {
    var titleLower := Lower(title);
    var categoryText := CategoryText(categories);
    if RssPolicy(titleLower, categoryText) then Policy
    else if RssResearch(titleLower, categoryText) then Research
    else if RssAnalysis(titleLower, categoryText) then Analysis
    else News
  }

  /** With no categories, only the title decides. */
  lemma RssWithoutCategories(title: string)
    ensures CategorizeRssItem(title, None) == CategorizeRssItem(title, Some([]))
  {
    assert Join([], ' ') == "";
    assert Lower("") == "";
  }

  // ---------------------------------------------------------------------------
  // Items as the endpoint returns them
  // ---------------------------------------------------------------------------

  /** A date: none, milliseconds since the epoch, or a date text handed to `new Date` unparsed. */
  datatype Published = NoDate | At(ms: int) | FromText(text: string)

  datatype FeedItem = FeedItem(
    id: string,
    title: string,
    link: string,
    description: string,
    author: Option<string>,
    publishedAt: Published,
    feedName: string,
    feedUrl: string,
    category: Category)

  /** The `map` of `GET` over API items: the client's own shaping plus the id and the category. */
  function ShapeItem(item: FreshRss.Item): (r: FeedItem)
    ensures r.id == item.id && r.category == CategorizeFeedItem(item)
    ensures var p := FreshRss.TransformItem(item);
      r.title == p.title && r.link == p.link && r.description == p.description
      && r.author == p.author && r.feedName == p.feedName && r.feedUrl == p.feedUrl
      && (r.publishedAt.At? <==> p.publishedAt.Some?)
      && (r.publishedAt.At? ==> r.publishedAt.ms == p.publishedAt.value)
  {
    var p := FreshRss.TransformItem(item);
    FeedItem(item.id, p.title, p.link, p.description, p.author,
      if p.publishedAt.Some? then At(p.publishedAt.value) else NoDate,
      p.feedName, p.feedUrl, CategorizeFeedItem(item))
  }

  function ShapeAll(items: seq<FreshRss.Item>): (r: seq<FeedItem>)
    ensures |r| == |items|
    ensures forall i :: 0 <= i < |items| ==> r[i] == ShapeItem(items[i])
  {
    seq(|items|, i requires 0 <= i < |items| => ShapeItem(items[i]))
  }

  /** `!category || item.category === category` */
  predicate InCategory(category: Option<string>, item: FeedItem) {
    category.None? || CategoryName(item.category) == category.value
  }

  /** `.filter(category).slice(0, count)`, shared by all three tiers. */
  function Window(items: seq<FeedItem>, count: int, category: Option<string>): (r: seq<FeedItem>)
    ensures |r| <= |items|
  {
    Slice(Filter(items, item => InCategory(category, item)), 0, count)
  }

  /**
   * The window holds only items of the category (every item when there is
   * none), in their original order, and as many of them as `count` allows.
   */
  lemma WindowSpec(items: seq<FeedItem>, count: int, category: Option<string>)
    requires count >= 0
    ensures var kept := Filter(items, item => InCategory(category, item));
      Window(items, count, category) == kept[..Min(count, |kept|)]
    ensures |Window(items, count, category)| <= count
    ensures forall i :: 0 <= i < |Window(items, count, category)| ==> InCategory(category, Window(items, count, category)[i])
  {
    var kept := Filter(items, item => InCategory(category, item));
    SliceFromZero(kept, count);
  }

  /** An item is in the category-filtered list exactly when it is in the input and in the category. */
  lemma WindowMembers(items: seq<FeedItem>, category: Option<string>, x: FeedItem)
    ensures x in Filter(items, item => InCategory(category, item)) <==> x in items && InCategory(category, x)
  {
    FilterMembers(items, item => InCategory(category, item), x);
  }

  /** Without a category and with room for everything, the window is the whole list. */
  lemma WindowAll(items: seq<FeedItem>, count: int)
    requires count >= |items|
    ensures Window(items, count, None) == items
  {
    FilterAll(items, item => InCategory(None, item));
  }

  // ---------------------------------------------------------------------------
  // The three tiers
  // ---------------------------------------------------------------------------

  const Hour: int := 60 * 60 * 1000

  /** The five mock items, each with how many hours before now it is dated: 2, 4, 6, 8 and 12. */
  const MockTable: seq<(FeedItem, nat)> := [
    (FeedItem("mock-1", "EU AI Act Implementation Guidelines Released", "#",
      "European Commission publishes detailed guidance for organizations", Some("EU Commission"),
      NoDate, "EU Digital Policy", "#", Policy), 2),
    (FeedItem("mock-2", "New Research on AI Governance Frameworks", "#",
      "Stanford HAI releases comprehensive study on global AI governance", Some("Stanford HAI"),
      NoDate, "AI Research", "#", Research), 4),
    (FeedItem("mock-3", "NIST Cybersecurity Framework 2.0 Update", "#",
      "Major revision includes AI security considerations", Some("NIST"),
      NoDate, "NIST Publications", "#", Policy), 6),
    (FeedItem("mock-4", "Analysis: The Future of Digital Identity", "#",
      "Expert commentary on evolving identity standards", Some("Digital Policy Analyst"),
      NoDate, "Policy Analysis", "#", Analysis), 8),
    (FeedItem("mock-5", "Breaking: UK Announces New Data Protection Rules", "#",
      "Post-Brexit data governance framework unveiled", Some("ICO"),
      NoDate, "UK Gov News", "#", News), 12)
  ]

  /** Each item of the table with its date filled in. */
  function Dated(table: seq<(FeedItem, nat)>, now: int): (r: seq<FeedItem>)
    ensures |r| == |table|
    decreases |table|
  {
    if table == [] then []
    else [table[0].0.(publishedAt := At(now - table[0].1 * Hour))] + Dated(table[1..], now)
  }

  /** The mock items, each dated its hours before `now`. */
  function MockItems(now: int): seq<FeedItem> {
    Dated(MockTable, now)
  }

  /** `getMockFeedItems` */
  function MockFeedItems(count: int, category: Option<string>, now: int): (r: seq<FeedItem>)
    ensures |r| <= 5
  {
    Window(MockItems(now), count, category)
  }

  /** The policy mock items are the first and the third, in that order. */
  lemma MockPolicyItems(now: int)
    ensures |MockFeedItems(20, Some("policy"), now)| == 2
    ensures MockFeedItems(20, Some("policy"), now)[0].id == "mock-1"
    ensures MockFeedItems(20, Some("policy"), now)[1].id == "mock-3"
  {
    var m := MockItems(now);
    var f := item => InCategory(Some("policy"), item);
    MockCategories(now);
    assert f(m[0]) && !f(m[1]) && f(m[2]) && !f(m[3]) && !f(m[4]);
    assert m == [m[0], m[1], m[2], m[3], m[4]];
    FilterFirstAndThird(m[0], m[1], m[2], m[3], m[4], f);
    SliceFromZero(Filter(m, f), 20);
  }

  /** Filtering five elements of which only the first and the third pass. */
  lemma FilterFirstAndThird<T>(a: T, b: T, c: T, d: T, e: T, f: T -> bool)
    requires f(a) && !f(b) && f(c) && !f(d) && !f(e)
    ensures Filter([a, b, c, d, e], f) == [a, c]
  {
    var s1, s2, s3, s4, s5 := [a], [a, b], [a, b, c], [a, b, c, d], [a, b, c, d, e];
    assert s5[..4] == s4 && s4[..3] == s3 && s3[..2] == s2 && s2[..1] == s1 && s1[..0] == [];
    assert Filter(s1, f) == [a];
    assert Filter(s2, f) == [a];
    assert Filter(s3, f) == [a, c];
    assert Filter(s4, f) == [a, c];
  }

  /** The ids and categories of the mock items, in table order. */
  lemma MockCategories(now: int)
    ensures var m := MockItems(now);
      |m| == 5 && m[0].id == "mock-1" && m[2].id == "mock-3"
      && m[0].category == Policy && m[1].category == Research && m[2].category == Policy
      && m[3].category == Analysis && m[4].category == News
  {
    DatedAt(MockTable, now, 0);
    DatedAt(MockTable, now, 1);
    DatedAt(MockTable, now, 2);
    DatedAt(MockTable, now, 3);
    DatedAt(MockTable, now, 4);
  }

  /** The dated table keeps each entry's item apart from its date. */
  lemma {:induction false} DatedAt(table: seq<(FeedItem, nat)>, now: int, i: nat)
    requires i < |table|
    ensures Dated(table, now)[i] == table[i].0.(publishedAt := At(now - table[i].1 * Hour))
    decreases i
  {
    if i > 0 {
      DatedAt(table[1..], now, i - 1);
    }
  }

  /** An entry of the RSS feed, every field possibly missing. */
  datatype RssEntry = RssEntry(
    guid: Option<string>,
    title: Option<string>,
    link: Option<string>,
    contentSnippet: Option<string>,
    content: Option<string>,
    creator: Option<string>,
    author: Option<string>,
    pubDate: Option<string>,
    categories: Option<seq<string>>)

  datatype RssFeed = RssFeed(title: Option<string>, items: seq<RssEntry>)

  /** The `map` of `fetchRSSFeed`: one entry at its position in the feed. */
  function RssItem(entry: RssEntry, index: nat, feedTitle: Option<string>, rssUrl: string): (r: FeedItem)
    ensures r.id != "" && r.title != "" && r.link != ""
    ensures r.feedUrl == rssUrl && r.feedName == OrDefault(feedTitle, "FreshRSS")
    ensures r.category == CategorizeRssItem(OrDefault(entry.title, ""), entry.categories)
  {
    FeedItem(
      OrDefault(entry.guid, "rss-" + NatToString(index)),
      OrDefault(entry.title, "Untitled"),
      OrDefault(entry.link, "#"),
      OrDefault(entry.contentSnippet, OrDefault(entry.content, "")),
      if entry.creator.Some? && entry.creator.value != "" then entry.creator else entry.author,
      if entry.pubDate.Some? && entry.pubDate.value != "" then FromText(entry.pubDate.value) else NoDate,
      OrDefault(feedTitle, "FreshRSS"),
      rssUrl,
      CategorizeRssItem(OrDefault(entry.title, ""), entry.categories))
  }

  /** Entries without a guid get ids from their positions, so those ids differ. */
  lemma RssFallbackIdsDiffer(a: RssEntry, i: nat, b: RssEntry, j: nat, feedTitle: Option<string>, url: string)
    requires a.guid.None? && b.guid.None? && i != j
    ensures RssItem(a, i, feedTitle, url).id != RssItem(b, j, feedTitle, url).id
  {
    var p, q := "rss-" + NatToString(i), "rss-" + NatToString(j);
    if p == q {
      assert NatToString(i) == p[4..] && NatToString(j) == q[4..];
      NatToStringInjective(i, j);
    }
  }

  function RssItems(feed: RssFeed, rssUrl: string): (r: seq<FeedItem>)
    ensures |r| == |feed.items|
    ensures forall i :: 0 <= i < |r| ==> r[i] == RssItem(feed.items[i], i, feed.title, rssUrl)
  {
    seq(|feed.items|, i requires 0 <= i < |feed.items| => RssItem(feed.items[i], i, feed.title, rssUrl))
  }

  /**
   * `fetchRSSFeed`: `None` stands for the error it throws, when the feed URL
   * is not configured or the feed cannot be read.
   */
  function FetchRssFeed(count: int, category: Option<string>, rssUrl: Option<string>, feed: Option<RssFeed>): (r: Option<seq<FeedItem>>)
    ensures rssUrl.None? || rssUrl.value == "" ==> r.None?
    ensures feed.None? ==> r.None?
    ensures r.Some? ==> r.value == Window(RssItems(feed.value, rssUrl.value), count, category)
  {
    if rssUrl.None? || rssUrl.value == "" then None
    else if feed.None? then None
    else Some(Window(RssItems(feed.value, rssUrl.value), count, category))
  }

  /** The outcome of an awaited call: what it threw, or what it returned. */
  datatype Attempt<T> = Threw(message: string) | Returned(value: T)

  datatype FeedResponse = FeedResponse(
    data: seq<FeedItem>,
    source: string,
    count: int,
    unreadCount: Option<int>,
    error: Option<string>)

  /** The items `GET` asks the client for: twice the count, read ones included. */
  function ItemsRequest(count: int): FreshRss.ItemOptions {
    FreshRss.ItemOptions(Some(count * 2), Some(false), None)
  }

  /** The request sent for the default count asks for 40 items. */
  lemma DefaultRequest()
    ensures ItemsRequest(20).count == Some(40)
    ensures FreshRss.ItemParams(ItemsRequest(20).count.GetOr(20), ItemsRequest(20).excludeRead.GetOr(false), ItemsRequest(20).newerThan)
         == [FreshRss.Param("n", "40")]
  {
    assert IntToString(40) == "40" by {
      assert NatToString(40) == NatToString(4) + [DigitChar(0)];
    }
  }

  /**
   * `GET`. `countParam` is the parsed `count` (`None` when absent),
   * `categoryParam` the `category` parameter. The outside world comes in as
   * whether the client is configured, what `getItems` does for a request,
   * the unread count, the RSS URL and what the RSS parser returns.
   */
  function Get(
    countParam: Option<int>, categoryParam: Option<string>, now: int,
    clientConfigured: bool, getItems: FreshRss.ItemOptions -> Attempt<seq<FreshRss.Item>>, unread: int,
    rssUrl: Option<string>, rssFeed: Option<RssFeed>): (r: FeedResponse)
    ensures r.count == |r.data|
  {
    var count := CountOf(countParam);
    var category := CategoryOf(categoryParam);
    if !clientConfigured then
      var mock := MockFeedItems(count, category, now);
      FeedResponse(mock, "mock", |mock|, None, None)
    else
      match getItems(ItemsRequest(count))
      case Returned(items) =>
        var categorized := Window(ShapeAll(items), count, category);
        FeedResponse(categorized, "freshrss", |categorized|, Some(unread), None)
      case Threw(message) =>
        match FetchRssFeed(count, category, rssUrl, rssFeed)
        case Some(rssItems) => FeedResponse(rssItems, "freshrss-rss", |rssItems|, None, None)
        case None =>
          var mock := MockFeedItems(count, category, now);
          FeedResponse(mock, "mock", |mock|, None, Some(message))
  }

  /** The count of `GET`, 20 when absent. */
  function CountOf(countParam: Option<int>): int { countParam.GetOr(20) }

  /** The category of `GET`: `|| null` turns the empty parameter into none. */
  function CategoryOf(categoryParam: Option<string>): Option<string> {
    if categoryParam.Some? && categoryParam.value != "" then categoryParam else None
  }

  /** Whatever tier answers, its items are a window over some list of items. */
  lemma GetIsWindow(
    countParam: Option<int>, categoryParam: Option<string>, now: int,
    clientConfigured: bool, getItems: FreshRss.ItemOptions -> Attempt<seq<FreshRss.Item>>, unread: int,
    rssUrl: Option<string>, rssFeed: Option<RssFeed>) returns (pool: seq<FeedItem>)
    ensures Get(countParam, categoryParam, now, clientConfigured, getItems, unread, rssUrl, rssFeed).data
         == Window(pool, CountOf(countParam), CategoryOf(categoryParam))
  {
    var count := countParam.GetOr(20);
    pool := MockItems(now);
    if clientConfigured {
      match getItems(ItemsRequest(count))
      case Returned(items) =>
        pool := ShapeAll(items);
      case Threw(_) =>
        if rssUrl.Some? && rssUrl.value != "" && rssFeed.Some? {
          pool := RssItems(rssFeed.value, rssUrl.value);
        }
    }
  }

  /**
   * Whatever tier answers, the items are of the requested category and at
   * most `count` of them (20 by default).
   */
  lemma GetWindow(
    countParam: Option<int>, categoryParam: Option<string>, now: int,
    clientConfigured: bool, getItems: FreshRss.ItemOptions -> Attempt<seq<FreshRss.Item>>, unread: int,
    rssUrl: Option<string>, rssFeed: Option<RssFeed>)
    requires CountOf(countParam) >= 0
    ensures var r := Get(countParam, categoryParam, now, clientConfigured, getItems, unread, rssUrl, rssFeed);
      |r.data| <= CountOf(countParam)
      && forall i :: 0 <= i < |r.data| ==> InCategory(CategoryOf(categoryParam), r.data[i])
  {
    var pool := GetIsWindow(countParam, categoryParam, now, clientConfigured, getItems, unread, rssUrl, rssFeed);
    WindowSpec(pool, CountOf(countParam), CategoryOf(categoryParam));
  }

  /**
   * The mock tier answers without a client, and with a client only when
   * both the API and the RSS feed failed; then it carries the API's error.
   */
  lemma GetSources(
    countParam: Option<int>, categoryParam: Option<string>, now: int,
    clientConfigured: bool, getItems: FreshRss.ItemOptions -> Attempt<seq<FreshRss.Item>>, unread: int,
    rssUrl: Option<string>, rssFeed: Option<RssFeed>)
    ensures var r := Get(countParam, categoryParam, now, clientConfigured, getItems, unread, rssUrl, rssFeed);
      var answer := getItems(ItemsRequest(CountOf(countParam)));
      (!clientConfigured ==> r.source == "mock" && r.error.None?)
      && (clientConfigured && answer.Returned? ==> r.source == "freshrss" && r.unreadCount == Some(unread))
      && (clientConfigured && answer.Threw? && r.source == "mock" ==> r.error == Some(answer.message))
      && (r.source == "freshrss-rss" ==> rssUrl.Some? && rssUrl.value != "" && rssFeed.Some?)
  {
  }

  /** The client is asked for exactly one thing: twice the count; nothing else it could answer matters. */
  lemma GetAsksForDouble(
    countParam: Option<int>, categoryParam: Option<string>, now: int,
    clientConfigured: bool, f: FreshRss.ItemOptions -> Attempt<seq<FreshRss.Item>>,
    g: FreshRss.ItemOptions -> Attempt<seq<FreshRss.Item>>, unread: int,
    rssUrl: Option<string>, rssFeed: Option<RssFeed>)
    requires f(FreshRss.ItemOptions(Some(countParam.GetOr(20) * 2), Some(false), None))
          == g(FreshRss.ItemOptions(Some(countParam.GetOr(20) * 2), Some(false), None))
    ensures Get(countParam, categoryParam, now, clientConfigured, f, unread, rssUrl, rssFeed)
         == Get(countParam, categoryParam, now, clientConfigured, g, unread, rssUrl, rssFeed)
  {
  }
}
