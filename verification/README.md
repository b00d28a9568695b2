# GAILP core logic in Dafny

GAILP is a policy-and-news site with an admin back office and a set of
maintenance scripts. This project models the parts of it that make
decisions, not the parts that draw pages or talk to servers:

- the Markdown-to-Confluence converter and the page upsert of the
  documentation sync script;
- the feed endpoint (keyword categorisation, item shaping, category filter
  and count window, the FreshRSS → RSS → mock fall-through) and the FreshRSS
  client (item transform, `Auth=` token, request parameters, unread count,
  the lazily created singleton client);
- the glossary queries (term of the day, search, category filter, category
  list);
- the mock branches of the data API (pagination windows, search, the
  newsletter stub);
- the import scripts: WordPress export → articles (slugify, post extraction,
  unique slugs, category mapping, migration counters), OPML → feeds
  (validation, the outline walk, category dedup, import counters) and
  backlog Markdown → Jira issues (item parsing, labels, story points,
  priority, the top-ten import);
- the link validator and the pre-launch audit (line rules, link check, site
  naming, report and exit code);
- the admin article route (`GET` status filter, `POST` validation, read time
  and defaults), the new-article editor (slug, excerpt, tags, read time,
  save payload), the article list (search, sort, sort toggle, counters);
- role capabilities, the relative-time label of the feed card and the
  quick-post webhook (token, content, hashtags, stored draft).

Every outside answer (network replies, database rows, files read, clocks,
random ids, environment variables) is a parameter of the operation that
uses it. Where a script loops and accumulates, the model is a method with a
loop proved against a specification function; objects whose fields change
(`FreshRSSClient`, the client registry, the OPML parser's feed list, the
link validator's issue list, the pre-launch audit's issue and pass lists,
the editor and list pages' state) are classes.

Shared modules: `Wrappers` (`Option`), `Text` (JavaScript and Python
whitespace, lower-casing, trimming, replace-all, split/join, decimal
numerals), `Lists` (filter, JavaScript `slice`, `Set`-style dedup) and
`Slugs` (the two slug functions of the editor/OPML import and of the
WordPress import).

The heading conversion replaces each marker everywhere in the text, not
only at line starts, and inserts the closing tags `</h3></h2></h1>` once,
before the first newline of the whole text, whether or not a heading is
present (`ConfluenceSync.TextPhaseFirstNewline`,
`ConfluenceSync.HeadingsFirstNewline`).

## Model

| member | source | states |
|---|---|---|
| ConfluenceSync.HeadingsFirstNewline | scripts/sync_confluence.py:58-60 | with the first line `x`, the three heading passes replace every `### `, then `## `, then `# ` in both parts and put `</h3></h2></h1>` before the first newline only |
| ConfluenceSync.TextPhaseFirstNewline | scripts/sync_confluence.py:58-63 | the text phase (headings, then code fences) on `x + "\n" + y` is the line markup of `x`, the closer, the newline, then the line markup of `y` |
| ConfluenceSync.TextPhaseNoNewline | scripts/sync_confluence.py:58-63 | a text without a newline gets no closing tags at all |
| ConfluenceSync.LineMarkupAcross | scripts/sync_confluence.py:58-63 | heading and code-fence replacement never reach across a newline |
| ConfluenceSync.TextPhaseByLines | scripts/sync_confluence.py:58-63 | line by line, the text phase marks up every line and closes the first one |
| ConfluenceSync.ConvertLists | scripts/sync_confluence.py:66-83 | the list loop with its `in_list` flag produces exactly the list-block rewriting `ListBlocks` of the lines |
| ConfluenceSync.ConvertLine | scripts/sync_confluence.py:70-80 | one iteration appends the line's output for the current flag, and the new flag says whether the line is a list line |
| ConfluenceSync.ListBlocksRun | scripts/sync_confluence.py:70-83 | a maximal run of list lines becomes `<ul>`, one `<li>` per line in order, `</ul>`, and the rest is converted on |
| ConfluenceSync.ListBlocksOpenRun | scripts/sync_confluence.py:72-83 | a run that is already open is closed with `</ul>` before the next plain line or at the end of input |
| ConfluenceSync.CloseBeforePlain | scripts/sync_confluence.py:76-78 | an open list followed by a plain line or by nothing emits `</ul>` first |
| ConfluenceSync.ListBlocksLength | scripts/sync_confluence.py:66-85 | the output has the input's lines plus two per list run (one more if a list is open at the start) |
| ConfluenceSync.ListBlocksPlain | scripts/sync_confluence.py:76-80 | lines that are not list lines pass through the list phase unchanged |
| ConfluenceSync.PlainLines | scripts/sync_confluence.py:66-85 | a text without `-` comes out of split, list phase and join unchanged |
| ConfluenceSync.ConvertMarkdown | scripts/sync_confluence.py:49-85 | the converter method computes `Converted`, the text phase followed by the list phase |
| ConfluenceSync.PlainLineConversion | scripts/sync_confluence.py:49-85 | a single line without markup characters is returned unchanged |
| ConfluenceSync.PlainTextConversion | scripts/sync_confluence.py:49-85 | a multi-line text without markup only gains the closing tags before its first newline |
| ConfluenceSync.SyncDocument | scripts/sync_confluence.py:115-211 | a missing file or an empty token sends nothing; otherwise the first call is the page search, at most three calls are made, an update carries the current version plus one, and a create happens only when no page was found, carries the title, the converted text and the space `GAILP`, and carries ancestors iff a parent id is set |
| ConfluenceSync.SyncDocumentWrites | scripts/sync_confluence.py:150-211 | a found page with a version is updated with the converted text; no page found ends with the create of the title and the converted text in space `GAILP`, under the parent id when one is set; a found page without a version is neither updated nor created |
| ConfluenceSync.SyncAll | scripts/sync_confluence.py:214-236 | with an empty token the whole sync sends nothing |
| ConfluenceSync.SyncAllNoAncestors | scripts/sync_confluence.py:214-236 | when no document names a parent, no create request carries ancestors |
| ConfluenceSync.ScriptDocumentsNoAncestors | scripts/sync_confluence.py:20-46 | the script's own document list creates every page at the top level |
| FeedsRoute.CategorizeFeedItem | app/api/feeds/route.ts:21-52 | exactly one category: policy iff a policy keyword is in the feed name or title, else research, else analysis by feed-name keywords, else news |
| FeedsRoute.TitleOnlyForPolicy | app/api/feeds/route.ts:21-52 | the title matters only through the two policy keywords |
| FeedsRoute.PolicyFeedWins | app/api/feeds/route.ts:25-33 | a feed named with "policy" is always policy, whatever else matches |
| FeedsRoute.CategorizeRssItem | app/api/feeds/route.ts:56-76 | exactly one category, tried in the order policy, research, analysis, news over the title and the joined categories |
| FeedsRoute.RssWithoutCategories | app/api/feeds/route.ts:56-58 | missing categories behave like an empty list |
| FeedsRoute.ShapeItem | app/api/feeds/route.ts:198-212 | an API item is shaped like the client's `transformItem` (same link, description, author, feed name and URL defaults, milliseconds date) plus its id and category |
| FeedsRoute.ShapeAll | app/api/feeds/route.ts:198-212 | the map keeps length and shapes each item at its own position |
| FeedsRoute.WindowSpec | app/api/feeds/route.ts:213-215 | filter-then-slice is the first `count` items of the category, so at most `count`, all of that category |
| FeedsRoute.WindowMembers | app/api/feeds/route.ts:213-214 | an item survives the filter iff it is in the list and in the category (all items with no category) |
| FeedsRoute.WindowAll | app/api/feeds/route.ts:213-215 | no category and a large count keep every item |
| FeedsRoute.MockFeedItems | app/api/feeds/route.ts:111-173 | the mock list has at most five items |
| FeedsRoute.MockPolicyItems | app/api/feeds/route.ts:111-172 | the policy mock items are mock-1 and mock-3, in that order |
| FeedsRoute.RssItem | app/api/feeds/route.ts:90-100 | an RSS entry always gets an id, a title and a link; feed URL and name come from the feed, the category from `categorizeRSSItem` |
| FeedsRoute.RssFallbackIdsDiffer | app/api/feeds/route.ts:91 | entries without a guid at different positions get different ids |
| FeedsRoute.RssItems | app/api/feeds/route.ts:90-100 | one item per entry, each shaped with its own index |
| FeedsRoute.FetchRssFeed | app/api/feeds/route.ts:79-108 | no URL or an unreadable feed is an error; otherwise the result is the window over the shaped entries |
| FeedsRoute.DefaultRequest | app/api/feeds/route.ts:177-195 | with the default count the client is asked for 40 items, sent as the single parameter `n=40` |
| FeedsRoute.Get | app/api/feeds/route.ts:175-251 | whatever tier answers, `count` equals the length of `data` |
| FeedsRoute.GetIsWindow | app/api/feeds/route.ts:175-251 | every tier's data is a category window of the requested count over some item list |
| FeedsRoute.GetWindow | app/api/feeds/route.ts:175-251 | the response has at most `count` items, all in the requested category |
| FeedsRoute.GetSources | app/api/feeds/route.ts:182-251 | unconfigured → mock without error; API answer → `freshrss` with the unread count; API error and mock → the error message; `freshrss-rss` only with a URL and a parsed feed |
| FeedsRoute.GetAsksForDouble | app/api/feeds/route.ts:195 | the response depends on the client only through its answer to twice the count, read items included |
| FreshRss.LinkOf | lib/freshrss.ts:267 | the first canonical link, or `''` |
| FreshRss.FeedNameOf | lib/freshrss.ts:271 | the origin title when non-empty, else `Unknown Feed`, never empty |
| FreshRss.PublishedMillis | lib/freshrss.ts:270 | a date exactly when `published` is set and non-zero, in milliseconds (seconds × 1000) |
| FreshRss.TransformItem | lib/freshrss.ts:256-274 | title and author pass through; link, description, feed name, feed URL and date take their defaults |
| FreshRss.TransformMinimal | lib/freshrss.ts:265-273 | an item with only id and title gets every default |
| FreshRss.PublishedRoundTrip | lib/freshrss.ts:270 | dividing the milliseconds by 1000 gives back `published`, with no remainder |
| FreshRss.FindAuth | lib/freshrss.ts:55 | the search finds the first place `Auth=` followed by a character other than a line end starts |
| FreshRss.AuthToken | lib/freshrss.ts:55-58 | a token exists iff `Auth=` with a non-empty rest of line occurs; it is non-empty and holds no line terminator |
| FreshRss.AuthTokenPlace | lib/freshrss.ts:55-58 | the token is the rest of the line after the first `Auth=` match, up to a line end or the end |
| FreshRss.NoAuthNoToken | lib/freshrss.ts:55-62 | a reply without `Auth=` yields no token |
| FreshRss.ItemParams | lib/freshrss.ts:87-97 | the first parameter is always `n` = count; at most three are sent |
| FreshRss.ItemParamsSent | lib/freshrss.ts:87-97 | `xt` (the read state) is sent iff read items are excluded, `ot` iff a non-zero `newerThan` is given, with its value |
| FreshRss.DefaultParams | lib/freshrss.ts:77-89 | no options send only `n=20` |
| FreshRss.ReadingListCount | lib/freshrss.ts:143-148 | no reading-list entry gives 0 |
| FreshRss.ReadingListFirst | lib/freshrss.ts:143-148 | otherwise the count of the first reading-list entry |
| FreshRss.LoginToken | lib/freshrss.ts:49-62 | a failed login gives no token; a successful one gives the token of its text |
| FreshRss.Client.constructor | lib/freshrss.ts:29-31 | a new client has its configuration and no token |
| FreshRss.Client.Authenticate | lib/freshrss.ts:36-67 | succeeds iff a token is found, then stores it; on failure the stored token is unchanged |
| FreshRss.Client.GetItems | lib/freshrss.ts:72-118 | authentication is required iff there was no token and login gives none; without a token the stored token becomes the login's, an existing one is kept; a fetch sends the item parameters and returns the answer's items or `[]` |
| FreshRss.Client.GetUnreadCount | lib/freshrss.ts:123-153 | a failed request gives 0, an answer the reading-list count; without a token the stored token becomes the login's, an existing one is kept |
| FreshRss.Registry.constructor | lib/freshrss.ts:278 | no client exists at first |
| FreshRss.Registry.GetClient | lib/freshrss.ts:280-297 | a missing variable gives null and changes nothing; otherwise the existing client, or a fresh one with the environment's configuration and no token |
| FreshRss.SameClientTwice | lib/freshrss.ts:280-297 | two calls with a configured environment return the same client |
| Glossary.TermOfDay | data/glossary-terms.ts:316-321 | the term of the day is one of the terms |
| Glossary.TermOfDayPeriodic | data/glossary-terms.ts:319-320 | days that are the glossary's length apart give the same term |
| Glossary.TermOfDayCycles | data/glossary-terms.ts:319-320 | in the first round day `d` gives term `d` |
| Glossary.SearchTerms | data/glossary-terms.ts:333-340 | every result matches the lower-cased query in term, definition or category |
| Glossary.SearchTermsMembers | data/glossary-terms.ts:333-340 | a term is found iff it is in the glossary and matches |
| Glossary.SearchEmptyQuery | data/glossary-terms.ts:333-340 | the empty query returns the whole glossary in order |
| Glossary.TermsByCategory | data/glossary-terms.ts:345-347 | every result has the category |
| Glossary.TermsByCategoryMembers | data/glossary-terms.ts:345-347 | no term of the category is left out |
| Glossary.Categories | data/glossary-terms.ts:352-354 | no duplicates, every term's category is listed, and only those |
| Glossary.CategoriesOrder | data/glossary-terms.ts:352-354 | categories appear in order of first appearance |
| Glossary.CategoryHasTerms | data/glossary-terms.ts:345-354 | every listed category has at least one term |
| MockApi.MockPage | lib/api.ts:43-50 | the count is the number of mock rows, with no error, and the page is no longer than the rows |
| MockApi.MockPageWindow | lib/api.ts:43-50 | the page is `rows[offset..offset+limit]` cut at the end; a zero limit or an offset past the end gives nothing |
| MockApi.MockPagesAdjacent | lib/api.ts:43-50 | two consecutive pages together are the window of twice the limit |
| MockApi.GetPolicies | lib/api.ts:35-50 | counted as all policies; by default the first 10 |
| MockApi.GetArticles | lib/api.ts:117-133 | counted as all articles; by default the first 10 |
| MockApi.GetVideos | lib/api.ts:182-197 | counted as all videos; by default the first 10 |
| MockApi.GetThoughts | lib/api.ts:242-255 | counted as all thoughts; by default the first 20 |
| MockApi.EmptyPage | lib/api.ts:279-288 | RSS items and authors without a database: no data, count 0, no error |
| MockApi.SubscribeToNewsletter | lib/api.ts:380-387 | without a database no data is stored and the error says "Database not configured" |
| MockApi.SearchContent | lib/api.ts:407-435 | the result is the first `limit` (default 20) of the article hits followed by the policy hits, for the requested types |
| MockApi.SearchPoolOrder | lib/api.ts:416-433 | at most `limit` results, each a case-insensitive title or summary hit, article hits first |
| MockApi.SearchIgnoresVideos | lib/api.ts:411-430 | asking for videos changes nothing, and videos alone give nothing |
| MigrateWordPress.CategoryValues | scripts/migrate-wordpress.ts:102-111 | the category list is the values of the `domain="category"` entries, in order |
| MigrateWordPress.CollectCategories | scripts/migrate-wordpress.ts:102-111 | the loop collects exactly those values |
| MigrateWordPress.PostOf | scripts/migrate-wordpress.ts:81-111 | the title is the item's, or `Untitled` when missing or empty; the slug is `post_name`, or else the slug of the title, which is a valid slug; the content is the converted `content:encoded`, the excerpt `excerpt:encoded`, the categories the values of the `category`-domain entries in order |
| MigrateWordPress.ExtractPost | scripts/migrate-wordpress.ts:77-125 | one post is built as `PostOf` says |
| MigrateWordPress.ExtractPosts | scripts/migrate-wordpress.ts:75-128 | exactly the `post` items, in order, each extracted |
| MigrateWordPress.ExtractedSlugs | scripts/migrate-wordpress.ts:77-83 | every extracted post comes from a `post` item and has its own `post_name` or a valid slug |
| MigrateWordPress.Attempt | scripts/migrate-wordpress.ts:177-193 | attempt 0 is the base slug; later ones are the base, a dash and more |
| MigrateWordPress.AttemptsDiffer | scripts/migrate-wordpress.ts:193 | the attempts are pairwise different |
| MigrateWordPress.EnsureUniqueSlug | scripts/migrate-wordpress.ts:176-196 | the slug returned is free unless its lookup failed; it is the base if the lookup does not find the base, and otherwise the first attempt the lookup does not find, every earlier attempt being taken with a working lookup |
| MigrateWordPress.MapCategory | scripts/migrate-wordpress.ts:202-217 | no categories or a first one equal to "uncategorized" in any case → `Imported`; else the first category |
| MigrateWordPress.MapCategoryIdempotent | scripts/migrate-wordpress.ts:202-217 | mapping a mapped category again changes nothing |
| MigrateWordPress.RowFor | scripts/migrate-wordpress.ts:269-283 | every row is a draft with the post's title and content, the mapped category, and the excerpt or else the first 160 characters of the content |
| MigrateWordPress.RowExcerptBound | scripts/migrate-wordpress.ts:273 | a generated excerpt is at most 160 characters and a prefix of the content |
| MigrateWordPress.MigratePosts | scripts/migrate-wordpress.ts:222-300 | no credentials → error; successes plus errors equal the posts; a dry run counts every post and inserts nothing; inserted rows were accepted and each comes from a post; their slugs are distinct and free before the run except where a slug lookup failed, and fully so when none failed |
| ImportOpml.ValidateOpml | scripts/import-opml.ts:45-63 | true exactly for an object whose `opml` is an object whose `body` is a non-empty array |
| ImportOpml.Field | scripts/import-opml.ts:50-54 | a field exists only on an object that has the key |
| ImportOpml.Label | scripts/import-opml.ts:90-97 | the outline's `text`, else its `title`, else the fallback: never empty when the fallback is not |
| ImportOpml.FeedOf | scripts/import-opml.ts:86-94 | a feed outline gives the inherited category, its URL and site URL, a non-empty name and type |
| ImportOpml.FeedsAllConcat | scripts/import-opml.ts:98-108 | the walk over a list is the walk over its parts in document order |
| ImportOpml.FeedsAllWellFormed | scripts/import-opml.ts:85-108 | every parsed feed has a name, a URL, a type and a category |
| ImportOpml.TopLevelFeed | scripts/import-opml.ts:86-108 | a top-level feed outline yields exactly one feed, in `Uncategorized`, its children ignored |
| ImportOpml.FolderLabel | scripts/import-opml.ts:95-101 | a folder ignores the inherited category and passes its own label to its children |
| ImportOpml.Parser.ParseOutline | scripts/import-opml.ts:85-102 | the recursive walk appends exactly the outline's feeds to the list |
| ImportOpml.Parser.ParseAll | scripts/import-opml.ts:98-108 | the `forEach` appends the feeds of every outline in order |
| ImportOpml.ParseOpml | scripts/import-opml.ts:68-115 | an XML error and an invalid document are rejected with their messages; a valid one gives the feeds of the top outlines |
| ImportOpml.ParsedFeedsWellFormed | scripts/import-opml.ts:104-112 | every parsed feed is complete |
| ImportOpml.CategoryNames | scripts/import-opml.ts:129 | no duplicates, covers every feed's category, and names only those |
| ImportOpml.UpsertCategories | scripts/import-opml.ts:132-152 | one row per category name, in order, each with a well-formed kebab slug |
| ImportOpml.UpsertFeeds | scripts/import-opml.ts:169-195 | every feed is counted once; the errors are exactly the upserts refused with a code other than duplicate key |
| ImportOpml.ImportFeeds | scripts/import-opml.ts:120-195 | unconfigured stops; configured with a working category fetch always imports; one category per distinct name in order, with a valid slug; a failed category fetch stops; successes plus errors equal the feeds, errors counting the refused upserts |
| BacklogToJira.HeadingPrefix | scripts/atlassian/backlog-to-jira.ts:67-68 | a match is `### `, digits, `. ` |
| BacklogToJira.DescriptionStops | scripts/atlassian/backlog-to-jira.ts:73-82 | the description ends at a line starting with `#` or `**Tasks:**`; later lines never matter |
| BacklogToJira.SectionAfter | scripts/atlassian/backlog-to-jira.ts:55-64 | the section is kept or becomes one of the three priority sections |
| BacklogToJira.PriorityOf | scripts/atlassian/backlog-to-jira.ts:123 | `High` iff the section names High, `Low` iff it names Lower but not High, else `Medium` |
| BacklogToJira.SectionPriorities | scripts/atlassian/backlog-to-jira.ts:123 | the priority rule on the section names the headings set: no section → Medium; the three sections → High, Medium, Low |
| BacklogToJira.Labels | scripts/atlassian/backlog-to-jira.ts:85-124 | the labels hold no duplicates |
| BacklogToJira.SecurityLabel | scripts/atlassian/backlog-to-jira.ts:90-93 | `security` iff security, rls or auth is mentioned |
| BacklogToJira.FrontendLabel | scripts/atlassian/backlog-to-jira.ts:94-108 | `frontend` iff a UI, page or management word is mentioned |
| BacklogToJira.BackendLabel | scripts/atlassian/backlog-to-jira.ts:97-108 | `backend` iff an API or management word is mentioned |
| BacklogToJira.DatabaseLabel | scripts/atlassian/backlog-to-jira.ts:100-102 | `database` iff a database word is mentioned |
| BacklogToJira.QuickWinLabel | scripts/atlassian/backlog-to-jira.ts:109-111 | `quick-win` iff a small-effort word is mentioned |
| BacklogToJira.KnownLabels | scripts/atlassian/backlog-to-jira.ts:85-111 | only the five known labels occur |
| BacklogToJira.StoryPoints | scripts/atlassian/backlog-to-jira.ts:114-118 | the points are 2, 3, 5 or 8 |
| BacklogToJira.StoryPointRules | scripts/atlassian/backlog-to-jira.ts:114-118 | the last matching rule wins: 6-10 hours → 8, else large → 5, and 2 exactly when only a small rule matches |
| BacklogToJira.ItemShape | scripts/atlassian/backlog-to-jira.ts:67-128 | an item has the heading's trimmed rest as title, the section, type Task, the section's priority, distinct labels and valid points |
| BacklogToJira.ItemsFollowHeadings | scripts/atlassian/backlog-to-jira.ts:51-130 | the items' titles are the numbered headings' titles, one each, in file order |
| BacklogToJira.CollectDescription | scripts/atlassian/backlog-to-jira.ts:71-82 | the inner loop gathers the description of the specification |
| BacklogToJira.ParseItem | scripts/atlassian/backlog-to-jira.ts:67-128 | one heading line gives the item of the specification |
| BacklogToJira.DetectSection | scripts/atlassian/backlog-to-jira.ts:55-64 | the section switch follows `SectionAfter` |
| BacklogToJira.ParseLine | scripts/atlassian/backlog-to-jira.ts:51-129 | one iteration keeps the items found so far plus those still to come unchanged |
| BacklogToJira.ParseBacklog | scripts/atlassian/backlog-to-jira.ts:43-133 | the parser returns the items of the lines of the text |
| BacklogToJira.IssueFor | scripts/atlassian/backlog-to-jira.ts:137-154 | the issue has the item's title and labels, its description or the placeholder, never empty |
| BacklogToJira.Run | scripts/atlassian/backlog-to-jira.ts:13-194 | no API token or an unreadable backlog file → exit code 1; otherwise the import completes with the parsed items' tallies |
| BacklogToJira.ImportTop | scripts/atlassian/backlog-to-jira.ts:175-189 | at most the first ten items are sent; `created` counts the accepted ones; the rest is reported as remaining |
| ValidateLinks.UrlPath | scripts/validate-links.ts:54-56 | the checked path holds no `?` or `#` |
| ValidateLinks.QueryIgnored | scripts/validate-links.ts:52-60 | whatever follows `?` or `#` never changes the verdict |
| ValidateLinks.UrlPathIdempotent | scripts/validate-links.ts:54-56 | stripping twice is stripping once |
| ValidateLinks.ListedValid | scripts/validate-links.ts:22-60 | a listed route is valid |
| ValidateLinks.ArticleSlugValid | scripts/validate-links.ts:57-59 | `/articles/<segment>` is valid |
| ValidateLinks.Regex | scripts/validate-links.ts:67-71 | each link pattern only ever matches forward |
| ValidateLinks.ExecLeftmost | scripts/validate-links.ts:78-100 | repeated `exec` finds the leftmost match from the last position, and none means no match remains |
| ValidateLinks.LinkElementAlsoHref | scripts/validate-links.ts:67-71 | whatever the `<Link href>` pattern matches, the `href` pattern matches too, later on the line |
| ValidateLinks.PatternIssuesOnLine | scripts/validate-links.ts:78-99 | every report of one pattern is broken, on that line, with a 1-based number |
| ValidateLinks.LineIssuesOnLine | scripts/validate-links.ts:67-99 | the same holds for all patterns of a line |
| ValidateLinks.FileIssuesLines | scripts/validate-links.ts:63-104 | every report of a file names the file, a line within it, kind `broken`, and a link the route check refuses |
| ValidateLinks.LinkChecker.constructor | scripts/validate-links.ts:21-42 | a checker starts with the route table, the three link patterns and no issues |
| ValidateLinks.LinkChecker.CheckLink | scripts/validate-links.ts:81-99 | skipped links add nothing; a broken link adds one report |
| ValidateLinks.LinkChecker.ScanPattern | scripts/validate-links.ts:78-100 | the `exec` loop adds exactly that pattern's reports |
| ValidateLinks.LinkChecker.ScanLine | scripts/validate-links.ts:76-101 | the pattern loop adds the line's reports, pattern by pattern |
| ValidateLinks.LinkChecker.ExtractLinks | scripts/validate-links.ts:63-104 | the file's reports are appended, line by line |
| ValidateLinks.ExitCode | scripts/validate-links.ts:190 | the process fails iff there is an issue |
| PreLaunchAudit.TallySum | scripts/pre-launch-audit.ts:665-671 | the five severity counts add up to the number of issues |
| PreLaunchAudit.GenerateReport | scripts/pre-launch-audit.ts:664-683 | the report holds the issues and passes, and its counts total the issues |
| PreLaunchAudit.LaunchReadyRule | scripts/pre-launch-audit.ts:674 | ready iff no issue is critical and fewer than three are high |
| PreLaunchAudit.MinorIssuesNeverBlock | scripts/pre-launch-audit.ts:674 | adding medium, low or info issues never changes readiness |
| PreLaunchAudit.ExitCode | scripts/pre-launch-audit.ts:813 | exit 0 iff launch ready, 1 otherwise |
| PreLaunchAudit.MarkerSearch | scripts/pre-launch-audit.ts:110-138 | a marker is found iff it occurs at some position |
| PreLaunchAudit.CodeRulesTable | scripts/pre-launch-audit.ts:110-162 | TODO → medium, FIXME → high, HACK → medium, console call → low and only outside `/scripts/` |
| PreLaunchAudit.SeverityCount | scripts/pre-launch-audit.ts:110-162 | a line's findings of each severity are the rules of that severity that apply |
| PreLaunchAudit.LineSeverities | scripts/pre-launch-audit.ts:110-162 | a line never yields a critical or info finding; high iff FIXME; medium once per TODO and HACK; low iff a console call outside the scripts |
| PreLaunchAudit.LineMarkers | scripts/pre-launch-audit.ts:110-150 | the marker counter grows by one for each marker on the line |
| PreLaunchAudit.FileFindingsPlace | scripts/pre-launch-audit.ts:104-162 | every finding of a file is a code-quality finding of that file, on one of its lines |
| PreLaunchAudit.NoMarkers | scripts/pre-launch-audit.ts:169-171 | the counters stay zero iff no file has a marker |
| PreLaunchAudit.LinkFindingsAreBrokenLinks | scripts/pre-launch-audit.ts:343-369 | a line's link findings are one per broken link, in order |
| PreLaunchAudit.LinkFindingsMedium | scripts/pre-launch-audit.ts:357-368 | every link finding is a medium `Links` finding |
| PreLaunchAudit.AuditAcceptsLess | scripts/pre-launch-audit.ts:308-355 | a route the audit accepts is one the link validator accepts too |
| PreLaunchAudit.NamingRule | scripts/pre-launch-audit.ts:490-500 | more than one distinct name iff two found names differ |
| PreLaunchAudit.Audit.constructor | scripts/pre-launch-audit.ts:47-48 | an audit starts with its rules, routes and patterns and no issues or passes |
| PreLaunchAudit.Audit.AddIssue | scripts/pre-launch-audit.ts:51-53 | appends one issue and leaves the passes alone |
| PreLaunchAudit.Audit.AddPass | scripts/pre-launch-audit.ts:55-57 | appends one pass and leaves the issues alone |
| PreLaunchAudit.Audit.CheckRule | scripts/pre-launch-audit.ts:110-162 | one rule adds its finding iff it applies |
| PreLaunchAudit.Audit.AuditLine | scripts/pre-launch-audit.ts:104-163 | one line adds its findings and counts its markers |
| PreLaunchAudit.Audit.AuditFile | scripts/pre-launch-audit.ts:100-165 | one file adds its findings line by line and counts its markers |
| PreLaunchAudit.Audit.AuditCodeStructure | scripts/pre-launch-audit.ts:90-172 | all findings are added, and the no-marker pass iff all three counters stay zero |
| PreLaunchAudit.Audit.CheckHref | scripts/pre-launch-audit.ts:346-368 | a broken link adds one medium finding and counts |
| PreLaunchAudit.Audit.AuditLinksLine | scripts/pre-launch-audit.ts:342-370 | a line adds its link findings and counts them |
| PreLaunchAudit.Audit.AuditLinksFile | scripts/pre-launch-audit.ts:338-372 | a file adds its link findings and counts them |
| PreLaunchAudit.Audit.AuditLinks | scripts/pre-launch-audit.ts:305-379 | all link findings are added, and the pass iff there is none |
| PreLaunchAudit.Audit.CollectSiteNames | scripts/pre-launch-audit.ts:478-488 | the set of names found, in order of first appearance |
| PreLaunchAudit.Audit.AuditSiteNaming | scripts/pre-launch-audit.ts:478-500 | an issue listing the names iff more than one distinct name is found, the pass otherwise |
| AdminArticlesRoute.ReadTime | app/api/admin/articles/route.ts:141-143 | the read time is the least number of minutes that covers the words at 200 a minute, at least 1 |
| AdminArticlesRoute.WordCountJoin | app/api/admin/articles/route.ts:141-142 | joining two texts with a space adds their word counts |
| AdminArticlesRoute.Get | app/api/admin/articles/route.ts:64-125 | `count` is the length of the list; the source is mock iff the database did not answer; an error iff it failed |
| AdminArticlesRoute.MockListing | app/api/admin/articles/route.ts:74-83 | a mock article is listed iff no status narrows the list or it has that status |
| AdminArticlesRoute.MockListingAll | app/api/admin/articles/route.ts:74-83 | no status, `all` and `''` list all four mock articles |
| AdminArticlesRoute.Or | app/api/admin/articles/route.ts:177-182 | JavaScript's logical or of `a` and `b` is truthy iff one of them is; it is `a` when `a` is truthy and `b` otherwise |
| AdminArticlesRoute.OrNull | app/api/admin/articles/route.ts:182 | the logical or of `x` and `null` is null or a truthy `x` |
| AdminArticlesRoute.PostValidation | app/api/admin/articles/route.ts:133-138 | 400 iff title, slug or content is missing or empty |
| AdminArticlesRoute.MockSaveCounters | app/api/admin/articles/route.ts:150-165 | a mock save has view and revision counts 0, author Admin, the body, the given or random id, and enough minutes for the words |
| AdminArticlesRoute.InsertDefaults | app/api/admin/articles/route.ts:169-188 | status defaults to draft, SEO title to the title, SEO description to the excerpt or null, author Admin, source manual |
| ArticleEditor.SlugEffect | app/admin/articles/new/page.tsx:53-61 | only the slug may change, only from empty with a non-empty title, and then to the kebab slug of the title |
| ArticleEditor.SlugEffectSettles | app/admin/articles/new/page.tsx:53-61 | running the effect again changes nothing |
| ArticleEditor.SlugOfSlugTitle | app/admin/articles/new/page.tsx:55-59 | a title that is already a slug is taken unchanged |
| ArticleEditor.StripTags | app/admin/articles/new/page.tsx:66 | stripping never lengthens |
| ArticleEditor.StripTagsChars | app/admin/articles/new/page.tsx:66 | stripping only removes characters |
| ArticleEditor.StripTagsNoTags | app/admin/articles/new/page.tsx:66 | no `<` with a later `>` remains |
| ArticleEditor.StripTagsPlain | app/admin/articles/new/page.tsx:66 | a text without `<` is kept |
| ArticleEditor.Excerpt | app/admin/articles/new/page.tsx:67 | up to 160 characters are kept, with `...` added exactly when the text is longer |
| ArticleEditor.ExcerptEffect | app/admin/articles/new/page.tsx:64-70 | with content and an empty excerpt, the excerpt becomes `Excerpt` of the tag-stripped content (its first 160 characters, plus `...` when it is longer) and nothing else changes; in every other case the form is unchanged |
| ArticleEditor.ExcerptEffectSettles | app/admin/articles/new/page.tsx:64-70 | running the effect again changes nothing |
| ArticleEditor.WithTag | app/admin/articles/new/page.tsx:112-120 | the trimmed input is appended iff non-empty and new; the list stays duplicate-free and keeps its prefix |
| ArticleEditor.WithoutTag | app/admin/articles/new/page.tsx:122-127 | exactly that tag goes; duplicate-freedom is kept |
| ArticleEditor.AddThenRemove | app/admin/articles/new/page.tsx:112-127 | removing a tag just added restores the list |
| ArticleEditor.Payload | app/admin/articles/new/page.tsx:76-80 | the status follows the action, and a publication time is sent only when publishing |
| ArticleEditor.PayloadAtRoute | app/admin/articles/new/page.tsx:76-80 | the route refuses the payload iff title, slug or content is empty, and otherwise stores the action's status, tags and title |
| ArticleEditor.Editor.constructor | app/admin/articles/new/page.tsx:18-50 | the form starts empty, as a draft with no tags |
| ArticleEditor.Editor.SyncSlug | app/admin/articles/new/page.tsx:53-61 | the slug effect on the form, the tag input untouched |
| ArticleEditor.Editor.SyncExcerpt | app/admin/articles/new/page.tsx:64-70 | the excerpt effect on the form, the tag input untouched |
| ArticleEditor.Editor.AddTag | app/admin/articles/new/page.tsx:112-120 | tags become `WithTag`; the input is cleared iff a tag was added; no duplicate tags |
| ArticleEditor.Editor.RemoveTag | app/admin/articles/new/page.tsx:122-127 | tags become `WithoutTag`; no duplicate tags |
| ArticleEditor.Editor.CalculateReadTime | app/admin/articles/new/page.tsx:129-133 | the least number of minutes covering the words at 200 a minute, at least 1 |
| ArticleList.EmptyTermMatchesAll | app/admin/articles/page.tsx:80-84 | an empty search keeps every article |
| ArticleList.Compare | app/admin/articles/page.tsx:85-97 | zero iff the keys are equal; negative iff the first key sorts first in the chosen direction |
| ArticleList.CompareAntisymmetric | app/admin/articles/page.tsx:85-97 | swapping the articles flips the sign |
| ArticleList.DirectionsOpposite | app/admin/articles/page.tsx:93-95 | descending is ascending reversed |
| ArticleList.SortArticles | app/admin/articles/page.tsx:85-97 | the result is in comparator order and a permutation of the input |
| ArticleList.VisibleArticles | app/admin/articles/page.tsx:80-97 | an article is shown iff it is loaded and matches; the shown list is a sorted permutation of the matching ones |
| ArticleList.NextSort | app/admin/articles/page.tsx:69-78 | the clicked column is selected; ascending iff it is a new column or was descending |
| ArticleList.ClickTwice | app/admin/articles/page.tsx:69-78 | clicking the same column twice restores the direction |
| ArticleList.ComputeStats | app/admin/articles/page.tsx:99-104 | total is the number of articles; drafts plus published and the WordPress count never exceed it |
| ArticleList.ArticleListPage.constructor | app/admin/articles/page.tsx:26-31 | no articles, no search, sorted by creation date, newest first |
| ArticleList.ArticleListPage.HandleSort | app/admin/articles/page.tsx:69-78 | the sort state follows `NextSort`; articles and search stay |
| ArticleList.ArticleListPage.FilteredArticles | app/admin/articles/page.tsx:80-97 | a sorted permutation of the matching articles |
| ArticleList.ArticleListPage.PageStats | app/admin/articles/page.tsx:99-104 | the counters of the loaded articles |
| Roles.TableComplete | lib/auth/types.ts:25-46 | the table has both roles, each with all eight capabilities |
| Roles.AdminAllReaderNone | lib/auth/types.ts:25-50 | admin has every capability, reader none |
| Roles.CapabilityDecidesRole | lib/auth/types.ts:25-50 | any capability holds iff the role is admin |
| Roles.RoleList | contexts/AuthContext.tsx:123 | a single role is wrapped as a one-element list |
| Roles.HasRole | contexts/AuthContext.tsx:121-125 | true iff there is a user whose role is in the list |
| Roles.HasSingleRole | contexts/AuthContext.tsx:121-125 | with one role: iff the user has that role |
| Roles.HasRoleMonotone | contexts/AuthContext.tsx:121-125 | allowing more roles never refuses a user |
| FeedCard.FormatRelativeTime | components/FeedCard.tsx:27-39 | `''` iff there is no date; `Just now` iff less than an hour has passed, future dates included |
| FeedCard.DaysOfHours | components/FeedCard.tsx:32-36 | whole days from whole hours equal whole days from milliseconds |
| FeedCard.WithinADay | components/FeedCard.tsx:35 | between one hour and one day: `<h>h ago` with 1 ≤ h < 24 |
| FeedCard.AfterADay | components/FeedCard.tsx:36-38 | from one day on: `1 day ago` iff under two days, else `<d> days ago` |
| FeedCard.HourStampsDistinct | components/FeedCard.tsx:35 | within a day two dates get the same label iff they are the same number of whole hours old |
| QuickPost.Hashtags | app/api/webhooks/quick-post/route.ts:51-52 | every hashtag is a non-empty run of word characters |
| QuickPost.NoHash | app/api/webhooks/quick-post/route.ts:51-52 | a text without `#` has no hashtags |
| QuickPost.HashtagFirst | app/api/webhooks/quick-post/route.ts:51-52 | a `#word` ending at a non-word character gives that word, then the rest's hashtags |
| QuickPost.HashtagsOfTagged | app/api/webhooks/quick-post/route.ts:51-52 | writing words as space-separated hashtags and extracting them gives the words back, in order |
| QuickPost.Post | app/api/webhooks/quick-post/route.ts:16-131 | the answer is 201, 400, 401 or 500, with a stored post exactly when 201 |
| QuickPost.Unauthorized | app/api/webhooks/quick-post/route.ts:16-34 | 401 iff the token is missing or empty or differs from the secret |
| QuickPost.BlankContent | app/api/webhooks/quick-post/route.ts:37-45 | with a good token and a JSON body, 400 iff the content is missing or blank after trimming |
| QuickPost.UnparsableBody | app/api/webhooks/quick-post/route.ts:37-131 | with a good token, a body that is not JSON gives the catch-all 500 `Internal server error`, and only such a body does |
| QuickPost.StoredDraft | app/api/webhooks/quick-post/route.ts:62-120 | a stored post has the trimmed non-empty content, its hashtags, status draft, source drafts, a media URL iff one was sent, and the given or default author |
| QuickPost.Get | app/api/webhooks/quick-post/route.ts:135-153 | 200 iff a token is present and equals the secret, else 401 |
| QuickPost.GetAcceptsMore | app/api/webhooks/quick-post/route.ts:135-146 | every token the `POST` handler accepts, `GET` accepts; they differ only for an empty secret, which only `GET` lets an empty token match |
| Slugs.Kebab | app/admin/articles/new/page.tsx:55-59 | the editor's slug is a valid slug: lower-case letters and digits in dash-separated groups |
| Slugs.Slugify | scripts/migrate-wordpress.ts:164-171 | `slugify` gives a valid slug: only `[a-z0-9-]`, no edge dash, no double dash |
| Slugs.KebabKeepsAlnum | app/admin/articles/new/page.tsx:55-59 | the slug keeps exactly the lower-cased letters and digits, in order |
| Slugs.SlugifyKeepsAlnum | scripts/migrate-wordpress.ts:164-171 | `slugify` keeps exactly the lower-cased letters and digits, in order |
| Slugs.KebabFixed | app/admin/articles/new/page.tsx:55-59 | a valid slug is its own slug |
| Slugs.SlugifyFixed | scripts/migrate-wordpress.ts:164-171 | a valid slug is its own `slugify` |
| Slugs.SlugsIdempotent | scripts/migrate-wordpress.ts:164-171 | slugging twice is slugging once, for both functions |

## Left out

- Network, database and file I/O: every reply (Confluence, FreshRSS, the RSS parser, Supabase, Jira, the XML parser, file reads) is a parameter; timeouts, retries, headers and rate-limit sleeps are not modelled.
- Console output and the JSON report file `audit-report.json` the pre-launch audit writes are not modelled; process exits are modelled only as exit codes.
- Clocks and random values: `now`, the random article id and the date stamp are parameters; date parsing (`new Date(text)`) is kept as the text or as milliseconds given from outside, and invalid dates are not modelled.
- The other pre-launch audits (security, database, features, image alt text, performance, deployment) and the directory walkers of both link scripts: the files to scan are given as a list.
- HTML-to-Markdown conversion of WordPress content (`turndown`) and the featured-image lookup are parameters or omitted; `parseInt` of the WordPress id is not modelled.
- MigrateWordPress.CategoryValues: a `<category>` without attributes comes out of the XML parser as a plain string, so the source's unguarded `cat.$.domain` throws and the whole migration fails with exit code 1; the model reads it as having no domain and skips it.
- MigrateWordPress.CategoryValues: for a `<category>` with attributes but no text, `cat._ || cat` pushes the element object itself; the model pushes its empty text.
- The glossary's 40-odd terms are not copied: the queries take the term list as a parameter.
- `getTermOfDay`'s day-of-year computation from a `Date` is not modelled; the day number is the input.
- Text.Lower: lower-cases ASCII letters only; JavaScript and Python case mapping of other characters is not modelled. Strings are sequences of characters, not UTF-16 code units.
- FeedsRoute.Get: the `count` parameter is taken as already parsed; `parseInt` of a non-numeric value (NaN) is not modelled.
- FeedsRoute.MockFeedItems: its contract states only the size bound; the filter and window are stated by `MockPolicyItems`, `WindowSpec` and `GetWindow`.
- AdminArticlesRoute.Get: with a database the query's own status filter and ordering are not modelled; the rows come back as given.
- AdminArticlesRoute: the database insert's reply (the 500 path) and JSON body parse errors are not modelled.
- QuickPost.Post: the author lookup and the insert's error are parameters.
- QuickPost.Post: a body that is valid JSON but not an object (`null`, a number), or whose `content` is not a string, is not distinguished; it is read as unparsable or as a missing field.
- MigrateWordPress.EnsureUniqueSlug: whether a slug's lookup fails is a fixed property of the slug for the whole run; a failure that comes and goes between two lookups of the same slug is not modelled.
- ArticleList.SortArticles: stability (equal keys keep their order) is not stated; only order and permutation are.
- ArticleList: the article load from the database (`loadArticles`) is not modelled; the articles are the page's field.
- BacklogToJira: the unused `currentPriority` variable of the parser is not modelled, because nothing reads it.
- ImportOpml: an outline element without attributes is read as having empty attributes; the source reads `outline.$.text` unguarded there, so such an outline throws a TypeError and the import fails.
- Rendering, modals, styling and the other pages and components of the site are out of scope.
