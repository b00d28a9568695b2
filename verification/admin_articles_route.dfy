/**
 * The admin articles API route: `GET` lists articles, filtered by status,
 * from the mock table when the database is not configured or fails;
 * `POST` validates a new article, computes its read time and either
 * simulates the save or builds the row it inserts.
 */
module AdminArticlesRoute {
  import opened Wrappers
  import opened Text
  import opened Lists

  // ---------------------------------------------------------------------------
  // Read time
  // ---------------------------------------------------------------------------

  /**
   * Number of maximal whitespace runs that begin in `s`, where `afterSpace`
   * says whether the character just before `s` was whitespace.
   */
  function RunStarts(s: string, afterSpace: bool): nat
    decreases |s|
  {
    if s == [] then 0
    else (if IsJsSpace(s[0]) && !afterSpace then 1 else 0) + RunStarts(s[1..], IsJsSpace(s[0]))
  }

  /** `content.split(/\s+/).length`: one piece more than there are whitespace runs. */
  function WordCount(s: string): nat {
    1 + RunStarts(s, false)
  }

  /** Whether the last character before position `|s|` is whitespace, starting from `afterSpace`. */
  function EndsInSpace(s: string, afterSpace: bool): bool {
    if s == [] then afterSpace else IsJsSpace(s[|s| - 1])
  }

  lemma {:induction false} RunStartsConcat(a: string, b: string, afterSpace: bool)
    ensures RunStarts(a + b, afterSpace) == RunStarts(a, afterSpace) + RunStarts(b, EndsInSpace(a, afterSpace))
    decreases |a|
  {
    if a != [] {
      assert (a + b)[1..] == a[1..] + b;
      RunStartsConcat(a[1..], b, IsJsSpace(a[0]));
      if a[1..] != [] {
        assert a[1..][|a[1..]| - 1] == a[|a| - 1];
      }
    } else {
      assert a + b == b;
    }
  }

  lemma {:induction false} NoRuns(s: string, afterSpace: bool)
    requires forall i :: 0 <= i < |s| ==> !IsJsSpace(s[i])
    ensures RunStarts(s, afterSpace) == 0
    decreases |s|
  {
    if s != [] {
      NoRuns(s[1..], false);
    }
  }

  /** A text without whitespace is one word. */
  lemma OneWord(s: string)
    requires forall i :: 0 <= i < |s| ==> !IsJsSpace(s[i])
    ensures WordCount(s) == 1
  {
    NoRuns(s, false);
  }

  /** Joining two texts with a space between them adds their word counts. */
  lemma WordCountJoin(a: string, b: string)
    requires a != [] && !IsJsSpace(a[|a| - 1])
    requires b != [] && !IsJsSpace(b[0])
    ensures WordCount(a + " " + b) == WordCount(a) + WordCount(b)
  {
    assert a + " " + b == a + (" " + b);
    RunStartsConcat(a, " " + b, false);
    assert (" " + b)[1..] == b;
    assert RunStarts(b, true) == RunStarts(b, false) == RunStarts(b[1..], false);
  }

  /** `Math.ceil(wordCount / 200)` */
  function ReadTime(content: string): (minutes: nat)
    ensures (minutes - 1) * 200 < WordCount(content) <= minutes * 200
    ensures minutes >= 1
  {
    (WordCount(content) + 199) / 200
  }

  // ---------------------------------------------------------------------------
  // GET
  // ---------------------------------------------------------------------------

  datatype Status = Draft | Published | Scheduled

  function StatusName(s: Status): string {
    match s
    case Draft => "draft"
    case Published => "published"
    case Scheduled => "scheduled"
  }

  datatype AdminArticle = AdminArticle(
    id: string,
    title: string,
    slug: string,
    status: Status,
    publishedAt: Option<string>,
    scheduledFor: Option<string>,
    createdAt: string,
    updatedAt: string,
    authorName: string,
    viewCount: nat,
    revisionCount: nat)

  /** The route's own mock table. */
  const MockAdminArticles: seq<AdminArticle> := [
    AdminArticle("1", "Getting Started with Digital Policy Analysis", "getting-started-digital-policy", Published,
                 Some("2025-01-15T10:00:00Z"), None, "2025-01-10T09:00:00Z", "2025-01-15T10:00:00Z", "Admin", 1247, 3),
    AdminArticle("2", "Draft: AI Regulation Landscape 2025", "ai-regulation-landscape-2025", Draft,
                 None, None, "2025-10-30T14:30:00Z", "2025-10-31T09:15:00Z", "Admin", 0, 7),
    AdminArticle("3", "Understanding GDPR Compliance in 2025", "gdpr-compliance-2025", Scheduled,
                 None, Some("2025-11-05T08:00:00Z"), "2025-10-28T11:00:00Z", "2025-10-30T16:00:00Z", "Admin", 0, 2),
    AdminArticle("4", "The Future of Data Privacy", "future-of-data-privacy", Published,
                 Some("2025-10-20T12:00:00Z"), None, "2025-10-18T10:00:00Z", "2025-10-20T12:00:00Z", "Admin", 892, 5)
  ]

  /** The `status` query parameter narrows the list unless it is absent, empty or `all`. */
  predicate Narrows(status: Option<string>) {
    status.Some? && status.value != "" && status.value != "all"
  }

  function HasStatus(status: string): AdminArticle -> bool {
    (a: AdminArticle) => StatusName(a.status) == status
  }

  /** The mock list for a `status` query parameter. */
  function MockFiltered(status: Option<string>): seq<AdminArticle> {
    if Narrows(status) then Filter(MockAdminArticles, HasStatus(status.value)) else MockAdminArticles
  }

  /** What the database did with the list query; its own filtering and ordering are not modelled. */
  datatype Backend =
    | NotConfigured
    | Answered(data: Option<seq<AdminArticle>>)
    | Failed(message: Option<string>)

  datatype ListResponse = ListResponse(articles: seq<AdminArticle>, source: string, count: nat, error: Option<string>)

  /** `GET /api/admin/articles?status=…` */
  function Get(status: Option<string>, backend: Backend): (r: ListResponse)
    ensures r.count == |r.articles|
    ensures r.source == "mock" <==> !backend.Answered?
    ensures r.error.Some? <==> backend.Failed?
  {
    match backend
    case NotConfigured =>
      var filtered := MockFiltered(status);
      ListResponse(filtered, "mock", |filtered|, None)
    case Answered(data) =>
      var rows := data.GetOr([]);
      ListResponse(rows, "supabase", |rows|, None)
    case Failed(message) =>
      var filtered := MockFiltered(status);
      ListResponse(filtered, "mock", |filtered|, Some(message.GetOr("Unknown error")))
  }

  /**
   * Without a database answer, an article is listed exactly when it is in the
   * mock table and, if the query narrows, has the requested status.
   */
  lemma MockListing(status: Option<string>, backend: Backend, a: AdminArticle)
    requires !backend.Answered?
    ensures a in Get(status, backend).articles
            <==> a in MockAdminArticles && (!Narrows(status) || StatusName(a.status) == status.value)
  {
    if Narrows(status) {
      FilterMembers(MockAdminArticles, HasStatus(status.value), a);
    }
  }

  /** Without a database, no status, `all` and `''` all list the whole mock table, four articles. */
  lemma MockListingAll(backend: Backend)
    requires !backend.Answered?
    ensures Get(None, backend).articles == Get(Some("all"), backend).articles == Get(Some(""), backend).articles
            == MockAdminArticles
    ensures Get(None, backend).count == 4
  {
  }

  // ---------------------------------------------------------------------------
  // POST
  // ---------------------------------------------------------------------------

  /** The JSON body of a `POST`; an absent field is `None`. */
  datatype ArticleBody = ArticleBody(
    id: Option<string>,
    title: Option<string>,
    slug: Option<string>,
    content: Option<string>,
    excerpt: Option<string>,
    status: Option<string>,
    category: Option<string>,
    tags: Option<seq<string>>,
    featuredImageUrl: Option<string>,
    seoTitle: Option<string>,
    seoDescription: Option<string>,
    scheduledFor: Option<string>,
    publishedAt: Option<string>)

  /** A string field is truthy when it is present and not empty. */
  predicate Truthy(o: Option<string>) {
    o.Some? && o.value != ""
  }

  /** `a || b` on optional strings. */
  function Or(a: Option<string>, b: Option<string>): (r: Option<string>)
    ensures Truthy(r) <==> Truthy(a) || Truthy(b)
    ensures Truthy(a) ==> r == a
    ensures !Truthy(a) ==> r == b
  {
    if Truthy(a) then a else b
  }

  /** `x || null` */
  function OrNull(a: Option<string>): (r: Option<string>)
    ensures r == None || (Truthy(a) && r == a)
  {
    if Truthy(a) then a else None
  }

  /** The simulated save: the body spread after a random id, then the counters, timestamps and author. */
  datatype MockArticle = MockArticle(
    id: string,
    body: ArticleBody,
    readTime: nat,
    viewCount: nat,
    revisionCount: nat,
    createdAt: string,
    updatedAt: string,
    authorName: string)

  /** The row inserted into the database. */
  datatype ArticleRow = ArticleRow(
    title: string,
    slug: string,
    content: string,
    excerpt: Option<string>,
    status: string,
    category: Option<string>,
    tags: seq<string>,
    featuredImageUrl: Option<string>,
    seoTitle: string,
    seoDescription: Option<string>,
    scheduledFor: Option<string>,
    publishedAt: Option<string>,
    authorName: string,
    readTime: nat,
    importedFrom: string)

  datatype PostOutcome =
    | Rejected(code: nat, error: string)
    | MockSaved(article: MockArticle, message: string)
    | Insert(row: ArticleRow)

  /**
   * `POST /api/admin/articles`. `randomId` and `now` stand for
   * `Math.random()` and the clock; `Insert` is the row handed to the
   * database, whose reply is not modelled.
   */
  function Post(body: ArticleBody, configured: bool, randomId: string, now: string): PostOutcome {
    if !Truthy(body.title) || !Truthy(body.slug) || !Truthy(body.content) then
      Rejected(400, "Missing required fields: title, slug, content")
    else
      var readTime := ReadTime(body.content.value);
      if !configured then
        MockSaved(MockArticle(body.id.GetOr(randomId), body, readTime, 0, 0, now, now, "Admin"),
                  "Article saved successfully (mock mode)")
      else
        Insert(ArticleRow(
          body.title.value, body.slug.value, body.content.value,
          OrNull(body.excerpt),
          if Truthy(body.status) then body.status.value else "draft",
          OrNull(body.category),
          body.tags.GetOr([]),
          OrNull(body.featuredImageUrl),
          Or(body.seoTitle, body.title).value,
          OrNull(Or(body.seoDescription, body.excerpt)),
          OrNull(body.scheduledFor),
          OrNull(body.publishedAt),
          "Admin", readTime, "manual"))
  }

  /** A `POST` is refused with 400 exactly when title, slug or content is missing or empty. */
  lemma PostValidation(body: ArticleBody, configured: bool, randomId: string, now: string)
    ensures Post(body, configured, randomId, now).Rejected?
            <==> !Truthy(body.title) || !Truthy(body.slug) || !Truthy(body.content)
    ensures Post(body, configured, randomId, now).Rejected? ==> Post(body, configured, randomId, now).code == 400
  {
  }

  /** A simulated save starts with no views and no revisions, by Admin, keeping the body's own id if it has one. */
  lemma MockSaveCounters(body: ArticleBody, randomId: string, now: string)
    requires Truthy(body.title) && Truthy(body.slug) && Truthy(body.content)
    ensures var r := Post(body, false, randomId, now);
      r.MockSaved? && r.article.viewCount == 0 && r.article.revisionCount == 0 && r.article.authorName == "Admin"
      && r.article.body == body && (r.article.id == randomId <==> body.id.None? || body.id.value == randomId)
      && r.article.readTime * 200 >= WordCount(body.content.value)
  {
  }

  /**
   * The inserted row's defaults: status draft unless one is given, the SEO
   * title falling back to the title, the SEO description to the excerpt and
   * then to null, and no empty strings among the optional fields.
   */
  lemma InsertDefaults(body: ArticleBody, randomId: string, now: string)
    requires Truthy(body.title) && Truthy(body.slug) && Truthy(body.content)
    ensures var r := Post(body, true, randomId, now);
      r.Insert?
      && (r.row.status == "draft" <==> !Truthy(body.status) || body.status.value == "draft")
      && r.row.seoTitle != ""
      && (r.row.seoTitle == body.title.value <==> !Truthy(body.seoTitle) || body.seoTitle == body.title)
      && (r.row.seoDescription.None? <==> !Truthy(body.seoDescription) && !Truthy(body.excerpt))
      && (Truthy(body.seoDescription) ==> r.row.seoDescription == body.seoDescription)
      && (!Truthy(body.seoDescription) ==> r.row.seoDescription == OrNull(body.excerpt))
      && (r.row.excerpt.None? || r.row.excerpt.value != "")
      && r.row.authorName == "Admin" && r.row.importedFrom == "manual"
  {
  }
}
