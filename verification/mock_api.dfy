/**
 * The content API when no database is configured: every list comes from the
 * mock data as a `slice` window with the full length as its count, the
 * tables the mock data has no rows for come back empty, the newsletter
 * refuses, and search filters the mock articles and policies.
 *
 * The mock rows are inputs; only the fields the functions read are kept.
 */
module MockApi {
  import opened Wrappers
  import opened Text
  import opened Lists

  /** A mock row: an id, a title and a summary. */
  datatype Entry = Entry(id: int, title: string, summary: string)

  /** `{ data, count, error }` */
  datatype Page = Page(data: seq<Entry>, count: int, error: Option<string>)

  /** The paging options; either may be left out. */
  datatype PageOptions = PageOptions(limit: Option<int>, offset: Option<int>)

  /** The mock branch shared by the list functions: `rows.slice(offset, offset + limit)`, counted in full. */
  function MockPage(rows: seq<Entry>, opts: PageOptions, defaultLimit: int): (p: Page)
    ensures p.count == |rows| && p.error.None?
    ensures |p.data| <= |rows|
  {
    var limit := opts.limit.GetOr(defaultLimit);
    var offset := opts.offset.GetOr(0);
    Page(Slice(rows, offset, offset + limit), |rows|, None)
  }

  /**
   * With a non-negative offset and limit, the page is the rows from
   * `offset` on, at most `limit` of them, and empty once the offset is past
   * the end.
   */
  lemma MockPageWindow(rows: seq<Entry>, limit: int, offset: int, defaultLimit: int)
    requires limit >= 0 && offset >= 0
    ensures var p := MockPage(rows, PageOptions(Some(limit), Some(offset)), defaultLimit);
      |p.data| <= limit
      && (offset < |rows| ==> p.data == rows[offset..Min(offset + limit, |rows|)])
      && (offset >= |rows| || limit == 0 ==> p.data == [])
  {
  }

  /** Consecutive pages cover the rows without gaps or overlaps. */
  lemma MockPagesAdjacent(rows: seq<Entry>, limit: int, offset: int, defaultLimit: int)
    requires limit >= 0 && 0 <= offset && offset + limit <= |rows|
    ensures MockPage(rows, PageOptions(Some(limit), Some(offset)), defaultLimit).data
          + MockPage(rows, PageOptions(Some(limit), Some(offset + limit)), defaultLimit).data
         == rows[offset..Min(offset + 2 * limit, |rows|)]
  {
    var a := MockPage(rows, PageOptions(Some(limit), Some(offset)), defaultLimit).data;
    var b := MockPage(rows, PageOptions(Some(limit), Some(offset + limit)), defaultLimit).data;
    var hi := Min(offset + 2 * limit, |rows|);
    assert a == rows[offset..offset + limit];
    if offset + limit < |rows| {
      assert b == rows[offset + limit..hi];
    } else {
      assert b == [];
    }
    assert rows[offset..hi] == rows[offset..offset + limit] + rows[offset + limit..hi];
  }

  /** The mock rows of each content kind. */
  datatype MockData = MockData(policies: seq<Entry>, articles: seq<Entry>, videos: seq<Entry>, thoughts: seq<Entry>)

  /** `getPolicies`: 10 rows from 0 unless told otherwise. */
  function GetPolicies(mock: MockData, opts: PageOptions): (p: Page)
    ensures p.count == |mock.policies| && p.error.None?
    ensures opts.limit.None? && opts.offset.None? ==> p.data == mock.policies[..Min(10, |mock.policies|)]
  {
    MockPage(mock.policies, opts, 10)
  }

  /** `getArticles`: 10 rows from 0 unless told otherwise. */
  function GetArticles(mock: MockData, opts: PageOptions): (p: Page)
    ensures p.count == |mock.articles| && p.error.None?
    ensures opts.limit.None? && opts.offset.None? ==> p.data == mock.articles[..Min(10, |mock.articles|)]
  {
    MockPage(mock.articles, opts, 10)
  }

  /** `getVideos`: 10 rows from 0 unless told otherwise. */
  function GetVideos(mock: MockData, opts: PageOptions): (p: Page)
    ensures p.count == |mock.videos| && p.error.None?
    ensures opts.limit.None? && opts.offset.None? ==> p.data == mock.videos[..Min(10, |mock.videos|)]
  {
    MockPage(mock.videos, opts, 10)
  }

  /** `getThoughts`: 20 rows from 0 unless told otherwise. */
  function GetThoughts(mock: MockData, opts: PageOptions): (p: Page)
    ensures p.count == |mock.thoughts| && p.error.None?
    ensures opts.limit.None? && opts.offset.None? ==> p.data == mock.thoughts[..Min(20, |mock.thoughts|)]
  {
    MockPage(mock.thoughts, opts, 20)
  }

  /** `getRSSItems` and `getAuthors`: no mock rows, so nothing, counted as 0. */
  function EmptyPage(): (p: Page)
    ensures p.data == [] && p.count == 0 && p.error.None?
  {
    Page([], 0, None)
  }

  /** `subscribeToNewsletter`: no data, and the error says why. */
  function SubscribeToNewsletter(email: string, name: Option<string>): (r: (Option<string>, Option<string>))
    ensures r.0.None? && r.1 == Some("Database not configured")
  {
    (None, Some("Database not configured"))
  }

  // ---------------------------------------------------------------------------
  // Search
  // ---------------------------------------------------------------------------

  datatype ContentType = ArticleType | PolicyType | VideoType

  /** The search test: title or summary contains the query, ignoring case. */
  predicate Hit(e: Entry, query: string) {
    Contains(Lower(e.title), Lower(query)) || Contains(Lower(e.summary), Lower(query))
  }

  function Hits(rows: seq<Entry>, query: string): (r: seq<Entry>)
    ensures forall i :: 0 <= i < |r| ==> Hit(r[i], query)
  {
    Filter(rows, e => Hit(e, query))
  }

  /** What search returns before the limit: article hits, then policy hits, as the types ask. */
  function SearchPool(mock: MockData, query: string, types: seq<ContentType>): seq<Entry> {
    (if ArticleType in types then Hits(mock.articles, query) else [])
    + (if PolicyType in types then Hits(mock.policies, query) else [])
  }

  /**
   * `searchContent` on the mock data: article hits are pushed, then policy
   * hits, and the first `limit` are returned. Videos are never searched.
   */
  method SearchContent(mock: MockData, query: string, types: Option<seq<ContentType>>, limit: Option<int>)
    returns (data: seq<Entry>, error: Option<string>)
    ensures data == Slice(SearchPool(mock, query, types.GetOr([ArticleType, PolicyType, VideoType])), 0, limit.GetOr(20))
    ensures error.None?
  {
    var kinds := types.GetOr([ArticleType, PolicyType, VideoType]);
    var lim := limit.GetOr(20);
    var results: seq<Entry> := [];
    if ArticleType in kinds {
      results := results + Hits(mock.articles, query);
    }
    if PolicyType in kinds {
      results := results + Hits(mock.policies, query);
    }
    data := Slice(results, 0, lim);
    error := None;
  }

  /**
   * Every result is a hit; with a non-negative limit there are at most
   * `limit` of them; and article hits come first.
   */
  lemma SearchPoolOrder(mock: MockData, query: string, types: seq<ContentType>, limit: int)
    requires limit >= 0
    ensures var r := Slice(SearchPool(mock, query, types), 0, limit);
      |r| <= limit && forall i :: 0 <= i < |r| ==> Hit(r[i], query)
    ensures ArticleType in types ==>
      SearchPool(mock, query, types)[..|Hits(mock.articles, query)|] == Hits(mock.articles, query)
  {
    var pool := SearchPool(mock, query, types);
    SliceFromZero(pool, limit);
    var r := Slice(pool, 0, limit);
    forall i | 0 <= i < |r| ensures Hit(r[i], query) {
      assert r[i] == pool[i];
      var a := if ArticleType in types then Hits(mock.articles, query) else [];
      if i < |a| {
        assert pool[i] == a[i];
      } else {
        var b := if PolicyType in types then Hits(mock.policies, query) else [];
        assert pool[i] == b[i - |a|];
      }
    }
  }

  /** Asking for videos changes nothing: the mock search never returns them. */
  lemma SearchIgnoresVideos(mock: MockData, query: string, types: seq<ContentType>)
    ensures SearchPool(mock, query, types + [VideoType]) == SearchPool(mock, query, types)
    ensures SearchPool(mock, query, [VideoType]) == []
  {
    assert ArticleType in types + [VideoType] <==> ArticleType in types;
    assert PolicyType in types + [VideoType] <==> PolicyType in types;
  }
}
