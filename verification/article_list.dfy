/**
 * The admin article list: the search filter, the sortable columns with
 * their direction toggle, and the counters above the table.
 */
module ArticleList {
  import opened Wrappers
  import opened Text
  import opened Lists

  datatype ArticleStatus = Draft | Scheduled | Published | Archived

  function StatusName(s: ArticleStatus): string {
    match s
    case Draft => "draft"
    case Scheduled => "scheduled"
    case Published => "published"
    case Archived => "archived"
  }

  datatype Article = Article(
    id: string,
    title: string,
    slug: string,
    status: ArticleStatus,
    category: Option<string>,
    importedFrom: Option<string>,
    createdAt: string,
    updatedAt: string)

  datatype SortField = Title | Category | Status | CreatedAt

  datatype Direction = Asc | Desc

  // ---------------------------------------------------------------------------
  // Search
  // ---------------------------------------------------------------------------

  /** Title or category contains the search term, both lower-cased. */
  function Matches(term: string): Article -> bool {
    (a: Article) => ContainsIgnoreCase(a.title, term) || (a.category.Some? && ContainsIgnoreCase(a.category.value, term))
  }

  /** An empty search term keeps every article. */
  lemma EmptyTermMatchesAll(a: Article)
    ensures Matches("")(a)
  {
    ContainsEmpty(Lower(a.title));
  }

  // ---------------------------------------------------------------------------
  // Sorting
  // ---------------------------------------------------------------------------

  /** JavaScript's `<` on strings: lexicographic by character code. */
  predicate Less(a: string, b: string)
    decreases |a|
  {
    if a == [] then b != []
    else if b == [] then false
    else a[0] < b[0] || (a[0] == b[0] && Less(a[1..], b[1..]))
  }

  lemma {:induction false} LessAsymmetric(a: string, b: string)
    ensures !(Less(a, b) && Less(b, a))
    decreases |a|
  {
    if a != [] && b != [] && a[0] == b[0] {
      LessAsymmetric(a[1..], b[1..]);
    }
  }

  lemma {:induction false} LessTotal(a: string, b: string)
    ensures a == b || Less(a, b) || Less(b, a)
    decreases |a|
  {
    if a != [] && b != [] && a[0] == b[0] {
      LessTotal(a[1..], b[1..]);
      if a[1..] == b[1..] {
        assert a == [a[0]] + a[1..] && b == [b[0]] + b[1..];
      }
    }
  }

  /** The sorted column's value, a missing one read as `''`. */
  function SortKey(a: Article, field: SortField): string {
    match field
    case Title => a.title
    case Category => a.category.GetOr("")
    case Status => StatusName(a.status)
    case CreatedAt => a.createdAt
  }

  /** The comparator handed to `sort`. */
  function Compare(x: Article, y: Article, field: SortField, dir: Direction): (c: int)
    ensures c == 0 <==> SortKey(x, field) == SortKey(y, field)
    ensures c < 0 <==> (if dir == Asc then Less(SortKey(x, field), SortKey(y, field)) else Less(SortKey(y, field), SortKey(x, field)))
  {
    var a, b := SortKey(x, field), SortKey(y, field);
    LessAsymmetric(a, b);
    LessTotal(a, b);
    if Less(a, b) then (if dir == Asc then -1 else 1)
    else if Less(b, a) then (if dir == Asc then 1 else -1)
    else 0
  }

  /** The comparator is antisymmetric, so it describes one order. */
  lemma CompareAntisymmetric(x: Article, y: Article, field: SortField, dir: Direction)
    ensures Compare(x, y, field, dir) == -Compare(y, x, field, dir)
  {
    LessAsymmetric(SortKey(x, field), SortKey(y, field));
  }

  /** Every neighbour pair is in comparator order. */
  predicate Sorted(s: seq<Article>, field: SortField, dir: Direction) {
    forall i :: 0 <= i < |s| - 1 ==> Compare(s[i], s[i + 1], field, dir) <= 0
  }

  /** Puts `x` before the first element it does not compare after, so equal keys keep their order. */
  function Insert(x: Article, s: seq<Article>, field: SortField, dir: Direction): (r: seq<Article>)
    requires Sorted(s, field, dir)
    ensures Sorted(r, field, dir)
    ensures multiset(r) == multiset(s) + multiset{x}
    ensures r != [] && (r[0] == x || (s != [] && r[0] == s[0]))
    decreases |s|
  {
    if s == [] || Compare(x, s[0], field, dir) <= 0 then [x] + s
    else
      SortedTail(s, field, dir);
      var rest := Insert(x, s[1..], field, dir);
      CompareAntisymmetric(x, s[0], field, dir);
      SortedCons(s[0], rest, field, dir);
      assert s == [s[0]] + s[1..];
      [s[0]] + rest
  }

  lemma SortedTail(s: seq<Article>, field: SortField, dir: Direction)
    requires s != [] && Sorted(s, field, dir)
    ensures Sorted(s[1..], field, dir)
  {
    forall i | 0 <= i < |s| - 2 ensures Compare(s[1..][i], s[1..][i + 1], field, dir) <= 0 {
      assert s[1..][i] == s[i + 1] && s[1..][i + 1] == s[i + 2];
    }
  }

  lemma SortedCons(x: Article, s: seq<Article>, field: SortField, dir: Direction)
    requires Sorted(s, field, dir) && (s == [] || Compare(x, s[0], field, dir) <= 0)
    ensures Sorted([x] + s, field, dir)
  {
    var r := [x] + s;
    forall i | 0 <= i < |r| - 1 ensures Compare(r[i], r[i + 1], field, dir) <= 0 {
      if i > 0 {
        assert r[i] == s[i - 1] && r[i + 1] == s[i];
      }
    }
  }

  /** `sort` with the page's comparator: a stable insertion sort. */
  function SortArticles(s: seq<Article>, field: SortField, dir: Direction): (r: seq<Article>)
    ensures Sorted(r, field, dir)
    ensures multiset(r) == multiset(s)
    decreases |s|
  {
    if s == [] then []
    else
      assert s == [s[0]] + s[1..];
      Insert(s[0], SortArticles(s[1..], field, dir), field, dir)
  }

  /** What the table shows: the matching articles, sorted. */
  function Visible(articles: seq<Article>, term: string, field: SortField, dir: Direction): seq<Article> {
    SortArticles(Filter(articles, Matches(term)), field, dir)
  }

  /**
   * The table shows exactly the matching articles, each as often as it is
   * loaded, in comparator order.
   */
  lemma VisibleArticles(articles: seq<Article>, term: string, field: SortField, dir: Direction, a: Article)
    ensures a in Visible(articles, term, field, dir) <==> a in articles && Matches(term)(a)
    ensures multiset(Visible(articles, term, field, dir)) == multiset(Filter(articles, Matches(term)))
    ensures Sorted(Visible(articles, term, field, dir), field, dir)
  {
    var kept := Filter(articles, Matches(term));
    FilterMembers(articles, Matches(term), a);
    assert a in Visible(articles, term, field, dir) <==> a in multiset(kept);
  }

  /** Descending order is ascending order turned round: the comparator changes sign. */
  lemma DirectionsOpposite(x: Article, y: Article, field: SortField)
    ensures Compare(x, y, field, Asc) == -Compare(x, y, field, Desc)
  {
    LessAsymmetric(SortKey(x, field), SortKey(y, field));
  }

  // ---------------------------------------------------------------------------
  // Sort toggle
  // ---------------------------------------------------------------------------

  function Flip(dir: Direction): Direction {
    if dir == Asc then Desc else Asc
  }

  /** `handleSort`: the same column flips the direction, another column starts ascending. */
  function NextSort(field: SortField, dir: Direction, clicked: SortField): (r: (SortField, Direction))
    ensures r.0 == clicked
    ensures r.1 == Asc <==> field != clicked || dir == Desc
  {
    if field == clicked then (field, Flip(dir)) else (clicked, Asc)
  }

  /** Clicking the same column twice restores the order. */
  lemma ClickTwice(field: SortField, dir: Direction, clicked: SortField)
    ensures var (f1, d1) := NextSort(field, dir, clicked);
      NextSort(f1, d1, clicked) == (clicked, if field == clicked then dir else Desc)
  {
  }

  // ---------------------------------------------------------------------------
  // Counters
  // ---------------------------------------------------------------------------

  datatype Stats = Stats(total: nat, draft: nat, published: nat, wordpress: nat)

  function IsStatus(s: ArticleStatus): Article -> bool {
    (a: Article) => a.status == s
  }

  function FromWordPress(a: Article): bool {
    a.importedFrom == Some("wordpress")
  }

  /** Two tests no element passes together count at most the whole list. */
  lemma {:induction false} CountDisjoint(s: seq<Article>, f: Article -> bool, g: Article -> bool)
    requires forall a :: !(f(a) && g(a))
    ensures Count(s, f) + Count(s, g) <= |s|
    decreases |s|
  {
    if s != [] {
      CountDisjoint(s[..|s| - 1], f, g);
    }
  }

  function ComputeStats(articles: seq<Article>): (st: Stats)
    ensures st.total == |articles|
    ensures st.draft + st.published <= st.total
    ensures st.wordpress <= st.total
  {
    CountDisjoint(articles, IsStatus(Draft), IsStatus(Published));
    Stats(|articles|, Count(articles, IsStatus(Draft)), Count(articles, IsStatus(Published)),
          Count(articles, FromWordPress))
  }

  // ---------------------------------------------------------------------------
  // The page state
  // ---------------------------------------------------------------------------

  class ArticleListPage {
    var articles: seq<Article>
    var searchTerm: string
    var sortField: SortField
    var sortDirection: Direction

    /** The page opens with no articles, no search, newest first. */
    constructor()
      ensures articles == [] && searchTerm == "" && sortField == CreatedAt && sortDirection == Desc
    {
      articles := [];
      searchTerm := "";
      sortField := CreatedAt;
      sortDirection := Desc;
    }

    method HandleSort(field: SortField)
      modifies this
      ensures (sortField, sortDirection) == NextSort(old(sortField), old(sortDirection), field)
      ensures articles == old(articles) && searchTerm == old(searchTerm)
    {
      if sortField == field {
        sortDirection := if sortDirection == Asc then Desc else Asc;
      } else {
        sortField := field;
        sortDirection := Asc;
      }
    }

    /** `filteredArticles` */
    function FilteredArticles(): (r: seq<Article>)
      reads this
      ensures multiset(r) == multiset(Filter(articles, Matches(searchTerm)))
      ensures Sorted(r, sortField, sortDirection)
    {
      Visible(articles, searchTerm, sortField, sortDirection)
    }

    function PageStats(): (st: Stats)
      reads this
      ensures st.total == |articles| && st.draft + st.published <= st.total
    {
      ComputeStats(articles)
    }
  }
}
