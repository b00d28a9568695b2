/**
 * The WordPress export migration: posts are picked out of the parsed export,
 * each gets a slug nobody in the `articles` table has, a category from the
 * new taxonomy and a draft row, and the run counts what went in and what
 * failed.
 *
 * The parsed XML, the HTML-to-Markdown converter and the database are
 * inputs: the export as `Export` records, the converter as a function, the
 * table as the set of slugs it holds and a predicate saying which inserts it
 * rejects.
 */
module MigrateWordPress {
  import opened Wrappers
  import opened Text
  import opened Lists
  import opened Slugs

  /** A `<category>` entry of an item: its `domain` attribute and its text. */
  datatype ExportCategory = ExportCategory(domain: Option<string>, value: string)

  /** One `<item>` of the export; an absent element is `None`. */
  datatype ExportItem = ExportItem(
    postType: Option<string>,
    title: Option<string>,
    postName: Option<string>,
    content: Option<string>,
    excerpt: Option<string>,
    categories: seq<ExportCategory>)

  datatype WordPressPost = WordPressPost(title: string, slug: string, content: string, excerpt: string, categories: seq<string>)

  /** Pages, attachments and the rest are skipped. */
  predicate IsPost(item: ExportItem) { item.postType == Some("post") }

  predicate IsCategoryEntry(cat: ExportCategory) { cat.domain == Some("category") }

  /** The texts of the `domain="category"` entries, in order (tags and other domains dropped). */
  function CategoryValues(cats: seq<ExportCategory>): (r: seq<string>)
    ensures |r| == |Filter(cats, IsCategoryEntry)|
    ensures forall i :: 0 <= i < |r| ==> r[i] == Filter(cats, IsCategoryEntry)[i].value
    decreases |cats|
  {
    if cats == [] then []
    else
      var kept := CategoryValues(cats[..|cats| - 1]);
      if IsCategoryEntry(cats[|cats| - 1]) then kept + [cats[|cats| - 1].value] else kept
  }

  /** The post an item becomes: missing title "Untitled", slug from `post_name` or else from the title. */
  function PostOf(item: ExportItem, toMarkdown: string -> string): (p: WordPressPost)
    ensures p.title != []
    ensures item.title.GetOr("") != [] ==> p.title == item.title.value
    ensures item.postName.GetOr("") != [] ==> p.slug == item.postName.value
    ensures item.postName.GetOr("") == [] ==> p.slug == Slugify(p.title) && IsSlug(p.slug)
    ensures item.title.GetOr("") == [] ==> p.title == "Untitled"
    ensures p.excerpt == item.excerpt.GetOr("")
    ensures p.content == toMarkdown(item.content.GetOr(""))
    ensures p.categories == CategoryValues(item.categories)
  {
    var title := OrElse(item.title.GetOr(""), "Untitled");
    var name := item.postName.GetOr("");
    WordPressPost(
      title,
      OrElse(name, Slugify(title)),
      toMarkdown(item.content.GetOr("")),
      item.excerpt.GetOr(""),
      CategoryValues(item.categories))
  }

  /** The category loop of `extractPosts`. */
  method CollectCategories(cats: seq<ExportCategory>) returns (categories: seq<string>)
    ensures categories == CategoryValues(cats)
  {
    categories := [];
    for j := 0 to |cats|
      invariant categories == CategoryValues(cats[..j])
    {
      assert cats[..j + 1][..j] == cats[..j];
      var cat := cats[j];
      if cat.domain == Some("category") {
        categories := categories + [cat.value];
      }
    }
    assert cats[..|cats|] == cats;
  }

  /** The body of the `extractPosts` loop for an item of type `post`. */
  method ExtractPost(item: ExportItem, toMarkdown: string -> string) returns (post: WordPressPost)
    ensures post == PostOf(item, toMarkdown)
  {
    var title := OrElse(item.title.GetOr(""), "Untitled");
    var name := item.postName.GetOr("");
    var slug := OrElse(name, Slugify(title));
    var categories := CollectCategories(item.categories);
    post := WordPressPost(title, slug, toMarkdown(item.content.GetOr("")), item.excerpt.GetOr(""), categories);
  }

  /**
   * `extractPosts`: one post per item whose type is `post`, in document
   * order.
   */
  method ExtractPosts(items: seq<ExportItem>, toMarkdown: string -> string) returns (posts: seq<WordPressPost>)
    ensures |posts| == |Filter(items, IsPost)|
    ensures forall i :: 0 <= i < |posts| ==> posts[i] == PostOf(Filter(items, IsPost)[i], toMarkdown)
  {
    posts := [];
    for n := 0 to |items|
      invariant PostsOf(posts, Filter(items[..n], IsPost), toMarkdown)
    {
      FilterPrefixStep(items, IsPost, n);
      var item := items[n];
      if item.postType != Some("post") {
        continue;
      }
      var post := ExtractPost(item, toMarkdown);
      PostsOfSnoc(posts, Filter(items[..n], IsPost), item, toMarkdown);
      posts := posts + [post];
    }
    assert items[..|items|] == items;
  }

  /** `posts` are the converted `kept` items, one for one. */
  ghost predicate PostsOf(posts: seq<WordPressPost>, kept: seq<ExportItem>, toMarkdown: string -> string) {
    |posts| == |kept| && forall i :: 0 <= i < |posts| ==> posts[i] == PostOf(kept[i], toMarkdown)
  }

  lemma PostsOfSnoc(posts: seq<WordPressPost>, kept: seq<ExportItem>, item: ExportItem, toMarkdown: string -> string)
    requires PostsOf(posts, kept, toMarkdown)
    ensures PostsOf(posts + [PostOf(item, toMarkdown)], kept + [item], toMarkdown)
  {
  }

  /** Every extracted slug is the item's own `post_name` or a well-formed slug. */
  lemma ExtractedSlugs(items: seq<ExportItem>, toMarkdown: string -> string, i: nat)
    requires i < |Filter(items, IsPost)|
    ensures var item := Filter(items, IsPost)[i];
      var p := PostOf(item, toMarkdown);
      IsPost(item) && (p.slug == item.postName.GetOr("") != [] || IsSlug(p.slug))
  {
  }

  // ---------------------------------------------------------------------------
  // Unique slugs
  // ---------------------------------------------------------------------------

  /** The `k`-th slug tried for `base`: the base itself, then `base-1`, `base-2`, ... */
  function Attempt(base: string, k: nat): (s: string)
    ensures k == 0 ==> s == base
    ensures k > 0 ==> |s| > |base| + 1 && s[..|base| + 1] == base + "-"
  {
    if k == 0 then base else base + "-" + NatToString(k)
  }

  /** Different attempts never produce the same slug. */
  lemma AttemptsDiffer(base: string, i: nat, j: nat)
    requires i != j
    ensures Attempt(base, i) != Attempt(base, j)
  {
    if i > 0 && j > 0 && Attempt(base, i) == Attempt(base, j) {
      assert NatToString(i) == Attempt(base, i)[|base| + 1..];
      assert NatToString(j) == Attempt(base, j)[|base| + 1..];
      NatToStringInjective(i, j);
    }
  }

  /** The slugs tried before attempt `n`. */
  ghost function Tried(base: string, n: nat): set<string> {
    if n == 0 then {} else Tried(base, n - 1) + {Attempt(base, n - 1)}
  }

  lemma {:induction false} TriedBefore(base: string, n: nat, m: nat)
    requires n <= m
    ensures Attempt(base, m) !in Tried(base, n)
  {
    if n > 0 {
      AttemptsDiffer(base, n - 1, m);
      TriedBefore(base, n - 1, m);
    }
  }

  lemma {:induction false} TriedSize(base: string, n: nat)
    ensures |Tried(base, n)| == n
  {
    if n > 0 {
      TriedSize(base, n - 1);
      TriedBefore(base, n - 1, n - 1);
    }
  }

  lemma {:induction false} SubsetSize(a: set<string>, b: set<string>)
    requires a <= b
    ensures |a| <= |b|
    decreases |a|
  {
    if a != {} {
      var x :| x in a;
      SubsetSize(a - {x}, b - {x});
    }
  }

  /**
   * What the `.single()` lookup of a slug reports: a row when the table
   * holds the slug and the lookup goes through; `lookupFails` says for which
   * slugs it comes back with an error instead, which the source reads as
   * "available" just like the missing row.
   */
  predicate LooksFree(taken: set<string>, lookupFails: string -> bool, slug: string) {
    slug !in taken || lookupFails(slug)
  }

  /**
   * `ensureUniqueSlug`: the base slug when the lookup does not find it,
   * otherwise `base-k` for the smallest `k >= 1` the lookup does not find.
   * The table is finite, so the search ends. A slug is free unless its
   * lookup failed.
   */
  method EnsureUniqueSlug(taken: set<string>, lookupFails: string -> bool, base: string) returns (slug: string)
    ensures slug !in taken || lookupFails(slug)
    ensures LooksFree(taken, lookupFails, base) ==> slug == base
    ensures exists k: nat :: slug == Attempt(base, k)
              && forall i: nat :: i < k ==> Attempt(base, i) in taken && !lookupFails(Attempt(base, i))
  {
    slug := base;
    var counter: nat := 1;
    while !LooksFree(taken, lookupFails, slug)
      invariant slug == Attempt(base, counter - 1)
      invariant Tried(base, counter - 1) <= taken
      invariant forall i: nat :: i < counter - 1 ==> Attempt(base, i) in taken && !lookupFails(Attempt(base, i))
      decreases |taken| - (counter - 1)
    {
      TriedSize(base, counter);
      SubsetSize(Tried(base, counter), taken);
      slug := base + "-" + NatToString(counter);
      counter := counter + 1;
    }
  }

  // ---------------------------------------------------------------------------
  // Categories and rows
  // ---------------------------------------------------------------------------

  /** `mapCategory`: the first category, except that none or "uncategorized" (in any case) becomes "Imported". */
  function MapCategory(categories: seq<string>): (r: string)
    ensures categories == [] ==> r == "Imported"
    ensures categories != [] && Lower(categories[0]) != "uncategorized" ==> r == categories[0]
    ensures r == "Imported" || (categories != [] && r == categories[0])
    ensures Lower(r) != "uncategorized"
  {
    assert Lower("Imported") == "imported";
    if |categories| == 0 then "Imported"
    else
      var category := categories[0];
      if Lower(category) == "uncategorized" then "Imported" else category
  }

  /** Mapping a mapped category again changes nothing. */
  lemma MapCategoryIdempotent(categories: seq<string>)
    ensures MapCategory([MapCategory(categories)]) == MapCategory(categories)
  {
  }

  /** The row inserted for a post. */
  datatype ArticleRow = ArticleRow(title: string, slug: string, content: string, excerpt: string, status: string, category: string)

  /** A draft with the unique slug, and the excerpt or else the first 160 characters of the content. */
  function RowFor(post: WordPressPost, slug: string): (row: ArticleRow)
    ensures row.status == "draft" && row.slug == slug && row.title == post.title && row.content == post.content
    ensures post.excerpt != [] ==> row.excerpt == post.excerpt
    ensures post.excerpt == [] ==> row.excerpt == post.content[..Min(160, |post.content|)]
    ensures row.category == MapCategory(post.categories)
  {
    ArticleRow(post.title, slug, post.content, OrElse(post.excerpt, Slice(post.content, 0, 160)), "draft", MapCategory(post.categories))
  }

  /** The excerpt of a row is never longer than 160 characters unless the post brought its own. */
  lemma RowExcerptBound(post: WordPressPost, slug: string)
    ensures post.excerpt == [] ==> |RowFor(post, slug).excerpt| <= 160
    ensures StartsWith(post.content, RowFor(post, slug).excerpt) || RowFor(post, slug).excerpt == post.excerpt
  {
  }

  datatype Migration = Migration(successCount: nat, errorCount: nat, inserted: seq<ArticleRow>)

  predicate DistinctSlugs(rows: seq<ArticleRow>) {
    forall i, j :: 0 <= i < j < |rows| ==> rows[i].slug != rows[j].slug
  }

  /** Each row's slug differs from every earlier row's, unless the lookup of that slug failed. */
  predicate DistinctUnlessFailed(rows: seq<ArticleRow>, lookupFails: string -> bool) {
    forall i, j :: 0 <= i < j < |rows| ==> rows[i].slug != rows[j].slug || lookupFails(rows[j].slug)
  }

  /**
   * The rows inserted so far: slugs distinct and not in the table before
   * the run unless their lookup failed, all taken now, none rejected, each a
   * post under its slug.
   */
  ghost predicate InsertedRows(inserted: seq<ArticleRow>, taken: set<string>, existing: set<string>,
                               lookupFails: string -> bool, posts: seq<WordPressPost>, rejects: ArticleRow -> bool) {
    DistinctUnlessFailed(inserted, lookupFails)
    && (forall row :: row in inserted ==> row.slug in taken)
    && (forall row :: row in inserted ==>
          (row.slug !in existing || lookupFails(row.slug)) && !rejects(row)
          && exists p :: p in posts && row == RowFor(p, row.slug))
  }

  /** Inserting post `n` under a slug whose lookup found nothing keeps the rows well formed. */
  lemma InsertedSnoc(inserted: seq<ArticleRow>, taken: set<string>, existing: set<string>, lookupFails: string -> bool,
                     posts: seq<WordPressPost>, rejects: ArticleRow -> bool, n: nat, slug: string)
    requires InsertedRows(inserted, taken, existing, lookupFails, posts, rejects)
    requires existing <= taken && LooksFree(taken, lookupFails, slug) && n < |posts| && !rejects(RowFor(posts[n], slug))
    ensures InsertedRows(inserted + [RowFor(posts[n], slug)], taken + {slug}, existing, lookupFails, posts, rejects)
  {
    var row := RowFor(posts[n], slug);
    assert row == RowFor(posts[n], row.slug);
    var all := inserted + [row];
    forall i, j | 0 <= i < j < |all| ensures all[i].slug != all[j].slug || lookupFails(all[j].slug) {
      if j == |inserted| {
        assert all[i] in inserted;
      }
    }
  }

  /** When no lookup fails, the inserted slugs are distinct and none was in the table before the run. */
  lemma InsertedWithoutFailures(inserted: seq<ArticleRow>, taken: set<string>, existing: set<string>,
                                lookupFails: string -> bool, posts: seq<WordPressPost>, rejects: ArticleRow -> bool)
    requires InsertedRows(inserted, taken, existing, lookupFails, posts, rejects)
    requires forall i :: 0 <= i < |inserted| ==> !lookupFails(inserted[i].slug)
    ensures DistinctSlugs(inserted)
    ensures forall row :: row in inserted ==> row.slug !in existing
  {
    forall row | row in inserted ensures row.slug !in existing {
      var i :| 0 <= i < |inserted| && inserted[i] == row;
    }
  }

  /**
   * `migratePosts`: without credentials it fails before doing anything; in a
   * dry run every post counts as a success; otherwise each post gets a slug
   * its lookup reports free at that moment and is inserted as a draft, and
   * the table rejecting the row counts as an error. Successful inserts take
   * their slug.
   */
  method MigratePosts(posts: seq<WordPressPost>, dryRun: bool, configured: bool,
                      existing: set<string>, lookupFails: string -> bool, rejects: ArticleRow -> bool)
    returns (r: Option<Migration>)
    ensures r.None? <==> !configured
    ensures r.Some? ==> r.value.successCount + r.value.errorCount == |posts|
    ensures r.Some? && dryRun ==> r.value.successCount == |posts| && r.value.inserted == []
    ensures r.Some? && !dryRun ==> |r.value.inserted| == r.value.successCount
    ensures r.Some? ==> DistinctUnlessFailed(r.value.inserted, lookupFails)
    ensures r.Some? ==> forall row :: row in r.value.inserted ==>
              (row.slug !in existing || lookupFails(row.slug)) && !rejects(row)
              && exists p :: p in posts && row == RowFor(p, row.slug)
    ensures r.Some? && (forall i :: 0 <= i < |r.value.inserted| ==> !lookupFails(r.value.inserted[i].slug)) ==>
              DistinctSlugs(r.value.inserted) && forall row :: row in r.value.inserted ==> row.slug !in existing
  {
    if !configured {
      return None;
    }
    var successCount: nat := 0;
    var errorCount: nat := 0;
    var inserted: seq<ArticleRow> := [];
    var taken := existing;
    for n := 0 to |posts|
      invariant successCount + errorCount == n
      invariant dryRun ==> successCount == n && inserted == []
      invariant !dryRun ==> |inserted| == successCount
      invariant existing <= taken
      invariant InsertedRows(inserted, taken, existing, lookupFails, posts, rejects)
    {
      var post := posts[n];
      if dryRun {
        successCount := successCount + 1;
        continue;
      }
      var uniqueSlug := EnsureUniqueSlug(taken, lookupFails, post.slug);
      var row := RowFor(post, uniqueSlug);
      if rejects(row) {
        errorCount := errorCount + 1;
      } else {
        InsertedSnoc(inserted, taken, existing, lookupFails, posts, rejects, n, uniqueSlug);
        inserted := inserted + [row];
        taken := taken + {uniqueSlug};
        successCount := successCount + 1;
      }
    }
    if forall i :: 0 <= i < |inserted| ==> !lookupFails(inserted[i].slug) {
      InsertedWithoutFailures(inserted, taken, existing, lookupFails, posts, rejects);
    }
    return Some(Migration(successCount, errorCount, inserted));
  }
}
