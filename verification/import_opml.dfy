/**
 * The OPML import: the parsed document is checked for an `opml.body`, the
 * nested outlines are flattened into feeds, each feed carrying the name of
 * the folder it sits in, and the feeds and their categories are upserted.
 *
 * The XML parser's output is given twice: as the loose value the structure
 * check looks at, and as the outlines of the first body. The database is a
 * function from the upserted row to the error code it answers with.
 */
module ImportOpml {
  import opened Wrappers
  import opened Text
  import opened Lists
  import Slugs

  // ---------------------------------------------------------------------------
  // Structure check
  // ---------------------------------------------------------------------------

  /** The values a JSON-like parse result holds. */
  datatype Value =
    | Null
    | Bool(b: bool)
    | Number(n: int)
    | Str(s: string)
    | Array(items: seq<Value>)
    | Object(fields: map<string, Value>)

  /** JavaScript truthiness of a present value. */
  predicate Truthy(v: Value) {
    match v
    case Null => false
    case Bool(b) => b
    case Number(n) => n != 0
    case Str(s) => s != []
    case _ => true
  }

  /** `typeof v === 'object'` (which includes `null` and arrays). */
  predicate IsObjectType(v: Value) { v.Null? || v.Array? || v.Object? }

  /** `v.key`: a field of an object, `undefined` (None) otherwise. */
  function Field(v: Value, key: string): (r: Option<Value>)
    ensures r.Some? <==> v.Object? && key in v.fields
  {
    if v.Object? && key in v.fields then Some(v.fields[key]) else None
  }

  /** `!x` for a possibly undefined value. */
  predicate Falsy(x: Option<Value>) { x.None? || !Truthy(x.value) }

  /** `validateOPML`, check by check. */
  function ValidateOpml(data: Value): (ok: bool)
    ensures ok <==>
      data.Object? && "opml" in data.fields
      && data.fields["opml"].Object? && "body" in data.fields["opml"].fields
      && data.fields["opml"].fields["body"].Array?
      && |data.fields["opml"].fields["body"].items| > 0
  {
    if !Truthy(data) || !IsObjectType(data) then false
    else
      var opml := Field(data, "opml");
      if Falsy(opml) || !IsObjectType(opml.value) then false
      else
        var body := Field(opml.value, "body");
        if Falsy(body) || !body.value.Array? then false
        else if |body.value.items| == 0 then false
        else true
  }

  // ---------------------------------------------------------------------------
  // Outlines
  // ---------------------------------------------------------------------------

  /** The attributes of an `<outline>`; an absent attribute is `None`. */
  datatype Attributes = Attributes(
    text: Option<string>,
    title: Option<string>,
    kind: Option<string>,
    xmlUrl: Option<string>,
    htmlUrl: Option<string>)

  /** An outline and the outlines nested in it (none when the element has no children). */
  datatype Outline = Outline(attrs: Attributes, children: seq<Outline>)

  datatype ParsedFeed = ParsedFeed(category: string, name: string, feedUrl: string, siteUrl: string, kind: string)

  /** An outline with a non-empty `xmlUrl` is a feed. */
  predicate IsFeed(o: Outline) { o.attrs.xmlUrl.GetOr("") != [] }

  /** `text || title || fallback` */
  function Label(a: Attributes, fallback: string): (r: string)
    ensures fallback != [] ==> r != []
  {
    OrElse(a.text.GetOr(""), OrElse(a.title.GetOr(""), fallback))
  }

  /** The feed a feed outline becomes under `category`. */
  function FeedOf(o: Outline, category: string): (f: ParsedFeed)
    requires IsFeed(o)
    ensures f.category == category && f.feedUrl == o.attrs.xmlUrl.value
    ensures f.name != [] && f.kind != []
    ensures f.siteUrl == o.attrs.htmlUrl.GetOr("")
  {
    ParsedFeed(category, Label(o.attrs, "Unnamed Feed"), o.attrs.xmlUrl.value,
               o.attrs.htmlUrl.GetOr(""), OrElse(o.attrs.kind.GetOr(""), "rss"))
  }

  /**
   * The feeds under an outline, depth first in document order: a feed
   * outline is one feed and its children are ignored; a folder passes its
   * label (or "Uncategorized") down to its children.
   */
  function Feeds(o: Outline, category: string): seq<ParsedFeed>
    decreases o, 1
  {
    if IsFeed(o) then [FeedOf(o, category)]
    else FeedsAll(o.children, Label(o.attrs, "Uncategorized"))
  }

  function FeedsAll(os: seq<Outline>, category: string): seq<ParsedFeed>
    decreases os, 0
  {
    if os == [] then [] else Feeds(os[0], category) + FeedsAll(os[1..], category)
  }

  lemma {:induction false} FeedsAllConcat(a: seq<Outline>, b: seq<Outline>, category: string)
    ensures FeedsAll(a + b, category) == FeedsAll(a, category) + FeedsAll(b, category)
    decreases |a|
  {
    if a != [] {
      assert (a + b)[1..] == a[1..] + b;
      FeedsAllConcat(a[1..], b, category);
    } else {
      assert a + b == b;
    }
  }

  /**
   * Every feed has a name, a URL and a type, and its category is either the
   * one it inherited or a folder label, never empty when the inherited one
   * is not.
   */
  lemma {:induction false} FeedsWellFormed(o: Outline, category: string)
    requires category != []
    ensures forall f :: f in Feeds(o, category) ==> f.name != [] && f.feedUrl != [] && f.kind != [] && f.category != []
    decreases o, 1
  {
    if !IsFeed(o) {
      FeedsAllWellFormed(o.children, Label(o.attrs, "Uncategorized"));
    }
  }

  lemma {:induction false} FeedsAllWellFormed(os: seq<Outline>, category: string)
    requires category != []
    ensures forall f :: f in FeedsAll(os, category) ==> f.name != [] && f.feedUrl != [] && f.kind != [] && f.category != []
    decreases os, 0
  {
    if os != [] {
      FeedsWellFormed(os[0], category);
      FeedsAllWellFormed(os[1..], category);
    }
  }

  /** Top-level feeds and feeds in a folder without a label are "Uncategorized". */
  lemma TopLevelFeed(o: Outline)
    requires IsFeed(o)
    ensures Feeds(o, "Uncategorized") == [FeedOf(o, "Uncategorized")]
    ensures FeedOf(o, "Uncategorized").category == "Uncategorized"
  {
  }

  /** A folder's feeds carry its label, whatever it inherited itself. */
  lemma FolderLabel(o: Outline, category: string, other: string)
    requires !IsFeed(o)
    ensures Feeds(o, category) == Feeds(o, other)
    ensures Feeds(o, category) == FeedsAll(o.children, Label(o.attrs, "Uncategorized"))
  {
  }

  /** `parseOutline` pushes onto the shared `feeds` list. */
  class Parser {
    var feeds: seq<ParsedFeed>

    constructor()
      ensures feeds == []
    {
      feeds := [];
    }

    method ParseOutline(o: Outline, category: string)
      modifies this
      ensures feeds == old(feeds) + Feeds(o, category)
      decreases o, 1
    {
      if o.attrs.xmlUrl.GetOr("") != [] {
        feeds := feeds + [ParsedFeed(category, Label(o.attrs, "Unnamed Feed"), o.attrs.xmlUrl.value,
                                     o.attrs.htmlUrl.GetOr(""), OrElse(o.attrs.kind.GetOr(""), "rss"))];
      } else if o.children != [] {
        var categoryName := Label(o.attrs, "Uncategorized");
        ParseAll(o.children, categoryName);
      }
    }

    /** `outlines.forEach(o => parseOutline(o, category))` */
    method ParseAll(os: seq<Outline>, category: string)
      modifies this
      ensures feeds == old(feeds) + FeedsAll(os, category)
      decreases os, 0
    {
      for i := 0 to |os|
        invariant feeds == old(feeds) + FeedsAll(os[..i], category)
      {
        ParseOutline(os[i], category);
        FeedsAllConcat(os[..i], [os[i]], category);
        assert os[..i + 1] == os[..i] + [os[i]];
      }
      assert os[..|os|] == os;
    }
  }

  /** What the XML parser produced: an error, or the value and the first body's outlines. */
  datatype XmlParse = XmlError(message: string) | Document(data: Value, topOutlines: Option<seq<Outline>>)

  datatype ParseResult = Rejected(reason: string) | Parsed(feeds: seq<ParsedFeed>)

  /**
   * `parseOPML`: a parser error or a failed structure check rejects;
   * otherwise every top-level outline is parsed under "Uncategorized".
   */
  method ParseOpml(xml: XmlParse) returns (r: ParseResult)
    ensures xml.XmlError? ==> r == Rejected("XML parsing failed: " + xml.message)
    ensures xml.Document? && !ValidateOpml(xml.data) ==> r.Rejected?
    ensures xml.Document? && ValidateOpml(xml.data) ==>
              r == Parsed(FeedsAll(xml.topOutlines.GetOr([]), "Uncategorized"))
  {
    if xml.XmlError? {
      return Rejected("XML parsing failed: " + xml.message);
    }
    if !ValidateOpml(xml.data) {
      return Rejected("Invalid OPML structure: Missing required elements (opml.body)");
    }
    var parser := new Parser();
    if xml.topOutlines.Some? {
      parser.ParseAll(xml.topOutlines.value, "Uncategorized");
    }
    return Parsed(parser.feeds);
  }

  /** Every parsed feed is complete, and sits in a named category. */
  lemma ParsedFeedsWellFormed(top: seq<Outline>)
    ensures forall f :: f in FeedsAll(top, "Uncategorized") ==>
              f.name != [] && f.feedUrl != [] && f.kind != [] && f.category != []
  {
    FeedsAllWellFormed(top, "Uncategorized");
  }

  // ---------------------------------------------------------------------------
  // Import
  // ---------------------------------------------------------------------------

  /** The duplicate-key code the import treats as success. */
  const DuplicateKey := "23505"

  datatype CategoryRow = CategoryRow(name: string, slug: string, description: string)

  datatype Import =
    | NotConfigured
    | CategoryFetchFailed(categories: seq<CategoryRow>)
    | Imported(categories: seq<CategoryRow>, successCount: nat, errorCount: nat)

  function CategoryOf(f: ParsedFeed): string { f.category }

  /** The distinct categories of the feeds, in order of first appearance. */
  function CategoryNames(feeds: seq<ParsedFeed>): (names: seq<string>)
    ensures NoDup(names)
    ensures forall f :: f in feeds ==> f.category in names
    ensures forall n :: n in names ==> exists f :: f in feeds && f.category == n
  {
    var column := seq(|feeds|, i requires 0 <= i < |feeds| => feeds[i].category);
    assert forall i :: 0 <= i < |feeds| ==> column[i] == feeds[i].category;
    var names := Dedup(column);
    assert forall n :: n in names ==> n in column;
    names
  }

  /** The upsert failed with an error other than a duplicate key. */
  predicate Fails(answer: ParsedFeed -> Option<string>, f: ParsedFeed) {
    answer(f).Some? && answer(f).value != DuplicateKey
  }

  function Failing(answer: ParsedFeed -> Option<string>): ParsedFeed -> bool {
    f => Fails(answer, f)
  }

  /** The category loop: one row per name, in order, slugged by `Kebab`. */
  method UpsertCategories(categories: seq<string>) returns (rows: seq<CategoryRow>)
    ensures |rows| == |categories|
    ensures forall i :: 0 <= i < |rows| ==>
              rows[i].name == categories[i] && rows[i].slug == Slugs.Kebab(categories[i]) && Slugs.IsSlug(rows[i].slug)
  {
    rows := [];
    for i := 0 to |categories|
      invariant |rows| == i
      invariant forall k :: 0 <= k < i ==> rows[k].name == categories[k] && rows[k].slug == Slugs.Kebab(categories[k])
    {
      var categoryName := categories[i];
      var slug := Slugs.Kebab(categoryName);
      rows := rows + [CategoryRow(categoryName, slug, "RSS feeds in " + categoryName + " category")];
    }
  }

  /** The feed loop: every upsert is a success or, when refused other than as a duplicate, an error. */
  method UpsertFeeds(feeds: seq<ParsedFeed>, answer: ParsedFeed -> Option<string>) returns (successCount: nat, errorCount: nat)
    ensures successCount + errorCount == |feeds|
    ensures errorCount == Count(feeds, Failing(answer))
  {
    successCount, errorCount := 0, 0;
    for n := 0 to |feeds|
      invariant successCount + errorCount == n
      invariant errorCount == Count(feeds[..n], Failing(answer))
    {
      FilterPrefixStep(feeds, Failing(answer), n);
      var error := answer(feeds[n]);
      if error.Some? && error.value != DuplicateKey {
        errorCount := errorCount + 1;
      } else {
        successCount := successCount + 1;
      }
    }
    assert feeds[..|feeds|] == feeds;
  }

  /**
   * `importFeeds`: one category row per distinct category, with its kebab
   * slug; then one upsert per feed, a duplicate key counting as success.
   */
  method ImportFeeds(feeds: seq<ParsedFeed>, configured: bool, fetchFails: bool,
                     answer: ParsedFeed -> Option<string>)
    returns (r: Import)
    ensures !configured <==> r.NotConfigured?
    ensures configured && fetchFails ==> r.CategoryFetchFailed?
    ensures configured && !fetchFails ==> r.Imported?
    ensures !r.NotConfigured? ==>
              |r.categories| == |CategoryNames(feeds)|
              && forall i :: 0 <= i < |r.categories| ==>
                   r.categories[i].name == CategoryNames(feeds)[i]
                   && r.categories[i].slug == Slugs.Kebab(r.categories[i].name)
                   && Slugs.IsSlug(r.categories[i].slug)
    ensures !r.NotConfigured? ==>
              forall i, j :: 0 <= i < j < |r.categories| ==> r.categories[i].name != r.categories[j].name
    ensures r.Imported? ==>
              r.successCount + r.errorCount == |feeds|
              && r.errorCount == Count(feeds, Failing(answer))
  {
    if !configured {
      return NotConfigured;
    }
    var rows := UpsertCategories(CategoryNames(feeds));
    if fetchFails {
      return CategoryFetchFailed(rows);
    }
    var successCount, errorCount := UpsertFeeds(feeds, answer);
    return Imported(rows, successCount, errorCount);
  }
}
