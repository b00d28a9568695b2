/**
 * The link checker: every `href="..."`, `<Link href="...">` and
 * `router.push("...")` in a source file is found with its line number, and
 * internal links that name no known route are reported. The process fails
 * when anything was reported.
 *
 * Walking the directories and reading the files are left to the caller:
 * the model takes each file's path and text.
 */
module ValidateLinks {
  import opened Wrappers
  import Lists
  import opened Text

  // ---------------------------------------------------------------------------
  // Routes
  // ---------------------------------------------------------------------------

  const ValidRoutes: set<string> := {
    "/", "/about", "/contact", "/blog", "/articles", "/policies", "/policy-updates", "/policy-pulse",
    "/videos", "/admin", "/admin/articles/new", "/admin/media", "/admin/studio", "/admin/settings",
    "/admin/quick-posts", "/admin/import/wordpress", "/login", "/auth/callback", "/components"
  }

  /** `href.split('?')[0].split('#')[0]` */
  function UrlPath(href: string): (p: string)
    ensures '?' !in p && '#' !in p
  {
    var beforeQuery := Split(href, '?')[0];
    SplitPiecesFree(href, '?');
    SplitPiecesFree(beforeQuery, '#');
    var p := Split(beforeQuery, '#')[0];
    assert forall i :: 0 <= i < |p| ==> p[i] in beforeQuery by {
      SplitPieceChars(beforeQuery, '#');
    }
    p
  }

  /** The characters of a split piece come from the text. */
  lemma {:induction false} SplitPieceChars(s: string, sep: char)
    ensures forall c :: c in Split(s, sep)[0] ==> c in s
    decreases |s|
  {
    if s != [] && s[0] != sep {
      SplitPieceChars(s[1..], sep);
    }
  }

  /** One path segment: non-empty, without a slash. */
  predicate IsSegment(s: string) { s != [] && '/' !in s }

  /** `/^\/articles\/[^/]+$/` */
  predicate IsArticlePath(p: string) {
    StartsWith(p, "/articles/") && IsSegment(p[10..])
  }

  /** `/^\/admin\/articles\/[^/]+\/edit$/` */
  predicate IsArticleEditPath(p: string) {
    |p| >= 22 && p[..16] == "/admin/articles/" && p[|p| - 5..] == "/edit" && IsSegment(p[16..|p| - 5])
  }

  /** The routes a link may name: the listed paths, and the patterns of the dynamic ones. */
  datatype RouteTable = RouteTable(exact: set<string>, dynamic: seq<string -> bool>)

  /** The application's routes: the listed ones, `/articles/<slug>` and `/admin/articles/<id>/edit`. */
  const Routes: RouteTable := RouteTable(ValidRoutes, [IsArticlePath, IsArticleEditPath])

  /** `isValidRoute`: the path without query and fragment is listed, or some dynamic pattern accepts it. */
  predicate IsValidRoute(routes: RouteTable, href: string) {
    var urlPath := UrlPath(href);
    if urlPath in routes.exact then true
    else exists i :: 0 <= i < |routes.dynamic| && routes.dynamic[i](urlPath)
  }

  /** A query or a fragment never changes the verdict. */
  lemma QueryIgnored(path: string, rest: string, c: char)
    requires '?' !in path && '#' !in path && c in {'?', '#'}
    ensures UrlPath(path + [c] + rest) == path
    ensures forall routes: RouteTable :: IsValidRoute(routes, path + [c] + rest) == IsValidRoute(routes, path)
  {
    SplitNone(path, '#');
    SplitNone(path, '?');
    if c == '?' {
      SplitFirst(path, '?', rest);
    } else {
      PrefixBeforeQuery(path, rest);
      SplitFirst(path, '#', Split(rest, '?')[0]);
    }
  }

  /** A text cut at its first `?` keeps an earlier `#` and what comes before it. */
  lemma PrefixBeforeQuery(path: string, rest: string)
    requires '?' !in path && '#' !in path
    ensures Split(path + "#" + rest, '?')[0] == path + "#" + Split(rest, '?')[0]
  {
    PrefixBeforeSep(path + "#", rest, '?');
  }

  lemma {:induction false} PrefixBeforeSep(x: string, y: string, sep: char)
    requires sep !in x
    ensures Split(x + y, sep)[0] == x + Split(y, sep)[0]
    decreases |x|
  {
    if x != [] {
      assert (x + y)[1..] == x[1..] + y;
      PrefixBeforeSep(x[1..], y, sep);
      assert [x[0]] + (x[1..] + Split(y, sep)[0]) == x + Split(y, sep)[0];
    } else {
      assert x + y == y;
    }
  }

  /** Stripping is idempotent: a stripped path is its own path. */
  lemma UrlPathIdempotent(href: string)
    ensures UrlPath(UrlPath(href)) == UrlPath(href)
  {
    var p := UrlPath(href);
    SplitNone(p, '?');
    SplitNone(p, '#');
  }

  /** A listed route with no query or fragment of its own is valid. */
  lemma ListedValid(routes: RouteTable, route: string)
    requires route in routes.exact && '?' !in route && '#' !in route
    ensures IsValidRoute(routes, route)
  {
    SplitNone(route, '?');
    SplitNone(route, '#');
  }

  /** `/articles/<slug>` names a route for any one-segment slug. */
  lemma ArticleSlugValid(slug: string)
    requires IsSegment(slug) && '?' !in slug && '#' !in slug
    ensures IsValidRoute(Routes, "/articles/" + slug)
  {
    var p := "/articles/" + slug;
    assert '?' !in p && '#' !in p by {
      assert forall i :: 10 <= i < |p| ==> p[i] == slug[i - 10];
    }
    SplitNone(p, '?');
    SplitNone(p, '#');
    assert p[..10] == "/articles/" && p[10..] == slug;
    assert IsArticlePath(p);
    assert Routes.dynamic[0](p);
  }

  // ---------------------------------------------------------------------------
  // Link extraction
  // ---------------------------------------------------------------------------

  /** The three link patterns, tried in this order on every line. */
  datatype Pattern = HrefAttribute | LinkElement | RouterPush

  predicate IsQuote(c: char) { c == '"' || c == '\'' }

  predicate NotQuote(c: char) { !IsQuote(c) }

  /** `lit` occurs in `line` at `p`. */
  predicate LiteralAt(line: string, p: nat, lit: string) {
    p + |lit| <= |line| && line[p..p + |lit|] == lit
  }

  /**
   * `["']([^"']+)["']` with the opening quote at `q`: the captured text and
   * where the match ends. The quotes need not be the same character.
   */
  function QuotedAt(line: string, q: nat): (r: Option<(string, nat)>)
    ensures r.Some? ==> q + 2 < r.value.1 <= |line| && r.value.0 != []
    ensures r.Some? ==> forall c :: c in r.value.0 ==> NotQuote(c)
  {
    if q < |line| && IsQuote(line[q]) then
      var run := LeadingCount(line[q + 1..], NotQuote);
      if run >= 1 && q + 1 + run < |line| then Some((line[q + 1..q + 1 + run], q + 2 + run)) else None
    else None
  }

  /** The match of `pattern` starting exactly at `p`: the captured link and the match's end. */
  function MatchAt(line: string, p: nat, pattern: Pattern): (r: Option<(string, nat)>)
    ensures r.Some? ==> p < r.value.1 <= |line| && r.value.0 != []
  {
    match pattern
    case HrefAttribute =>
      if LiteralAt(line, p, "href=") then QuotedAt(line, p + 5) else None
    case LinkElement =>
      if LiteralAt(line, p, "<Link") then
        var ws := LeadingCount(line[p + 5..], IsJsSpace);
        if ws >= 1 && LiteralAt(line, p + 5 + ws, "href=") then QuotedAt(line, p + 10 + ws) else None
      else None
    case RouterPush =>
      if LiteralAt(line, p, "router.push(") then
        match QuotedAt(line, p + 12)
        case Some((link, end)) => if end < |line| && line[end] == ')' then Some((link, end + 1)) else None
        case None => None
      else None
  }

  /**
   * A global regular expression as `exec` sees it: the match that starts
   * exactly at a position, as its capture and the position after it.
   */
  type Matcher = (string, nat) -> Option<(string, nat)>

  /** Every match is non-empty and inside the line. */
  predicate Advances(m: Matcher, line: string) {
    forall p: nat :: p <= |line| && m(line, p).Some? ==> p < m(line, p).value.1 <= |line|
  }

  /** The matcher of one of the three patterns. */
  function Regex(pattern: Pattern): (m: Matcher)
    ensures forall line :: Advances(m, line)
  {
    (line: string, p: nat) => MatchAt(line, p, pattern)
  }

  /** The patterns of `extractLinks`, in the order they are tried. */
  const LinkPatterns: seq<Matcher> := [Regex(HrefAttribute), Regex(LinkElement), Regex(RouterPush)]

  /** `regex.exec(line)` with `lastIndex = from`: the first match starting at or after `from`. */
  function Exec(line: string, m: Matcher, from: nat): (r: Option<(nat, string, nat)>)
    ensures r.Some? ==> from <= r.value.0 < r.value.2 <= |line|
    decreases |line| + 1 - from
  {
    if from > |line| then None
    else match m(line, from)
      case Some((link, end)) => if from < end <= |line| then Some((from, link, end)) else Exec(line, m, from + 1)
      case None => Exec(line, m, from + 1)
  }

  /** `exec` finds the leftmost match at or after `from`, and nothing when there is none. */
  lemma {:induction false} ExecLeftmost(line: string, m: Matcher, from: nat)
    requires Advances(m, line)
    ensures var r := Exec(line, m, from);
      (r.Some? ==> m(line, r.value.0) == Some((r.value.1, r.value.2))
                   && forall p: nat :: from <= p < r.value.0 ==> m(line, p).None?)
      && (r.None? ==> forall p: nat :: from <= p <= |line| ==> m(line, p).None?)
    decreases |line| + 1 - from
  {
    if from <= |line| && m(line, from).None? {
      ExecLeftmost(line, m, from + 1);
    }
  }

  // ---------------------------------------------------------------------------
  // Reporting
  // ---------------------------------------------------------------------------

  /** An external, mail, fragment-only or empty link is never checked. */
  predicate Skipped(link: string) {
    StartsWith(link, "http://") || StartsWith(link, "https://") || StartsWith(link, "mailto:")
    || StartsWith(link, "#") || link == "" || link == "#"
  }

  /** A link worth a report: checked, and naming no route. */
  predicate Broken(routes: RouteTable, link: string) { !Skipped(link) && !IsValidRoute(routes, link) }

  datatype LinkIssue = LinkIssue(file: string, line: nat, link: string, kind: string, message: string)

  /** What one found link adds to the report: an issue on the 1-based line when it is broken. */
  function Reported(routes: RouteTable, file: string, idx: nat, link: string): seq<LinkIssue> {
    if Broken(routes, link) then [LinkIssue(file, idx + 1, link, "broken", "Route does not exist")] else []
  }

  /** Every issue names the file, the 1-based line, and a broken link. */
  predicate ReportsOnLine(routes: RouteTable, issues: seq<LinkIssue>, file: string, idx: nat) {
    forall k :: 0 <= k < |issues| ==>
      issues[k].file == file && issues[k].line == idx + 1 && issues[k].kind == "broken"
      && Broken(routes, issues[k].link)
  }

  /** The issues one pattern finds on line `idx` from position `from` on, in match order. */
  function PatternIssues(routes: RouteTable, line: string, idx: nat, file: string, m: Matcher, from: nat)
    : seq<LinkIssue>
    decreases |line| + 1 - from
  {
    match Exec(line, m, from)
    case None => []
    case Some((_, link, end)) =>
      Reported(routes, file, idx, link) + PatternIssues(routes, line, idx, file, m, end)
  }

  lemma PatternIssuesStep(routes: RouteTable, line: string, idx: nat, file: string, m: Matcher, from: nat)
    requires Exec(line, m, from).Some?
    ensures var r := Exec(line, m, from);
      PatternIssues(routes, line, idx, file, m, from)
      == Reported(routes, file, idx, r.value.1) + PatternIssues(routes, line, idx, file, m, r.value.2)
  {
  }

  /** Every issue a pattern reports is a broken link on that line. */
  lemma {:induction false} PatternIssuesOnLine(routes: RouteTable, line: string, idx: nat, file: string, m: Matcher, from: nat)
    ensures ReportsOnLine(routes, PatternIssues(routes, line, idx, file, m, from), file, idx)
    decreases |line| + 1 - from
  {
    match Exec(line, m, from)
    case None =>
    case Some((_, link, end)) =>
      PatternIssuesOnLine(routes, line, idx, file, m, end);
  }

  /** The issues of every pattern in `patterns` on one line, pattern by pattern. */
  function LineIssues(routes: RouteTable, line: string, idx: nat, file: string, patterns: seq<Matcher>)
    : seq<LinkIssue>
    decreases |patterns|
  {
    if patterns == [] then []
    else LineIssues(routes, line, idx, file, patterns[..|patterns| - 1])
         + PatternIssues(routes, line, idx, file, patterns[|patterns| - 1], 0)
  }

  /** The issues of one more pattern follow those of the patterns before it. */
  lemma LineIssuesStep(routes: RouteTable, line: string, idx: nat, file: string, patterns: seq<Matcher>, i: nat)
    requires i < |patterns|
    ensures LineIssues(routes, line, idx, file, patterns[..i + 1])
         == LineIssues(routes, line, idx, file, patterns[..i]) + PatternIssues(routes, line, idx, file, patterns[i], 0)
  {
    assert patterns[..i + 1][..i] == patterns[..i];
  }

  lemma {:induction false} LineIssuesOnLine(routes: RouteTable, line: string, idx: nat, file: string, patterns: seq<Matcher>)
    ensures ReportsOnLine(routes, LineIssues(routes, line, idx, file, patterns), file, idx)
    decreases |patterns|
  {
    if patterns != [] {
      LineIssuesOnLine(routes, line, idx, file, patterns[..|patterns| - 1]);
      PatternIssuesOnLine(routes, line, idx, file, patterns[|patterns| - 1], 0);
    }
  }

  /** The issues of lines `idx..` of a file. */
  function FileIssues(routes: RouteTable, lines: seq<string>, idx: nat, file: string, patterns: seq<Matcher>)
    : seq<LinkIssue>
    decreases |lines| - idx
  {
    if idx >= |lines| then []
    else LineIssues(routes, lines[idx], idx, file, patterns) + FileIssues(routes, lines, idx + 1, file, patterns)
  }

  lemma FileIssuesStep(routes: RouteTable, lines: seq<string>, idx: nat, file: string, patterns: seq<Matcher>)
    requires idx < |lines|
    ensures FileIssues(routes, lines, idx, file, patterns)
            == LineIssues(routes, lines[idx], idx, file, patterns) + FileIssues(routes, lines, idx + 1, file, patterns)
  {
  }

  /** Every issue of a file is a broken link of that file, on a line number from `idx + 1` to the line count. */
  lemma {:induction false} FileIssuesLines(routes: RouteTable, lines: seq<string>, idx: nat, file: string, patterns: seq<Matcher>)
    ensures forall issue <- FileIssues(routes, lines, idx, file, patterns) ::
      issue.file == file && idx + 1 <= issue.line <= |lines| && issue.kind == "broken" && Broken(routes, issue.link)
    decreases |lines| - idx
  {
    if idx < |lines| {
      var a: seq<LinkIssue> := LineIssues(routes, lines[idx], idx, file, patterns);
      var b: seq<LinkIssue> := FileIssues(routes, lines, idx + 1, file, patterns);
      LineIssuesOnLine(routes, lines[idx], idx, file, patterns);
      FileIssuesLines(routes, lines, idx + 1, file, patterns);
      forall issue <- a + b
        ensures issue.file == file && idx + 1 <= issue.line <= |lines| && issue.kind == "broken" && Broken(routes, issue.link)
      {
        if issue in a {
          var k :| 0 <= k < |a| && a[k] == issue;
        }
      }
    }
  }

  /**
   * The link checker: the route table and the patterns it checks against,
   * and the issues reported so far, across every file scanned.
   */
  class LinkChecker {
    const routes: RouteTable
    const patterns: seq<Matcher>
    var issues: seq<LinkIssue>

    constructor()
      ensures routes == Routes && patterns == LinkPatterns && issues == []
    {
      routes := Routes;
      patterns := LinkPatterns;
      issues := [];
    }

    /** The checks on one captured link: skipped links pass, invalid routes are reported. */
    method CheckLink(href: string, idx: nat, file: string)
      modifies this
      ensures issues == old(issues) + Reported(routes, file, idx, href)
    {
      if StartsWith(href, "http://") || StartsWith(href, "https://") {
        return;
      }
      if StartsWith(href, "mailto:") {
        return;
      }
      if StartsWith(href, "#") {
        return;
      }
      if href == "" || href == "#" {
        return;
      }
      if !IsValidRoute(routes, href) {
        issues := issues + [LinkIssue(file, idx + 1, href, "broken", "Route does not exist")];
      }
    }

    /** The `regex.exec` loop for one pattern on one line. */
    method ScanPattern(line: string, idx: nat, file: string, regex: Matcher)
      modifies this
      ensures issues == old(issues) + PatternIssues(routes, line, idx, file, regex, 0)
    {
      var lastIndex := 0;
      var match_ := Exec(line, regex, lastIndex);
      while match_.Some?
        invariant match_ == Exec(line, regex, lastIndex)
        invariant lastIndex <= |line|
        invariant old(issues) + PatternIssues(routes, line, idx, file, regex, 0)
                  == issues + PatternIssues(routes, line, idx, file, regex, lastIndex)
        decreases |line| + 1 - lastIndex
      {
        var href := match_.value.1;
        ghost var before := issues;
        ghost var rest := PatternIssues(routes, line, idx, file, regex, match_.value.2);
        PatternIssuesStep(routes, line, idx, file, regex, lastIndex);
        CheckLink(href, idx, file);
        Lists.AppendAssoc(before, Reported(routes, file, idx, href), rest);
        lastIndex := match_.value.2;
        match_ := Exec(line, regex, lastIndex);
      }
    }

    /** Every pattern on one line, in order. */
    method ScanLine(line: string, idx: nat, file: string)
      modifies this
      ensures issues == old(issues) + LineIssues(routes, line, idx, file, patterns)
    {
      for i := 0 to |patterns|
        invariant issues == old(issues) + LineIssues(routes, line, idx, file, patterns[..i])
      {
        LineIssuesStep(routes, line, idx, file, patterns, i);
        ScanPattern(line, idx, file, patterns[i]);
        Lists.AppendAssoc(old(issues), LineIssues(routes, line, idx, file, patterns[..i]),
                          PatternIssues(routes, line, idx, file, patterns[i], 0));
      }
      assert patterns[..|patterns|] == patterns;
    }

    /** `extractLinks`: every pattern on every line, line by line. */
    method ExtractLinks(content: string, filePath: string)
      modifies this
      ensures issues == old(issues) + FileIssues(routes, Split(content, '\n'), 0, filePath, patterns)
    {
      var lines := Split(content, '\n');
      for idx := 0 to |lines|
        invariant old(issues) + FileIssues(routes, lines, 0, filePath, patterns)
                  == issues + FileIssues(routes, lines, idx, filePath, patterns)
      {
        ghost var before := issues;
        FileIssuesStep(routes, lines, idx, filePath, patterns);
        ScanLine(lines[idx], idx, filePath);
        Lists.AppendAssoc(before, LineIssues(routes, lines[idx], idx, filePath, patterns),
                          FileIssues(routes, lines, idx + 1, filePath, patterns));
      }
    }
  }

  /** The exit status: failure exactly when something was reported. */
  function ExitCode(issues: seq<LinkIssue>): (code: int)
    ensures code == 1 <==> |issues| > 0
    ensures code == 0 <==> issues == []
  {
    if |issues| > 0 then 1 else 0
  }

  /** A link inside `<Link href="...">` is matched by the plain `href=` pattern as well, at the same text. */
  lemma LinkElementAlsoHref(line: string, p: nat)
    requires MatchAt(line, p, LinkElement).Some?
    ensures exists q :: p < q && MatchAt(line, q, HrefAttribute) == MatchAt(line, p, LinkElement)
  {
    var ws := LeadingCount(line[p + 5..], IsJsSpace);
    assert MatchAt(line, p + 5 + ws, HrefAttribute) == MatchAt(line, p, LinkElement);
  }
}
