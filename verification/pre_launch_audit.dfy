/**
 * The pre-launch audit: rules that turn source lines into findings of a
 * given severity, the internal-link audit, the site-naming check, and the
 * report whose severity tally decides whether the site is ready to launch.
 *
 * Reading files and walking directories are left to the caller: an audit
 * is given the files as path and text.
 */
module PreLaunchAudit {
  import opened Wrappers
  import opened Text
  import opened Lists
  import ValidateLinks

  datatype Severity = Critical | High | Medium | Low | Info

  datatype AuditIssue = AuditIssue(
    category: string,
    severity: Severity,
    title: string,
    description: string,
    file: Option<string>,
    line: Option<nat>,
    recommendation: string)

  /** A scanned source file: its full path and its text. */
  datatype SourceFile = SourceFile(path: string, content: string)

  /** `file.replace(root, '')`: the path as the report shows it. */
  function Shown(root: string, path: string): string {
    if root == "" then path else ReplaceFirst(path, root, "")
  }

  // ---------------------------------------------------------------------------
  // Report
  // ---------------------------------------------------------------------------

  /** The test `i.severity === s` of the tally's filters. */
  function Of(s: Severity): AuditIssue -> bool {
    (i: AuditIssue) => i.severity == s
  }

  datatype Stats = Stats(critical: nat, high: nat, medium: nat, low: nat, info: nat)

  datatype Report = Report(issues: seq<AuditIssue>, stats: Stats, passed: seq<string>, launchReady: bool)

  /** The five severity counts of a list of issues. */
  function Tally(issues: seq<AuditIssue>): Stats {
    Stats(Count(issues, Of(Critical)), Count(issues, Of(High)), Count(issues, Of(Medium)),
          Count(issues, Of(Low)), Count(issues, Of(Info)))
  }

  function Total(s: Stats): nat {
    s.critical + s.high + s.medium + s.low + s.info
  }

  /** Every issue has one of the five severities, so the counts add up to the number of issues. */
  lemma {:induction false} TallySum(issues: seq<AuditIssue>)
    ensures Total(Tally(issues)) == |issues|
    decreases |issues|
  {
    if issues != [] {
      TallySum(issues[..|issues| - 1]);
    }
  }

  /** `generateReport` (the timestamp left out): launch ready with no critical and fewer than three high issues. */
  function GenerateReport(issues: seq<AuditIssue>, passed: seq<string>): (r: Report)
    ensures r.issues == issues && r.passed == passed
    ensures Total(r.stats) == |issues|
  {
    TallySum(issues);
    var stats := Tally(issues);
    Report(issues, stats, passed, stats.critical == 0 && stats.high < 3)
  }

  /** No issue passes the test exactly when the count is zero. */
  lemma CountZero(issues: seq<AuditIssue>, s: Severity)
    ensures Count(issues, Of(s)) == 0 <==> forall i <- issues :: i.severity != s
  {
    forall i | i in issues {
      FilterMembers(issues, Of(s), i);
    }
    if Count(issues, Of(s)) != 0 {
      FilterMembers(issues, Of(s), Filter(issues, Of(s))[0]);
    }
  }

  /** The launch decision in terms of the issues themselves. */
  lemma LaunchReadyRule(issues: seq<AuditIssue>, passed: seq<string>)
    ensures GenerateReport(issues, passed).launchReady
            <==> (forall i <- issues :: i.severity != Critical) && Count(issues, Of(High)) < 3
  {
    CountZero(issues, Critical);
  }

  /** Issues of medium, low or info severity never change the launch decision. */
  lemma {:induction false} MinorIssuesNeverBlock(issues: seq<AuditIssue>, more: seq<AuditIssue>, passed: seq<string>)
    requires forall i <- more :: i.severity in {Medium, Low, Info}
    ensures GenerateReport(issues + more, passed).launchReady == GenerateReport(issues, passed).launchReady
  {
    FilterConcat(issues, more, Of(Critical));
    FilterConcat(issues, more, Of(High));
    CountZero(more, Critical);
    CountZero(more, High);
  }

  /** `process.exit(report.launchReady ? 0 : 1)` */
  function ExitCode(report: Report): (code: int)
    ensures code == 0 <==> report.launchReady
    ensures code == 1 <==> !report.launchReady
  {
    if report.launchReady then 0 else 1
  }

  // ---------------------------------------------------------------------------
  // Code structure: the line rules
  // ---------------------------------------------------------------------------

  /** `//`, then any white space, then `tag` in any letter case, starting at `p`. */
  predicate MarkerAt(line: string, p: nat, tag: string) {
    p + 2 <= |line| && line[p..p + 2] == "//" &&
    var q := p + 2 + LeadingCount(line[p + 2..], IsJsSpace);
    q + |tag| <= |line| && Lower(line[q..q + |tag|]) == Lower(tag)
  }

  /** A marker starts at `p` or later. */
  predicate MarkerFrom(line: string, tag: string, p: nat)
    decreases |line| - p
  {
    p < |line| && (MarkerAt(line, p, tag) || MarkerFrom(line, tag, p + 1))
  }

  /** `/\/\/\s*TAG/i.test(line)` */
  predicate HasMarker(line: string, tag: string) {
    MarkerFrom(line, tag, 0)
  }

  /** The search finds a marker exactly when one starts somewhere in the line. */
  lemma {:induction false} MarkerSearch(line: string, tag: string, p: nat)
    ensures MarkerFrom(line, tag, p) <==> exists q: nat :: p <= q < |line| && MarkerAt(line, q, tag)
    decreases |line| - p
  {
    if p < |line| {
      MarkerSearch(line, tag, p + 1);
      if MarkerAt(line, p, tag) {
        assert p <= p < |line| && MarkerAt(line, p, tag);
      }
      if q: nat :| p <= q < |line| && MarkerAt(line, q, tag) {
        if q != p {
          assert p + 1 <= q < |line| && MarkerAt(line, q, tag);
        }
      }
    }
  }

  /** `/console\.(log|debug|info)/.test(line)` */
  predicate HasConsoleCall(line: string) {
    Contains(line, "console.log") || Contains(line, "console.debug") || Contains(line, "console.info")
  }

  /**
   * One of the line rules: when it applies to a line of a file, the finding
   * it raises, and whether its hits count as TODO/FIXME/HACK markers.
   */
  datatype LineRule = LineRule(
    applies: (string, string) -> bool,
    severity: Severity,
    title: string,
    advice: string,
    marker: bool)

  predicate TodoComment(path: string, line: string) { HasMarker(line, "TODO") }

  predicate FixmeComment(path: string, line: string) { HasMarker(line, "FIXME") }

  predicate HackComment(path: string, line: string) { HasMarker(line, "HACK") }

  /** Console output counts only outside the scripts directory. */
  predicate ConsoleOutsideScripts(path: string, line: string) {
    HasConsoleCall(line) && !Contains(path, "/scripts/")
  }

  /** The four rules of `auditCodeStructure`, in the order they run on each line. */
  const CodeRules: seq<LineRule> := [
    LineRule(TodoComment, Medium, "TODO comment found", "Review and complete or remove before launch", true),
    LineRule(FixmeComment, High, "FIXME comment found", "Must fix before launch", true),
    LineRule(HackComment, Medium, "HACK comment found", "Consider refactoring or documenting why needed", true),
    LineRule(ConsoleOutsideScripts, Low, "console.log found in source code", "Remove or replace with proper logging", false)
  ]

  /** The finding of a rule on line `idx` (0-based): the trimmed line, at its 1-based number. */
  function RuleFindings(rule: LineRule, path: string, shown: string, line: string, idx: nat): seq<AuditIssue> {
    if rule.applies(path, line)
    then [AuditIssue("Code Quality", rule.severity, rule.title, Trim(line), Some(shown), Some(idx + 1), rule.advice)]
    else []
  }

  /** The findings of one line under `rules`, in rule order. */
  function LineFindings(rules: seq<LineRule>, path: string, shown: string, line: string, idx: nat): seq<AuditIssue>
    decreases |rules|
  {
    if rules == [] then []
    else LineFindings(rules[..|rules| - 1], path, shown, line, idx) + RuleFindings(rules[|rules| - 1], path, shown, line, idx)
  }

  lemma LineFindingsStep(rules: seq<LineRule>, k: nat, path: string, shown: string, line: string, idx: nat)
    requires k < |rules|
    ensures LineFindings(rules[..k + 1], path, shown, line, idx)
            == LineFindings(rules[..k], path, shown, line, idx) + RuleFindings(rules[k], path, shown, line, idx)
  {
    assert rules[..k + 1][..k] == rules[..k];
  }

  /** The test "this rule applies and has severity `s`". */
  function AppliesWith(path: string, line: string, s: Severity): LineRule -> bool {
    (r: LineRule) => r.applies(path, line) && r.severity == s
  }

  /** The test "this marker rule applies". */
  function MarkerHit(path: string, line: string): LineRule -> bool {
    (r: LineRule) => r.marker && r.applies(path, line)
  }

  /** One finding per applying rule, each with its rule's severity. */
  lemma {:induction false} LineTally(rules: seq<LineRule>, path: string, shown: string, line: string, idx: nat, s: Severity)
    ensures Count(LineFindings(rules, path, shown, line, idx), Of(s)) == Count(rules, AppliesWith(path, line, s))
    decreases |rules|
  {
    if rules != [] {
      var init := rules[..|rules| - 1];
      LineTally(init, path, shown, line, idx, s);
      FilterConcat(LineFindings(init, path, shown, line, idx), RuleFindings(rules[|rules| - 1], path, shown, line, idx), Of(s));
    }
  }

  /** The number of rules of a four-rule table passing a test, one by one. */
  lemma CountFour(rules: seq<LineRule>, f: LineRule -> bool)
    requires |rules| == 4
    ensures Count(rules, f) == Indicator(f(rules[0])) + Indicator(f(rules[1])) + Indicator(f(rules[2])) + Indicator(f(rules[3]))
  {
    assert rules[..3][..2] == rules[..2] && rules[..2][..1] == rules[..1] && rules[..1][..0] == [];
    assert rules[..4] == rules;
    FilterPrefixStep(rules, f, 0);
    FilterPrefixStep(rules, f, 1);
    FilterPrefixStep(rules, f, 2);
    FilterPrefixStep(rules, f, 3);
  }

  function Indicator(b: bool): nat { if b then 1 else 0 }

  /** The audit's rule table, rule by rule. */
  lemma CodeRulesTable(path: string, line: string)
    ensures |CodeRules| == 4
    ensures CodeRules[0].applies(path, line) == HasMarker(line, "TODO") && CodeRules[0].severity == Medium && CodeRules[0].marker
    ensures CodeRules[1].applies(path, line) == HasMarker(line, "FIXME") && CodeRules[1].severity == High && CodeRules[1].marker
    ensures CodeRules[2].applies(path, line) == HasMarker(line, "HACK") && CodeRules[2].severity == Medium && CodeRules[2].marker
    ensures CodeRules[3].applies(path, line) == (HasConsoleCall(line) && !Contains(path, "/scripts/"))
            && CodeRules[3].severity == Low && !CodeRules[3].marker
  {
    assert CodeRules[1] == LineRule(FixmeComment, High, "FIXME comment found", "Must fix before launch", true);
    assert CodeRules[2] == LineRule(HackComment, Medium, "HACK comment found", "Consider refactoring or documenting why needed", true);
  }

  /** With the audit's rules, the findings of severity `s` on a line are those of the applying rules of that severity. */
  lemma SeverityCount(path: string, shown: string, line: string, idx: nat, s: Severity)
    ensures Count(LineFindings(CodeRules, path, shown, line, idx), Of(s))
            == Indicator(HasMarker(line, "TODO") && s == Medium) + Indicator(HasMarker(line, "FIXME") && s == High)
               + Indicator(HasMarker(line, "HACK") && s == Medium)
               + Indicator(HasConsoleCall(line) && !Contains(path, "/scripts/") && s == Low)
  {
    var f := AppliesWith(path, line, s);
    LineTally(CodeRules, path, shown, line, idx, s);
    CountFour(CodeRules, f);
    CodeRulesTable(path, line);
    assert f(CodeRules[0]) == (HasMarker(line, "TODO") && s == Medium);
    assert f(CodeRules[1]) == (HasMarker(line, "FIXME") && s == High);
    assert f(CodeRules[2]) == (HasMarker(line, "HACK") && s == Medium);
    assert f(CodeRules[3]) == (HasConsoleCall(line) && !Contains(path, "/scripts/") && s == Low);
  }

  /** With the audit's rules: a FIXME is the only high finding, TODO and HACK are medium, console output outside scripts is low. */
  lemma LineSeverities(path: string, shown: string, line: string, idx: nat)
    ensures var r := LineFindings(CodeRules, path, shown, line, idx);
      Count(r, Of(Critical)) == 0 && Count(r, Of(Info)) == 0
      && Count(r, Of(High)) == Indicator(HasMarker(line, "FIXME"))
      && Count(r, Of(Medium)) == Indicator(HasMarker(line, "TODO")) + Indicator(HasMarker(line, "HACK"))
      && Count(r, Of(Low)) == Indicator(HasConsoleCall(line) && !Contains(path, "/scripts/"))
  {
    SeverityCount(path, shown, line, idx, Critical);
    SeverityCount(path, shown, line, idx, High);
    SeverityCount(path, shown, line, idx, Medium);
    SeverityCount(path, shown, line, idx, Low);
    SeverityCount(path, shown, line, idx, Info);
  }

  /** With the audit's rules, the markers of a line are its TODO, FIXME and HACK comments. */
  lemma LineMarkers(path: string, line: string)
    ensures Count(CodeRules, MarkerHit(path, line))
            == Indicator(HasMarker(line, "TODO")) + Indicator(HasMarker(line, "FIXME")) + Indicator(HasMarker(line, "HACK"))
  {
    var f := MarkerHit(path, line);
    CountFour(CodeRules, f);
    CodeRulesTable(path, line);
    assert f(CodeRules[0]) == HasMarker(line, "TODO");
    assert f(CodeRules[1]) == HasMarker(line, "FIXME");
    assert f(CodeRules[2]) == HasMarker(line, "HACK");
    assert !f(CodeRules[3]);
  }

  /** The findings of lines `idx..` of one file, in line order. */
  function FileFindings(rules: seq<LineRule>, path: string, shown: string, lines: seq<string>, idx: nat): seq<AuditIssue>
    decreases |lines| - idx
  {
    if idx >= |lines| then []
    else LineFindings(rules, path, shown, lines[idx], idx) + FileFindings(rules, path, shown, lines, idx + 1)
  }

  /** The marker hits on lines `idx..` of one file. */
  function FileMarkers(rules: seq<LineRule>, path: string, lines: seq<string>, idx: nat): nat
    decreases |lines| - idx
  {
    if idx >= |lines| then 0
    else Count(rules, MarkerHit(path, lines[idx])) + FileMarkers(rules, path, lines, idx + 1)
  }

  /** Every code-quality finding points into its file, on a 1-based line number from `idx + 1` to the line count. */
  lemma {:induction false} FileFindingsPlace(rules: seq<LineRule>, path: string, shown: string, lines: seq<string>, idx: nat)
    ensures forall i <- FileFindings(rules, path, shown, lines, idx) ::
      (i.category == "Code Quality" && i.file == Some(shown) && i.line.Some? && idx + 1 <= i.line.value <= |lines|)
    decreases |lines| - idx
  {
    if idx < |lines| {
      FileFindingsPlace(rules, path, shown, lines, idx + 1);
      LineFindingsPlace(rules, path, shown, lines[idx], idx);
    }
  }

  lemma {:induction false} LineFindingsPlace(rules: seq<LineRule>, path: string, shown: string, line: string, idx: nat)
    ensures forall i <- LineFindings(rules, path, shown, line, idx) ::
      (i.category == "Code Quality" && i.file == Some(shown) && i.line == Some(idx + 1))
    decreases |rules|
  {
    if rules != [] {
      LineFindingsPlace(rules[..|rules| - 1], path, shown, line, idx);
    }
  }

  /** The findings of files `i..`, file after file. */
  function CodeFindings(rules: seq<LineRule>, root: string, files: seq<SourceFile>, i: nat): seq<AuditIssue>
    decreases |files| - i
  {
    if i >= |files| then []
    else
      FileFindings(rules, files[i].path, Shown(root, files[i].path), Split(files[i].content, '\n'), 0)
      + CodeFindings(rules, root, files, i + 1)
  }

  /** The marker hits of files `i..`. */
  function CodeMarkers(rules: seq<LineRule>, files: seq<SourceFile>, i: nat): nat
    decreases |files| - i
  {
    if i >= |files| then 0
    else FileMarkers(rules, files[i].path, Split(files[i].content, '\n'), 0) + CodeMarkers(rules, files, i + 1)
  }

  /** No line from `idx` on carries a TODO, FIXME or HACK comment. */
  predicate Clean(lines: seq<string>, idx: nat) {
    forall k :: idx <= k < |lines| ==>
      !HasMarker(lines[k], "TODO") && !HasMarker(lines[k], "FIXME") && !HasMarker(lines[k], "HACK")
  }

  /** With the audit's rules, no marker hit exactly when no line of any file carries a TODO, FIXME or HACK comment. */
  lemma {:induction false} NoMarkers(files: seq<SourceFile>, i: nat)
    ensures CodeMarkers(CodeRules, files, i) == 0 <==> forall j :: i <= j < |files| ==> Clean(Split(files[j].content, '\n'), 0)
    decreases |files| - i
  {
    if i < |files| {
      NoMarkers(files, i + 1);
      FileNoMarkers(files[i].path, Split(files[i].content, '\n'), 0);
    }
  }

  lemma {:induction false} FileNoMarkers(path: string, lines: seq<string>, idx: nat)
    ensures FileMarkers(CodeRules, path, lines, idx) == 0 <==> Clean(lines, idx)
    decreases |lines| - idx
  {
    if idx < |lines| {
      FileNoMarkers(path, lines, idx + 1);
      LineMarkers(path, lines[idx]);
    }
  }

  // ---------------------------------------------------------------------------
  // Internal links
  // ---------------------------------------------------------------------------

  /** The routes `auditLinks` knows: a shorter list than the link checker's, with the same dynamic routes. */
  const AuditValidRoutes: set<string> := {
    "/", "/about", "/contact", "/blog", "/articles", "/policies", "/policy-updates", "/policy-pulse",
    "/videos", "/admin", "/admin/articles/new", "/admin/media", "/admin/studio", "/admin/settings", "/auth/callback"
  }

  const AuditRoutes: ValidateLinks.RouteTable :=
    ValidateLinks.RouteTable(AuditValidRoutes, [ValidateLinks.IsArticlePath, ValidateLinks.IsArticleEditPath])

  /** An empty link, or one starting with `http` (any scheme that begins so), `mailto:` or `#`, is not checked. */
  predicate AuditSkipped(href: string) {
    href == "" || StartsWith(href, "http") || StartsWith(href, "mailto:") || StartsWith(href, "#")
  }

  /** A link the audit reports. */
  predicate BrokenLink(routes: ValidateLinks.RouteTable, href: string) {
    !AuditSkipped(href) && !ValidateLinks.IsValidRoute(routes, href)
  }

  function IsBroken(routes: ValidateLinks.RouteTable): string -> bool {
    href => BrokenLink(routes, href)
  }

  /**
   * `line.match(regex)` with a global regular expression, each match then
   * matched again for its capture: the captured texts of the successive
   * matches from `from` on.
   */
  function Captures(line: string, m: ValidateLinks.Matcher, from: nat): seq<string>
    decreases |line| + 1 - from
  {
    match ValidateLinks.Exec(line, m, from)
    case None => []
    case Some((_, link, end)) => [link] + Captures(line, m, end)
  }

  /** The finding for a broken link on line `idx` (0-based). */
  function LinkFinding(shown: string, idx: nat, href: string): AuditIssue {
    AuditIssue("Links", Medium, "Potentially broken internal link", "Link to " + href, Some(shown), Some(idx + 1),
               "Verify route exists or update link")
  }

  /** The findings for the links `hrefs` of one line, in order. */
  function LinkFindings(routes: ValidateLinks.RouteTable, shown: string, idx: nat, hrefs: seq<string>): seq<AuditIssue>
    decreases |hrefs|
  {
    if hrefs == [] then []
    else
      var last := hrefs[|hrefs| - 1];
      LinkFindings(routes, shown, idx, hrefs[..|hrefs| - 1])
      + (if BrokenLink(routes, last) then [LinkFinding(shown, idx, last)] else [])
  }

  lemma LinkFindingsStep(routes: ValidateLinks.RouteTable, shown: string, idx: nat, hrefs: seq<string>, k: nat)
    requires k < |hrefs|
    ensures LinkFindings(routes, shown, idx, hrefs[..k + 1])
            == LinkFindings(routes, shown, idx, hrefs[..k])
               + (if BrokenLink(routes, hrefs[k]) then [LinkFinding(shown, idx, hrefs[k])] else [])
  {
    assert hrefs[..k + 1][..k] == hrefs[..k];
  }

  /** One medium finding per broken link, naming that link, in the order of the links. */
  lemma {:induction false} LinkFindingsAreBrokenLinks(routes: ValidateLinks.RouteTable, shown: string, idx: nat, hrefs: seq<string>)
    ensures var r := LinkFindings(routes, shown, idx, hrefs);
      |r| == Count(hrefs, IsBroken(routes))
      && forall k :: 0 <= k < |r| ==> r[k] == LinkFinding(shown, idx, Filter(hrefs, IsBroken(routes))[k])
    decreases |hrefs|
  {
    if hrefs != [] {
      LinkFindingsAreBrokenLinks(routes, shown, idx, hrefs[..|hrefs| - 1]);
    }
  }

  /** The link findings of lines `idx..` of one file. */
  function FileLinkFindings(routes: ValidateLinks.RouteTable, m: ValidateLinks.Matcher, shown: string, lines: seq<string>, idx: nat)
    : seq<AuditIssue>
    decreases |lines| - idx
  {
    if idx >= |lines| then []
    else LinkFindings(routes, shown, idx, Captures(lines[idx], m, 0)) + FileLinkFindings(routes, m, shown, lines, idx + 1)
  }

  /** The link findings of files `i..`. */
  function CodeLinkFindings(routes: ValidateLinks.RouteTable, m: ValidateLinks.Matcher, root: string, files: seq<SourceFile>, i: nat)
    : seq<AuditIssue>
    decreases |files| - i
  {
    if i >= |files| then []
    else
      FileLinkFindings(routes, m, Shown(root, files[i].path), Split(files[i].content, '\n'), 0)
      + CodeLinkFindings(routes, m, root, files, i + 1)
  }

  /** Every link finding is of medium severity, so by `MinorIssuesNeverBlock` the link audit never blocks a launch. */
  lemma {:induction false} LinkFindingsMedium(routes: ValidateLinks.RouteTable, m: ValidateLinks.Matcher, root: string, files: seq<SourceFile>, i: nat)
    ensures forall f <- CodeLinkFindings(routes, m, root, files, i) :: f.severity == Medium && f.category == "Links"
    decreases |files| - i
  {
    if i < |files| {
      LinkFindingsMedium(routes, m, root, files, i + 1);
      FileLinksMedium(routes, m, Shown(root, files[i].path), Split(files[i].content, '\n'), 0);
    }
  }

  lemma {:induction false} FileLinksMedium(routes: ValidateLinks.RouteTable, m: ValidateLinks.Matcher, shown: string, lines: seq<string>, idx: nat)
    ensures forall f <- FileLinkFindings(routes, m, shown, lines, idx) :: f.severity == Medium && f.category == "Links"
    decreases |lines| - idx
  {
    if idx < |lines| {
      FileLinksMedium(routes, m, shown, lines, idx + 1);
      LinkFindingsAreBrokenLinks(routes, shown, idx, Captures(lines[idx], m, 0));
    }
  }

  /** A link the audit accepts is accepted by the link checker too: its route list is a subset of the checker's. */
  lemma AuditAcceptsLess(href: string)
    requires ValidateLinks.IsValidRoute(AuditRoutes, href)
    ensures ValidateLinks.IsValidRoute(ValidateLinks.Routes, href)
  {
    var p := ValidateLinks.UrlPath(href);
    if p in AuditValidRoutes {
      assert p in ValidateLinks.ValidRoutes;
    } else {
      var i :| 0 <= i < |AuditRoutes.dynamic| && AuditRoutes.dynamic[i](p);
      assert ValidateLinks.Routes.dynamic[i](p);
    }
  }

  // ---------------------------------------------------------------------------
  // Site naming
  // ---------------------------------------------------------------------------

  /** `/(World Papers|GAILP|Global AI & Policy)/g` at one position: the alternatives in order. */
  function SiteNameAt(text: string, p: nat): Option<(string, nat)> {
    if ValidateLinks.LiteralAt(text, p, "World Papers") then Some(("World Papers", p + 12))
    else if ValidateLinks.LiteralAt(text, p, "GAILP") then Some(("GAILP", p + 5))
    else if ValidateLinks.LiteralAt(text, p, "Global AI & Policy") then Some(("Global AI & Policy", p + 18))
    else None
  }

  /** The site names found in the files, file by file and in order within each file. */
  function NameMatches(m: ValidateLinks.Matcher, contents: seq<string>): seq<string>
    decreases |contents|
  {
    if contents == [] then []
    else NameMatches(m, contents[..|contents| - 1]) + Captures(contents[|contents| - 1], m, 0)
  }

  /** `new Set(...).add(x)`: insertion keeps the first occurrence. */
  lemma DedupSnoc(s: seq<string>, x: string)
    ensures Dedup(s + [x]) == if x in s then Dedup(s) else Dedup(s) + [x]
  {
    assert (s + [x])[..|s|] == s;
    DedupElements(s);
  }

  lemma NameMatchesStep(m: ValidateLinks.Matcher, contents: seq<string>, i: nat)
    requires i < |contents|
    ensures NameMatches(m, contents[..i + 1]) == NameMatches(m, contents[..i]) + Captures(contents[i], m, 0)
  {
    assert contents[..i + 1][..i] == contents[..i];
  }

  /** One `add` of the names loop: the set grows exactly when the name is new. */
  lemma AddNameStep(seen: seq<string>, matches: seq<string>, k: nat)
    requires k < |matches|
    ensures Dedup(seen + matches[..k + 1])
            == if matches[k] in Dedup(seen + matches[..k]) then Dedup(seen + matches[..k])
               else Dedup(seen + matches[..k]) + [matches[k]]
  {
    assert seen + matches[..k + 1] == (seen + matches[..k]) + [matches[k]];
    DedupSnoc(seen + matches[..k], matches[k]);
    DedupElements(seen + matches[..k]);
  }

  /** More than one distinct name is found exactly when two of the matches differ. */
  lemma NamingRule(s: seq<string>)
    ensures |Dedup(s)| > 1 <==> exists i, j :: 0 <= i < |s| && 0 <= j < |s| && s[i] != s[j]
  {
    var r := Dedup(s);
    DedupElements(s);
    if |r| > 1 {
      assert r[0] != r[1];
      var i :| 0 <= i < |s| && s[i] == r[0];
      var j :| 0 <= j < |s| && s[j] == r[1];
    }
    if i, j :| 0 <= i < |s| && 0 <= j < |s| && s[i] != s[j] {
      var a :| 0 <= a < |r| && r[a] == s[i];
      var b :| 0 <= b < |r| && r[b] == s[j];
      assert a != b;
    }
  }

  /** `Array.join(sep)` */
  function JoinWith(parts: seq<string>, sep: string): string
    decreases |parts|
  {
    if |parts| == 0 then ""
    else if |parts| == 1 then parts[0]
    else parts[0] + sep + JoinWith(parts[1..], sep)
  }

  /** The naming finding for the names found, in the order they were first seen. */
  function NamingIssue(names: seq<string>): AuditIssue {
    AuditIssue("UX/UI", Low, "Inconsistent site naming",
               "Found " + NatToString(|names|) + " different site name variations: " + JoinWith(names, ", "),
               None, None, "Standardize site name across all pages")
  }

  // ---------------------------------------------------------------------------
  // The audit state
  // ---------------------------------------------------------------------------

  /**
   * The audit: the project root and the line rules it applies, and the
   * findings and passed checks, both growing as the audits run.
   */
  class Audit {
    const root: string
    const rules: seq<LineRule>
    const linkRoutes: ValidateLinks.RouteTable
    const hrefPattern: ValidateLinks.Matcher
    const namePattern: ValidateLinks.Matcher
    var issues: seq<AuditIssue>
    var passed: seq<string>

    constructor(root: string)
      ensures this.root == root && rules == CodeRules && issues == [] && passed == []
      ensures linkRoutes == AuditRoutes && hrefPattern == ValidateLinks.Regex(ValidateLinks.HrefAttribute)
      ensures namePattern == SiteNameAt
    {
      this.root := root;
      rules := CodeRules;
      linkRoutes := AuditRoutes;
      hrefPattern := ValidateLinks.Regex(ValidateLinks.HrefAttribute);
      namePattern := SiteNameAt;
      issues := [];
      passed := [];
    }

    /** `addIssue` */
    method AddIssue(issue: AuditIssue)
      modifies this
      ensures issues == old(issues) + [issue] && passed == old(passed)
    {
      issues := issues + [issue];
    }

    /** `addPass` */
    method AddPass(check: string)
      modifies this
      ensures passed == old(passed) + [check] && issues == old(issues)
    {
      passed := passed + [check];
    }

    /** One rule on one line; says whether it applied. */
    method CheckRule(rule: LineRule, path: string, shown: string, line: string, idx: nat) returns (hit: bool)
      modifies this
      ensures issues == old(issues) + RuleFindings(rule, path, shown, line, idx) && passed == old(passed)
      ensures hit == rule.applies(path, line)
    {
      hit := rule.applies(path, line);
      if hit {
        AddIssue(AuditIssue("Code Quality", rule.severity, rule.title, Trim(line), Some(shown), Some(idx + 1), rule.advice));
      }
    }

    /** The rules on one line, in order; counts the marker rules that applied. */
    method AuditLine(path: string, shown: string, line: string, idx: nat) returns (markers: nat)
      modifies this
      ensures issues == old(issues) + LineFindings(rules, path, shown, line, idx) && passed == old(passed)
      ensures markers == Count(rules, MarkerHit(path, line))
    {
      markers := 0;
      for k := 0 to |rules|
        invariant issues == old(issues) + LineFindings(rules[..k], path, shown, line, idx) && passed == old(passed)
        invariant markers == Count(rules[..k], MarkerHit(path, line))
      {
        LineFindingsStep(rules, k, path, shown, line, idx);
        FilterPrefixStep(rules, MarkerHit(path, line), k);
        var hit := CheckRule(rules[k], path, shown, line, idx);
        if hit && rules[k].marker {
          markers := markers + 1;
        }
      }
      assert rules[..|rules|] == rules;
    }

    /** The rules on every line of one file, with the file's marker hits. */
    method AuditFile(file: SourceFile) returns (markers: nat)
      modifies this
      ensures var lines := Split(file.content, '\n');
        issues == old(issues) + FileFindings(rules, file.path, Shown(root, file.path), lines, 0) && passed == old(passed)
        && markers == FileMarkers(rules, file.path, lines, 0)
    {
      var lines := Split(file.content, '\n');
      var shown := Shown(root, file.path);
      markers := 0;
      for idx := 0 to |lines|
        invariant old(issues) + FileFindings(rules, file.path, shown, lines, 0)
                  == issues + FileFindings(rules, file.path, shown, lines, idx) && passed == old(passed)
        invariant FileMarkers(rules, file.path, lines, 0) == markers + FileMarkers(rules, file.path, lines, idx)
      {
        ghost var before := issues;
        var hits := AuditLine(file.path, shown, lines[idx], idx);
        markers := markers + hits;
        AppendAssoc(before, LineFindings(rules, file.path, shown, lines[idx], idx),
                    FileFindings(rules, file.path, shown, lines, idx + 1));
      }
    }

    /** `auditCodeStructure`: the line rules over every file, then the pass when no marker was seen. */
    method AuditCodeStructure(files: seq<SourceFile>)
      modifies this
      ensures issues == old(issues) + CodeFindings(rules, root, files, 0)
      ensures passed == old(passed) + (if CodeMarkers(rules, files, 0) == 0 then ["No TODO/FIXME/HACK comments found"] else [])
    {
      var markers := 0;
      for i := 0 to |files|
        invariant old(issues) + CodeFindings(rules, root, files, 0)
                  == issues + CodeFindings(rules, root, files, i) && passed == old(passed)
        invariant CodeMarkers(rules, files, 0) == markers + CodeMarkers(rules, files, i)
      {
        ghost var before := issues;
        var hits := AuditFile(files[i]);
        markers := markers + hits;
        AppendAssoc(before, FileFindings(rules, files[i].path, Shown(root, files[i].path), Split(files[i].content, '\n'), 0),
                    CodeFindings(rules, root, files, i + 1));
      }
      if markers == 0 {
        AddPass("No TODO/FIXME/HACK comments found");
      }
    }

    /** The checks on one captured link; says whether it was reported. */
    method CheckHref(href: string, shown: string, idx: nat) returns (broken: bool)
      modifies this
      ensures issues == old(issues) + (if BrokenLink(linkRoutes, href) then [LinkFinding(shown, idx, href)] else [])
      ensures passed == old(passed) && broken == BrokenLink(linkRoutes, href)
    {
      broken := false;
      if href == "" {
        return;
      }
      if StartsWith(href, "http") || StartsWith(href, "mailto:") || StartsWith(href, "#") {
        return;
      }
      var isValid := ValidateLinks.IsValidRoute(linkRoutes, href);
      if !isValid {
        broken := true;
        AddIssue(LinkFinding(shown, idx, href));
      }
    }

    /** Every `href` of one line, in order; counts the broken ones. */
    method AuditLinksLine(shown: string, line: string, idx: nat) returns (broken: nat)
      modifies this
      ensures var hrefs := Captures(line, hrefPattern, 0);
        issues == old(issues) + LinkFindings(linkRoutes, shown, idx, hrefs) && passed == old(passed)
        && broken == |LinkFindings(linkRoutes, shown, idx, hrefs)|
    {
      var hrefs := Captures(line, hrefPattern, 0);
      broken := 0;
      for k := 0 to |hrefs|
        invariant issues == old(issues) + LinkFindings(linkRoutes, shown, idx, hrefs[..k]) && passed == old(passed)
        invariant broken == |LinkFindings(linkRoutes, shown, idx, hrefs[..k])|
      {
        LinkFindingsStep(linkRoutes, shown, idx, hrefs, k);
        var b := CheckHref(hrefs[k], shown, idx);
        if b {
          broken := broken + 1;
        }
      }
      assert hrefs[..|hrefs|] == hrefs;
    }

    /** The link check over every line of one file. */
    method AuditLinksFile(file: SourceFile) returns (broken: nat)
      modifies this
      ensures issues == old(issues)
                        + FileLinkFindings(linkRoutes, hrefPattern, Shown(root, file.path), Split(file.content, '\n'), 0)
      ensures passed == old(passed)
      ensures broken == |FileLinkFindings(linkRoutes, hrefPattern, Shown(root, file.path), Split(file.content, '\n'), 0)|
    {
      var lines := Split(file.content, '\n');
      var shown := Shown(root, file.path);
      broken := 0;
      for idx := 0 to |lines|
        invariant old(issues) + FileLinkFindings(linkRoutes, hrefPattern, shown, lines, 0)
                  == issues + FileLinkFindings(linkRoutes, hrefPattern, shown, lines, idx) && passed == old(passed)
        invariant broken + |FileLinkFindings(linkRoutes, hrefPattern, shown, lines, idx)|
                  == |FileLinkFindings(linkRoutes, hrefPattern, shown, lines, 0)|
      {
        ghost var before := issues;
        var b := AuditLinksLine(shown, lines[idx], idx);
        broken := broken + b;
        AppendAssoc(before, LinkFindings(linkRoutes, shown, idx, Captures(lines[idx], hrefPattern, 0)),
                    FileLinkFindings(linkRoutes, hrefPattern, shown, lines, idx + 1));
      }
    }

    /** `auditLinks`: the link check over every file, then the pass when nothing was reported. */
    method AuditLinks(files: seq<SourceFile>)
      modifies this
      ensures issues == old(issues) + CodeLinkFindings(linkRoutes, hrefPattern, root, files, 0)
      ensures passed == old(passed)
                        + (if CodeLinkFindings(linkRoutes, hrefPattern, root, files, 0) == [] then ["No broken internal links detected"] else [])
    {
      var brokenLinks := 0;
      for i := 0 to |files|
        invariant old(issues) + CodeLinkFindings(linkRoutes, hrefPattern, root, files, 0)
                  == issues + CodeLinkFindings(linkRoutes, hrefPattern, root, files, i) && passed == old(passed)
        invariant brokenLinks + |CodeLinkFindings(linkRoutes, hrefPattern, root, files, i)|
                  == |CodeLinkFindings(linkRoutes, hrefPattern, root, files, 0)|
      {
        ghost var before := issues;
        var b := AuditLinksFile(files[i]);
        brokenLinks := brokenLinks + b;
        AppendAssoc(before, FileLinkFindings(linkRoutes, hrefPattern, Shown(root, files[i].path), Split(files[i].content, '\n'), 0),
                    CodeLinkFindings(linkRoutes, hrefPattern, root, files, i + 1));
      }
      if brokenLinks == 0 {
        AddPass("No broken internal links detected");
      }
    }

    /** The `Set` of site names `auditUX` collects: every match, in every file, added in order. */
    method CollectSiteNames(contents: seq<string>) returns (siteNames: seq<string>)
      ensures siteNames == Dedup(NameMatches(namePattern, contents))
    {
      siteNames := [];
      for i := 0 to |contents|
        invariant siteNames == Dedup(NameMatches(namePattern, contents[..i]))
      {
        var matches := Captures(contents[i], namePattern, 0);
        ghost var seen := NameMatches(namePattern, contents[..i]);
        NameMatchesStep(namePattern, contents, i);
        assert seen + matches[..0] == seen;
        for k := 0 to |matches|
          invariant siteNames == Dedup(seen + matches[..k])
        {
          AddNameStep(seen, matches, k);
          if matches[k] !in siteNames {
            siteNames := siteNames + [matches[k]];
          }
        }
        assert matches[..|matches|] == matches;
      }
      assert contents[..|contents|] == contents;
    }

    /** `auditUX`'s naming check: more than one distinct site name is an issue, otherwise a pass. */
    method AuditSiteNaming(contents: seq<string>)
      modifies this
      ensures var names := Dedup(NameMatches(namePattern, contents));
        if |names| > 1 then issues == old(issues) + [NamingIssue(names)] && passed == old(passed)
        else issues == old(issues) && passed == old(passed) + ["Consistent site naming"]
    {
      var siteNames := CollectSiteNames(contents);
      if |siteNames| > 1 {
        AddIssue(NamingIssue(siteNames));
      } else {
        AddPass("Consistent site naming");
      }
    }
  }
}
