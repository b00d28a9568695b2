/**
 * The backlog importer: a markdown backlog is read line by line, every
 * numbered `### N. ` heading becomes an issue whose description is the
 * prose under it, whose labels and story points come from keywords and
 * whose priority comes from the section it sits in; the first ten are sent
 * to the tracker.
 */
module BacklogToJira {
  import opened Text
  import opened Lists

  // ---------------------------------------------------------------------------
  // Lines
  // ---------------------------------------------------------------------------

  /** Number of decimal digits at the start of `s`. */
  function DigitRun(s: string): (n: nat)
    ensures n <= |s|
    ensures forall i :: 0 <= i < n ==> IsDigit(s[i])
    ensures n < |s| ==> !IsDigit(s[n])
  {
    LeadingCount(s, IsDigit)
  }

  /**
   * Length of the `^### \d+\. ` prefix of a line, zero when it has none.
   * The dot after the digits cannot be a digit, so the greedy digit run is
   * the only way to match.
   */
  function HeadingPrefix(line: string): (n: nat)
    ensures n <= |line|
    ensures n > 0 ==> n >= 7 && StartsWith(line, "### ") && line[n - 2..n] == ". "
  {
    if !StartsWith(line, "### ") then 0
    else
      var d := DigitRun(line[4..]);
      if d >= 1 && 4 + d + 2 <= |line| && line[4 + d..4 + d + 2] == ". " then 4 + d + 2 else 0
  }

  /** `line.match(/^### \d+\. /)` */
  predicate IsItemLine(line: string) { HeadingPrefix(line) > 0 }

  /** The heading with its `### N. ` prefix removed, trimmed. */
  function TitleOf(line: string): string
    requires IsItemLine(line)
  {
    Trim(line[HeadingPrefix(line)..])
  }

  /** A line that ends an item's description: any heading, or the task list. */
  predicate EndsDescription(line: string) {
    StartsWith(line, "#") || StartsWith(line, "**Tasks:**")
  }

  /** Metadata lines left out of the description. */
  predicate SkippedLine(line: string) {
    StartsWith(line, "**Status:**") || StartsWith(line, "**Effort:**") || StartsWith(line, "**Description:**")
  }

  /** The description gathered from line `j` on: each kept line followed by a newline. */
  function Description(lines: seq<string>, j: nat): string
    decreases |lines| - j
  {
    if j >= |lines| || EndsDescription(lines[j]) then ""
    else (if SkippedLine(lines[j]) then "" else lines[j] + "\n") + Description(lines, j + 1)
  }

  /** Nothing at or after the first line that ends the description reaches it. */
  lemma {:induction false} DescriptionStops(lines: seq<string>, more: seq<string>, j: nat)
    requires j < |lines| && EndsDescription(lines[|lines| - 1])
    ensures Description(lines + more, j) == Description(lines, j)
    decreases |lines| - j
  {
    var all := lines + more;
    assert all[j] == lines[j];
    if !EndsDescription(lines[j]) {
      DescriptionStops(lines, more, j + 1);
    }
  }

  // ---------------------------------------------------------------------------
  // Items
  // ---------------------------------------------------------------------------

  /** The section a line switches to, or the current one. */
  function SectionAfter(line: string, current: string): (s: string)
    ensures s in {current, "High Priority", "Medium Priority", "Lower Priority"}
  {
    if StartsWith(line, "## High Priority") then "High Priority"
    else if StartsWith(line, "## Medium Priority") then "Medium Priority"
    else if StartsWith(line, "## Lower Priority") then "Lower Priority"
    else current
  }

  /** The priority of an item in a section. */
  function PriorityOf(section: string): (p: string)
    ensures p in {"High", "Medium", "Low"}
    ensures Contains(section, "High") <==> p == "High"
    ensures p == "Low" <==> !Contains(section, "High") && Contains(section, "Lower")
  {
    if Contains(section, "High") then "High" else if Contains(section, "Lower") then "Low" else "Medium"
  }

  predicate Mentions(text: string, words: seq<string>) {
    exists k :: 0 <= k < |words| && Contains(text, words[k])
  }

  const SecurityWords: seq<string> := ["security", "rls", "auth"]
  const FrontendWords: seq<string> := ["image", "upload", "ui", "frontend"]
  const BackendWords: seq<string> := ["api", "endpoint", "backend"]
  const DatabaseWords: seq<string> := ["database", "schema", "supabase"]
  const PageWords: seq<string> := ["homepage", "page"]
  const ManagementWords: seq<string> := ["category", "tag", "management"]
  const QuickWords: seq<string> := ["1-2 hours", "small"]

  /** The labels pushed for a text, in push order, before de-duplication. */
  function RawLabels(text: string): seq<string> {
    (if Mentions(text, SecurityWords) then ["security"] else [])
    + (if Mentions(text, FrontendWords) then ["frontend"] else [])
    + (if Mentions(text, BackendWords) then ["backend"] else [])
    + (if Mentions(text, DatabaseWords) then ["database"] else [])
    + (if Mentions(text, PageWords) then ["frontend"] else [])
    + (if Mentions(text, ManagementWords) then ["backend", "frontend"] else [])
    + (if Mentions(text, QuickWords) then ["quick-win"] else [])
  }

  /** `[...new Set(labels)]` */
  function Labels(text: string): (labels: seq<string>)
    ensures NoDup(labels)
  {
    Dedup(RawLabels(text))
  }

  /** The security label is there exactly when a security word is mentioned. */
  lemma SecurityLabel(text: string)
    ensures "security" in Labels(text) <==> Mentions(text, SecurityWords)
  {
    DedupElements(RawLabels(text));
  }

  /** The frontend label comes from UI words, page words or management words. */
  lemma FrontendLabel(text: string)
    ensures "frontend" in Labels(text) <==>
      Mentions(text, FrontendWords) || Mentions(text, PageWords) || Mentions(text, ManagementWords)
  {
    DedupElements(RawLabels(text));
  }

  /** The backend label comes from API words or management words. */
  lemma BackendLabel(text: string)
    ensures "backend" in Labels(text) <==> Mentions(text, BackendWords) || Mentions(text, ManagementWords)
  {
    DedupElements(RawLabels(text));
  }

  /** The database label comes from database words only. */
  lemma DatabaseLabel(text: string)
    ensures "database" in Labels(text) <==> Mentions(text, DatabaseWords)
  {
    DedupElements(RawLabels(text));
  }

  /** The quick-win label comes from the small-effort words only. */
  lemma QuickWinLabel(text: string)
    ensures "quick-win" in Labels(text) <==> Mentions(text, QuickWords)
  {
    DedupElements(RawLabels(text));
  }

  /** No label outside the five known ones is ever produced. */
  lemma KnownLabels(text: string)
    ensures forall l :: l in Labels(text) ==> l in {"security", "frontend", "backend", "database", "quick-win"}
  {
    DedupElements(RawLabels(text));
  }

  /** Story points: 3 unless an effort rule fires; later rules override earlier ones. */
  function StoryPoints(text: string): (p: int)
    ensures p in {2, 3, 5, 8}
  {
    var p := 3;
    var p := if Contains(text, "small") || Contains(text, "1-2 hours") then 2 else p;
    var p := if Contains(text, "medium") || Contains(text, "2-4 hours") then 3 else p;
    var p := if Contains(text, "large") || Contains(text, "5-8 hours") then 5 else p;
    if Contains(text, "6-10 hours") then 8 else p
  }

  /** The last effort rule that fires decides. */
  lemma StoryPointRules(text: string)
    ensures Contains(text, "6-10 hours") ==> StoryPoints(text) == 8
    ensures !Contains(text, "6-10 hours") && (Contains(text, "large") || Contains(text, "5-8 hours")) ==> StoryPoints(text) == 5
    ensures StoryPoints(text) == 2 <==>
      !Contains(text, "6-10 hours") && !Contains(text, "large") && !Contains(text, "5-8 hours")
      && !Contains(text, "medium") && !Contains(text, "2-4 hours")
      && (Contains(text, "small") || Contains(text, "1-2 hours"))
  {
  }

  datatype BacklogItem = BacklogItem(
    title: string,
    description: string,
    priority: string,
    labels: seq<string>,
    issueType: string,
    storyPoints: int,
    section: string)

  /** The item the heading on line `i` starts, inside `section`. */
  function ItemAt(lines: seq<string>, i: nat, section: string): (item: BacklogItem)
    requires i < |lines| && IsItemLine(lines[i])
  {
    var title := TitleOf(lines[i]);
    var description := Description(lines, i + 1);
    var fullText := Lower(title + description);
    BacklogItem(title, Trim(description), PriorityOf(section), Labels(fullText), "Task", StoryPoints(fullText), section)
  }

  /** Every item is a task in its section's priority, with distinct labels and a known estimate. */
  lemma ItemShape(lines: seq<string>, i: nat, section: string)
    requires i < |lines| && IsItemLine(lines[i])
    ensures var item := ItemAt(lines, i, section);
      item.title == TitleOf(lines[i]) && item.section == section
      && item.issueType == "Task" && item.priority == PriorityOf(section)
      && NoDup(item.labels) && item.storyPoints in {2, 3, 5, 8}
  {
  }

  /** The items of lines `i..`, the section in force before line `i` being `section`. */
  function ItemsFrom(lines: seq<string>, i: nat, section: string): seq<BacklogItem>
    decreases |lines| - i
  {
    if i >= |lines| then []
    else
      var s := SectionAfter(lines[i], section);
      (if IsItemLine(lines[i]) then [ItemAt(lines, i, s)] else []) + ItemsFrom(lines, i + 1, s)
  }

  /** The titles of the item headings of lines `i..`, in order. */
  function HeadingTitles(lines: seq<string>, i: nat): seq<string>
    decreases |lines| - i
  {
    if i >= |lines| then []
    else (if IsItemLine(lines[i]) then [TitleOf(lines[i])] else []) + HeadingTitles(lines, i + 1)
  }

  function Titles(items: seq<BacklogItem>): seq<string> {
    if items == [] then [] else [items[0].title] + Titles(items[1..])
  }

  lemma TitlesConcat(a: seq<BacklogItem>, b: seq<BacklogItem>)
    ensures Titles(a + b) == Titles(a) + Titles(b)
  {
    if a != [] {
      assert (a + b)[1..] == a[1..] + b;
    } else {
      assert a + b == b;
    }
  }

  /** One item per numbered heading, titled after it, in file order, whatever the sections. */
  lemma {:induction false} ItemsFollowHeadings(lines: seq<string>, i: nat, section: string)
    ensures Titles(ItemsFrom(lines, i, section)) == HeadingTitles(lines, i)
    decreases |lines| - i
  {
    if i < |lines| {
      var s := SectionAfter(lines[i], section);
      ItemsFollowHeadings(lines, i + 1, s);
      TitlesConcat(if IsItemLine(lines[i]) then [ItemAt(lines, i, s)] else [], ItemsFrom(lines, i + 1, s));
    }
  }

  /** One line of the description: skipped, or kept with its newline. */
  lemma DescriptionStep(lines: seq<string>, j: nat)
    requires j < |lines| && !EndsDescription(lines[j])
    ensures SkippedLine(lines[j]) ==> Description(lines, j) == Description(lines, j + 1)
    ensures !SkippedLine(lines[j]) ==> Description(lines, j) == (lines[j] + "\n") + Description(lines, j + 1)
  {
    if SkippedLine(lines[j]) {
      assert "" + Description(lines, j + 1) == Description(lines, j + 1);
    }
  }

  /** The description loop: from the line after the heading to the first heading or task list. */
  method CollectDescription(lines: seq<string>, i: nat) returns (description: string, j: nat)
    requires i < |lines|
    ensures description == Description(lines, i + 1)
  {
    description := "";
    j := i + 1;
    while j < |lines| && !EndsDescription(lines[j])
      invariant i + 1 <= j <= |lines|
      invariant description + Description(lines, j) == Description(lines, i + 1)
      decreases |lines| - j
    {
      DescriptionStep(lines, j);
      if SkippedLine(lines[j]) {
        j := j + 1;
        continue;
      }
      AppendAssoc(description, lines[j] + "\n", Description(lines, j + 1));
      description := description + (lines[j] + "\n");
      j := j + 1;
    }
  }

  /** The body of `parseBacklog` for a numbered heading. */
  method ParseItem(lines: seq<string>, i: nat, section: string) returns (item: BacklogItem)
    requires i < |lines| && IsItemLine(lines[i])
    ensures item == ItemAt(lines, i, section)
  {
    var title := TitleOf(lines[i]);
    var description, _ := CollectDescription(lines, i);
    var fullText := Lower(title + description);
    item := BacklogItem(title, Trim(description), PriorityOf(section), Labels(fullText), "Task",
                        StoryPoints(fullText), section);
  }

  /** One step of `ItemsFrom`. */
  lemma ItemsFromStep(lines: seq<string>, i: nat, section: string)
    requires i < |lines|
    ensures ItemsFrom(lines, i, section) ==
      (if IsItemLine(lines[i]) then [ItemAt(lines, i, SectionAfter(lines[i], section))] else [])
      + ItemsFrom(lines, i + 1, SectionAfter(lines[i], section))
  {
  }

  /** The section detection at the top of the `parseBacklog` loop. */
  method DetectSection(line: string, currentSection: string) returns (section: string)
    ensures section == SectionAfter(line, currentSection)
  {
    section := currentSection;
    if StartsWith(line, "## High Priority") {
      section := "High Priority";
    } else if StartsWith(line, "## Medium Priority") {
      section := "Medium Priority";
    } else if StartsWith(line, "## Lower Priority") {
      section := "Lower Priority";
    }
  }

  /** One pass of the `parseBacklog` loop: the section switch, then the item, if any. */
  method ParseLine(lines: seq<string>, i: nat, currentSection: string, items: seq<BacklogItem>)
    returns (section: string, items': seq<BacklogItem>)
    requires i < |lines|
    ensures section == SectionAfter(lines[i], currentSection)
    ensures items' + ItemsFrom(lines, i + 1, section) == items + ItemsFrom(lines, i, currentSection)
  {
    section := DetectSection(lines[i], currentSection);
    var found: seq<BacklogItem> := [];
    if IsItemLine(lines[i]) {
      var item := ParseItem(lines, i, section);
      found := [item];
    }
    items' := items + found;
    ItemsFromStep(lines, i, currentSection);
    AppendAssoc(items, found, ItemsFrom(lines, i + 1, section));
  }

  /** `parseBacklog` on the file's text: a section state machine over the lines. */
  method ParseBacklog(content: string) returns (items: seq<BacklogItem>)
    ensures items == ItemsFrom(Split(content, '\n'), 0, "")
  {
    var lines := Split(content, '\n');
    items := [];
    var currentSection := "";
    for i := 0 to |lines|
      invariant items + ItemsFrom(lines, i, currentSection) == ItemsFrom(lines, 0, "")
    {
      currentSection, items := ParseLine(lines, i, currentSection, items);
    }
  }

  /** A text without the first character of `part` does not contain it. */
  lemma Lacks(s: string, part: string)
    requires part != [] && part[0] !in s
    ensures !Contains(s, part)
  {
  }

  /** Items before any priority section are medium; each section gives its own priority. */
  lemma SectionPriorities()
    ensures PriorityOf("") == "Medium"
    ensures PriorityOf("High Priority") == "High"
    ensures PriorityOf("Medium Priority") == "Medium"
    ensures PriorityOf("Lower Priority") == "Low"
  {
    Lacks("", "High");
    Lacks("", "Lower");
    assert OccursAt("High Priority", "High", 0);
    assert OccursAt("Lower Priority", "Lower", 0);
    Lacks("Lower Priority", "High");
    Lacks("Medium Priority", "High");
    Lacks("Medium Priority", "Lower");
  }

  // ---------------------------------------------------------------------------
  // Import
  // ---------------------------------------------------------------------------

  /** The fields of the create-issue request; an empty description is replaced. */
  datatype IssueFields = IssueFields(project: string, summary: string, description: string, issueType: string,
                                     priority: string, labels: seq<string>)

  function IssueFor(item: BacklogItem): (f: IssueFields)
    ensures f.project == "GAILP" && f.summary == item.title && f.labels == item.labels
    ensures f.description != []
    ensures item.description != [] ==> f.description == item.description
  {
    IssueFields("GAILP", item.title, OrElse(item.description, "No description provided."), item.issueType,
                item.priority, item.labels)
  }

  /**
   * `main`: only the first ten items are sent; `created` counts the
   * requests the tracker accepted.
   */
  method ImportTop(items: seq<BacklogItem>, accepts: IssueFields -> bool) returns (created: nat, remaining: int)
    ensures created <= 10 && created <= |items|
    ensures created == Count(Slice(items, 0, 10), item => accepts(IssueFor(item)))
    ensures remaining == |items| - Min(10, |items|)
  {
    var topItems := Slice(items, 0, 10);
    SliceFromZero(items, 10);
    created := 0;
    for n := 0 to |topItems|
      invariant created == Count(topItems[..n], item => accepts(IssueFor(item)))
      invariant created <= n
    {
      FilterPrefixStep(topItems, item => accepts(IssueFor(item)), n);
      if accepts(IssueFor(topItems[n])) {
        created := created + 1;
      }
    }
    assert topItems[..|topItems|] == topItems;
    remaining := |items| - |topItems|;
  }

  /** The backlog file's text, or the failure to read it. */
  datatype OptionalText = Read(text: string) | Unreadable

  /** How a run of the script ends: an exit with an error code, or the import's tallies. */
  datatype RunOutcome = Exited(code: nat) | Completed(created: nat, remaining: int)

  /**
   * The whole script: without a non-empty `ATLASSIAN_API_TOKEN` it exits
   * with 1 before anything else; a backlog file that cannot be read
   * (`content` is `None`) ends in the fatal-error handler, also with exit
   * code 1; otherwise the file is parsed and the top ten items are sent.
   */
  method Run(apiToken: string, content: OptionalText, accepts: IssueFields -> bool) returns (r: RunOutcome)
    ensures apiToken == "" ==> r == Exited(1)
    ensures apiToken != "" && content.Unreadable? ==> r == Exited(1)
    ensures r.Completed? <==> apiToken != "" && content.Read?
    ensures r.Completed? ==>
              var items := ItemsFrom(Split(content.text, '\n'), 0, "");
              r.created == Count(Slice(items, 0, 10), item => accepts(IssueFor(item)))
              && r.remaining == |items| - Min(10, |items|)
  {
    if apiToken == "" {
      return Exited(1);
    }
    if content.Unreadable? {
      return Exited(1);
    }
    var items := ParseBacklog(content.text);
    var created, remaining := ImportTop(items, accepts);
    return Completed(created, remaining);
  }

}
