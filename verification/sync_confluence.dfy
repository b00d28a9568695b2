/**
 * Documentation sync to the team wiki: the Markdown-to-storage-format
 * converter and the create-or-update decision taken for each document.
 *
 * The converter works in two phases. A text phase runs global string
 * replacements over the whole document (headings, then code fences); a line
 * phase walks the lines with an `in_list` flag and wraps every run of `- `
 * lines in `<ul>` ... `</ul>`.
 */
module ConfluenceSync {
  import opened Text
  import opened Wrappers
  import Lists

  // ---------------------------------------------------------------------------
  // Text phase
  // ---------------------------------------------------------------------------

  /** What the three single-newline replacements leave in front of the first newline. */
  const HeadingCloser: string := "</h3></h2></h1>"

  /** The heading replacements as they act on text without a newline. */
  function HeadingTags(line: string): string {
    ReplaceAll(ReplaceAll(ReplaceAll(line, "### ", "<h3>"), "## ", "<h2>"), "# ", "<h1>")
  }

  /** All replacements of the text phase, as they act on text without a newline. */
  function LineMarkup(line: string): string {
    ReplaceAll(HeadingTags(line), "```", "<code>")
  }

  /**
   * One heading level as written: every occurrence of the marker is
   * replaced, then the closing tag goes in front of the first newline of the
   * whole document.
   */
  function Level(s: string, pat: string, rep: string, close: string): string
    requires pat != []
  {
    ReplaceFirst(ReplaceAll(s, pat, rep), "\n", close + "\n")
  }

  /** The text phase: the three heading levels, deepest first, then every code fence. */
  function TextPhase(md: string): string {
    var c1 := Level(md, "### ", "<h3>", "</h3>");
    var c2 := Level(c1, "## ", "<h2>", "</h2>");
    var c3 := Level(c2, "# ", "<h1>", "</h1>");
    ReplaceAll(c3, "```", "<code>")
  }

  /** One replace-all pass over `a + tag + "\n" + y`, for a tag the pattern cannot touch. */
  lemma ReplaceAllTagged(a: string, tag: string, y: string, pat: string, rep: string)
    requires pat != [] && '<' !in pat && '\n' !in pat
    requires tag == [] || (tag[0] == '<' && pat[0] !in tag)
    ensures ReplaceAll(a + tag + "\n" + y, pat, rep) == ReplaceAll(a, pat, rep) + tag + "\n" + ReplaceAll(y, pat, rep)
  {
    ReplaceAllAcross(a + tag, '\n', y, pat, rep);
    if tag != [] {
      assert a + tag == a + ['<'] + tag[1..];
      ReplaceAllAcross(a, '<', tag[1..], pat, rep);
      assert forall i :: 0 <= i < |tag[1..]| ==> tag[1..][i] in tag;
      ReplaceAllNoStart(tag[1..], pat, rep);
    } else {
      assert a + tag == a;
    }
  }

  /**
   * One heading level over `x + tag + "\n" + y`, where `tag` holds the closing
   * tags of the earlier levels: every marker is replaced, then `close` goes
   * before the first newline.
   */
  lemma HeadingLevel(x: string, tag: string, y: string, pat: string, rep: string, close: string, closed: string)
    requires pat != [] && '<' !in pat && '\n' !in pat
    requires tag == [] || (tag[0] == '<' && pat[0] !in tag)
    requires '\n' !in x && '\n' !in tag && '\n' !in rep
    requires closed == tag + close
    ensures Level(x + tag + "\n" + y, pat, rep, close)
         == ReplaceAll(x, pat, rep) + closed + "\n" + ReplaceAll(y, pat, rep)
    ensures '\n' !in ReplaceAll(x, pat, rep)
  {
    ReplaceAllTagged(x, tag, y, pat, rep);
    ReplaceAllKeepsOut(x, pat, rep, '\n');
    CloseFirstLine(ReplaceAll(x, pat, rep), tag, ReplaceAll(y, pat, rep), close);
  }

  /** Putting `close` before the first newline, when that newline follows `a + tag`. */
  lemma CloseFirstLine(a: string, tag: string, y: string, close: string)
    requires '\n' !in a && '\n' !in tag
    ensures ReplaceFirst(a + tag + "\n" + y, "\n", close + "\n") == a + (tag + close) + "\n" + y
  {
    ReplaceFirstAt(a + tag, '\n', y, close + "\n");
    assert a + tag + (close + "\n") + y == a + (tag + close) + "\n" + y;
  }

  /** `LineMarkup` never introduces a newline. */
  lemma LineMarkupNoNewline(x: string)
    requires '\n' !in x
    ensures '\n' !in HeadingTags(x) && '\n' !in LineMarkup(x)
  {
    ReplaceAllKeepsOut(x, "### ", "<h3>", '\n');
    ReplaceAllKeepsOut(ReplaceAll(x, "### ", "<h3>"), "## ", "<h2>", '\n');
    ReplaceAllKeepsOut(ReplaceAll(ReplaceAll(x, "### ", "<h3>"), "## ", "<h2>"), "# ", "<h1>", '\n');
    ReplaceAllKeepsOut(HeadingTags(x), "```", "<code>", '\n');
  }

  /** `LineMarkup` acts on each line separately. */
  lemma LineMarkupAcross(a: string, b: string)
    ensures LineMarkup(a + "\n" + b) == LineMarkup(a) + "\n" + LineMarkup(b)
  {
    var a3 := ReplaceAll(a, "### ", "<h3>");
    var b3 := ReplaceAll(b, "### ", "<h3>");
    ReplaceAllTagged(a, "", b, "### ", "<h3>");
    assert a + "" == a && a3 + "" == a3;
    var a2 := ReplaceAll(a3, "## ", "<h2>");
    var b2 := ReplaceAll(b3, "## ", "<h2>");
    ReplaceAllTagged(a3, "", b3, "## ", "<h2>");
    assert a2 + "" == a2;
    var a1 := ReplaceAll(a2, "# ", "<h1>");
    var b1 := ReplaceAll(b2, "# ", "<h1>");
    ReplaceAllTagged(a2, "", b2, "# ", "<h1>");
    assert a1 + "" == a1;
    ReplaceAllTagged(a1, "", b1, "```", "<code>");
  }

  /** Text without a newline gets the replacements and no closing tags. */
  lemma TextPhaseNoNewline(x: string)
    requires '\n' !in x
    ensures TextPhase(x) == LineMarkup(x)
  {
    var a3 := ReplaceAll(x, "### ", "<h3>");
    ReplaceAllKeepsOut(x, "### ", "<h3>", '\n');
    ReplaceFirstAbsent(a3, '\n', "</h3>" + "\n");
    var a2 := ReplaceAll(a3, "## ", "<h2>");
    ReplaceAllKeepsOut(a3, "## ", "<h2>", '\n');
    ReplaceFirstAbsent(a2, '\n', "</h2>" + "\n");
    var a1 := ReplaceAll(a2, "# ", "<h1>");
    ReplaceAllKeepsOut(a2, "# ", "<h1>", '\n');
    ReplaceFirstAbsent(a1, '\n', "</h1>" + "\n");
  }

  /**
   * With a newline, the text phase is the line-wise replacement with the
   * three closing tags put before the first newline, whatever the text holds.
   */
  lemma TextPhaseFirstNewline(x: string, y: string)
    requires '\n' !in x
    ensures TextPhase(x + "\n" + y) == LineMarkup(x) + HeadingCloser + "\n" + LineMarkup(y)
  {
    HeadingsFirstNewline(x, y);
    ReplaceAllTagged(HeadingTags(x), HeadingCloser, HeadingTags(y), "```", "<code>");
  }

  /** The three heading levels over a text with a newline. */
  lemma HeadingsFirstNewline(x: string, y: string)
    requires '\n' !in x
    ensures Level(Level(Level(x + "\n" + y, "### ", "<h3>", "</h3>"), "## ", "<h2>", "</h2>"), "# ", "<h1>", "</h1>")
         == HeadingTags(x) + HeadingCloser + "\n" + HeadingTags(y)
  {
    assert x + "" == x;
    HeadingLevel(x, "", y, "### ", "<h3>", "</h3>", "</h3>");
    var x3 := ReplaceAll(x, "### ", "<h3>");
    var y3 := ReplaceAll(y, "### ", "<h3>");
    HeadingLevel(x3, "</h3>", y3, "## ", "<h2>", "</h2>", "</h3></h2>");
    var x2 := ReplaceAll(x3, "## ", "<h2>");
    var y2 := ReplaceAll(y3, "## ", "<h2>");
    HeadingLevel(x2, "</h3></h2>", y2, "# ", "<h1>", "</h1>", HeadingCloser);
  }

  // ---------------------------------------------------------------------------
  // The text phase, line by line
  // ---------------------------------------------------------------------------

  /** `LineMarkup` applied to every line. */
  function MarkupEach(lines: seq<string>): (r: seq<string>)
    ensures |r| == |lines|
    decreases |lines|
  {
    if lines == [] then [] else [LineMarkup(lines[0])] + MarkupEach(lines[1..])
  }

  /** The first line gets the closing tags when there is a second line. */
  function CloseFirst(lines: seq<string>): (r: seq<string>)
    ensures |r| == |lines|
  {
    if |lines| >= 2 then [lines[0] + HeadingCloser] + lines[1..] else lines
  }

  lemma {:induction false} MarkupLines(y: string)
    ensures Split(LineMarkup(y), '\n') == MarkupEach(Split(y, '\n'))
    decreases |y|
  {
    if '\n' !in y {
      SplitNone(y, '\n');
      LineMarkupNoNewline(y);
      SplitNone(LineMarkup(y), '\n');
    } else {
      var k := IndexOf(y, '\n');
      SplitAround(y, k);
      var a, b := y[..k], y[k + 1..];
      SplitFirst(a, '\n', b);
      LineMarkupAcross(a, b);
      LineMarkupNoNewline(a);
      SplitFirst(LineMarkup(a), '\n', LineMarkup(b));
      MarkupLines(b);
      assert ([a] + Split(b, '\n'))[1..] == Split(b, '\n');
    }
  }

  /**
   * The lines after the text phase are the input lines, each with every
   * heading marker and code fence replaced, and the first line closed by
   * `</h3></h2></h1>` when the document has more than one line.
   */
  lemma TextPhaseByLines(md: string)
    ensures Split(TextPhase(md), '\n') == CloseFirst(MarkupEach(Split(md, '\n')))
  {
    if '\n' !in md {
      TextPhaseNoNewline(md);
      LineMarkupNoNewline(md);
      SplitNone(md, '\n');
      SplitNone(LineMarkup(md), '\n');
    } else {
      var k := IndexOf(md, '\n');
      SplitAround(md, k);
      TextPhaseByLinesAt(md[..k], md[k + 1..]);
    }
  }

  lemma TextPhaseByLinesAt(x: string, y: string)
    requires '\n' !in x
    ensures Split(TextPhase(x + "\n" + y), '\n') == CloseFirst(MarkupEach(Split(x + "\n" + y, '\n')))
  {
    TextPhaseFirstNewline(x, y);
    LineMarkupNoNewline(x);
    assert '\n' !in LineMarkup(x) + HeadingCloser;
    SplitFirst(LineMarkup(x) + HeadingCloser, '\n', LineMarkup(y));
    MarkupLines(y);
    SplitFirst(x, '\n', y);
    assert ([x] + Split(y, '\n'))[1..] == Split(y, '\n');
  }

  // ---------------------------------------------------------------------------
  // Line phase
  // ---------------------------------------------------------------------------

  /** A list line: stripped of surrounding whitespace, it starts with `- `. */
  predicate IsListLine(line: string) {
    StartsWith(PyStrip(line), "- ")
  }

  /** `<li>` + the stripped line without its `- ` + `</li>`. */
  function ListItem(line: string): string
    requires IsListLine(line)
  {
    "<li>" + PyStrip(line)[2..] + "</li>"
  }

  /**
   * What one line adds to the output: `inList` says whether a `<ul>` is
   * open. A list line opens one if needed and becomes an item; any other
   * line closes an open list and passes through.
   */
  function Emit(line: string, inList: bool): seq<string> {
    if IsListLine(line) then (if inList then [] else ["<ul>"]) + [ListItem(line)]
    else (if inList then ["</ul>"] else []) + [line]
  }

  /** The line phase, stated line by line; the end closes an open list. */
  function ListBlocks(lines: seq<string>, inList: bool): seq<string>
    decreases |lines|
  {
    if lines == [] then (if inList then ["</ul>"] else [])
    else Emit(lines[0], inList) + ListBlocks(lines[1..], IsListLine(lines[0]))
  }

  /** The loop over the lines with its `in_list` flag. */
  method ConvertLists(lines: seq<string>) returns (converted: seq<string>)
    ensures converted == ListBlocks(lines, false)
  {
    converted := [];
    var inList := false;
    for i := 0 to |lines|
      invariant converted + ListBlocks(lines[i..], inList) == ListBlocks(lines, false)
    {
      ghost var before, wasIn := converted, inList;
      ghost var rest := ListBlocks(lines[i + 1..], IsListLine(lines[i]));
      ListBlocksCons(lines, i, inList);
      converted, inList := ConvertLine(converted, inList, lines[i]);
      Lists.AppendAssoc(before, Emit(lines[i], wasIn), rest);
    }
    if inList {
      converted := converted + ["</ul>"];
    }
  }

  /** One turn of the loop: the line's output is appended and the flag updated. */
  method ConvertLine(converted: seq<string>, inList: bool, line: string) returns (converted': seq<string>, inList': bool)
    ensures converted' == converted + Emit(line, inList)
    ensures inList' == IsListLine(line)
  {
    converted', inList' := converted, inList;
    if IsListLine(line) {
      if !inList' {
        converted' := converted' + ["<ul>"];
        inList' := true;
      }
      converted' := converted' + [ListItem(line)];
    } else {
      if inList' {
        converted' := converted' + ["</ul>"];
        inList' := false;
      }
      converted' := converted' + [line];
    }
  }

  lemma ListBlocksCons(lines: seq<string>, i: nat, inList: bool)
    requires i < |lines|
    ensures ListBlocks(lines[i..], inList) == Emit(lines[i], inList) + ListBlocks(lines[i + 1..], IsListLine(lines[i]))
  {
    assert lines[i..][1..] == lines[i + 1..];
  }

  /** The converter's result, stated line by line. */
  function Converted(md: string): string {
    Join(ListBlocks(CloseFirst(MarkupEach(Split(md, '\n'))), false), '\n')
  }

  /** The converter: the text phase, a split into lines, the line loop, a join. */
  method ConvertMarkdown(md: string) returns (storage: string)
    ensures storage == Converted(md)
  {
    var content := TextPhase(md);
    var lines := Split(content, '\n');
    var converted := ConvertLists(lines);
    storage := Join(converted, '\n');
    TextPhaseByLines(md);
  }

  /** Number of list runs that begin in `lines` (a run continuing from before does not count). */
  function RunStarts(lines: seq<string>, inList: bool): nat
    decreases |lines|
  {
    if lines == [] then 0
    else (if IsListLine(lines[0]) && !inList then 1 else 0) + RunStarts(lines[1..], IsListLine(lines[0]))
  }

  /** Every run adds exactly two lines, `<ul>` and `</ul>`; an open list adds its `</ul>`. */
  lemma {:induction false} ListBlocksLength(lines: seq<string>, inList: bool)
    ensures |ListBlocks(lines, inList)| == |lines| + 2 * RunStarts(lines, inList) + (if inList then 1 else 0)
    decreases |lines|
  {
    if lines != [] {
      ListBlocksLength(lines[1..], IsListLine(lines[0]));
    }
  }

  /** Lines that are not list lines pass through the line phase unchanged. */
  lemma {:induction false} ListBlocksPlain(lines: seq<string>)
    requires forall i :: 0 <= i < |lines| ==> !IsListLine(lines[i])
    ensures ListBlocks(lines, false) == lines
    decreases |lines|
  {
    if lines != [] {
      ListBlocksPlain(lines[1..]);
      assert [lines[0]] + lines[1..] == lines;
    }
  }

  /** The `<li>` lines of a run of list lines. */
  function Items(run: seq<string>): (r: seq<string>)
    requires forall i :: 0 <= i < |run| ==> IsListLine(run[i])
    ensures |r| == |run|
    decreases |run|
  {
    if run == [] then [] else [ListItem(run[0])] + Items(run[1..])
  }

  /** Inside an open list, a run of list lines becomes its items, closed when the run ends. */
  lemma {:induction false} ListBlocksOpenRun(run: seq<string>, rest: seq<string>)
    requires forall i :: 0 <= i < |run| ==> IsListLine(run[i])
    requires rest == [] || !IsListLine(rest[0])
    ensures ListBlocks(run + rest, true) == Items(run) + ["</ul>"] + ListBlocks(rest, false)
    decreases |run|
  {
    if run == [] {
      assert run + rest == rest;
      CloseBeforePlain(rest);
    } else {
      var tail := run[1..];
      Lists.TailOfConcat(run, rest);
      ListBlocksOpenItem(run + rest);
      ListBlocksOpenRun(tail, rest);
      var li := [ListItem(run[0])];
      Lists.AppendAssoc(li, Items(tail), ["</ul>"]);
      Lists.AppendAssoc(li, Items(tail) + ["</ul>"], ListBlocks(rest, false));
    }
  }

  /** A list line inside an open list adds just its item. */
  lemma ListBlocksOpenItem(lines: seq<string>)
    requires lines != [] && IsListLine(lines[0])
    ensures ListBlocks(lines, true) == [ListItem(lines[0])] + ListBlocks(lines[1..], true)
  {
    assert Emit(lines[0], true) == [ListItem(lines[0])];
  }

  /** An open list is closed by the next line that is not a list line, or by the end. */
  lemma CloseBeforePlain(rest: seq<string>)
    requires rest == [] || !IsListLine(rest[0])
    ensures ListBlocks(rest, true) == ["</ul>"] + ListBlocks(rest, false)
  {
    if rest != [] {
      var t := ListBlocks(rest[1..], false);
      assert ListBlocks(rest, true) == ["</ul>"] + [rest[0]] + t;
      assert ListBlocks(rest, false) == [rest[0]] + t;
    }
  }

  /**
   * A maximal run of list lines becomes `<ul>`, one `<li>` per line in
   * order, and `</ul>`; this holds also when the run reaches the end.
   */
  lemma ListBlocksRun(run: seq<string>, rest: seq<string>)
    requires run != []
    requires forall i :: 0 <= i < |run| ==> IsListLine(run[i])
    requires rest == [] || !IsListLine(rest[0])
    ensures ListBlocks(run + rest, false) == ["<ul>"] + Items(run) + ["</ul>"] + ListBlocks(rest, false)
  {
    Lists.TailOfConcat(run, rest);
    ListBlocksOpenRun(run[1..], rest);
    var ul, li := ["<ul>"], [ListItem(run[0])];
    var items, close, after := Items(run[1..]), ["</ul>"], ListBlocks(rest, false);
    assert ListBlocks(run + rest, false) == (ul + li) + ((items + close) + after);
    assert Items(run) == li + items;
    RunRegroup(ul, li, items, close, after);
  }

  lemma RunRegroup(ul: seq<string>, li: seq<string>, items: seq<string>, close: seq<string>, after: seq<string>)
    ensures (ul + li) + ((items + close) + after) == ul + (li + items) + close + after
  {
  }

  /** A single line without `#`, a backtick or a dash comes through unchanged. */
  lemma PlainLineConversion(md: string)
    requires '\n' !in md && '#' !in md && '`' !in md && '-' !in md
    ensures Converted(md) == md
  {
    TextPhaseByLines(md);
    TextPhaseNoNewline(md);
    PlainLineMarkup(md);
    PlainLines(md);
  }

  /**
   * Text without `#`, a backtick or a dash keeps its characters, except that
   * the three closing tags land in front of the first newline.
   */
  lemma PlainTextConversion(x: string, y: string)
    requires '\n' !in x
    requires '#' !in x && '`' !in x && '-' !in x
    requires '#' !in y && '`' !in y && '-' !in y
    ensures Converted(x + "\n" + y) == x + HeadingCloser + "\n" + y
  {
    TextPhaseByLinesAt(x, y);
    PlainTextPhase(x, y);
    var content := x + HeadingCloser + "\n" + y;
    assert '-' !in content;
    PlainLines(content);
  }

  /** The text phase on plain text with a newline. */
  lemma PlainTextPhase(x: string, y: string)
    requires '\n' !in x
    requires '#' !in x && '`' !in x && '#' !in y && '`' !in y
    ensures TextPhase(x + "\n" + y) == x + HeadingCloser + "\n" + y
  {
    TextPhaseFirstNewline(x, y);
    PlainLineMarkup(x);
    PlainLineMarkup(y);
  }

  /** Without a dash no line is a list line, and the line phase gives the text back. */
  lemma PlainLines(content: string)
    requires '-' !in content
    ensures Join(ListBlocks(Split(content, '\n'), false), '\n') == content
  {
    var lines := Split(content, '\n');
    SplitPiecesWithout(content, '\n', '-');
    forall i | 0 <= i < |lines| ensures !IsListLine(lines[i]) {
      NoDashNoList(lines[i]);
    }
    ListBlocksPlain(lines);
    JoinSplit(content, '\n');
  }

  /** Text without `#` or a backtick is left alone by the replacements. */
  lemma PlainLineMarkup(s: string)
    requires '#' !in s && '`' !in s
    ensures LineMarkup(s) == s
  {
    ReplaceAllNoStart(s, "### ", "<h3>");
    ReplaceAllNoStart(s, "## ", "<h2>");
    ReplaceAllNoStart(s, "# ", "<h1>");
    ReplaceAllNoStart(s, "```", "<code>");
  }

  lemma NoDashNoList(line: string)
    requires '-' !in line
    ensures !IsListLine(line)
  {
    PyStripKeepsOut(line, '-');
    if |PyStrip(line)| >= 2 {
      assert PyStrip(line)[0] in PyStrip(line);
    }
  }

  lemma {:induction false} SplitPiecesWithout(s: string, sep: char, c: char)
    requires c !in s
    ensures forall i :: 0 <= i < |Split(s, sep)| ==> c !in Split(s, sep)[i]
    decreases |s|
  {
    if s != [] {
      SplitPiecesWithout(s[1..], sep, c);
    }
  }

  // ---------------------------------------------------------------------------
  // Create-or-update decision
  // ---------------------------------------------------------------------------

  const SpaceKey: string := "GAILP"

  /** The requests sent to the wiki, in order. */
  datatype WikiRequest =
    | FindPage(title: string)
    | FetchPage(pageId: string)
    | UpdatePage(pageId: string, title: string, body: string, version: int)
    | CreatePage(title: string, body: string, space: string, ancestors: seq<string>)

  /**
   * What the outside world answers for one document: whether the file
   * exists, its text (None when reading fails), the id the title lookup
   * returns (None when nothing is found, the answer is not 200 or the
   * request fails) and the current version (None when that request is not
   * answered with 200 or fails).
   */
  datatype DocumentWorld = DocumentWorld(
    fileExists: bool,
    fileText: Option<string>,
    foundPageId: Option<string>,
    currentVersion: Option<int>)

  /** Python truthiness of an optional string. */
  predicate Truthy(s: Option<string>) {
    s.Some? && s.value != ""
  }

  /** The requests `create_or_update_page` sends for one document. */
  function SyncDocument(token: string, title: string, parentId: Option<string>, w: DocumentWorld): (sent: seq<WikiRequest>)
    ensures !w.fileExists ==> sent == []
    ensures token == "" ==> sent == []
    ensures sent != [] ==> sent[0] == FindPage(title) && |sent| <= 3
    ensures forall i :: 0 <= i < |sent| ==> sent[i].UpdatePage? ==>
              w.currentVersion.Some? && sent[i].version == w.currentVersion.value + 1
    ensures forall i :: 0 <= i < |sent| ==> sent[i].CreatePage? ==>
              !Truthy(w.foundPageId) && (sent[i].ancestors != [] <==> Truthy(parentId))
              && w.fileText.Some? && sent[i].title == title && sent[i].body == Converted(w.fileText.value)
              && sent[i].space == SpaceKey
  {
    if !w.fileExists then []
    else if token == "" then []
    else if w.fileText.None? then []
    else
      var body := Converted(w.fileText.value);
      if Truthy(w.foundPageId) then
        var id := w.foundPageId.value;
        [FindPage(title), FetchPage(id)]
        + (if w.currentVersion.Some? then [UpdatePage(id, title, body, w.currentVersion.value + 1)] else [])
      else
        [FindPage(title), CreatePage(title, body, SpaceKey, if Truthy(parentId) then [parentId.value] else [])]
  }

  /** An existing page is updated exactly when its version could be read; a missing one is created. */
  lemma SyncDocumentWrites(token: string, title: string, parentId: Option<string>, w: DocumentWorld)
    requires w.fileExists && token != "" && w.fileText.Some?
    ensures Truthy(w.foundPageId) && w.currentVersion.Some? ==>
      SyncDocument(token, title, parentId, w)[|SyncDocument(token, title, parentId, w)| - 1]
        == UpdatePage(w.foundPageId.value, title, Converted(w.fileText.value), w.currentVersion.value + 1)
    ensures !Truthy(w.foundPageId) ==>
      SyncDocument(token, title, parentId, w)[|SyncDocument(token, title, parentId, w)| - 1]
        == CreatePage(title, Converted(w.fileText.value), SpaceKey, if Truthy(parentId) then [parentId.value] else [])
    ensures Truthy(w.foundPageId) && w.currentVersion.None? ==>
      forall i :: 0 <= i < |SyncDocument(token, title, parentId, w)| ==>
        !SyncDocument(token, title, parentId, w)[i].UpdatePage? && !SyncDocument(token, title, parentId, w)[i].CreatePage?
  {
  }

  datatype DocumentEntry = DocumentEntry(file: string, title: string, parent: Option<string>)

  /** The documents the script syncs; none has a parent page. */
  const Documents: seq<DocumentEntry> := [
    DocumentEntry("AGENT-BRIEFING.md", "GAILP - Agent Briefing", None),
    DocumentEntry("CURRENT-WORK.md", "GAILP - Current Work", None),
    DocumentEntry("REMAINING-UI-TASKS.md", "GAILP - Remaining UI Tasks", None),
    DocumentEntry("README.md", "GAILP - Project README", None),
    DocumentEntry("MINOR-RELEASE-PLAN.md", "GAILP - Minor Release Plan", None)
  ]

  /** `main`: without a token nothing is sent; otherwise each document in turn. */
  function SyncAll(token: string, docs: seq<DocumentEntry>, worlds: seq<DocumentWorld>): (sent: seq<WikiRequest>)
    requires |worlds| == |docs|
    ensures token == "" ==> sent == []
    decreases |docs|
  {
    if token == "" || docs == [] then []
    else SyncDocument(token, docs[0].title, docs[0].parent, worlds[0]) + SyncAll(token, docs[1..], worlds[1..])
  }

  /** Syncing the script's own documents never sends an ancestor. */
  lemma {:induction false} SyncAllNoAncestors(token: string, docs: seq<DocumentEntry>, worlds: seq<DocumentWorld>)
    requires |worlds| == |docs|
    requires forall i :: 0 <= i < |docs| ==> docs[i].parent == None
    ensures forall r | r in SyncAll(token, docs, worlds) :: r.CreatePage? ==> r.ancestors == []
    decreases |docs|
  {
    if token != "" && docs != [] {
      SyncAllNoAncestors(token, docs[1..], worlds[1..]);
      var first := SyncDocument(token, docs[0].title, docs[0].parent, worlds[0]);
      forall r | r in first && r.CreatePage? ensures r.ancestors == [] {
        var i :| 0 <= i < |first| && first[i] == r;
      }
    }
  }

  lemma ScriptDocumentsNoAncestors(token: string, worlds: seq<DocumentWorld>)
    requires |worlds| == |Documents|
    ensures forall r | r in SyncAll(token, Documents, worlds) :: r.CreatePage? ==> r.ancestors == []
  {
    SyncAllNoAncestors(token, Documents, worlds);
  }
}
