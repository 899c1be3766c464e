/** Reports: issues grouped by severity, and the Markdown and console
    reports built from the groups.

    A report is modelled as a sequence of `Line` values, each standing for
    one element of the source's `lines` list; the report text is their
    renderings joined with line breaks. Where the source appends an entry
    that begins or ends with a line break (`"...\n"`), the model has a
    `Blank` line before or after it, which gives the same text once
    joined. */
module Reports {
  import opened Wrappers
  import opened Text
  import opened Issues

  // ---------------------------------------------------------- categorising

  /** The issues of one severity, in their input order. */
  function Filter(issues: seq<Issue>, s: Severity): (r: seq<Issue>)
    ensures |r| <= |issues|
  {
    if |issues| == 0 then []
    else
      var last := issues[|issues| - 1];
      Filter(issues[..|issues| - 1], s) + (if last.severity == s then [last] else [])
  }

  /** Filtering distributes over concatenation: the issues of `a` come
      before those of `b` in each bucket, so the grouping is stable. */
  lemma {:induction false} FilterAppend(a: seq<Issue>, b: seq<Issue>, s: Severity)
    ensures Filter(a + b, s) == Filter(a, s) + Filter(b, s)
    decreases |b|
  {
    if |b| == 0 {
      assert a + b == a;
    } else {
      var b' := b[..|b| - 1];
      assert (a + b)[..|a + b| - 1] == a + b';
      assert (a + b)[|a + b| - 1] == b[|b| - 1];
      FilterAppend(a, b', s);
    }
  }

  /** A bucket holds exactly the issues of its severity. */
  lemma {:induction false} FilterMembers(issues: seq<Issue>, s: Severity, i: Issue)
    ensures i in Filter(issues, s) <==> i in issues && i.severity == s
    decreases |issues|
  {
    if |issues| > 0 {
      var init := issues[..|issues| - 1];
      FilterMembers(init, s, i);
      assert issues == init + [issues[|issues| - 1]];
    }
  }

  /** The three buckets together are a rearrangement of the input. */
  lemma {:induction false} BucketsPermutation(issues: seq<Issue>)
    ensures multiset(Filter(issues, Critical)) + multiset(Filter(issues, Warning))
              + multiset(Filter(issues, Info)) == multiset(issues)
    decreases |issues|
  {
    if |issues| > 0 {
      var init := issues[..|issues| - 1];
      var last := issues[|issues| - 1];
      BucketsPermutation(init);
      assert issues == init + [last];
      FilterStep(issues, Critical);
      FilterStep(issues, Warning);
      FilterStep(issues, Info);
    }
  }

  /** One step of `Filter`: the last issue joins its own bucket only. */
  lemma FilterStep(issues: seq<Issue>, s: Severity)
    requires |issues| > 0
    ensures multiset(Filter(issues, s))
      == multiset(Filter(issues[..|issues| - 1], s))
         + (if issues[|issues| - 1].severity == s then multiset{issues[|issues| - 1]} else multiset{})
  {
  }

  /** So the three bucket sizes add up to the number of issues. */
  lemma BucketSizes(issues: seq<Issue>)
    ensures |Filter(issues, Critical)| + |Filter(issues, Warning)| + |Filter(issues, Info)|
              == |issues|
  {
    BucketsPermutation(issues);
    assert |multiset(Filter(issues, Critical)) + multiset(Filter(issues, Warning))
              + multiset(Filter(issues, Info))| == |multiset(issues)|;
  }

  /** `categorized[s]` on the `defaultdict`: a severity no issue had reads
      as the empty list. */
  function Bucket(categorized: map<Severity, seq<Issue>>, s: Severity): seq<Issue>
  {
    if s in categorized then categorized[s] else []
  }

  /** `_categorize_issues`: one pass appending each issue to the list of its
      severity. The dictionary has a key for each severity that occurs. */
  method CategorizeIssues(issues: seq<Issue>) returns (categorized: map<Severity, seq<Issue>>)
    ensures forall s :: Bucket(categorized, s) == Filter(issues, s)
    ensures forall s :: s in categorized <==> exists k :: 0 <= k < |issues| && issues[k].severity == s
  {
    categorized := map[];
    for k := 0 to |issues|
      invariant forall s :: Bucket(categorized, s) == Filter(issues[..k], s)
      invariant forall s :: s in categorized <==> exists j :: 0 <= j < k && issues[j].severity == s
    {
      var issue := issues[k];
      categorized := categorized[issue.severity := Bucket(categorized, issue.severity) + [issue]];
      forall s
        ensures Bucket(categorized, s) == Filter(issues[..k + 1], s)
      {
        FilterPrefixStep(issues, k, s);
      }
      forall s
        ensures s in categorized <==> exists j :: 0 <= j < k + 1 && issues[j].severity == s
      {
        if s == issue.severity {
          assert issues[k].severity == s;
        }
      }
    }
    assert issues[..|issues|] == issues;
  }

  lemma FilterPrefixStep(issues: seq<Issue>, k: nat, s: Severity)
    requires k < |issues|
    ensures Filter(issues[..k + 1], s)
      == Filter(issues[..k], s) + (if issues[k].severity == s then [issues[k]] else [])
  {
    assert issues[..k + 1][..k] == issues[..k];
  }

  // ---------------------------------------------------------------- lines

  datatype Format = Markdown | Console

  /** One line of report text. */
  datatype Line =
    | Blank
    // Markdown summary block
    | ReportTitle(projectName: string)
    | SummaryHeading
    | InspectedAt(timestamp: string)
    | Targets
    | Counts(critical: nat, warning: nat, info: nat)
    // console summary block
    | Banner
    | TotalLine(total: nat)
    | CountLine(severity: Severity, count: nat)
    // both reports
    | SectionHeading(severity: Severity)
    | IssueHeading(severity: Severity, id: string, title: string)
    | FileLine(location: Location)
    | DetailLine(description: string)
    | SuggestionLine(suggestion: string)
    | RelatedLine(ids: seq<string>)

  /** The lines that describe one issue (as opposed to headings and the
      summary). */
  predicate IsEntryLine(l: Line) {
    l.IssueHeading? || l.FileLine? || l.DetailLine? || l.SuggestionLine? || l.RelatedLine?
  }

  /** The lines for one issue. Markdown follows the issue heading with a
      blank line and ends the issue with one; the console starts each
      issue with one. The suggestion is shown only when present and
      non-empty, the related ids only where asked for and only when there
      are some. */
  function Entry(f: Format, i: Issue, withRelated: bool): seq<Line>
  {
    (if f == Console then [Blank] else [])
    + [IssueHeading(i.severity, i.id, i.title)]
    + (if f == Markdown then [Blank] else [])
    + [FileLine(i.location), DetailLine(i.description)]
    + (if HasText(i.suggestion) then [SuggestionLine(i.suggestion.value)] else [])
    + (if withRelated && |i.relatedReqIds| > 0 then [RelatedLine(i.relatedReqIds)] else [])
    + (if f == Markdown then [Blank] else [])
  }

  /** Line `l` of an issue block tells something true of issue `i`. */
  predicate Describes(l: Line, i: Issue, withRelated: bool) {
    match l
    case Blank => true
    case IssueHeading(sev, id, title) => sev == i.severity && id == i.id && title == i.title
    case FileLine(loc) => loc == i.location
    case DetailLine(d) => d == i.description
    case SuggestionLine(text) => HasText(i.suggestion) && text == i.suggestion.value
    case RelatedLine(ids) => withRelated && ids == i.relatedReqIds && |ids| > 0
    case _ => false
  }

  /** An issue's block shows its heading, its file and its detail. */
  lemma EntryShows(f: Format, i: Issue, withRelated: bool)
    ensures IssueHeading(i.severity, i.id, i.title) in Entry(f, i, withRelated)
    ensures FileLine(i.location) in Entry(f, i, withRelated) && DetailLine(i.description) in Entry(f, i, withRelated)
  {
    EntrySplit(f, i, withRelated);
    HeadDescribes(f, i, withRelated);
    InThree(EntryHead(f, i), [FileLine(i.location), DetailLine(i.description)], EntryTail(f, i, withRelated));
  }

  /** Every line of an issue's block is blank or true of the issue: no
      other issue's data, and no summary or section line, gets in. */
  lemma EntryDescribes(f: Format, i: Issue, withRelated: bool)
    ensures forall l :: l in Entry(f, i, withRelated) ==> Describes(l, i, withRelated)
  {
    var head := EntryHead(f, i);
    var tail := EntryTail(f, i, withRelated);
    EntrySplit(f, i, withRelated);
    HeadDescribes(f, i, withRelated);
    TailDescribes(f, i, withRelated);
    var body := [FileLine(i.location), DetailLine(i.description)];
    InThree(head, body, tail);
  }

  /** A line of a three-part block is in one of the parts. */
  lemma InThree(a: seq<Line>, b: seq<Line>, c: seq<Line>)
    ensures forall l :: l in a + b + c <==> l in a || l in b || l in c
  {
  }

  /** The block's lines up to its heading's trailing blank. */
  function EntryHead(f: Format, i: Issue): seq<Line> {
    (if f == Console then [Blank] else []) + [IssueHeading(i.severity, i.id, i.title)] + (if f == Markdown then [Blank] else [])
  }

  /** The block's lines after the detail line. */
  function EntryTail(f: Format, i: Issue, withRelated: bool): seq<Line> {
    (if HasText(i.suggestion) then [SuggestionLine(i.suggestion.value)] else [])
    + (if withRelated && |i.relatedReqIds| > 0 then [RelatedLine(i.relatedReqIds)] else [])
    + (if f == Markdown then [Blank] else [])
  }

  lemma EntrySplit(f: Format, i: Issue, withRelated: bool)
    ensures Entry(f, i, withRelated) == EntryHead(f, i) + [FileLine(i.location), DetailLine(i.description)] + EntryTail(f, i, withRelated)
  {
    var a := EntryHead(f, i);
    var b := [FileLine(i.location), DetailLine(i.description)];
    var c := if HasText(i.suggestion) then [SuggestionLine(i.suggestion.value)] else [];
    var d := if withRelated && |i.relatedReqIds| > 0 then [RelatedLine(i.relatedReqIds)] else [];
    var e := if f == Markdown then [Blank] else [];
    assert ((a + b) + c + d) + e == (a + b) + (c + d + e);
  }

  lemma HeadDescribes(f: Format, i: Issue, withRelated: bool)
    ensures IssueHeading(i.severity, i.id, i.title) in EntryHead(f, i)
    ensures forall l :: l in EntryHead(f, i) ==> Describes(l, i, withRelated)
  {
  }

  lemma TailDescribes(f: Format, i: Issue, withRelated: bool)
    ensures forall l :: l in EntryTail(f, i, withRelated) ==> Describes(l, i, withRelated)
  {
  }

  /** The entries of a bucket, in bucket order. */
  function Entries(f: Format, bucket: seq<Issue>, withRelated: bool): seq<Line>
  {
    if |bucket| == 0 then []
    else Entries(f, bucket[..|bucket| - 1], withRelated) + Entry(f, bucket[|bucket| - 1], withRelated)
  }

  /** The heading block of a severity section. */
  function Opening(f: Format, s: Severity): seq<Line>
  {
    match f
    case Markdown => [SectionHeading(s), Blank]
    case Console => (if s == Critical then [] else [Blank]) + [SectionHeading(s)]
  }

  /** A severity section: absent when the bucket is empty. Only the Markdown
      Critical section lists related requirement ids. */
  function Section(f: Format, issues: seq<Issue>, s: Severity): seq<Line>
  {
    var bucket := Filter(issues, s);
    if |bucket| == 0 then []
    else Opening(f, s) + Entries(f, bucket, f == Markdown && s == Critical)
  }

  function MarkdownHeader(issues: seq<Issue>, projectName: string, now: string): seq<Line>
  {
    [ReportTitle(projectName), Blank, SummaryHeading, Blank, InspectedAt(now), Targets,
     Counts(|Filter(issues, Critical)|, |Filter(issues, Warning)|, |Filter(issues, Info)|), Blank]
  }

  function ConsoleHeader(issues: seq<Issue>): seq<Line>
  {
    [Blank, Banner, TotalLine(|issues|),
     CountLine(Critical, |Filter(issues, Critical)|),
     CountLine(Warning, |Filter(issues, Warning)|),
     CountLine(Info, |Filter(issues, Info)|), Blank]
  }

  /** The lines of `generate_markdown`; `now` is the formatted clock
      reading. */
  function MarkdownLines(issues: seq<Issue>, projectName: string, now: string): seq<Line>
  {
    MarkdownHeader(issues, projectName, now)
    + Section(Markdown, issues, Critical) + Section(Markdown, issues, Warning)
    + Section(Markdown, issues, Info)
  }

  /** The lines of `generate_console_output`. */
  function ConsoleLines(issues: seq<Issue>): seq<Line>
  {
    ConsoleHeader(issues)
    + Section(Console, issues, Critical) + Section(Console, issues, Warning)
    + Section(Console, issues, Info)
  }

  // -------------------------------------------------------------- rendering

  const Reset := "\U{1B}[0m"
  const Bold := "\U{1B}[1m"

  function Colour(s: Severity): string
  {
    match s
    case Critical => "\U{1B}[91m"
    case Warning => "\U{1B}[93m"
    case Info => "\U{1B}[94m"
  }

  function RenderMarkdown(l: Line): string
  {
    match l
    case ReportTitle(name) => "# spec-inspect レポート - " + name
    case SummaryHeading => "## 検査サマリー"
    case InspectedAt(t) => "- 検査日時: " + t
    case Targets => "- 検査対象: requirement.md, design.md, tasks.md"
    case Counts(c, w, i) =>
      "- 検出問題数: **Critical: " + Decimal(c) + ", Warning: " + Decimal(w)
      + ", Info: " + Decimal(i) + "**"
    case SectionHeading(Critical) => "## ⛔ Critical Issues (実装ブロッカー)"
    case SectionHeading(Warning) => "## ⚠\U{FE0F} Warnings (要確認事項)"
    case SectionHeading(Info) => "## ℹ\U{FE0F} Info (改善推奨)"
    case IssueHeading(_, id, title) => "### [" + id + "] " + title
    case FileLine(loc) => "- **ファイル**: `" + LocationString(loc) + "`"
    case DetailLine(d) => "- **詳細**: " + d
    case SuggestionLine(s) => "- **修正提案**: " + s
    case RelatedLine(ids) => "- **関連要件**: " + Join(ids, ", ")
    case _ => ""
  }

  function RenderConsole(l: Line): string
  {
    match l
    case Banner => Bold + "検査結果サマリー" + Reset
    case TotalLine(n) => "  Total: " + Decimal(n) + " issues"
    case CountLine(Critical, n) => "  " + Colour(Critical) + "⛔ Critical: " + Decimal(n) + Reset
    case CountLine(Warning, n) => "  " + Colour(Warning) + "⚠\U{FE0F}  Warning: " + Decimal(n) + Reset
    case CountLine(Info, n) => "  " + Colour(Info) + "ℹ\U{FE0F}  Info: " + Decimal(n) + Reset
    case SectionHeading(Critical) => Colour(Critical) + Bold + "⛔ CRITICAL ISSUES" + Reset
    case SectionHeading(Warning) => Colour(Warning) + Bold + "⚠\U{FE0F}  WARNINGS" + Reset
    case SectionHeading(Info) => Colour(Info) + Bold + "ℹ\U{FE0F}  INFO" + Reset
    case IssueHeading(s, id, title) => Colour(s) + "[" + id + "] " + title + Reset
    case FileLine(loc) => "  📄 " + LocationString(loc)
    case DetailLine(d) => "  " + d
    case SuggestionLine(s) => "  💡 " + s
    case _ => ""
  }

  /** The report text: the rendered lines joined with line breaks. */
  function Render(f: Format, lines: seq<Line>): string
  {
    Join(seq(|lines|, k requires 0 <= k < |lines| =>
      if f == Markdown then RenderMarkdown(lines[k]) else RenderConsole(lines[k])), "\n")
  }

  // ------------------------------------------------------------ generators

  /** The block for one issue: the heading, location and description, the
      suggestion when there is one, and the related ids where asked for.
      For the console this is `_format_console_issue`. */
  method FormatIssue(f: Format, issue: Issue, withRelated: bool) returns (block: seq<Line>)
    ensures block == Entry(f, issue, withRelated)
  {
    block := if f == Console then [Blank] else [];
    block := block + [IssueHeading(issue.severity, issue.id, issue.title)];
    if f == Markdown {
      block := block + [Blank];
    }
    block := block + [FileLine(issue.location), DetailLine(issue.description)];
    if HasText(issue.suggestion) {
      block := block + [SuggestionLine(issue.suggestion.value)];
    }
    if withRelated && |issue.relatedReqIds| > 0 {
      block := block + [RelatedLine(issue.relatedReqIds)];
    }
    if f == Markdown {
      block := block + [Blank];
    }
  }

  /** Appends the blocks of one bucket, issue by issue. */
  method AppendEntries(lines: seq<Line>, f: Format, bucket: seq<Issue>, withRelated: bool)
    returns (out: seq<Line>)
    ensures out == lines + Entries(f, bucket, withRelated)
  {
    out := lines;
    ghost var done: seq<Line> := [];
    for k := 0 to |bucket|
      invariant done == Entries(f, bucket[..k], withRelated)
      invariant out == lines + done
    {
      var block := FormatIssue(f, bucket[k], withRelated);
      EntriesStep(f, bucket, withRelated, k);
      AppendAssoc(lines, done, block);
      out := out + block;
      done := done + block;
    }
    assert bucket[..|bucket|] == bucket;
  }

  lemma AppendAssoc(a: seq<Line>, b: seq<Line>, c: seq<Line>)
    ensures a + b + c == a + (b + c)
  {
  }

  /** One more issue adds its block at the end. */
  lemma EntriesStep(f: Format, bucket: seq<Issue>, withRelated: bool, k: nat)
    requires k < |bucket|
    ensures Entries(f, bucket[..k + 1], withRelated)
      == Entries(f, bucket[..k], withRelated) + Entry(f, bucket[k], withRelated)
  {
    assert bucket[..k + 1][..k] == bucket[..k];
  }

  /** Appends one severity section when its bucket is non-empty. */
  method AppendSection(lines: seq<Line>, f: Format, categorized: map<Severity, seq<Issue>>,
                       issues: seq<Issue>, s: Severity)
    returns (out: seq<Line>)
    requires forall s :: Bucket(categorized, s) == Filter(issues, s)
    ensures out == lines + Section(f, issues, s)
  {
    var bucket := Bucket(categorized, s);
    assert bucket == Filter(issues, s);
    out := lines;
    if |bucket| > 0 {
      out := out + Opening(f, s);
      out := AppendEntries(out, f, bucket, f == Markdown && s == Critical);
      AppendAssoc(lines, Opening(f, s), Entries(f, bucket, f == Markdown && s == Critical));
    } else {
      assert lines + [] == lines;
    }
  }

  /** `generate_markdown`. */
  method GenerateMarkdown(issues: seq<Issue>, projectName: string, now: string)
    returns (report: string)
    ensures report == Render(Markdown, MarkdownLines(issues, projectName, now))
  {
    var categorized := CategorizeIssues(issues);
    var critical := |Bucket(categorized, Critical)|;
    var warning := |Bucket(categorized, Warning)|;
    var info := |Bucket(categorized, Info)|;
    var lines := [ReportTitle(projectName), Blank, SummaryHeading, Blank, InspectedAt(now), Targets,
                  Counts(critical, warning, info), Blank];
    lines := AppendSection(lines, Markdown, categorized, issues, Critical);
    lines := AppendSection(lines, Markdown, categorized, issues, Warning);
    lines := AppendSection(lines, Markdown, categorized, issues, Info);
    report := Render(Markdown, lines);
  }

  /** `generate_console_output`. */
  method GenerateConsoleOutput(issues: seq<Issue>) returns (report: string)
    ensures report == Render(Console, ConsoleLines(issues))
  {
    var categorized := CategorizeIssues(issues);
    var lines := [Blank, Banner, TotalLine(|issues|),
                  CountLine(Critical, |Bucket(categorized, Critical)|),
                  CountLine(Warning, |Bucket(categorized, Warning)|),
                  CountLine(Info, |Bucket(categorized, Info)|), Blank];
    lines := AppendSection(lines, Console, categorized, issues, Critical);
    lines := AppendSection(lines, Console, categorized, issues, Warning);
    lines := AppendSection(lines, Console, categorized, issues, Info);
    report := Render(Console, lines);
  }

  // ------------------------------------------------------------ properties

  /** The severities of the section headings, in order. */
  function Headings(lines: seq<Line>): seq<Severity>
  {
    if |lines| == 0 then []
    else
      Headings(lines[..|lines| - 1])
      + (if lines[|lines| - 1].SectionHeading? then [lines[|lines| - 1].severity] else [])
  }

  lemma {:induction false} HeadingsAppend(a: seq<Line>, b: seq<Line>)
    ensures Headings(a + b) == Headings(a) + Headings(b)
    decreases |b|
  {
    if |b| == 0 {
      assert a + b == a;
    } else {
      var b' := b[..|b| - 1];
      assert (a + b)[..|a + b| - 1] == a + b';
      assert (a + b)[|a + b| - 1] == b[|b| - 1];
      HeadingsAppend(a, b');
    }
  }

  /** Lines with no section heading among them contribute no heading. */
  lemma {:induction false} NoHeadingIn(lines: seq<Line>)
    requires forall l :: l in lines ==> !l.SectionHeading?
    ensures Headings(lines) == []
    decreases |lines|
  {
    if |lines| > 0 {
      assert lines[|lines| - 1] in lines;
      NoHeadingIn(lines[..|lines| - 1]);
    }
  }

  lemma {:induction false} EntriesNoHeading(f: Format, bucket: seq<Issue>, withRelated: bool)
    ensures forall l :: l in Entries(f, bucket, withRelated) ==> !l.SectionHeading?
    decreases |bucket|
  {
    if |bucket| > 0 {
      EntriesNoHeading(f, bucket[..|bucket| - 1], withRelated);
    }
  }

  /** A section's opening block holds its one heading. */
  lemma OpeningHeadings(f: Format, s: Severity)
    ensures Headings(Opening(f, s)) == [s]
  {
    var h := [SectionHeading(s)];
    assert h[..0] == [];
    assert Headings(h) == [s];
    if f == Markdown {
      HeadingsAppend(h, [Blank]);
      assert [Blank][..0] == [];
    } else if s != Critical {
      HeadingsAppend([Blank], h);
      assert [Blank][..0] == [];
    }
  }

  /** The heading of a section, when shown, is its only heading. */
  lemma SectionHeadings(f: Format, issues: seq<Issue>, s: Severity)
    ensures Headings(Section(f, issues, s)) == Shown(issues, s)
  {
    var bucket := Filter(issues, s);
    if |bucket| > 0 {
      var withRelated := f == Markdown && s == Critical;
      HeadingsAppend(Opening(f, s), Entries(f, bucket, withRelated));
      EntriesNoHeading(f, bucket, withRelated);
      NoHeadingIn(Entries(f, bucket, withRelated));
      OpeningHeadings(f, s);
    }
  }

  /** A bucket is non-empty exactly when some issue has that severity. */
  lemma Occurs(issues: seq<Issue>, s: Severity)
    ensures |Filter(issues, s)| > 0 <==> exists i :: i in issues && i.severity == s
  {
    if exists i :: i in issues && i.severity == s {
      var i :| i in issues && i.severity == s;
      FilterMembers(issues, s, i);
    }
    if |Filter(issues, s)| > 0 {
      FilterMembers(issues, s, Filter(issues, s)[0]);
    }
  }

  /** A severity, listed when some issue has it. */
  function Shown(issues: seq<Issue>, s: Severity): seq<Severity>
  {
    if |Filter(issues, s)| > 0 then [s] else []
  }

  /** The severities that occur, in the order Critical, Warning, Info. */
  function Present(issues: seq<Issue>): seq<Severity>
  {
    Shown(issues, Critical) + Shown(issues, Warning) + Shown(issues, Info)
  }

  /** A severity is listed exactly when some issue has it. */
  lemma PresentMeaning(issues: seq<Issue>, s: Severity)
    ensures s in Present(issues) <==> exists i :: i in issues && i.severity == s
  {
    Occurs(issues, s);
  }

  lemma HeadingsOfFour(a: seq<Line>, b: seq<Line>, c: seq<Line>, d: seq<Line>)
    ensures Headings(a + b + c + d) == Headings(a) + Headings(b) + Headings(c) + Headings(d)
  {
    HeadingsAppend(a, b);
    HeadingsAppend(a + b, c);
    HeadingsAppend(a + b + c, d);
  }

  /** A report made of a heading-free summary block and the three sections
      has one heading per severity that occurs, in severity order. */
  lemma ReportHeadings(f: Format, header: seq<Line>, issues: seq<Issue>)
    requires Headings(header) == []
    ensures Headings(header + Section(f, issues, Critical) + Section(f, issues, Warning)
                     + Section(f, issues, Info)) == Present(issues)
  {
    SectionHeadings(f, issues, Critical);
    SectionHeadings(f, issues, Warning);
    SectionHeadings(f, issues, Info);
    HeadingsOfFour(header, Section(f, issues, Critical), Section(f, issues, Warning),
                   Section(f, issues, Info));
    assert [] + Shown(issues, Critical) == Shown(issues, Critical);
  }

  /** Exactly the severities that occur get a Markdown section, in the
      order Critical, Warning, Info. */
  lemma MarkdownSectionOrder(issues: seq<Issue>, projectName: string, now: string)
    ensures Headings(MarkdownLines(issues, projectName, now)) == Present(issues)
  {
    var h := MarkdownHeader(issues, projectName, now);
    NoHeadingIn(h);
    ReportHeadings(Markdown, h, issues);
  }

  /** Exactly the severities that occur get a console section, in the same
      order. */
  lemma ConsoleSectionOrder(issues: seq<Issue>)
    ensures Headings(ConsoleLines(issues)) == Present(issues)
  {
    var h := ConsoleHeader(issues);
    NoHeadingIn(h);
    ReportHeadings(Console, h, issues);
  }

  /** An issue line is in a bucket's entries exactly when it is in the entry
      of one of the bucket's issues. */
  lemma {:induction false} EntriesMembers(f: Format, bucket: seq<Issue>, withRelated: bool, l: Line)
    ensures l in Entries(f, bucket, withRelated) <==>
      exists i :: i in bucket && l in Entry(f, i, withRelated)
    decreases |bucket|
  {
    if |bucket| > 0 {
      var init := bucket[..|bucket| - 1];
      EntriesMembers(f, init, withRelated, l);
      assert bucket == init + [bucket[|bucket| - 1]];
    }
  }

  /** An issue line is in a severity's section exactly when it is in the
      block of an issue of that severity. */
  lemma SectionEntries(f: Format, issues: seq<Issue>, s: Severity, l: Line)
    requires IsEntryLine(l)
    ensures l in Section(f, issues, s) <==>
      exists i :: i in issues && i.severity == s && l in Entry(f, i, f == Markdown && s == Critical)
  {
    var bucket := Filter(issues, s);
    var withRelated := f == Markdown && s == Critical;
    EntriesMembers(f, bucket, withRelated, l);
    forall i ensures i in bucket <==> i in issues && i.severity == s {
      FilterMembers(issues, s, i);
    }
  }

  /** An issue line is in a report exactly when it is in the block of one
      of the issues, related ids being asked for only for Critical issues
      in Markdown. */
  lemma ReportEntries(f: Format, header: seq<Line>, issues: seq<Issue>, l: Line)
    requires IsEntryLine(l) && l !in header
    ensures l in header + Section(f, issues, Critical) + Section(f, issues, Warning)
                 + Section(f, issues, Info) <==>
      exists i :: i in issues && l in Entry(f, i, f == Markdown && i.severity == Critical)
  {
    SectionEntries(f, issues, Critical, l);
    SectionEntries(f, issues, Warning, l);
    SectionEntries(f, issues, Info, l);
  }

  /** A suggestion line is shown for an issue exactly when its suggestion is
      present and not empty. */
  lemma SuggestionShown(issues: seq<Issue>, projectName: string, now: string, text: string)
    ensures SuggestionLine(text) in MarkdownLines(issues, projectName, now) <==>
      exists i :: i in issues && i.suggestion == Some(text) && text != ""
    ensures SuggestionLine(text) in ConsoleLines(issues) <==>
      exists i :: i in issues && i.suggestion == Some(text) && text != ""
  {
    SuggestionInMarkdown(issues, projectName, now, text);
    SuggestionInConsole(issues, text);
  }

  lemma SuggestionInMarkdown(issues: seq<Issue>, projectName: string, now: string, text: string)
    ensures SuggestionLine(text) in MarkdownLines(issues, projectName, now) <==>
      exists i :: i in issues && i.suggestion == Some(text) && text != ""
  {
    ReportEntries(Markdown, MarkdownHeader(issues, projectName, now), issues, SuggestionLine(text));
  }

  lemma SuggestionInConsole(issues: seq<Issue>, text: string)
    ensures SuggestionLine(text) in ConsoleLines(issues) <==>
      exists i :: i in issues && i.suggestion == Some(text) && text != ""
  {
    ReportEntries(Console, ConsoleHeader(issues), issues, SuggestionLine(text));
  }

  /** The related-ids line is only in the Markdown report, only for
      Critical issues, and only for a non-empty list. */
  lemma RelatedShown(issues: seq<Issue>, projectName: string, now: string, ids: seq<string>)
    ensures RelatedLine(ids) in MarkdownLines(issues, projectName, now) <==>
      exists i :: i in issues && i.severity == Critical && i.relatedReqIds == ids && ids != []
    ensures RelatedLine(ids) !in ConsoleLines(issues)
  {
    RelatedInMarkdown(issues, projectName, now, ids);
    ReportEntries(Console, ConsoleHeader(issues), issues, RelatedLine(ids));
  }

  lemma RelatedInMarkdown(issues: seq<Issue>, projectName: string, now: string, ids: seq<string>)
    ensures RelatedLine(ids) in MarkdownLines(issues, projectName, now) <==>
      exists i :: i in issues && i.severity == Critical && i.relatedReqIds == ids && ids != []
  {
    ReportEntries(Markdown, MarkdownHeader(issues, projectName, now), issues, RelatedLine(ids));
  }

  /** Every issue gets its heading line, and no heading is invented. */
  lemma EveryIssueListed(issues: seq<Issue>, projectName: string, now: string,
                         s: Severity, id: string, title: string)
    ensures IssueHeading(s, id, title) in MarkdownLines(issues, projectName, now) <==>
      exists i :: i in issues && i.severity == s && i.id == id && i.title == title
    ensures IssueHeading(s, id, title) in ConsoleLines(issues) <==>
      exists i :: i in issues && i.severity == s && i.id == id && i.title == title
  {
    var l := IssueHeading(s, id, title);
    ReportEntries(Markdown, MarkdownHeader(issues, projectName, now), issues, l);
    ReportEntries(Console, ConsoleHeader(issues), issues, l);
  }

  /** A line of the summary block is where the block put it. */
  lemma InHeader(h: seq<Line>, c: seq<Line>, w: seq<Line>, i: seq<Line>, k: nat)
    requires k < |h|
    ensures (h + c + w + i)[k] == h[k]
  {
  }

  /** The Markdown summary reports the three bucket sizes, which add up to
      the number of issues. */
  lemma MarkdownSummary(issues: seq<Issue>, projectName: string, now: string)
    ensures var c := MarkdownLines(issues, projectName, now)[6];
      && c == Counts(|Filter(issues, Critical)|, |Filter(issues, Warning)|, |Filter(issues, Info)|)
      && c.critical + c.warning + c.info == |issues|
  {
    InHeader(MarkdownHeader(issues, projectName, now), Section(Markdown, issues, Critical),
             Section(Markdown, issues, Warning), Section(Markdown, issues, Info), 6);
    BucketSizes(issues);
  }

  /** The console summary shows the total and the three bucket sizes, which
      add up to it. */
  lemma ConsoleSummary(issues: seq<Issue>)
    ensures var lines := ConsoleLines(issues);
      && lines[2] == TotalLine(|issues|)
      && lines[3] == CountLine(Critical, |Filter(issues, Critical)|)
      && lines[4] == CountLine(Warning, |Filter(issues, Warning)|)
      && lines[5] == CountLine(Info, |Filter(issues, Info)|)
      && lines[3].count + lines[4].count + lines[5].count == lines[2].total
  {
    var h := ConsoleHeader(issues);
    var c := Section(Console, issues, Critical);
    var w := Section(Console, issues, Warning);
    var i := Section(Console, issues, Info);
    InHeader(h, c, w, i, 2);
    InHeader(h, c, w, i, 3);
    InHeader(h, c, w, i, 4);
    InHeader(h, c, w, i, 5);
    BucketSizes(issues);
  }
}
