/** The identifier cross-reference rule: identifiers referenced in the
    design or tasks document but not defined in the requirement document
    are Critical issues; defined identifiers referenced nowhere are Info
    issues. */
module RequirementIdRule {
  import opened Wrappers
  import opened Text
  import opened Issues
  import opened Documents
  import opened ParserIds
  import opened Enumeration

  // ----------------------------------------------------------- locations

  /** The first line, from `i` on, that contains `id` (`|lines|` if none). */
  function SearchFrom(lines: seq<string>, id: string, i: nat): (k: nat)
    requires i <= |lines|
    ensures i <= k <= |lines|
    decreases |lines| - i
  {
    if i == |lines| then i
    else if Contains(lines[i], id) then i
    else SearchFrom(lines, id, i + 1)
  }

  /** The line found holds `id`, and no line before it (from `i` on) does. */
  lemma {:induction false} SearchFromMeaning(lines: seq<string>, id: string, i: nat)
    requires i <= |lines|
    ensures var k := SearchFrom(lines, id, i);
      && (k < |lines| ==> Contains(lines[k], id))
      && forall j :: i <= j < k ==> !Contains(lines[j], id)
    decreases |lines| - i
  {
    if i < |lines| && !Contains(lines[i], id) {
      SearchFromMeaning(lines, id, i + 1);
    }
  }

  /** Where `_find_location` places `id` in `text`. */
  function LocationOf(id: string, text: string, file: string): Location
  {
    var lines := Split(text, '\n');
    var k := SearchFrom(lines, id, 0);
    Location(file, if k < |lines| then k else 0)
  }

  /** The location is in the file given, on the first line holding `id` as
      a substring, and on line 0 when no line does. */
  lemma LocationOfMeaning(id: string, text: string, file: string)
    ensures var loc := LocationOf(id, text, file); var lines := Split(text, '\n');
      && loc.file == file && loc.line < |lines|
      && ((exists j :: 0 <= j < |lines| && Contains(lines[j], id)) ==>
            Contains(lines[loc.line], id) && forall j :: 0 <= j < loc.line ==> !Contains(lines[j], id))
      && ((forall j :: 0 <= j < |lines| ==> !Contains(lines[j], id)) ==> loc.line == 0)
  {
    SearchFromMeaning(Split(text, '\n'), id, 0);
  }

  /** `_find_location`: a search loop with an early return. */
  method FindLocation(id: string, text: string, file: string) returns (loc: Location)
    ensures loc == LocationOf(id, text, file)
  {
    var lines := Split(text, '\n');
    var i := 0;
    while i < |lines|
      invariant 0 <= i <= |lines|
      invariant SearchFrom(lines, id, i) == SearchFrom(lines, id, 0)
    {
      if Contains(lines[i], id) {
        return Location(file, i);
      }
      i := i + 1;
    }
    return Location(file, 0);
  }

  /** An identifier has no line break in it. */
  lemma IdentifierOneLine(s: string)
    requires IsIdentifier(s)
    ensures '\n' !in s
  {
    var kind :| IsKind(kind) && IdShape(s, kind) && kind == (
      if IdShape(s, "REQ") then "REQ" else if IdShape(s, "NFR") then "NFR" else if IdShape(s, "CON") then "CON"
      else if IdShape(s, "ASM") then "ASM" else "T");
    forall i | 0 <= i < |s| ensures s[i] != '\n' {
      if 1 <= i < 1 + |kind| {
        assert s[i] == s[1..1 + |kind|][i - 1] == kind[i - 1];
      } else if 2 + |kind| <= i < |s| - 1 {
        assert s[i] == s[2 + |kind|..|s| - 1][i - 2 - |kind|];
      }
    }
  }

  /** For an identifier extracted from the text itself the fallback is
      never taken: the line found really contains it. */
  lemma FoundInOwnText(id: string, text: string, file: string)
    requires id in IdsIn(text)
    ensures Contains(Split(text, '\n')[LocationOf(id, text, file).line], id)
  {
    IdsInMeaning(text);
    IdentifierOneLine(id);
    LocationOfMeaning(id, text, file);
    var p: nat :| p <= |text| - |id| && OccursAt(text, id, p);
    SplitKeepsInfix(text, '\n', id, p);
  }

  // -------------------------------------------------------------- issues

  /** The two problems the rule reports, with the file each is found in. */
  datatype IdProblem = MissingIn(file: string) | Unreferenced {
    function File(): string {
      match this
      case MissingIn(f) => f
      case Unreferenced => "requirement.md"
    }
  }

  /** The issue reported for identifier `x` as the `n`-th of its severity. */
  function IdIssue(problem: IdProblem, x: string, n: nat, loc: Location): (r: Issue)
    ensures r.relatedReqIds == [x] && r.location == loc
    ensures r.severity == if problem.MissingIn? then Critical else Info
  {
    Issue(Label(problem, n), if problem.MissingIn? then Critical else Info,
      IdTitle(problem, x), IdDescription(problem, x), loc, Some(IdSuggestion(problem, x)), [x])
  }

  /** "CRITICAL-001", "CRITICAL-002", ... and "INFO-001", ... */
  function Label(problem: IdProblem, n: nat): string {
    (if problem.MissingIn? then CriticalPrefix else InfoPrefix) + ZeroPad3(n)
  }

  const CriticalPrefix := "CRITICAL-"
  const InfoPrefix := "INFO-"

  // The fixed parts of the rule's messages.
  const TitleLead := "Requirement ID "
  const MissingTitleTail := " does not exist"
  const UnreferencedTitleTail := " is not referenced"
  const ReferencedIn := " is referenced in "
  const NotDefinedTail := " but not defined in requirement.md"
  const UnreferencedTail := " is defined but not referenced in design.md or tasks.md"
  const AddLead := "Add "
  const FixReferenceIn := " to requirement.md or fix the reference in "
  const ObsoleteHint := "Is this requirement still needed? Consider removing if obsolete."

  function IdTitle(problem: IdProblem, x: string): string {
    match problem
    case MissingIn(_) => TitleLead + x + MissingTitleTail
    case Unreferenced => TitleLead + x + UnreferencedTitleTail
  }

  function IdDescription(problem: IdProblem, x: string): string {
    match problem
    case MissingIn(f) => x + ReferencedIn + f + NotDefinedTail
    case Unreferenced => x + UnreferencedTail
  }

  function IdSuggestion(problem: IdProblem, x: string): string {
    match problem
    case MissingIn(f) => AddLead + x + FixReferenceIn + f
    case Unreferenced => ObsoleteHint
  }

  /** The issue is one the `Issue` constructor accepts: its id and title
      are not empty. */
  lemma IdIssueAccepted(problem: IdProblem, x: string, n: nat, loc: Location)
    ensures NewIssue(Label(problem, n), if problem.MissingIn? then Critical else Info,
      IdTitle(problem, x), IdDescription(problem, x), loc, Some(IdSuggestion(problem, x)), Some([x]))
      == Ok(IdIssue(problem, x, n, loc))
  {
  }

  /** The identifier an issue is about: the first related identifier. */
  function Subject(i: Issue): string {
    if |i.relatedReqIds| > 0 then i.relatedReqIds[0] else ""
  }

  /** The issues for the identifiers of `order`, in that order, numbered
      consecutively from `start`, each placed where its identifier is
      found in `text`. */
  function IdIssues(order: seq<string>, problem: IdProblem, text: string, start: nat): (r: seq<Issue>)
    ensures |r| == |order|
  {
    seq(|order|, k requires 0 <= k < |order| =>
      IdIssue(problem, order[k], start + k, LocationOf(order[k], text, problem.File())))
  }

  lemma IdIssuesAppend(order: seq<string>, x: string, problem: IdProblem, text: string, start: nat)
    ensures IdIssues(order + [x], problem, text, start) ==
      IdIssues(order, problem, text, start) + [IdIssue(problem, x, start + |order|, LocationOf(x, text, problem.File()))]
  {
    var a := IdIssues(order + [x], problem, text, start);
    var b := IdIssues(order, problem, text, start) + [IdIssue(problem, x, start + |order|, LocationOf(x, text, problem.File()))];
    forall k | 0 <= k < |a| ensures a[k] == b[k] {
      if k < |order| {
        assert (order + [x])[k] == order[k];
      }
    }
  }

  /** One of the rule's loops: every identifier of `ids` not in `against`,
      visited in the set's (unspecified) order `order`, gets the next
      number. */
  method ReportAll(ids: set<string>, against: set<string>, text: string, problem: IdProblem, start: nat)
    returns (issues: seq<Issue>, ghost order: seq<string>)
    ensures Enumerates(order, ids - against)
    ensures issues == IdIssues(order, problem, text, start)
  {
    issues, order := [], [];
    var counter := start;
    var remaining := ids;
    while remaining != {}
      invariant remaining <= ids
      invariant counter == start + |order|
      invariant issues == IdIssues(order, problem, text, start)
      invariant Enumerates(order, (ids - remaining) - against)
      decreases |remaining|
    {
      var x :| x in remaining;
      TakeOne(ids, remaining, against, x, order);
      if x !in against {
        var loc := FindLocation(x, text, problem.File());
        IdIssuesAppend(order, x, problem, text, start);
        issues := issues + [IdIssue(problem, x, counter, loc)];
        order := order + [x];
        counter := counter + 1;
      }
      remaining := remaining - {x};
    }
    assert ids - against == (ids - {}) - against;
  }

  /** Taking `x` from `remaining`: a reported one is appended to the list,
      one in `against` leaves it as it was. */
  lemma TakeOne(ids: set<string>, remaining: set<string>, against: set<string>, x: string, order: seq<string>)
    requires x in remaining && remaining <= ids
    requires Enumerates(order, (ids - remaining) - against)
    ensures Enumerates(if x in against then order else order + [x], (ids - (remaining - {x})) - against)
  {
    var before := (ids - remaining) - against;
    var after := (ids - (remaining - {x})) - against;
    if x in against {
      assert after == before;
    } else {
      assert after == before + {x};
      EnumeratesAppend(order, before, x);
    }
  }

  // --------------------------------------------------------------- check

  /** The issues for the undefined design references `d`, Critical and
      numbered from 1; then those for the undefined tasks references `t`,
      Critical and numbered on from the design ones; then those for the
      unreferenced identifiers `u`, Info and numbered from 1 again. */
  function Joined(d: seq<string>, t: seq<string>, u: seq<string>,
                  designText: string, tasksText: string, requirementText: string): seq<Issue>
  {
    IdIssues(d, MissingIn("design.md"), designText, 1)
      + IdIssues(t, MissingIn("tasks.md"), tasksText, 1 + |d|)
      + IdIssues(u, Unreferenced, requirementText, 1)
  }

  /** `RequirementIDValidator.check`: the three loops visit their sets in
      the orders `d`, `t` and `u`. */
  method Check(specs: ParsedSpecs)
    returns (issues: seq<Issue>, ghost d: seq<string>, ghost t: seq<string>, ghost u: seq<string>)
    ensures Enumerates(d, specs.design.requirementIds - specs.requirement.requirementIds)
    ensures Enumerates(t, specs.tasks.requirementIds - specs.requirement.requirementIds)
    ensures Enumerates(u, specs.requirement.requirementIds - (specs.design.requirementIds + specs.tasks.requirementIds))
    ensures issues == Joined(d, t, u, specs.design.rawText, specs.tasks.rawText, specs.requirement.rawText)
  {
    var defined := specs.requirement.requirementIds;
    var designRefs := specs.design.requirementIds;
    var tasksRefs := specs.tasks.requirementIds;
    var allRefs := designRefs + tasksRefs;
    var a, b, c;
    a, d := ReportAll(designRefs, defined, specs.design.rawText, MissingIn("design.md"), 1);
    b, t := ReportAll(tasksRefs, defined, specs.tasks.rawText, MissingIn("tasks.md"), 1 + |a|);
    c, u := ReportAll(defined, allRefs, specs.requirement.rawText, Unreferenced, 1);
    issues := a + b + c;
  }

  // ---------------------------------------------------------- properties

  /** The issue at position `k`: first the design issues (Critical,
      numbered `k + 1`), then the tasks issues (Critical, numbered on),
      then the unreferenced ones (Info, numbered from 1 again), each for
      the identifier the loop visited there and placed where that
      identifier is found in the document searched. */
  lemma JoinedAt(d: seq<string>, t: seq<string>, u: seq<string>,
                 designText: string, tasksText: string, requirementText: string, k: nat)
    requires k < |Joined(d, t, u, designText, tasksText, requirementText)|
    ensures Joined(d, t, u, designText, tasksText, requirementText)[k] ==
      if k < |d| then IdIssue(MissingIn("design.md"), d[k], k + 1, LocationOf(d[k], designText, "design.md"))
      else if k < |d| + |t| then
        IdIssue(MissingIn("tasks.md"), t[k - |d|], k + 1, LocationOf(t[k - |d|], tasksText, "tasks.md"))
      else IdIssue(Unreferenced, u[k - |d| - |t|], k - |d| - |t| + 1,
        LocationOf(u[k - |d| - |t|], requirementText, "requirement.md"))
  {
    var s := Joined(d, t, u, designText, tasksText, requirementText);
    var a := IdIssues(d, MissingIn("design.md"), designText, 1);
    var b := IdIssues(t, MissingIn("tasks.md"), tasksText, 1 + |d|);
    var c := IdIssues(u, Unreferenced, requirementText, 1);
    assert s == a + b + c;
    if k < |d| {
      assert s[k] == a[k];
    } else if k < |d| + |t| {
      assert s[k] == b[k - |d|];
    } else {
      assert s[k] == c[k - |d| - |t|];
    }
  }

  /** Every issue is about exactly one identifier; Critical issues come
      first and are numbered CRITICAL-001, CRITICAL-002, ... over the
      design and then the tasks issues; then INFO-001, INFO-002, ... */
  lemma JoinedIdAt(d: seq<string>, t: seq<string>, u: seq<string>,
                   designText: string, tasksText: string, requirementText: string, k: nat)
    requires k < |Joined(d, t, u, designText, tasksText, requirementText)|
    ensures var i := Joined(d, t, u, designText, tasksText, requirementText)[k];
      && |i.relatedReqIds| == 1
      && if k < |d| + |t| then i.severity == Critical && i.id == CriticalPrefix + ZeroPad3(k + 1)
         else i.severity == Info && i.id == InfoPrefix + ZeroPad3(k - |d| - |t| + 1)
  {
    JoinedAt(d, t, u, designText, tasksText, requirementText, k);
  }

  /** Labels of different severities, or of different numbers, differ. */
  lemma LabelsDistinct(p: IdProblem, n: nat, q: IdProblem, m: nat)
    requires p.MissingIn? != q.MissingIn? || n != m
    ensures Label(p, n) != Label(q, m)
  {
    if p.MissingIn? == q.MissingIn? {
      if Label(p, n) == Label(q, m) {
        LabelInjective(if p.MissingIn? then CriticalPrefix else InfoPrefix, n, m);
      }
    } else {
      assert Label(p, n)[0] != Label(q, m)[0];
    }
  }

  /** No two issues share an id. */
  lemma JoinedIdsDistinct(d: seq<string>, t: seq<string>, u: seq<string>,
                          designText: string, tasksText: string, requirementText: string, i: nat, j: nat)
    requires i < j < |Joined(d, t, u, designText, tasksText, requirementText)|
    ensures Joined(d, t, u, designText, tasksText, requirementText)[i].id !=
      Joined(d, t, u, designText, tasksText, requirementText)[j].id
  {
    var m := |d| + |t|;
    JoinedAt(d, t, u, designText, tasksText, requirementText, i);
    JoinedAt(d, t, u, designText, tasksText, requirementText, j);
    LabelsDistinct(if i < m then MissingIn("") else Unreferenced, if i < m then i + 1 else i - m + 1,
                   if j < m then MissingIn("") else Unreferenced, if j < m then j + 1 else j - m + 1);
  }

  /** The three document names differ. */
  lemma FilesDistinct()
    ensures "design.md" != "tasks.md" && "design.md" != "requirement.md" && "tasks.md" != "requirement.md"
  {
    assert "design.md"[0] == 'd' && "tasks.md"[0] == 't' && "requirement.md"[0] == 'r';
  }

  /** The identifiers of the issues of one severity located in one file. */
  ghost function SubjectsWhere(issues: seq<Issue>, severity: Severity, file: string): set<string> {
    set k | 0 <= k < |issues| && issues[k].severity == severity && issues[k].location.file == file :: Subject(issues[k])
  }

  /** The position's issue is for this severity and file exactly when it
      lies in the part the severity and file name. */
  lemma WhereAt(d: seq<string>, t: seq<string>, u: seq<string>,
                designText: string, tasksText: string, requirementText: string, k: nat)
    requires k < |Joined(d, t, u, designText, tasksText, requirementText)|
    ensures var i := Joined(d, t, u, designText, tasksText, requirementText)[k];
      && (i.severity == Critical && i.location.file == "design.md" <==> k < |d|)
      && (i.severity == Critical && i.location.file == "tasks.md" <==> |d| <= k < |d| + |t|)
      && (i.severity == Info && i.location.file == "requirement.md" <==> |d| + |t| <= k)
      && Subject(i) == if k < |d| then d[k] else if k < |d| + |t| then t[k - |d|] else u[k - |d| - |t|]
  {
    FilesDistinct();
    JoinedAt(d, t, u, designText, tasksText, requirementText, k);
    var s := Joined(d, t, u, designText, tasksText, requirementText);
    if k < |d| {
      LocationOfMeaning(d[k], designText, "design.md");
    } else if k < |d| + |t| {
      LocationOfMeaning(t[k - |d|], tasksText, "tasks.md");
    } else {
      LocationOfMeaning(u[k - |d| - |t|], requirementText, "requirement.md");
    }
  }

  /** The Critical issues in design.md name exactly the identifiers of `d`,
      those in tasks.md exactly those of `t`, and the Info issues in
      requirement.md exactly those of `u`. */
  lemma JoinedPartition(d: seq<string>, t: seq<string>, u: seq<string>,
                        designText: string, tasksText: string, requirementText: string)
    ensures var s := Joined(d, t, u, designText, tasksText, requirementText);
      && (forall x :: x in SubjectsWhere(s, Critical, "design.md") <==> x in d)
      && (forall x :: x in SubjectsWhere(s, Critical, "tasks.md") <==> x in t)
      && (forall x :: x in SubjectsWhere(s, Info, "requirement.md") <==> x in u)
  {
    var s := Joined(d, t, u, designText, tasksText, requirementText);
    forall k | 0 <= k < |s| {
      WhereAt(d, t, u, designText, tasksText, requirementText, k);
    }
    forall x | x in d ensures x in SubjectsWhere(s, Critical, "design.md") {
      var k :| 0 <= k < |d| && d[k] == x;
      assert Subject(s[k]) == x;
    }
    forall x | x in t ensures x in SubjectsWhere(s, Critical, "tasks.md") {
      var k :| 0 <= k < |t| && t[k] == x;
      assert Subject(s[|d| + k]) == x;
    }
    forall x | x in u ensures x in SubjectsWhere(s, Info, "requirement.md") {
      var k :| 0 <= k < |u| && u[k] == x;
      assert Subject(s[|d| + |t| + k]) == x;
    }
  }

  /** The Critical issues in design.md name exactly the undefined design
      references, those in tasks.md exactly the undefined tasks references,
      and the Info issues in requirement.md exactly the defined identifiers
      referenced in neither document. */
  lemma PartitionOfSets(issues: seq<Issue>, d: seq<string>, t: seq<string>, u: seq<string>,
                        D: set<string>, T: set<string>, U: set<string>,
                        designText: string, tasksText: string, requirementText: string)
    requires Enumerates(d, D) && Enumerates(t, T) && Enumerates(u, U)
    requires issues == Joined(d, t, u, designText, tasksText, requirementText)
    ensures SubjectsWhere(issues, Critical, "design.md") == D
    ensures SubjectsWhere(issues, Critical, "tasks.md") == T
    ensures SubjectsWhere(issues, Info, "requirement.md") == U
    ensures |issues| == |D| + |T| + |U|
  {
    JoinedPartition(d, t, u, designText, tasksText, requirementText);
    EnumeratesLength(d, D);
    EnumeratesLength(t, T);
    EnumeratesLength(u, U);
  }

  /** `check` on a project: the partition by severity and file, and the
      number of issues. */
  lemma CheckPartition(specs: ParsedSpecs, issues: seq<Issue>, d: seq<string>, t: seq<string>, u: seq<string>)
    requires Enumerates(d, specs.design.requirementIds - specs.requirement.requirementIds)
    requires Enumerates(t, specs.tasks.requirementIds - specs.requirement.requirementIds)
    requires Enumerates(u, specs.requirement.requirementIds - (specs.design.requirementIds + specs.tasks.requirementIds))
    requires issues == Joined(d, t, u, specs.design.rawText, specs.tasks.rawText, specs.requirement.rawText)
    ensures SubjectsWhere(issues, Critical, "design.md") == specs.design.requirementIds - specs.requirement.requirementIds
    ensures SubjectsWhere(issues, Critical, "tasks.md") == specs.tasks.requirementIds - specs.requirement.requirementIds
    ensures SubjectsWhere(issues, Info, "requirement.md") ==
      specs.requirement.requirementIds - (specs.design.requirementIds + specs.tasks.requirementIds)
    ensures |issues| == |specs.design.requirementIds - specs.requirement.requirementIds|
      + |specs.tasks.requirementIds - specs.requirement.requirementIds|
      + |specs.requirement.requirementIds - (specs.design.requirementIds + specs.tasks.requirementIds)|
  {
    PartitionOfSets(issues, d, t, u,
      specs.design.requirementIds - specs.requirement.requirementIds,
      specs.tasks.requirementIds - specs.requirement.requirementIds,
      specs.requirement.requirementIds - (specs.design.requirementIds + specs.tasks.requirementIds),
      specs.design.rawText, specs.tasks.rawText, specs.requirement.rawText);
  }

  /** An identifier undefined but referenced by both documents is reported
      twice: once located in design.md and once in tasks.md. */
  lemma ReportedTwice(d: seq<string>, t: seq<string>, u: seq<string>, D: set<string>, T: set<string>,
                      designText: string, tasksText: string, requirementText: string, x: string)
    requires Enumerates(d, D) && Enumerates(t, T) && x in D && x in T
    ensures var s := Joined(d, t, u, designText, tasksText, requirementText);
      exists i, j :: 0 <= i < j < |s| && Subject(s[i]) == x && Subject(s[j]) == x
        && s[i].severity == Critical && s[i].location.file == "design.md"
        && s[j].severity == Critical && s[j].location.file == "tasks.md"
  {
    var i := IndexOf(d, D, x);
    var j := IndexOf(t, T, x);
    WhereAt(d, t, u, designText, tasksText, requirementText, i);
    WhereAt(d, t, u, designText, tasksText, requirementText, |d| + j);
  }

  /** Every issue's location holds its identifier when that identifier
      was taken from the document's own text. */
  lemma JoinedFound(d: seq<string>, t: seq<string>, u: seq<string>, specs: ParsedSpecs, k: nat)
    requires forall x :: x in d ==> x in IdsIn(specs.design.rawText)
    requires forall x :: x in t ==> x in IdsIn(specs.tasks.rawText)
    requires forall x :: x in u ==> x in IdsIn(specs.requirement.rawText)
    requires k < |Joined(d, t, u, specs.design.rawText, specs.tasks.rawText, specs.requirement.rawText)|
    ensures var i := Joined(d, t, u, specs.design.rawText, specs.tasks.rawText, specs.requirement.rawText)[k];
      var text := if k < |d| then specs.design.rawText else if k < |d| + |t| then specs.tasks.rawText
        else specs.requirement.rawText;
      var lines := Split(text, '\n');
      i.location.line < |lines| && Contains(lines[i.location.line], Subject(i))
  {
    JoinedAt(d, t, u, specs.design.rawText, specs.tasks.rawText, specs.requirement.rawText, k);
    if k < |d| {
      FoundInOwnText(d[k], specs.design.rawText, "design.md");
    } else if k < |d| + |t| {
      FoundInOwnText(t[k - |d|], specs.tasks.rawText, "tasks.md");
    } else {
      FoundInOwnText(u[k - |d| - |t|], specs.requirement.rawText, "requirement.md");
    }
  }
}
