/** The mandatory section titles of each kind of document: the
    `MANDATORY_SECTIONS` table of the mandatory-section rule. */
module MandatorySections {
  import opened Text
  import opened Documents

  const RequirementTitles: set<string> := {"概要", "機能要件", "非機能要件", "制約事項", "前提条件"}
  const DesignTitles: set<string> := {"アーキテクチャ概要", "技術スタック", "データモデル"}
  const TasksTitles: set<string> := {"タスク一覧", "優先順位"}

  /** The titles each kind of document must have. */
  function Mandatory(docType: DocType): set<string> {
    match docType
    case Requirement => RequirementTitles
    case Design => DesignTitles
    case Tasks => TasksTitles
  }

  /** Five titles for the requirement document, three for the design
      document and two for the tasks document. */
  lemma MandatoryCounts()
    ensures |Mandatory(Requirement)| == 5 && |Mandatory(Design)| == 3 && |Mandatory(Tasks)| == 2
  {
    var r := ["概要", "機能要件", "非機能要件", "制約事項", "前提条件"];
    assert r[0][0] == '概' && r[1][0] == '機' && r[2][0] == '非' && r[3][0] == '制' && r[4][0] == '前';
    assert |RequirementTitles| == 5;
    var d := ["アーキテクチャ概要", "技術スタック", "データモデル"];
    assert d[0][0] == 'ア' && d[1][0] == '技' && d[2][0] == 'デ';
    assert |DesignTitles| == 3;
    var t := ["タスク一覧", "優先順位"];
    assert t[0][0] == 'タ' && t[1][0] == '優';
    assert |TasksTitles| == 2;
  }

  /** The titles have no ASCII capital, so lowering leaves them as they
      are: only the case of the documents' own section titles matters. */
  lemma MandatoryLowered(docType: DocType, title: string)
    requires title in Mandatory(docType)
    ensures Lower(title) == title
  {
    assert title in {"概要", "機能要件", "非機能要件", "制約事項", "前提条件",
      "アーキテクチャ概要", "技術スタック", "データモデル", "タスク一覧", "優先順位"};
    TitleLowered(title);
  }

  lemma TitleLowered(title: string)
    requires title in {"概要", "機能要件", "非機能要件", "制約事項", "前提条件",
      "アーキテクチャ概要", "技術スタック", "データモデル", "タスク一覧", "優先順位"}
    ensures Lower(title) == title
  {
    NonAsciiLowered(title);
  }

  /** Lowering leaves a string of non-ASCII characters unchanged. */
  lemma NonAsciiLowered(s: string)
    requires forall i :: 0 <= i < |s| ==> s[i] as int >= 128
    ensures Lower(s) == s
  {
    forall i | 0 <= i < |s| ensures !IsUpper(s[i]) { }
    LowerIdentity(s);
  }
}

/** The mandatory-section rule: every document must have, for each of its
    kind's mandatory titles, a section whose title contains it (ignoring
    case); each title without one is a Warning. */
module StructureRule {
  import opened Wrappers
  import opened Text
  import opened Issues
  import opened Documents
  import opened PyDict
  import opened MandatorySections
  import opened Enumeration

  /** The `any(...)` test: some existing section title contains the
      mandatory one, both lowered. */
  predicate Covered(keys: set<string>, title: string) {
    exists k :: k in keys && Contains(Lower(k), Lower(title))
  }

  /** The titles of `titles` that no key covers. */
  ghost function Uncovered(titles: set<string>, keys: set<string>): set<string> {
    set t | t in titles && !Covered(keys, t)
  }

  /** The mandatory titles a document lacks. */
  ghost function MissingTitles(doc: ParsedDocument): set<string> {
    Uncovered(Mandatory(doc.docType), doc.sections.values.Keys)
  }

  // ------------------------------------------------------------- issues

  // The fixed parts of the rule's messages.
  const WarningPrefix := "WARNING-"
  const MissingLead := "Missing mandatory section: "
  const DocumentLead := "Document "
  const ShouldContain := " should contain a '"
  const SectionTail := "' section"
  const AddLead := "Add a '"
  const SectionTo := "' section to "

  /** The Warning for a missing title of `file`, numbered `n`, located at
      line 0 and related to no identifier. */
  function WarningIssue(title: string, file: string, n: nat): (r: Issue)
    ensures r.severity == Warning && r.location == Location(file, 0) && r.relatedReqIds == []
    ensures r.id == WarningPrefix + ZeroPad3(n)
  {
    Issue(WarningPrefix + ZeroPad3(n), Warning, MissingLead + title,
      DocumentLead + file + ShouldContain + title + SectionTail, Location(file, 0),
      Some(AddLead + title + SectionTo + file), [])
  }

  /** The title a warning is about, read back from its title. */
  function Missing(i: Issue): string {
    if |i.title| >= |MissingLead| then i.title[|MissingLead|..] else ""
  }

  /** A warning names the title it was made for. */
  lemma MissingOfWarning(title: string, file: string, n: nat)
    ensures Missing(WarningIssue(title, file, n)) == title
  {
    assert (MissingLead + title)[|MissingLead|..] == title;
  }

  /** The warning is one the `Issue` constructor accepts. */
  lemma WarningAccepted(title: string, file: string, n: nat)
    ensures NewIssue(WarningPrefix + ZeroPad3(n), Warning, MissingLead + title,
      DocumentLead + file + ShouldContain + title + SectionTail, Location(file, 0),
      Some(AddLead + title + SectionTo + file), Some([])) == Ok(WarningIssue(title, file, n))
  {
  }

  /** The warnings for the titles of `order`, in that order, for `file`,
      numbered consecutively from `start`. */
  function Warnings(order: seq<string>, file: string, start: nat): (r: seq<Issue>)
    ensures |r| == |order|
  {
    seq(|order|, k requires 0 <= k < |order| => WarningIssue(order[k], file, start + k))
  }

  lemma WarningsAppend(order: seq<string>, title: string, file: string, start: nat)
    ensures Warnings(order + [title], file, start) == Warnings(order, file, start) + [WarningIssue(title, file, start + |order|)]
  {
    var a := Warnings(order + [title], file, start);
    var b := Warnings(order, file, start) + [WarningIssue(title, file, start + |order|)];
    forall k | 0 <= k < |a| ensures a[k] == b[k] {
      if k < |order| {
        assert (order + [title])[k] == order[k];
      }
    }
  }

  // ------------------------------------------------- one document's check

  /** `_check_document_structure`: the mandatory titles, visited in the
      set's (unspecified) order `order`; each uncovered one gets the next
      number. */
  method CheckDocument(doc: ParsedDocument, file: string, counterStart: nat)
    returns (issues: seq<Issue>, ghost order: seq<string>)
    ensures Enumerates(order, MissingTitles(doc))
    ensures issues == Warnings(order, file, counterStart)
  {
    issues, order := [], [];
    var counter := counterStart;
    var mandatory := Mandatory(doc.docType);
    var existing := KeySet(doc.sections);
    var remaining := mandatory;
    while remaining != {}
      invariant remaining <= mandatory
      invariant counter == counterStart + |order|
      invariant issues == Warnings(order, file, counterStart)
      invariant Enumerates(order, Uncovered(mandatory - remaining, existing))
      decreases |remaining|
    {
      var title :| title in remaining;
      VisitOne(mandatory, remaining, existing, title, order);
      if !Covered(existing, title) {
        WarningsAppend(order, title, file, counterStart);
        issues := issues + [WarningIssue(title, file, counter)];
        order := order + [title];
        counter := counter + 1;
      }
      remaining := remaining - {title};
    }
    assert mandatory - {} == mandatory;
  }

  /** Visiting `title`: an uncovered one is appended to the list of
      missing titles, a covered one leaves it as it was. */
  lemma VisitOne(mandatory: set<string>, remaining: set<string>, keys: set<string>, title: string, order: seq<string>)
    requires title in remaining && remaining <= mandatory
    requires Enumerates(order, Uncovered(mandatory - remaining, keys))
    ensures Enumerates(if Covered(keys, title) then order else order + [title],
      Uncovered(mandatory - (remaining - {title}), keys))
  {
    var before := Uncovered(mandatory - remaining, keys);
    var after := Uncovered(mandatory - (remaining - {title}), keys);
    if Covered(keys, title) {
      assert after == before;
    } else {
      assert after == before + {title};
      assert title !in before;
      EnumeratesAppend(order, before, title);
    }
  }

  /** A document lacks at most as many titles as its kind has. */
  lemma MissingBound(doc: ParsedDocument)
    ensures |MissingTitles(doc)| <= |Mandatory(doc.docType)|
  {
    SubsetCard(MissingTitles(doc), Mandatory(doc.docType));
  }

  lemma {:induction false} SubsetCard(a: set<string>, b: set<string>)
    requires a <= b
    ensures |a| <= |b|
    decreases |b|
  {
    if a != {} {
      var x :| x in a;
      SubsetCard(a - {x}, b - {x});
    }
  }

  /** The warnings name the titles of their list, in its order. */
  lemma WarningsMissing(order: seq<string>, file: string, start: nat, title: string)
    ensures var issues := Warnings(order, file, start);
      (exists k :: 0 <= k < |issues| && Missing(issues[k]) == title) <==> title in order
  {
    var issues := Warnings(order, file, start);
    forall k | 0 <= k < |issues| ensures Missing(issues[k]) == order[k] {
      MissingOfWarning(order[k], file, start + k);
    }
  }

  /** A mandatory title is warned about exactly when no section title
      covers it. */
  lemma WarnedIff(issues: seq<Issue>, order: seq<string>, doc: ParsedDocument, file: string, start: nat, title: string)
    requires Enumerates(order, MissingTitles(doc)) && issues == Warnings(order, file, start)
    ensures (exists k :: 0 <= k < |issues| && Missing(issues[k]) == title) <==>
      title in Mandatory(doc.docType) && !Covered(doc.sections.values.Keys, title)
  {
    WarningsMissing(order, file, start, title);
  }

  /** No two warnings of a document are about the same title. */
  lemma WarnedOnce(issues: seq<Issue>, order: seq<string>, doc: ParsedDocument, file: string, start: nat, i: nat, j: nat)
    requires Enumerates(order, MissingTitles(doc)) && issues == Warnings(order, file, start)
    requires i < j < |issues|
    ensures Missing(issues[i]) != Missing(issues[j])
  {
    MissingOfWarning(order[i], file, start + i);
    MissingOfWarning(order[j], file, start + j);
  }

  /** A document with a section titled exactly as each mandatory title has
      no warnings. */
  lemma ExactTitlesSuffice(issues: seq<Issue>, order: seq<string>, doc: ParsedDocument, file: string, start: nat)
    requires Enumerates(order, MissingTitles(doc)) && issues == Warnings(order, file, start)
    requires Mandatory(doc.docType) <= doc.sections.values.Keys
    ensures issues == []
  {
    forall t | t in Mandatory(doc.docType) ensures Covered(doc.sections.values.Keys, t) {
      ContainsSelf(Lower(t));
    }
    assert MissingTitles(doc) == {};
    EnumeratesLength(order, MissingTitles(doc));
  }

  // --------------------------------------------------------- the rule

  /** The requirement document's warnings for `r`, then the design
      document's for `d`, then the tasks document's for `t`. The counter is
      advanced by the length of the whole list so far, so the design
      warnings are numbered from 1 + |r| and the tasks warnings from
      1 + 2|r| + |d|. */
  function Joined(r: seq<string>, d: seq<string>, t: seq<string>): seq<Issue> {
    Warnings(r, "requirement.md", 1) + Warnings(d, "design.md", 1 + |r|) + Warnings(t, "tasks.md", 1 + 2 * |r| + |d|)
  }

  /** `StructureValidator.check`: each document's missing titles, visited
      in the orders `r`, `d` and `t`. */
  method Check(specs: ParsedSpecs) returns (issues: seq<Issue>, ghost r: seq<string>, ghost d: seq<string>, ghost t: seq<string>)
    ensures Enumerates(r, MissingTitles(specs.requirement))
    ensures Enumerates(d, MissingTitles(specs.design))
    ensures Enumerates(t, MissingTitles(specs.tasks))
    ensures issues == Joined(r, d, t)
  {
    issues := [];
    var warningCounter := 1;
    var a;
    a, r := CheckDocument(specs.requirement, "requirement.md", warningCounter);
    issues := issues + a;
    warningCounter := warningCounter + |issues|;
    var b;
    b, d := CheckDocument(specs.design, "design.md", warningCounter);
    issues := issues + b;
    warningCounter := warningCounter + |issues|;
    var c;
    c, t := CheckDocument(specs.tasks, "tasks.md", warningCounter);
    issues := issues + c;
  }

  /** The number the warning at position `k` carries. */
  function NumberAt(r: nat, d: nat, k: nat): nat {
    if k < r + d then 1 + k else 1 + r + k
  }

  /** Each warning: severity Warning, line 0 of its own file, no related
      identifier, and the number `NumberAt` gives its position, which
      grows strictly along the list. */
  lemma JoinedAt(r: seq<string>, d: seq<string>, t: seq<string>, k: nat)
    requires k < |Joined(r, d, t)|
    ensures var w := Joined(r, d, t)[k];
      && w.severity == Warning && w.relatedReqIds == []
      && w.location == Location(if k < |r| then "requirement.md" else if k < |r| + |d| then "design.md" else "tasks.md", 0)
      && w.id == WarningPrefix + ZeroPad3(NumberAt(|r|, |d|, k))
      && Missing(w) == if k < |r| then r[k] else if k < |r| + |d| then d[k - |r|] else t[k - |r| - |d|]
  {
    var s := Joined(r, d, t);
    if k < |r| {
      assert s[k] == Warnings(r, "requirement.md", 1)[k];
      MissingOfWarning(r[k], "requirement.md", 1 + k);
    } else if k < |r| + |d| {
      assert s[k] == Warnings(d, "design.md", 1 + |r|)[k - |r|];
      MissingOfWarning(d[k - |r|], "design.md", 1 + k);
    } else {
      assert s[k] == Warnings(t, "tasks.md", 1 + 2 * |r| + |d|)[k - |r| - |d|];
      MissingOfWarning(t[k - |r| - |d|], "tasks.md", 1 + |r| + k);
    }
  }

  /** The warning numbers strictly increase along the list, so no two
      warnings share an id. */
  lemma JoinedIdsDistinct(r: seq<string>, d: seq<string>, t: seq<string>, i: nat, j: nat)
    requires i < j < |Joined(r, d, t)|
    ensures Joined(r, d, t)[i].id != Joined(r, d, t)[j].id
  {
    JoinedAt(r, d, t, i);
    JoinedAt(r, d, t, j);
    NumbersIncrease(|r|, |d|, i, j);
    if Joined(r, d, t)[i].id == Joined(r, d, t)[j].id {
      LabelInjective(WarningPrefix, NumberAt(|r|, |d|, i), NumberAt(|r|, |d|, j));
    }
  }

  /** The warning numbers strictly increase along the joined list. */
  lemma NumbersIncrease(r: nat, d: nat, i: nat, j: nat)
    requires i < j
    ensures NumberAt(r, d, i) < NumberAt(r, d, j)
  {
  }

  /** For well-typed documents the rule yields at most 5 + 3 + 2 warnings. */
  lemma CheckBound(specs: ParsedSpecs, r: seq<string>, d: seq<string>, t: seq<string>)
    requires WellTyped(specs)
    requires Enumerates(r, MissingTitles(specs.requirement))
    requires Enumerates(d, MissingTitles(specs.design))
    requires Enumerates(t, MissingTitles(specs.tasks))
    ensures |Joined(r, d, t)| <= 10
  {
    MandatoryCounts();
    MissingBound(specs.requirement);
    MissingBound(specs.design);
    MissingBound(specs.tasks);
    EnumeratesLength(r, MissingTitles(specs.requirement));
    EnumeratesLength(d, MissingTitles(specs.design));
    EnumeratesLength(t, MissingTitles(specs.tasks));
  }
}
