/** Parsed documents: sections, the identifier set, the document kind,
    and the three-document set the rules inspect. */
module Documents {
  import opened Wrappers
  import opened Text
  import opened PyDict

  /** The three kinds of specification document. */
  datatype DocType = Requirement | Design | Tasks {
    function Value(): string {
      match this
      case Requirement => "requirement"
      case Design => "design"
      case Tasks => "tasks"
    }
  }

  /** A titled region of a document. Its subsections list is the one field
      the parser changes after construction: it appends child sections. */
  class Section {
    const title: string
    const content: string
    var subsections: seq<Section>
    const level: int

    /** Level 1 and no subsections unless given. */
    constructor (title: string, content: string, subsections: seq<Section> := [], level: int := 1)
      ensures this.title == title && this.content == content
      ensures this.subsections == subsections && this.level == level
    {
      this.title := title;
      this.content := content;
      this.subsections := subsections;
      this.level := level;
    }

    /** `str(section)`: `level` hash signs, a space, then the title. */
    function Display(): (s: string)
      ensures var n := if level < 0 then 0 else level;
        && |s| == n + 1 + |title|
        && (forall i :: 0 <= i < n ==> s[i] == '#')
        && s[n] == ' ' && s[n + 1..] == title
    {
      Repeat('#', level) + " " + title
    }
  }

  /** A document after parsing. `sections` maps a title to its section. */
  datatype ParsedDocument = ParsedDocument(
    sections: ValidDict<Section>,
    requirementIds: set<string>,
    rawText: string,
    docType: DocType)

  /** `get_section`: the first section, in the dict's order, whose title
      equals the given one ignoring case; `None` when there is none. */
  method GetSection(doc: ParsedDocument, title: string) returns (r: Option<Section>)
    ensures r.None? <==> forall i :: 0 <= i < |doc.sections.keys| ==> Lower(doc.sections.keys[i]) != Lower(title)
    ensures r.Some? ==> exists i ::
      && 0 <= i < |doc.sections.keys|
      && Lower(doc.sections.keys[i]) == Lower(title)
      && (forall j :: 0 <= j < i ==> Lower(doc.sections.keys[j]) != Lower(title))
      && r.value == doc.sections.values[doc.sections.keys[i]]
  {
    var keys := doc.sections.keys;
    var i := 0;
    while i < |keys|
      invariant 0 <= i <= |keys|
      invariant forall j :: 0 <= j < i ==> Lower(keys[j]) != Lower(title)
    {
      if Lower(keys[i]) == Lower(title) {
        return Some(doc.sections.values[keys[i]]);
      }
      i := i + 1;
    }
    return None;
  }

  /** `has_requirement_id`. */
  predicate HasRequirementId(doc: ParsedDocument, reqId: string) {
    reqId in doc.requirementIds
  }

  /** The three documents of one project and the project's name. */
  datatype ParsedSpecs = ParsedSpecs(
    requirement: ParsedDocument,
    design: ParsedDocument,
    tasks: ParsedDocument,
    projectName: string)

  /** The `ValueError`s raised when a slot holds the wrong kind of document. */
  datatype SpecsError = InvalidRequirement | InvalidDesign | InvalidTasks {
    function Message(): string {
      match this
      case InvalidRequirement => "Invalid requirement document type"
      case InvalidDesign => "Invalid design document type"
      case InvalidTasks => "Invalid tasks document type"
    }
  }

  /** Every slot holds a document of its own kind. */
  predicate WellTyped(specs: ParsedSpecs) {
    && specs.requirement.docType == Requirement
    && specs.design.docType == Design
    && specs.tasks.docType == Tasks
  }

  /** Constructing a ParsedSpecs: succeeds iff every slot holds its own kind;
      otherwise the first wrong slot, in the order requirement, design,
      tasks, names the error. */
  function NewParsedSpecs(
    requirement: ParsedDocument, design: ParsedDocument, tasks: ParsedDocument, projectName: string
  ): (r: Result<ParsedSpecs, SpecsError>)
    ensures r.Ok? <==> requirement.docType == Requirement && design.docType == Design && tasks.docType == Tasks
    ensures r.Ok? ==> r.value == ParsedSpecs(requirement, design, tasks, projectName) && WellTyped(r.value)
    ensures requirement.docType != Requirement ==> r == Err(InvalidRequirement)
    ensures requirement.docType == Requirement && design.docType != Design ==> r == Err(InvalidDesign)
    ensures requirement.docType == Requirement && design.docType == Design && tasks.docType != Tasks ==>
      r == Err(InvalidTasks)
  {
    if requirement.docType != Requirement then Err(InvalidRequirement)
    else if design.docType != Design then Err(InvalidDesign)
    else if tasks.docType != Tasks then Err(InvalidTasks)
    else Ok(ParsedSpecs(requirement, design, tasks, projectName))
  }
}
