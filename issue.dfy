/** Issues: the problems the rules detect, with a severity and a location. */
module Issues {
  import opened Wrappers
  import opened Text

  /** The three severity levels and their display values. */
  datatype Severity = Critical | Warning | Info {
    function Value(): (v: string)
      ensures v == "Critical" <==> this == Critical
      ensures v == "Warning" <==> this == Warning
      ensures v == "Info" <==> this == Info
    {
      match this
      case Critical => "Critical"
      case Warning => "Warning"
      case Info => "Info"
    }
  }

  /** A file name and a ZERO-based line number. */
  datatype Location = Location(file: string, line: nat)

  /** `str(Location)`: the file, a colon, and the line shown ONE-based. */
  function LocationString(loc: Location): string
  {
    loc.file + ":" + Decimal(loc.line + 1)
  }

  /** The position of the last colon, if any. */
  function LastColon(s: string): (r: Option<nat>)
    ensures r.Some? ==> r.value < |s| && s[r.value] == ':' && ':' !in s[r.value + 1..]
    ensures r.None? ==> ':' !in s
  {
    if |s| == 0 then None
    else if s[|s| - 1] == ':' then Some(|s| - 1)
    else
      var r := LastColon(s[..|s| - 1]);
      assert s == s[..|s| - 1] + [s[|s| - 1]];
      if r.Some? then
        assert s[r.value + 1..] == s[..|s| - 1][r.value + 1..] + [s[|s| - 1]];
        r
      else r
  }

  /** Reads a displayed location back: the text after the last colon is the
      one-based line number. */
  function ParseLocation(s: string): Option<Location>
  {
    match LastColon(s)
    case None => None
    case Some(c) =>
      var digits := s[c + 1..];
      if |digits| == 0 || !AllDigits(digits) || ParseDecimal(digits) == 0 then None
      else Some(Location(s[..c], ParseDecimal(digits) - 1))
  }

  /** The display of a location can be read back to the same location, so
      it shows the file and the zero-based line as the one-based line. */
  lemma LocationRoundTrip(loc: Location)
    ensures ParseLocation(LocationString(loc)) == Some(loc)
  {
    var s := LocationString(loc);
    var d := Decimal(loc.line + 1);
    assert s == loc.file + [':'] + d;
    assert ':' !in d by {
      forall i | 0 <= i < |d| ensures d[i] != ':' { assert IsDigit(d[i]); }
    }
    assert s[|loc.file|] == ':' && s[|loc.file| + 1..] == d;
    var c := LastColon(s);
    assert c == Some(|loc.file|);
    assert s[..|loc.file|] == loc.file;
    DecimalRoundTrip(loc.line + 1);
  }

  /** A detected problem. `suggestion` may be `None`; `relatedReqIds` is a
      list (the constructor turns a `None` into `[]`). */
  datatype Issue = Issue(
    id: string,
    severity: Severity,
    title: string,
    description: string,
    location: Location,
    suggestion: Option<string>,
    relatedReqIds: seq<string>)

  /** The `ValueError`s the constructor raises. */
  datatype IssueError = EmptyId | EmptyTitle {
    function Message(): string {
      match this
      case EmptyId => "Issue ID cannot be empty"
      case EmptyTitle => "Issue title cannot be empty"
    }
  }

  /** Constructing an Issue: an empty id is refused first, then an empty
      title; a missing related-id list becomes the empty list. */
  function NewIssue(
    id: string, severity: Severity, title: string, description: string,
    location: Location, suggestion: Option<string>, relatedReqIds: Option<seq<string>>
  ): (r: Result<Issue, IssueError>)
    ensures r.Ok? <==> id != "" && title != ""
    ensures id == "" ==> r == Err(EmptyId)
    ensures id != "" && title == "" ==> r == Err(EmptyTitle)
    ensures r.Ok? ==>
      && r.value.id == id && r.value.severity == severity && r.value.title == title
      && r.value.description == description && r.value.location == location
      && r.value.suggestion == suggestion
    ensures r.Ok? && relatedReqIds.None? ==> r.value.relatedReqIds == []
    ensures r.Ok? && relatedReqIds.Some? ==> r.value.relatedReqIds == relatedReqIds.value
  {
    if id == "" then Err(EmptyId)
    else if title == "" then Err(EmptyTitle)
    else
      var related := match relatedReqIds case None => [] case Some(ids) => ids;
      Ok(Issue(id, severity, title, description, location, suggestion, related))
  }

  /** Python's truth test on an optional string: present and non-empty. */
  predicate HasText(s: Option<string>) {
    s.Some? && s.value != ""
  }
}
