/** The inspection summary handed to other tools, and its JSON form. JSON is
    modelled as a value tree (objects are member lists, as written); the
    text layout of `json.dumps` is not part of the model. */
module Results {
  import opened Wrappers
  import opened Issues

  /** A point in time, carried as its ISO-8601 text: `isoformat` and
      `fromisoformat` are treated as inverse and the text as opaque. */
  type Timestamp = string

  datatype InspectionResult = InspectionResult(
    projectPath: string,
    projectName: string,
    criticalCount: int,
    warningCount: int,
    infoCount: int,
    issues: seq<Issue>,
    reportPath: string,
    timestamp: Timestamp)
  {
    /** `total_issues`: the three counts added up. */
    function TotalIssues(): int {
      criticalCount + warningCount + infoCount
    }

    /** `has_critical_issues`. */
    predicate HasCriticalIssues() {
      criticalCount > 0
    }

    /** `has_warnings`: warnings OR info findings, so a result with only
        info findings "has warnings". */
    predicate HasWarnings() {
      warningCount > 0 || infoCount > 0
    }
  }

  /** With counts that are not negative, a result is clean exactly when it
      has neither critical issues nor warnings. */
  lemma CleanIffNothingFlagged(r: InspectionResult)
    requires r.criticalCount >= 0 && r.warningCount >= 0 && r.infoCount >= 0
    ensures r.TotalIssues() == 0 <==> !r.HasCriticalIssues() && !r.HasWarnings()
  {
  }

  /** A result whose only findings are info level counts as having warnings
      but no critical issues. */
  lemma InfoOnlyHasWarnings(r: InspectionResult)
    requires r.criticalCount == 0 && r.warningCount == 0 && r.infoCount > 0
    ensures r.HasWarnings() && !r.HasCriticalIssues()
  {
  }

  /** JSON values, as far as this record uses them. */
  datatype Json =
    | JString(s: string)
    | JInt(n: int)
    | JObject(members: seq<(string, Json)>)

  /** `data[key]` on a decoded object: when a key occurs more than once the
      LAST occurrence is the one `json.loads` keeps. */
  function Lookup(members: seq<(string, Json)>, key: string): (r: Option<Json>)
    ensures r.None? <==> forall k :: 0 <= k < |members| ==> members[k].0 != key
  {
    if |members| == 0 then None
    else if members[|members| - 1].0 == key then Some(members[|members| - 1].1)
    else Lookup(members[..|members| - 1], key)
  }

  /** A member appended after the others wins for its own key and hides
      nothing else. */
  lemma LookupAppend(members: seq<(string, Json)>, key: string, value: Json, other: string)
    ensures Lookup(members + [(key, value)], key) == Some(value)
    ensures other != key ==> Lookup(members + [(other, value)], key) == Lookup(members, key)
  {
    assert (members + [(other, value)])[..|members|] == members;
  }

  /** The member at `k` is what a lookup finds when no later member has
      the same key. */
  lemma {:induction false} LookupLast(members: seq<(string, Json)>, k: nat)
    requires k < |members|
    requires forall j :: k < j < |members| ==> members[j].0 != members[k].0
    ensures Lookup(members, members[k].0) == Some(members[k].1)
    decreases |members|
  {
    if k < |members| - 1 {
      var init := members[..|members| - 1];
      assert init[k] == members[k];
      LookupLast(init, k);
    }
  }

  /** The keys `from_json` reads, in the order it reads them. */
  const ReadKeys: seq<string> := ["project_path", "project_name", "critical_count",
    "warning_count", "info_count", "report_path", "timestamp"]

  /** `to_json`, as the object it serialises: the fields (not the issue
      list), then a `summary` holding the total and the per-severity
      breakdown. */
  function ToJson(r: InspectionResult): Json
  {
    JObject([
      ("project_path", JString(r.projectPath)),
      ("project_name", JString(r.projectName)),
      ("critical_count", JInt(r.criticalCount)),
      ("warning_count", JInt(r.warningCount)),
      ("info_count", JInt(r.infoCount)),
      ("report_path", JString(r.reportPath)),
      ("timestamp", JString(r.timestamp)),
      ("summary", JObject([
        ("total_issues", JInt(r.TotalIssues())),
        ("severity_breakdown", JObject([
          ("Critical", JInt(r.criticalCount)),
          ("Warning", JInt(r.warningCount)),
          ("Info", JInt(r.infoCount))]))]))])
  }

  /** Why decoding failed: the document is not an object, a key is absent
      (`KeyError`), or a field has the wrong kind of value. */
  datatype JsonError = NotAnObject | MissingKey(key: string) | WrongKind(key: string)

  function StringField(members: seq<(string, Json)>, key: string): (r: Result<string, JsonError>)
    ensures r.Ok? <==> Lookup(members, key).Some? && Lookup(members, key).value.JString?
    ensures r.Ok? ==> Lookup(members, key) == Some(JString(r.value))
    ensures r.Err? ==> r.error == (if Lookup(members, key).None? then MissingKey(key) else WrongKind(key))
  {
    match Lookup(members, key)
    case None => Err(MissingKey(key))
    case Some(JString(s)) => Ok(s)
    case Some(_) => Err(WrongKind(key))
  }

  function IntField(members: seq<(string, Json)>, key: string): (r: Result<int, JsonError>)
    ensures r.Ok? <==> Lookup(members, key).Some? && Lookup(members, key).value.JInt?
    ensures r.Ok? ==> Lookup(members, key) == Some(JInt(r.value))
    ensures r.Err? ==> r.error == (if Lookup(members, key).None? then MissingKey(key) else WrongKind(key))
  {
    match Lookup(members, key)
    case None => Err(MissingKey(key))
    case Some(JInt(n)) => Ok(n)
    case Some(_) => Err(WrongKind(key))
  }

  /** The value `from_json` accepts: an object carrying each read key with a
      value of the right kind (strings for the paths, name and timestamp,
      integers for the counts). */
  predicate Decodable(j: Json) {
    && j.JObject?
    && StringField(j.members, "project_path").Ok?
    && StringField(j.members, "project_name").Ok?
    && IntField(j.members, "critical_count").Ok?
    && IntField(j.members, "warning_count").Ok?
    && IntField(j.members, "info_count").Ok?
    && StringField(j.members, "report_path").Ok?
    && StringField(j.members, "timestamp").Ok?
  }

  /** `from_json`: the fields are read in the order of `ReadKeys`, the first
      failure is reported, and the issue list comes back empty. */
  function FromJson(j: Json): (r: Result<InspectionResult, JsonError>)
    ensures r.Ok? <==> Decodable(j)
    ensures !j.JObject? ==> r == Err(NotAnObject)
    ensures r.Ok? ==>
      && Lookup(j.members, "project_path") == Some(JString(r.value.projectPath))
      && Lookup(j.members, "project_name") == Some(JString(r.value.projectName))
      && Lookup(j.members, "critical_count") == Some(JInt(r.value.criticalCount))
      && Lookup(j.members, "warning_count") == Some(JInt(r.value.warningCount))
      && Lookup(j.members, "info_count") == Some(JInt(r.value.infoCount))
      && Lookup(j.members, "report_path") == Some(JString(r.value.reportPath))
      && Lookup(j.members, "timestamp") == Some(JString(r.value.timestamp))
      && r.value.issues == []
    ensures r.Err? && r.error.MissingKey? ==>
      r.error.key in ReadKeys && Lookup(j.members, r.error.key).None?
  {
    if !j.JObject? then Err(NotAnObject)
    else
      var m := j.members;
      match StringField(m, "project_path")
      case Err(e) => Err(e)
      case Ok(path) =>
      match StringField(m, "project_name")
      case Err(e) => Err(e)
      case Ok(name) =>
      match IntField(m, "critical_count")
      case Err(e) => Err(e)
      case Ok(critical) =>
      match IntField(m, "warning_count")
      case Err(e) => Err(e)
      case Ok(warning) =>
      match IntField(m, "info_count")
      case Err(e) => Err(e)
      case Ok(info) =>
      match StringField(m, "report_path")
      case Err(e) => Err(e)
      case Ok(report) =>
      match StringField(m, "timestamp")
      case Err(e) => Err(e)
      case Ok(time) =>
      Ok(InspectionResult(path, name, critical, warning, info, [], report, time))
  }

  /** Each text field `to_json` writes is found again by its key. */
  lemma EncodedTexts(r: InspectionResult)
    ensures var m := ToJson(r).members;
      && StringField(m, "project_path") == Ok(r.projectPath)
      && StringField(m, "project_name") == Ok(r.projectName)
      && StringField(m, "report_path") == Ok(r.reportPath)
      && StringField(m, "timestamp") == Ok(r.timestamp)
  {
    var m := ToJson(r).members;
    LookupLast(m, 0);
    LookupLast(m, 1);
    LookupLast(m, 5);
    LookupLast(m, 6);
  }

  /** Each count `to_json` writes is found again by its key. */
  lemma EncodedCounts(r: InspectionResult)
    ensures var m := ToJson(r).members;
      && IntField(m, "critical_count") == Ok(r.criticalCount)
      && IntField(m, "warning_count") == Ok(r.warningCount)
      && IntField(m, "info_count") == Ok(r.infoCount)
  {
    var m := ToJson(r).members;
    LookupLast(m, 2);
    LookupLast(m, 3);
    LookupLast(m, 4);
  }

  /** Decoding what was encoded gives back every field except the issue
      list, which comes back empty. */
  lemma RoundTrip(r: InspectionResult)
    ensures FromJson(ToJson(r)) == Ok(r.(issues := []))
  {
    EncodedTexts(r);
    EncodedCounts(r);
  }

  /** The serialised summary: its total is the sum of the counts and its
      breakdown repeats the three counts. */
  lemma SummaryAgrees(r: InspectionResult)
    ensures var summary := Lookup(ToJson(r).members, "summary");
      && summary.Some? && summary.value.JObject?
      && Lookup(summary.value.members, "total_issues")
           == Some(JInt(r.criticalCount + r.warningCount + r.infoCount))
      && var breakdown := Lookup(summary.value.members, "severity_breakdown");
      && breakdown.Some? && breakdown.value.JObject?
      && Lookup(breakdown.value.members, Critical.Value()) == Some(JInt(r.criticalCount))
      && Lookup(breakdown.value.members, Warning.Value()) == Some(JInt(r.warningCount))
      && Lookup(breakdown.value.members, Info.Value()) == Some(JInt(r.infoCount))
  {
    var m := ToJson(r).members;
    LookupLast(m, 7);
    var summary := m[7].1.members;
    LookupLast(summary, 0);
    LookupLast(summary, 1);
    var breakdown := summary[1].1.members;
    LookupLast(breakdown, 0);
    LookupLast(breakdown, 1);
    LookupLast(breakdown, 2);
  }

  /** `from_json` ignores every member it does not read, the `summary` block
      included: adding such a member, with any value, changes nothing. */
  lemma UnreadMemberIgnored(members: seq<(string, Json)>, key: string, value: Json)
    requires key !in ReadKeys
    ensures FromJson(JObject(members + [(key, value)])) == FromJson(JObject(members))
  {
    LookupAppend(members, "project_path", value, key);
    LookupAppend(members, "project_name", value, key);
    LookupAppend(members, "critical_count", value, key);
    LookupAppend(members, "warning_count", value, key);
    LookupAppend(members, "info_count", value, key);
    LookupAppend(members, "report_path", value, key);
    LookupAppend(members, "timestamp", value, key);
  }

  /** In particular the summary: a decoded result does not depend on it. */
  lemma SummaryIgnored(members: seq<(string, Json)>, summary: Json)
    ensures FromJson(JObject(members + [("summary", summary)])) == FromJson(JObject(members))
  {
    UnreadMemberIgnored(members, "summary", summary);
  }
}
