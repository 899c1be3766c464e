/** The rule engine: runs every registered rule against the parsed specs, in
    registration order, and concatenates what the rules report. A rule that
    raises is skipped without stopping the rules after it. */
module Engine {
  import opened Documents
  import opened Issues
  import opened Enumeration
  import StructureRule
  import RequirementIdRule

  /** What one call of a rule's `check` ends in: an exception (with its
      message) or the list of issues it returned. */
  datatype Outcome = Raised(message: string) | Returned(issues: seq<Issue>)

  /** The rules: the two built-in validators, or any other rule, given by
      its name and its behaviour on a set of parsed specs. */
  datatype Rule =
    | RequirementIds
    | Structure
    | Custom(name: string, behaviour: ParsedSpecs -> Outcome)

  /** `o` is an outcome `rule.check(specs)` can have. The built-in rules
      return their issues (never raising); which of their lists they return
      is fixed up to the order in which they visit the sets they iterate. */
  ghost predicate Produces(rule: Rule, specs: ParsedSpecs, o: Outcome) {
    match rule
    case RequirementIds =>
      exists d: seq<string>, t: seq<string>, u: seq<string> ::
        && Enumerates(d, specs.design.requirementIds - specs.requirement.requirementIds)
        && Enumerates(t, specs.tasks.requirementIds - specs.requirement.requirementIds)
        && Enumerates(u, specs.requirement.requirementIds
                           - (specs.design.requirementIds + specs.tasks.requirementIds))
        && o == Returned(RequirementIdRule.Joined(d, t, u, specs.design.rawText,
                                                  specs.tasks.rawText, specs.requirement.rawText))
    case Structure =>
      exists r: seq<string>, d: seq<string>, t: seq<string> ::
        && Enumerates(r, StructureRule.MissingTitles(specs.requirement))
        && Enumerates(d, StructureRule.MissingTitles(specs.design))
        && Enumerates(t, StructureRule.MissingTitles(specs.tasks))
        && o == Returned(StructureRule.Joined(r, d, t))
    case Custom(_, behaviour) => o == behaviour(specs)
  }

  /** What an outcome adds to the engine's list: the returned issues, or
      nothing when the rule raised. */
  function Contribution(o: Outcome): (r: seq<Issue>)
    ensures o.Raised? ==> r == []
  {
    match o
    case Raised(_) => []
    case Returned(issues) => issues
  }

  /** The engine's output for a sequence of rule outcomes, in rule order. */
  function Concat(outcomes: seq<Outcome>): seq<Issue>
  {
    if |outcomes| == 0 then []
    else Concat(outcomes[..|outcomes| - 1]) + Contribution(outcomes[|outcomes| - 1])
  }

  /** The total number of issues returned by the rules that did not raise. */
  function ReturnedCount(outcomes: seq<Outcome>): nat
  {
    if |outcomes| == 0 then 0
    else
      ReturnedCount(outcomes[..|outcomes| - 1])
      + (match outcomes[|outcomes| - 1] case Raised(_) => 0 case Returned(xs) => |xs|)
  }

  /** Running one rule: the built-in validators' own `check`, or the custom
      rule's behaviour. */
  method Apply(rule: Rule, specs: ParsedSpecs) returns (o: Outcome)
    ensures Produces(rule, specs, o)
  {
    match rule
    case RequirementIds =>
      var issues, d, t, u := RequirementIdRule.Check(specs);
      o := Returned(issues);
    case Structure =>
      var issues, r, d, t := StructureRule.Check(specs);
      o := Returned(issues);
    case Custom(_, behaviour) =>
      o := behaviour(specs);
  }

  /** `CheckEngine`: an ordered list of rules. */
  class CheckEngine {
    var rules: seq<Rule>

    constructor(rules: seq<Rule>)
      ensures this.rules == rules
    {
      this.rules := rules;
    }

    /** `run_checks`: every rule is run, in order, even after one raised;
        the result is the concatenation of the returned lists. The method
        has no `modifies` clause, so the rule list is left as it was. */
    method RunChecks(specs: ParsedSpecs) returns (issues: seq<Issue>, ghost outcomes: seq<Outcome>)
      ensures |outcomes| == |rules|
      ensures forall k :: 0 <= k < |rules| ==> Produces(rules[k], specs, outcomes[k])
      ensures issues == Concat(outcomes)
    {
      issues := [];
      outcomes := [];
      var k := 0;
      while k < |rules|
        invariant 0 <= k <= |rules|
        invariant |outcomes| == k
        invariant forall j :: 0 <= j < k ==> Produces(rules[j], specs, outcomes[j])
        invariant issues == Concat(outcomes)
      {
        var o := Apply(rules[k], specs);
        match o {
          case Returned(found) => issues := issues + found;
          case Raised(_) =>
        }
        assert (outcomes + [o])[..k] == outcomes;
        outcomes := outcomes + [o];
        k := k + 1;
      }
    }

    /** `add_rule`: the new rule goes last; the earlier ones keep their
        places. */
    method AddRule(rule: Rule)
      modifies this
      ensures rules == old(rules) + [rule]
      ensures |rules| == |old(rules)| + 1
    {
      rules := rules + [rule];
    }
  }

  /** The engine's output over two runs of rules is the output of the first
      followed by that of the second. */
  lemma {:induction false} ConcatSplit(a: seq<Outcome>, b: seq<Outcome>)
    ensures Concat(a + b) == Concat(a) + Concat(b)
    decreases |b|
  {
    if |b| == 0 {
      assert a + b == a;
    } else {
      var b' := b[..|b| - 1];
      assert (a + b)[..|a + b| - 1] == a + b';
      assert (a + b)[|a + b| - 1] == b[|b| - 1];
      ConcatSplit(a, b');
    }
  }

  /** A single rule's outcome contributes exactly what it returned. */
  lemma ConcatSingle(o: Outcome)
    ensures Concat([o]) == Contribution(o)
  {
    assert [o][..0] == [];
  }

  /** A raising rule adds nothing, and the rules after it still contribute. */
  lemma RaisedAddsNothing(before: seq<Outcome>, message: string, after: seq<Outcome>)
    ensures Concat(before + [Raised(message)] + after) == Concat(before) + Concat(after)
  {
    var upTo := before + [Raised(message)];
    ConcatSplit(upTo, after);
    ConcatSplit(before, [Raised(message)]);
    ConcatSingle(Raised(message));
  }

  /** A returning rule adds exactly its list, between the earlier rules'
      issues and the later rules' issues. */
  lemma ReturnedAddsItsIssues(before: seq<Outcome>, found: seq<Issue>, after: seq<Outcome>)
    ensures Concat(before + [Returned(found)] + after) == Concat(before) + found + Concat(after)
  {
    var upTo := before + [Returned(found)];
    ConcatSplit(upTo, after);
    ConcatSplit(before, [Returned(found)]);
    ConcatSingle(Returned(found));
  }

  /** The output's length is the sum of the returned lists' lengths. */
  lemma {:induction false} ConcatLength(outcomes: seq<Outcome>)
    ensures |Concat(outcomes)| == ReturnedCount(outcomes)
    decreases |outcomes|
  {
    if |outcomes| > 0 {
      ConcatLength(outcomes[..|outcomes| - 1]);
    }
  }

  /** When every rule raised (in particular when there are no rules) the
      output is empty. */
  lemma {:induction false} AllRaisedNothing(outcomes: seq<Outcome>)
    requires forall k :: 0 <= k < |outcomes| ==> outcomes[k].Raised?
    ensures Concat(outcomes) == []
    decreases |outcomes|
  {
    if |outcomes| > 0 {
      AllRaisedNothing(outcomes[..|outcomes| - 1]);
    }
  }

  /** An issue is in the output exactly when some rule that did not raise
      returned it. */
  lemma {:induction false} ConcatMembers(outcomes: seq<Outcome>, i: Issue)
    ensures i in Concat(outcomes) <==>
      exists k :: 0 <= k < |outcomes| && outcomes[k].Returned? && i in outcomes[k].issues
    decreases |outcomes|
  {
    if |outcomes| > 0 {
      var init := outcomes[..|outcomes| - 1];
      ConcatMembers(init, i);
      var last := |outcomes| - 1;
      if i in Concat(outcomes) && i !in Concat(init) {
        assert outcomes[last].Returned? && i in outcomes[last].issues;
      }
      if exists k :: 0 <= k < |outcomes| && outcomes[k].Returned? && i in outcomes[k].issues {
        var k :| 0 <= k < |outcomes| && outcomes[k].Returned? && i in outcomes[k].issues;
        if k < last {
          assert init[k] == outcomes[k];
        }
      }
    }
  }
}
