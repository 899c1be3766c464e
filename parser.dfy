/** The structural parser: turns a document's block-token stream and its
    text into the flat title -> Section dict (with sections nested through
    their subsections lists), and parses the three documents of a project.
    The token stream is what the markdown tokenizer produces for the text;
    the tokenizer is not part of this model, so the stream is an input. */
module Parser {
  import opened Wrappers
  import opened Text
  import opened PyDict
  import opened Issues
  import opened Documents
  import opened ParserIds

  // ------------------------------------------------------------ tokens

  /** Heading tags are `h1` ... `h6`. */
  type HeadingLevel = n: int | 1 <= n <= 6 witness 1

  /** A token's `map`: the half-open range of source lines it covers. */
  datatype LineRange = LineRange(start: nat, end: nat)

  /** The block tokens the parser distinguishes; every other token type
      (closing tokens, list items, ordered lists, tables, rules, ...) is
      an OtherToken. */
  datatype Token =
    | HeadingOpen(level: HeadingLevel)
    | HeadingClose
    | Inline(content: string)
    | ParagraphOpen(span: Option<LineRange>)
    | BulletListOpen(span: Option<LineRange>)
    | CodeBlock(span: Option<LineRange>)
    | Fence(span: Option<LineRange>)
    | OtherToken(span: Option<LineRange>)

  /** The token types whose lines become section content. */
  predicate Collected(t: Token) {
    t.ParagraphOpen? || t.BulletListOpen? || t.CodeBlock? || t.Fence?
  }

  /** Python's `lines[start:end]` for non-negative bounds: both are
      clamped to the length, and a reversed range is empty. */
  function PySlice(lines: seq<string>, start: nat, end: nat): (r: seq<string>)
    ensures |r| <= |lines|
  {
    var s := if start < |lines| then start else |lines|;
    var e := if end < |lines| then end else |lines|;
    if s <= e then lines[s..e] else []
  }

  // ------------------------------------------- the scan, as a function

  /** What a saved section holds: its title, content and level. */
  datatype SectionRecord = SectionRecord(title: string, content: string, level: int)

  /** The loop's variables: `current_heading`, `current_level`,
      `content_lines`, and the sections saved so far at heading starts. */
  datatype ScanState = ScanState(heading: Option<string>, level: int, body: seq<string>, saved: seq<SectionRecord>)

  /** The section the current heading would be saved as, if any: only a
      non-empty heading with at least one collected content line is. */
  function Pending(st: ScanState): Option<SectionRecord> {
    if HasText(st.heading) && |st.body| > 0 then
      Some(SectionRecord(st.heading.value, Strip(Join(st.body, "\n")), st.level))
    else None
  }

  /** One iteration of the token loop. */
  function Step(st: ScanState, t: Token, lines: seq<string>): ScanState {
    match t
    case HeadingOpen(n) =>
      var st' := match Pending(st)
        case Some(rec) => st.(body := [], saved := st.saved + [rec])
        case None => st;
      st'.(level := n)
    case Inline(c) =>
      if st.level > 0 then st.(heading := Some(c)) else st
    case HeadingClose => st
    case _ =>
      if HasText(st.heading) && Collected(t) && t.span.Some? then
        st.(body := st.body + PySlice(lines, t.span.value.start, t.span.value.end))
      else st
  }

  /** The loop's state after the whole token sequence. */
  function Run(tokens: seq<Token>, lines: seq<string>): ScanState {
    if |tokens| == 0 then ScanState(None, 0, [], [])
    else Step(Run(tokens[..|tokens| - 1], lines), tokens[|tokens| - 1], lines)
  }

  /** Every section stored in the dict, in the order it was stored: those
      saved at heading starts, then the one saved after the loop. */
  function AllRecords(tokens: seq<Token>, lines: seq<string>): seq<SectionRecord> {
    var st := Run(tokens, lines);
    st.saved + match Pending(st) case Some(rec) => [rec] case None => []
  }

  function Levels(recs: seq<SectionRecord>): (r: seq<int>)
    ensures |r| == |recs| && forall k :: 0 <= k < |recs| ==> r[k] == recs[k].level
  {
    seq(|recs|, k requires 0 <= k < |recs| => recs[k].level)
  }

  function Titles(recs: seq<SectionRecord>): (r: seq<string>)
    ensures |r| == |recs| && forall k :: 0 <= k < |recs| ==> r[k] == recs[k].title
  {
    seq(|recs|, k requires 0 <= k < |recs| => recs[k].title)
  }

  // --------------------------------------- the hierarchy, as a function

  /** The section stack (as positions in the saved order) and each saved
      section's children (as positions). */
  datatype Forest = Forest(stack: seq<nat>, kids: seq<seq<nat>>)

  predicate Bounded(idx: seq<nat>, n: nat) {
    forall m :: 0 <= m < |idx| ==> idx[m] < n
  }

  /** `while stack and stack[-1].level >= level: stack.pop()`. */
  function PopWhile(stack: seq<nat>, levels: seq<int>, lv: int): (r: seq<nat>)
    requires Bounded(stack, |levels|)
    ensures |r| <= |stack| && r == stack[..|r|]
    ensures |r| > 0 ==> levels[r[|r| - 1]] < lv
  {
    if |stack| > 0 && levels[stack[|stack| - 1]] >= lv then
      var r := PopWhile(stack[..|stack| - 1], levels, lv);
      assert stack[..|stack| - 1][..|r|] == stack[..|r|];
      r
    else stack
  }

  /** Everything popped is at the new level or deeper. */
  lemma {:induction false} PopWhileDeep(stack: seq<nat>, levels: seq<int>, lv: int)
    requires Bounded(stack, |levels|)
    ensures var r := PopWhile(stack, levels, lv);
      forall m :: |r| <= m < |stack| ==> levels[stack[m]] >= lv
  {
    if |stack| > 0 && levels[stack[|stack| - 1]] >= lv {
      PopWhileDeep(stack[..|stack| - 1], levels, lv);
    }
  }

  /** Saving a section at level `lv` after sections with levels `pre`:
      pop every open section at that level or deeper, attach the new
      section to the one left on top, then push it. */
  function Grow(f: Forest, pre: seq<int>, lv: int): (g: Forest)
    requires |f.kids| == |pre| && Bounded(f.stack, |pre|)
    ensures g.stack == PopWhile(f.stack, pre, lv) + [|pre|]
    ensures |g.kids| == |pre| + 1 && g.kids[|pre|] == []
  {
    var n := |pre|;
    var r := PopWhile(f.stack, pre, lv);
    var kids := if |r| > 0 then f.kids[r[|r| - 1] := f.kids[r[|r| - 1]] + [n]] else f.kids;
    Forest(r + [n], kids + [[]])
  }

  /** The new section becomes the last child of the top of the popped
      stack; every other child list is unchanged. */
  lemma GrowKids(f: Forest, pre: seq<int>, lv: int)
    requires |f.kids| == |pre| && Bounded(f.stack, |pre|)
    ensures var r := PopWhile(f.stack, pre, lv);
      forall j :: 0 <= j < |pre| ==>
        Grow(f, pre, lv).kids[j] == if |r| > 0 && j == r[|r| - 1] then f.kids[j] + [|pre|] else f.kids[j]
  {
  }

  lemma GrowShape(f: Forest, pre: seq<int>, lv: int)
    requires Shape(f, |pre|)
    ensures Shape(Grow(f, pre, lv), |pre| + 1)
  {
    var g := Grow(f, pre, lv);
    GrowKids(f, pre, lv);
    forall k | 0 <= k < |pre| + 1 ensures Bounded(g.kids[k], |pre| + 1) {
      if k < |pre| {
        assert Bounded(f.kids[k], |pre|);
      }
    }
  }

  /** Stack and children after saving sections with these levels, in order. */
  function Attach(levels: seq<int>): (f: Forest)
    ensures |f.kids| == |levels| && Bounded(f.stack, |levels|)
  {
    if |levels| == 0 then Forest([], [])
    else
      var n := |levels| - 1;
      Grow(Attach(levels[..n]), levels[..n], levels[n])
  }

  /** A simulation of stack and children for `n` saved sections. */
  ghost predicate Shape(forest: Forest, n: nat) {
    && |forest.kids| == n && Bounded(forest.stack, n)
    && forall k :: 0 <= k < n ==> Bounded(forest.kids[k], n)
  }

  lemma {:induction false} AttachShape(levels: seq<int>)
    ensures Shape(Attach(levels), |levels|)
  {
    if |levels| > 0 {
      var n := |levels| - 1;
      AttachShape(levels[..n]);
      GrowShape(Attach(levels[..n]), levels[..n], levels[n]);
    }
  }

  /** Saving one more section extends the stack simulation by one step. */
  lemma AttachStep(pre: seq<int>, lv: int)
    ensures Attach(pre + [lv]) == Grow(Attach(pre), pre, lv)
  {
    assert (pre + [lv])[..|pre|] == pre;
  }

  /** `j` is the parent the level rule gives `c`: the nearest earlier
      section with a smaller level, with nothing shallower in between. */
  ghost predicate IsParent(levels: seq<int>, j: int, c: int) {
    && 0 <= j < c < |levels|
    && levels[j] < levels[c]
    && forall k :: j < k < c ==> levels[k] >= levels[c]
  }

  /** `j` is still open after the last section: every later one is deeper. */
  ghost predicate OnStack(levels: seq<int>, j: int) {
    0 <= j < |levels| && forall k :: j < k < |levels| ==> levels[k] > levels[j]
  }

  /** The stack lists positions in increasing order, with increasing levels. */
  ghost predicate Increasing(levels: seq<int>, s: seq<nat>) {
    && Bounded(s, |levels|)
    && forall a, b :: 0 <= a < b < |s| ==> s[a] < s[b] && levels[s[a]] < levels[s[b]]
  }

  /** The stack holds exactly the open sections. */
  ghost predicate Open(levels: seq<int>, s: seq<nat>) {
    forall j :: j in s <==> OnStack(levels, j)
  }

  /** Every section has an open one at or after it that is no deeper. */
  ghost predicate Covered(levels: seq<int>, s: seq<nat>) {
    forall k :: 0 <= k < |levels| ==> CoveredAt(levels, s, k)
  }

  ghost predicate CoveredAt(levels: seq<int>, s: seq<nat>, k: int)
    requires 0 <= k < |levels|
  {
    exists j :: k <= j < |levels| && j in s && levels[j] <= levels[k]
  }

  lemma LiftOnStack(pre: seq<int>, lv: int, j: int)
    requires 0 <= j < |pre|
    ensures OnStack(pre + [lv], j) <==> OnStack(pre, j) && pre[j] < lv
  {
    var levels := pre + [lv];
    assert levels[|pre|] == lv;
    if OnStack(pre, j) && pre[j] < lv {
      forall k | j < k < |levels| ensures levels[k] > levels[j] {
        if k < |pre| { assert levels[k] == pre[k]; }
      }
    }
    if OnStack(levels, j) {
      forall k | j < k < |pre| ensures pre[k] > pre[j] {
        assert levels[k] == pre[k];
      }
    }
  }

  ghost predicate StackInv(levels: seq<int>, s: seq<nat>) {
    Increasing(levels, s) && Open(levels, s) && Covered(levels, s)
  }

  lemma StepIncreasing(pre: seq<int>, lv: int, s0: seq<nat>)
    requires Increasing(pre, s0)
    ensures Increasing(pre + [lv], PopWhile(s0, pre, lv) + [|pre|])
  {
    var levels := pre + [lv];
    var r := PopWhile(s0, pre, lv);
    var s := r + [|pre|];
    forall a, b | 0 <= a < b < |s| ensures s[a] < s[b] && levels[s[a]] < levels[s[b]] {
      assert s[a] == s0[a];
      if b < |r| {
        assert s[b] == s0[b];
      } else if a < |r| - 1 {
        assert s0[a] < s0[|r| - 1] && pre[s0[a]] < pre[s0[|r| - 1]];
      }
    }
  }

  lemma StepOpen(pre: seq<int>, lv: int, s0: seq<nat>)
    requires Increasing(pre, s0) && Open(pre, s0)
    ensures Open(pre + [lv], PopWhile(s0, pre, lv) + [|pre|])
  {
    var levels := pre + [lv];
    var n := |pre|;
    StepIncreasing(pre, lv, s0);
    var r := PopWhile(s0, pre, lv);
    PopWhileDeep(s0, pre, lv);
    var s := r + [n];
    forall j ensures j in s <==> OnStack(levels, j) {
      if j in r {
        var a :| 0 <= a < |r| && r[a] == j;
        assert s0[a] == j && OnStack(pre, j);
        assert levels[j] <= levels[r[|r| - 1]];
        LiftOnStack(pre, lv, j);
      } else if j != n && OnStack(levels, j) {
        LiftOnStack(pre, lv, j);
      }
    }
  }

  lemma StepCovered(pre: seq<int>, lv: int, s0: seq<nat>)
    requires Increasing(pre, s0) && Covered(pre, s0)
    ensures Covered(pre + [lv], PopWhile(s0, pre, lv) + [|pre|])
  {
    var levels := pre + [lv];
    var n := |pre|;
    var r := PopWhile(s0, pre, lv);
    PopWhileDeep(s0, pre, lv);
    var s := r + [n];
    forall k | 0 <= k < |levels| ensures CoveredAt(levels, s, k) {
      if k == n {
        assert s[|r|] == n;
      } else {
        assert CoveredAt(pre, s0, k);
        var j :| k <= j < |pre| && j in s0 && pre[j] <= pre[k];
        var m :| 0 <= m < |s0| && s0[m] == j;
        assert levels[k] == pre[k] && levels[j] == pre[j];
        if m < |r| {
          assert s[m] == j && j in s;
        } else {
          assert s0[m] == j && pre[s0[m]] >= lv;
          assert s[|r|] == n && n in s && levels[n] <= levels[k];
        }
      }
    }
  }

  /** The stack the simulation ends with satisfies the stack invariant. */
  lemma {:induction false} StackShape(levels: seq<int>)
    ensures StackInv(levels, Attach(levels).stack)
  {
    if |levels| > 0 {
      var n := |levels| - 1;
      var pre := levels[..n];
      assert levels == pre + [levels[n]];
      StackShape(pre);
      AttachStep(pre, levels[n]);
      StepIncreasing(pre, levels[n], Attach(pre).stack);
      StepOpen(pre, levels[n], Attach(pre).stack);
      StepCovered(pre, levels[n], Attach(pre).stack);
    }
  }

  /** The top of the popped stack is a parent of the new section. */
  lemma TopIsParent(pre: seq<int>, lv: int, s0: seq<nat>)
    requires StackInv(pre, s0)
    ensures var r := PopWhile(s0, pre, lv);
      |r| > 0 ==> IsParent(pre + [lv], r[|r| - 1], |pre|)
  {
    var levels := pre + [lv];
    var n := |pre|;
    var r := PopWhile(s0, pre, lv);
    PopWhileDeep(s0, pre, lv);
    if |r| > 0 {
      var p := r[|r| - 1];
      assert s0[|r| - 1] == p;
      AfterTopDeep(pre, lv, s0, |r| - 1);
      assert levels[p] == pre[p] && levels[n] == lv;
      forall k | p < k < n ensures levels[k] >= levels[n] {
        assert levels[k] == pre[k];
      }
    }
  }

  /** When every stack entry above position `m` is at level `lv` or
      deeper, so is every section after the one at `m`. */
  lemma AfterTopDeep(pre: seq<int>, lv: int, s0: seq<nat>, m: nat)
    requires StackInv(pre, s0) && m < |s0|
    requires forall i :: m < i < |s0| ==> pre[s0[i]] >= lv
    ensures forall k :: s0[m] < k < |pre| ==> pre[k] >= lv
  {
    forall k | s0[m] < k < |pre| ensures pre[k] >= lv {
      assert CoveredAt(pre, s0, k);
      var w :| k <= w < |pre| && w in s0 && pre[w] <= pre[k];
      var i :| 0 <= i < |s0| && s0[i] == w;
      assert i > m;
    }
  }

  /** A section has at most one parent. */
  lemma ParentUnique(levels: seq<int>, a: int, b: int, c: int)
    requires IsParent(levels, a, c) && IsParent(levels, b, c)
    ensures a == b
  {
  }

  /** With nothing left on the popped stack, the new section has no parent. */
  lemma EmptyStackNoParent(pre: seq<int>, lv: int, s0: seq<nat>, j: int)
    requires StackInv(pre, s0) && 0 <= j < |pre|
    requires PopWhile(s0, pre, lv) == []
    ensures !IsParent(pre + [lv], j, |pre|)
  {
    var levels := pre + [lv];
    var n := |pre|;
    PopWhileDeep(s0, pre, lv);
    if IsParent(levels, j, n) {
      assert levels[j] == pre[j] && levels[n] == lv;
      forall k | j < k < n ensures pre[k] > pre[j] {
        assert levels[k] == pre[k];
      }
      assert OnStack(pre, j);
    }
  }

  /** The newest section's parent is the top of the popped stack. */
  lemma NewParent(pre: seq<int>, lv: int, s0: seq<nat>, j: int)
    requires StackInv(pre, s0) && 0 <= j < |pre|
    ensures var r := PopWhile(s0, pre, lv);
      (|r| > 0 && j == r[|r| - 1]) <==> IsParent(pre + [lv], j, |pre|)
  {
    var r := PopWhile(s0, pre, lv);
    TopIsParent(pre, lv, s0);
    if |r| > 0 {
      if IsParent(pre + [lv], j, |pre|) {
        ParentUnique(pre + [lv], j, r[|r| - 1], |pre|);
      }
    } else {
      EmptyStackNoParent(pre, lv, s0, j);
    }
  }

  lemma LiftParent(pre: seq<int>, lv: int, j: int, c: int)
    requires 0 <= c < |pre|
    ensures IsParent(pre + [lv], j, c) <==> IsParent(pre, j, c)
  {
    var levels := pre + [lv];
    if 0 <= j < c {
      assert levels[c] == pre[c] && levels[j] == pre[j];
      forall k | j < k < c ensures levels[k] == pre[k] {
      }
    }
  }

  /** The tree the stack builds is the one the level rule says: `c` is a
      child of `j` exactly when `j` is the nearest earlier section with a
      smaller level (so every child is strictly deeper than its parent). */
  lemma {:induction false} KidsAreLevelChildren(levels: seq<int>, j: int, c: int)
    requires 0 <= j < |levels| && 0 <= c < |levels|
    ensures c in Attach(levels).kids[j] <==> IsParent(levels, j, c)
  {
    var n := |levels| - 1;
    var pre := levels[..n];
    var lv := levels[n];
    assert levels == pre + [lv];
    if j == n {
      KidsOfNewest(pre, lv);
    } else if c < n {
      KidsAreLevelChildren(pre, j, c);
      LiftParent(pre, lv, j, c);
      KidsOfOlder(pre, lv, j, c);
    } else {
      KidsNewChild(pre, lv, j);
    }
  }

  lemma KidsOfNewest(pre: seq<int>, lv: int)
    ensures Attach(pre + [lv]).kids[|pre|] == []
  {
    AttachStep(pre, lv);
  }

  lemma KidsOfOlder(pre: seq<int>, lv: int, j: int, c: int)
    requires 0 <= j < |pre| && 0 <= c < |pre|
    ensures c in Attach(pre + [lv]).kids[j] <==> c in Attach(pre).kids[j]
  {
    var f := Attach(pre);
    AttachStep(pre, lv);
    GrowKids(f, pre, lv);
    var kids := Grow(f, pre, lv).kids[j];
    if kids != f.kids[j] {
      assert kids == f.kids[j] + [|pre|];
      InAppend(f.kids[j], |pre|, c);
    }
  }

  lemma InAppend(xs: seq<nat>, x: nat, c: nat)
    requires c != x
    ensures c in xs + [x] <==> c in xs
  {
    if c in xs + [x] {
      var i :| 0 <= i < |xs| + 1 && (xs + [x])[i] == c;
      assert i < |xs| && xs[i] == c;
    }
  }

  lemma KidsNewChild(pre: seq<int>, lv: int, j: int)
    requires 0 <= j < |pre|
    ensures |pre| in Attach(pre + [lv]).kids[j] <==> IsParent(pre + [lv], j, |pre|)
  {
    AttachStep(pre, lv);
    StackShape(pre);
    var f := Attach(pre);
    GrowKids(f, pre, lv);
    AttachShape(pre);
    NewParent(pre, lv, f.stack, j);
    assert Bounded(f.kids[j], |pre|);
    assert |pre| !in f.kids[j];
  }

  // ---------------------------------------------------- the token loop

  /** The positions `idx` name in `nodes`. */
  ghost function Pick(nodes: seq<Section>, idx: seq<nat>): (r: seq<Section>)
    requires Bounded(idx, |nodes|)
    ensures |r| == |idx| && forall m :: 0 <= m < |idx| ==> r[m] == nodes[idx[m]]
  {
    seq(|idx|, m requires 0 <= m < |idx| => nodes[idx[m]])
  }

  ghost function Records(nodes: seq<Section>): (r: seq<SectionRecord>)
    ensures |r| == |nodes|
    ensures forall k :: 0 <= k < |nodes| ==> r[k] == SectionRecord(nodes[k].title, nodes[k].content, nodes[k].level)
  {
    seq(|nodes|, k requires 0 <= k < |nodes| => SectionRecord(nodes[k].title, nodes[k].content, nodes[k].level))
  }

  ghost predicate Distinct(nodes: seq<Section>) {
    forall a, b :: 0 <= a < b < |nodes| ==> nodes[a] != nodes[b]
  }

  /** What `_extract_sections` builds, in terms of the scan functions: the
      section objects in the order they were stored carry the stored
      records; the dict assigns each one under its title in that order; a
      section saved at a heading start has as subsections the children the
      stack gives it; the one saved after the loop has none and is no
      section's child. */
  ghost predicate SectionsBuilt(tokens: seq<Token>, lines: seq<string>, sections: ValidDict<Section>, nodes: seq<Section>)
    reads nodes
  {
    var saved := Run(tokens, lines).saved;
    var kids := Attach(Levels(saved)).kids;
    && Records(nodes) == AllRecords(tokens, lines)
    && Distinct(nodes)
    && sections == FromPairs(Titles(Records(nodes)), nodes)
    && |saved| <= |nodes|
    && (forall k {:trigger kids[k]} :: 0 <= k < |saved| ==> Bounded(kids[k], |nodes|) && nodes[k].subsections == Pick(nodes, kids[k]))
    && (|nodes| > |saved| ==>
          && nodes[|saved|].subsections == []
          && forall k :: 0 <= k < |nodes| ==> nodes[|saved|] !in nodes[k].subsections)
  }

  /** Picking from a longer node list, and picking the new node. */
  lemma PickExtend(nodes: seq<Section>, s: Section, idx: seq<nat>)
    requires Bounded(idx, |nodes|)
    ensures Pick(nodes + [s], idx) == Pick(nodes, idx)
    ensures Pick(nodes + [s], idx + [|nodes|]) == Pick(nodes, idx) + [s]
  {
    assert (idx + [|nodes|])[..|idx|] == idx;
  }

  lemma RecordsExtend(nodes: seq<Section>, s: Section)
    ensures Records(nodes + [s]) == Records(nodes) + [SectionRecord(s.title, s.content, s.level)]
    ensures Levels(Records(nodes + [s])) == Levels(Records(nodes)) + [s.level]
    ensures Titles(Records(nodes + [s])) == Titles(Records(nodes)) + [s.title]
  {
    assert (nodes + [s])[..|nodes|] == nodes;
    var r := Records(nodes);
    var rec := SectionRecord(s.title, s.content, s.level);
    assert (r + [rec])[..|r|] == r;
  }

  /** The scan of one more token. */
  lemma RunStep(tokens: seq<Token>, i: nat, lines: seq<string>)
    requires i < |tokens|
    ensures Run(tokens[..i + 1], lines) == Step(Run(tokens[..i], lines), tokens[i], lines)
  {
    assert tokens[..i + 1][..i] == tokens[..i];
  }

  /** `while section_stack and section_stack[-1].level >= current_level:
      section_stack.pop()`, with `idx` the stack as positions in `nodes`. */
  method PopDeeper(stack: seq<Section>, lv: int, ghost nodes: seq<Section>, ghost idx: seq<nat>)
    returns (stack': seq<Section>, ghost idx': seq<nat>)
    requires Bounded(idx, |nodes|) && stack == Pick(nodes, idx)
    ensures idx' == PopWhile(idx, Levels(Records(nodes)), lv)
    ensures Bounded(idx', |nodes|) && stack' == Pick(nodes, idx')
  {
    ghost var L := Levels(Records(nodes));
    stack', idx' := stack, idx;
    while |stack'| > 0 && stack'[|stack'| - 1].level >= lv
      invariant Bounded(idx', |nodes|) && stack' == Pick(nodes, idx')
      invariant PopWhile(idx', L, lv) == PopWhile(idx, L, lv)
      decreases |stack'|
    {
      assert L[idx'[|idx'| - 1]] == stack'[|stack'| - 1].level;
      stack' := stack'[..|stack'| - 1];
      idx' := idx'[..|idx'| - 1];
    }
    assert |idx'| > 0 ==> L[idx'[|idx'| - 1]] == stack'[|stack'| - 1].level;
  }

  /** The hierarchy step for a newly saved section: pop the sections at its
      level or deeper, append it to the subsections of the one left on top,
      push it. `nodes` are the sections saved so far and `forest` the
      simulation of their stack and children. */
  method PushSection(stack: seq<Section>, section: Section, ghost nodes: seq<Section>, ghost forest: Forest)
    returns (stack': seq<Section>, ghost forest': Forest)
    requires section !in nodes && Distinct(nodes)
    requires Shape(forest, |nodes|)
    requires stack == Pick(nodes, forest.stack)
    requires forall k {:trigger forest.kids[k]} :: 0 <= k < |nodes| ==> nodes[k].subsections == Pick(nodes, forest.kids[k])
    modifies nodes
    ensures forest' == Grow(forest, Levels(Records(nodes)), section.level)
    ensures stack' == Pick(nodes + [section], forest'.stack)
    ensures forall k {:trigger forest'.kids[k]} :: 0 <= k < |nodes| ==> nodes[k].subsections == Pick(nodes + [section], forest'.kids[k])
  {
    ghost var L := Levels(Records(nodes));
    forest' := Grow(forest, L, section.level);
    GrowShape(forest, L, section.level);
    ghost var idx: seq<nat>;
    stack', idx := PopDeeper(stack, section.level, nodes, forest.stack);
    if |stack'| > 0 {
      var parent := stack'[|stack'| - 1];
      parent.subsections := parent.subsections + [section];
    }
    forall k | 0 <= k < |nodes|
      ensures nodes[k].subsections == Pick(nodes + [section], forest'.kids[k])
    {
      PickExtend(nodes, section, forest.kids[k]);
      if |idx| > 0 && k == idx[|idx| - 1] {
        assert nodes[k] == stack'[|stack'| - 1];
      } else {
        assert |stack'| > 0 ==> nodes[k] != stack'[|stack'| - 1];
      }
    }
    PickExtend(nodes, section, idx);
    stack' := stack' + [section];
  }

  /** The section objects saved at heading starts, the simulation of their
      stack and children, and the actual stack and subsections agree. */
  ghost predicate Linked(nodes: seq<Section>, forest: Forest, stack: seq<Section>)
    reads nodes
  {
    && Shape(forest, |nodes|)
    && Distinct(nodes)
    && stack == Pick(nodes, forest.stack)
    && forall k {:trigger forest.kids[k]} :: 0 <= k < |nodes| ==> nodes[k].subsections == Pick(nodes, forest.kids[k])
  }

  /** The simulation after one more saved section. */
  lemma SimExtend(nodes: seq<Section>, section: Section, forest: Forest)
    requires forest == Attach(Levels(Records(nodes)))
    ensures Attach(Levels(Records(nodes + [section]))) == Grow(forest, Levels(Records(nodes)), section.level)
  {
    RecordsExtend(nodes, section);
    AttachStep(Levels(Records(nodes)), section.level);
  }

  /** The links after a section is placed by PushSection. */
  lemma LinkedGrow(nodes: seq<Section>, section: Section, forest: Forest, forest': Forest, stack': seq<Section>)
    requires Distinct(nodes) && section !in nodes && section.subsections == []
    requires Shape(forest, |nodes|)
    requires forest' == Grow(forest, Levels(Records(nodes)), section.level)
    requires stack' == Pick(nodes + [section], forest'.stack)
    requires forall k {:trigger forest'.kids[k]} :: 0 <= k < |nodes| ==> nodes[k].subsections == Pick(nodes + [section], forest'.kids[k])
    ensures Linked(nodes + [section], forest', stack')
  {
    var nodes' := nodes + [section];
    DistinctExtend(nodes, section);
    forall k {:trigger forest'.kids[k]} | 0 <= k < |nodes'|
      ensures nodes'[k].subsections == Pick(nodes', forest'.kids[k])
    {
      if k < |nodes| {
        assert nodes'[k] == nodes[k];
      } else {
        assert forest'.kids[k] == [];
      }
    }
  }

  /** The dict and the records after one more section is stored. */
  lemma StoreExtend(nodes: seq<Section>, section: Section, sections: ValidDict<Section>)
    requires sections == FromPairs(Titles(Records(nodes)), nodes)
    ensures Put(sections, section.title, section) == FromPairs(Titles(Records(nodes + [section])), nodes + [section])
    ensures Records(nodes + [section]) == Records(nodes) + [SectionRecord(section.title, section.content, section.level)]
  {
    RecordsExtend(nodes, section);
    assert (nodes + [section])[..|nodes|] == nodes;
  }

  /** Saving the current section at a heading start: store it under its
      title, then place it in the hierarchy. */
  method SaveSection(
    title: string, content: string, level: int, sections: ValidDict<Section>, stack: seq<Section>,
    ghost nodes: seq<Section>, ghost forest: Forest
  ) returns (sections': ValidDict<Section>, stack': seq<Section>, ghost nodes': seq<Section>, ghost forest': Forest)
    requires Linked(nodes, forest, stack) && forest == Attach(Levels(Records(nodes)))
    requires sections == FromPairs(Titles(Records(nodes)), nodes)
    modifies nodes
    ensures |nodes'| == |nodes| + 1 && nodes' == nodes + [nodes'[|nodes|]] && fresh(nodes'[|nodes|])
    ensures Records(nodes') == Records(nodes) + [SectionRecord(title, content, level)]
    ensures Linked(nodes', forest', stack') && forest' == Attach(Levels(Records(nodes')))
    ensures sections' == FromPairs(Titles(Records(nodes')), nodes')
  {
    var section := new Section(title, content, [], level);
    StoreExtend(nodes, section, sections);
    sections' := Put(sections, title, section);
    stack', forest' := PushSection(stack, section, nodes, forest);
    SimExtend(nodes, section, forest);
    LinkedGrow(nodes, section, forest, forest', stack');
    nodes' := nodes + [section];
  }

  /** What the loop leaves behind, when no section is saved after it. */
  lemma BuiltWithoutLast(tokens: seq<Token>, lines: seq<string>, sections: ValidDict<Section>, nodes: seq<Section>, forest: Forest, stack: seq<Section>)
    requires Run(tokens, lines).saved == Records(nodes) && Pending(Run(tokens, lines)).None?
    requires Linked(nodes, forest, stack) && forest == Attach(Levels(Records(nodes)))
    requires sections == FromPairs(Titles(Records(nodes)), nodes)
    ensures SectionsBuilt(tokens, lines, sections, nodes)
  {
    assert AllRecords(tokens, lines) == Records(nodes) + [];
  }

  /** What the loop leaves behind, with the section saved after it. */
  lemma BuiltWithLast(
    tokens: seq<Token>, lines: seq<string>, sections: ValidDict<Section>, nodes: seq<Section>,
    forest: Forest, stack: seq<Section>, section: Section)
    requires Run(tokens, lines).saved == Records(nodes)
    requires Pending(Run(tokens, lines)) == Some(SectionRecord(section.title, section.content, section.level))
    requires Linked(nodes, forest, stack) && forest == Attach(Levels(Records(nodes))) && section !in nodes && section.subsections == []
    requires sections == FromPairs(Titles(Records(nodes)), nodes)
    ensures SectionsBuilt(tokens, lines, Put(sections, section.title, section), nodes + [section])
  {
    var nodes' := nodes + [section];
    var saved := Run(tokens, lines).saved;
    StoreExtend(nodes, section, sections);
    assert Records(nodes') == AllRecords(tokens, lines);
    DistinctExtend(nodes, section);
    LinkedExtend(nodes, section, forest.kids);
    NotAChild(nodes, section, forest);
  }

  lemma DistinctExtend(nodes: seq<Section>, section: Section)
    requires Distinct(nodes) && section !in nodes
    ensures Distinct(nodes + [section])
  {
  }

  /** A section no saved section lists as a child is in no subsection list
      of the extended node list either (its own list being empty). */
  lemma NotAChild(nodes: seq<Section>, section: Section, forest: Forest)
    requires |forest.kids| == |nodes| && forall k :: 0 <= k < |nodes| ==> Bounded(forest.kids[k], |nodes|)
    requires forall k {:trigger forest.kids[k]} :: 0 <= k < |nodes| ==> nodes[k].subsections == Pick(nodes, forest.kids[k])
    requires section !in nodes && section.subsections == []
    ensures forall k :: 0 <= k < |nodes| + 1 ==> section !in (nodes + [section])[k].subsections
  {
    forall k | 0 <= k < |nodes| + 1 ensures section !in (nodes + [section])[k].subsections {
      if k < |nodes| {
        assert (nodes + [section])[k] == nodes[k];
        assert nodes[k].subsections == Pick(nodes, forest.kids[k]);
      }
    }
  }

  /** Subsection lists that name saved sections still do with one more. */
  lemma LinkedExtend(nodes: seq<Section>, section: Section, kids: seq<seq<nat>>)
    requires |kids| == |nodes| && forall k :: 0 <= k < |nodes| ==> Bounded(kids[k], |nodes|)
    requires forall k {:trigger kids[k]} :: 0 <= k < |nodes| ==> nodes[k].subsections == Pick(nodes, kids[k])
    ensures forall k {:trigger kids[k]} :: 0 <= k < |nodes| ==>
      Bounded(kids[k], |nodes| + 1) && (nodes + [section])[k].subsections == Pick(nodes + [section], kids[k])
  {
    forall k | 0 <= k < |nodes|
      ensures Bounded(kids[k], |nodes| + 1) && (nodes + [section])[k].subsections == Pick(nodes + [section], kids[k])
    {
      PickExtend(nodes, section, kids[k]);
      assert (nodes + [section])[k] == nodes[k];
    }
  }

  /** Saving the last section after the token loop: stored under its
      title, but not placed in the hierarchy. */
  method SaveLast(
    heading: Option<string>, level: int, body: seq<string>, sections: ValidDict<Section>,
    ghost nodes: seq<Section>, ghost forest: Forest, ghost stack: seq<Section>,
    ghost tokens: seq<Token>, ghost lines: seq<string>
  ) returns (sections': ValidDict<Section>, ghost nodes': seq<Section>)
    requires Run(tokens, lines) == ScanState(heading, level, body, Records(nodes))
    requires Linked(nodes, forest, stack) && forest == Attach(Levels(Records(nodes)))
    requires sections == FromPairs(Titles(Records(nodes)), nodes)
    ensures SectionsBuilt(tokens, lines, sections', nodes')
  {
    if HasText(heading) && |body| > 0 {
      var content := Strip(Join(body, "\n"));
      var section := new Section(heading.value, content, [], level);
      BuiltWithLast(tokens, lines, sections, nodes, forest, stack, section);
      sections' := Put(sections, heading.value, section);
      nodes' := nodes + [section];
    } else {
      BuiltWithoutLast(tokens, lines, sections, nodes, forest, stack);
      sections', nodes' := sections, nodes;
    }
  }

  /** The four ways one token changes the scan state, in the order the
      loop tests them. */
  lemma StepSave(st: ScanState, t: Token, lines: seq<string>)
    requires t.HeadingOpen? && HasText(st.heading) && |st.body| > 0
    ensures Step(st, t, lines) == ScanState(st.heading, t.level, [], st.saved + [SectionRecord(st.heading.value, Strip(Join(st.body, "\n")), st.level)])
  {
  }

  lemma StepNoSave(st: ScanState, t: Token, lines: seq<string>)
    requires t.HeadingOpen? && !(HasText(st.heading) && |st.body| > 0)
    ensures Step(st, t, lines) == st.(level := t.level)
  {
  }

  lemma StepInline(st: ScanState, t: Token, lines: seq<string>)
    requires t.Inline? && st.level > 0
    ensures Step(st, t, lines) == st.(heading := Some(t.content))
  {
  }

  lemma StepOther(st: ScanState, t: Token, lines: seq<string>)
    requires !t.HeadingOpen? && !(t.Inline? && st.level > 0)
    ensures Step(st, t, lines) ==
      if HasText(st.heading) && Collected(t) && t.span.Some?
      then st.(body := st.body + PySlice(lines, t.span.value.start, t.span.value.end))
      else st
  {
  }

  /** The state the token loop carries between tokens. */
  ghost predicate Carried(sections: ValidDict<Section>, stack: seq<Section>, nodes: seq<Section>, forest: Forest)
    reads nodes
  {
    && sections == FromPairs(Titles(Records(nodes)), nodes)
    && forest == Attach(Levels(Records(nodes)))
    && Linked(nodes, forest, stack)
  }

  /** One pass of the token loop: the scan state moves by `Step`, and a
      section is created ONLY when a heading closes a pending one. */
  method Advance(
    t: Token, lines: seq<string>, heading: Option<string>, level: int, body: seq<string>,
    sections: ValidDict<Section>, stack: seq<Section>, ghost nodes: seq<Section>, ghost forest: Forest
  ) returns (
    heading': Option<string>, level': int, body': seq<string>,
    sections': ValidDict<Section>, stack': seq<Section>, ghost nodes': seq<Section>, ghost forest': Forest)
    requires Carried(sections, stack, nodes, forest)
    modifies nodes
    ensures ScanState(heading', level', body', Records(nodes')) == Step(ScanState(heading, level, body, Records(nodes)), t, lines)
    ensures Carried(sections', stack', nodes', forest')
    ensures nodes' == nodes || (|nodes'| == |nodes| + 1 && nodes' == nodes + [nodes'[|nodes|]] && fresh(nodes'[|nodes|]))
  {
    ghost var st := ScanState(heading, level, body, Records(nodes));
    heading', level', body', sections', stack', nodes', forest' := heading, level, body, sections, stack, nodes, forest;
    if t.HeadingOpen? {
      if HasText(heading) && |body| > 0 {
        StepSave(st, t, lines);
        var content := Strip(Join(body, "\n"));
        sections', stack', nodes', forest' := SaveSection(heading.value, content, level, sections, stack, nodes, forest);
        body' := [];
      } else {
        StepNoSave(st, t, lines);
      }
      level' := t.level;
    } else if t.Inline? && level > 0 {
      StepInline(st, t, lines);
      heading' := Some(t.content);
    } else if t.HeadingClose? {
      StepOther(st, t, lines);
    } else {
      StepOther(st, t, lines);
      if HasText(heading) && Collected(t) && t.span.Some? {
        body' := body + PySlice(lines, t.span.value.start, t.span.value.end);
      }
    }
  }

  /** `_extract_sections`: the token loop with its section stack. */
  method ExtractSections(tokens: seq<Token>, rawText: string) returns (sections: ValidDict<Section>, ghost nodes: seq<Section>)
    ensures SectionsBuilt(tokens, Split(rawText, '\n'), sections, nodes)
  {
    sections := Empty();
    var stack: seq<Section> := [];
    var lines := Split(rawText, '\n');
    var heading: Option<string> := None;
    var level: int := 0;
    var body: seq<string> := [];
    nodes := [];
    ghost var forest := Forest([], []);
    var i := 0;
    while i < |tokens|
      invariant 0 <= i <= |tokens|
      invariant Run(tokens[..i], lines) == ScanState(heading, level, body, Records(nodes))
      invariant fresh(nodes)
      invariant Carried(sections, stack, nodes, forest)
    {
      RunStep(tokens, i, lines);
      heading, level, body, sections, stack, nodes, forest := Advance(tokens[i], lines, heading, level, body, sections, stack, nodes, forest);
      i := i + 1;
    }
    assert tokens[..|tokens|] == tokens;
    sections, nodes := SaveLast(heading, level, body, sections, nodes, forest, stack, tokens, lines);
  }

  // ------------------------------------------------ parsing documents

  /** `parse`: the sections from the token stream `tokens` (what the
      markdown tokenizer yields for `text`) and the identifiers from the
      text itself. */
  method Parse(tokens: seq<Token>, text: string, docType: DocType) returns (doc: ParsedDocument, ghost nodes: seq<Section>)
    ensures SectionsBuilt(tokens, Split(text, '\n'), doc.sections, nodes)
    ensures doc.requirementIds == IdsIn(text)
    ensures forall x :: HasRequirementId(doc, x) <==> IsIdentifier(x) && Contains(text, x)
    ensures doc.rawText == text && doc.docType == docType
  {
    var sections;
    sections, nodes := ExtractSections(tokens, text);
    var ids := ExtractRequirementIds(text);
    doc := ParsedDocument(sections, ids, text, docType);
  }

  /** The three loaded texts of a project and its name. */
  datatype SpecFiles = SpecFiles(requirement: string, design: string, tasks: string, projectName: string)

  /** `parse_specs`: each text parsed as its own kind, in the order
      requirement, design, tasks; so the ParsedSpecs check always passes. */
  method ParseSpecs(files: SpecFiles, requirementTokens: seq<Token>, designTokens: seq<Token>, tasksTokens: seq<Token>)
    returns (specs: ParsedSpecs, ghost requirementNodes: seq<Section>, ghost designNodes: seq<Section>, ghost tasksNodes: seq<Section>)
    ensures WellTyped(specs) && specs.projectName == files.projectName
    ensures SectionsBuilt(requirementTokens, Split(files.requirement, '\n'), specs.requirement.sections, requirementNodes)
    ensures SectionsBuilt(designTokens, Split(files.design, '\n'), specs.design.sections, designNodes)
    ensures SectionsBuilt(tasksTokens, Split(files.tasks, '\n'), specs.tasks.sections, tasksNodes)
    ensures NewParsedSpecs(specs.requirement, specs.design, specs.tasks, specs.projectName) == Ok(specs)
    ensures specs.requirement.rawText == files.requirement && specs.requirement.requirementIds == IdsIn(files.requirement)
    ensures specs.design.rawText == files.design && specs.design.requirementIds == IdsIn(files.design)
    ensures specs.tasks.rawText == files.tasks && specs.tasks.requirementIds == IdsIn(files.tasks)
  {
    var requirement, design, tasks;
    requirement, requirementNodes := Parse(requirementTokens, files.requirement, Requirement);
    design, designNodes := Parse(designTokens, files.design, Design);
    tasks, tasksNodes := Parse(tasksTokens, files.tasks, Tasks);
    var r := NewParsedSpecs(requirement, design, tasks, files.projectName);
    specs := r.value;
  }

  // ------------------------------------------------ what the scan does

  /** Without a heading nothing is ever saved: the level stays 0, so inline
      tokens are ignored, no heading is set, and nothing is collected. */
  lemma {:induction false} NoHeadingNoSections(tokens: seq<Token>, lines: seq<string>)
    requires forall i :: 0 <= i < |tokens| ==> !tokens[i].HeadingOpen?
    ensures Run(tokens, lines) == ScanState(None, 0, [], [])
    ensures AllRecords(tokens, lines) == []
  {
    if |tokens| > 0 {
      NoHeadingNoSections(tokens[..|tokens| - 1], lines);
    }
  }

  /** After a heading has opened the level is at least 1. */
  lemma {:induction false} LevelPositive(tokens: seq<Token>, lines: seq<string>, h: nat)
    requires h < |tokens| && tokens[h].HeadingOpen?
    ensures Run(tokens, lines).level >= 1
  {
    var n := |tokens| - 1;
    if h < n {
      LevelPositive(tokens[..n], lines, h);
    }
  }

  /** The level is the one of the LAST heading opened. */
  lemma {:induction false} LevelIsLastHeading(tokens: seq<Token>, lines: seq<string>, h: nat)
    requires h < |tokens| && tokens[h].HeadingOpen?
    requires forall j :: h < j < |tokens| ==> !tokens[j].HeadingOpen?
    ensures Run(tokens, lines).level == tokens[h].level
  {
    var n := |tokens| - 1;
    if h < n {
      LevelIsLastHeading(tokens[..n], lines, h);
    }
  }

  /** Once a heading has opened, EVERY inline token, paragraph text
      included, replaces the current heading: it is the content of the
      last inline token. */
  lemma {:induction false} HeadingIsLastInline(tokens: seq<Token>, lines: seq<string>, h: nat, i: nat)
    requires h < i < |tokens| && tokens[h].HeadingOpen? && tokens[i].Inline?
    requires forall j :: i < j < |tokens| ==> !tokens[j].Inline?
    ensures Run(tokens, lines).heading == Some(tokens[i].content)
  {
    var n := |tokens| - 1;
    if i < n {
      HeadingIsLastInline(tokens[..n], lines, h, i);
    } else {
      LevelPositive(tokens[..n], lines, h);
    }
  }

  /** So the title a section is stored under, whether by the next heading
      or after the loop, is the content of the last inline token. */
  lemma KeyIsLastInline(tokens: seq<Token>, lines: seq<string>, h: nat, i: nat, n: HeadingLevel)
    requires h < i < |tokens| && tokens[h].HeadingOpen? && tokens[i].Inline?
    requires forall j :: i < j < |tokens| ==> !tokens[j].Inline?
    ensures var saved := Run(tokens, lines).saved;
      var saved' := Run(tokens + [HeadingOpen(n)], lines).saved;
      |saved'| == |saved| + 1 ==> saved'[|saved|].title == tokens[i].content
    ensures var saved := Run(tokens, lines).saved;
      |AllRecords(tokens, lines)| == |saved| + 1 ==> AllRecords(tokens, lines)[|saved|].title == tokens[i].content
  {
    HeadingIsLastInline(tokens, lines, h, i);
    var t' := tokens + [HeadingOpen(n)];
    assert t'[..|tokens|] == tokens;
  }

  /** What holds of the scan state throughout: a heading is only ever set
      under an open heading, levels are heading levels, and every saved
      record has a non-empty title and a heading level. */
  ghost predicate ScanInv(st: ScanState) {
    && (st.level == 0 || 1 <= st.level <= 6)
    && (st.heading.Some? ==> st.level >= 1)
    && forall k :: 0 <= k < |st.saved| ==> st.saved[k].title != "" && 1 <= st.saved[k].level <= 6
  }

  lemma StepKeepsInv(st: ScanState, t: Token, lines: seq<string>)
    requires ScanInv(st)
    ensures ScanInv(Step(st, t, lines))
    ensures |Step(st, t, lines).saved| >= |st.saved| && Step(st, t, lines).saved[..|st.saved|] == st.saved
  {
    if t.HeadingOpen? && HasText(st.heading) && |st.body| > 0 {
      StepSave(st, t, lines);
    }
  }

  lemma {:induction false} RunKeepsInv(tokens: seq<Token>, lines: seq<string>)
    ensures ScanInv(Run(tokens, lines))
  {
    if |tokens| > 0 {
      RunKeepsInv(tokens[..|tokens| - 1], lines);
      StepKeepsInv(Run(tokens[..|tokens| - 1], lines), tokens[|tokens| - 1], lines);
    }
  }

  /** Every stored section has a non-empty title and a level from 1 to 6. */
  lemma SavedWellFormed(tokens: seq<Token>, lines: seq<string>)
    ensures forall k :: 0 <= k < |AllRecords(tokens, lines)| ==>
      AllRecords(tokens, lines)[k].title != "" && 1 <= AllRecords(tokens, lines)[k].level <= 6
  {
    RunKeepsInv(tokens, lines);
  }

  // ------------------------------------------- what a section holds

  /** The lines a token adds to the content in scan state `st`: the slice
      of its `map` when it is a paragraph, bullet list, code block or
      fence reached while a non-empty heading is current, and nothing
      otherwise. */
  function Adds(st: ScanState, t: Token, lines: seq<string>): seq<string> {
    if HasText(st.heading) && Collected(t) && t.span.Some? then
      PySlice(lines, t.span.value.start, t.span.value.end)
    else []
  }

  /** The lines token `i` of the stream adds. */
  ghost function Piece(tokens: seq<Token>, lines: seq<string>, i: nat): seq<string>
    requires i < |tokens|
  {
    Adds(Run(tokens[..i], lines), tokens[i], lines)
  }

  /** The lines the tokens at positions `lo` to `hi - 1` add, in token order. */
  ghost function Gathered(tokens: seq<Token>, lines: seq<string>, lo: nat, hi: nat): seq<string>
    requires lo <= hi <= |tokens|
    decreases hi
  {
    if lo == hi then [] else Gathered(tokens, lines, lo, hi - 1) + Piece(tokens, lines, hi - 1)
  }

  /** Token `i` opens a heading at which the current section is saved. */
  ghost predicate SavesAt(tokens: seq<Token>, lines: seq<string>, i: nat) {
    i < |tokens| && tokens[i].HeadingOpen? && Pending(Run(tokens[..i], lines)).Some?
  }

  /** The tokens at a point where the content lines were just reset: the
      start of the stream, or just after a save. */
  ghost predicate ResetAt(tokens: seq<Token>, lines: seq<string>, a: nat) {
    a == 0 || SavesAt(tokens, lines, a - 1)
  }

  /** A step that saves nothing adds the token's lines and stores nothing. */
  lemma StepAdds(st: ScanState, t: Token, lines: seq<string>)
    requires !(t.HeadingOpen? && Pending(st).Some?)
    ensures Step(st, t, lines).body == st.body + Adds(st, t, lines)
    ensures Step(st, t, lines).saved == st.saved
  {
    if t.HeadingOpen? {
      StepNoSave(st, t, lines);
    } else if t.Inline? && st.level > 0 {
      StepInline(st, t, lines);
    } else {
      StepOther(st, t, lines);
    }
  }

  /** Between saves, `content_lines` grows by exactly the gathered lines
      and nothing is stored. */
  lemma {:induction false} BodyGathers(tokens: seq<Token>, lines: seq<string>, lo: nat, hi: nat)
    requires lo <= hi <= |tokens|
    requires forall i :: lo <= i < hi ==> !SavesAt(tokens, lines, i)
    ensures Run(tokens[..hi], lines).body == Run(tokens[..lo], lines).body + Gathered(tokens, lines, lo, hi)
    ensures Run(tokens[..hi], lines).saved == Run(tokens[..lo], lines).saved
  {
    if lo < hi {
      BodyGathers(tokens, lines, lo, hi - 1);
      GatherMore(tokens, lines, lo, hi, Gathered(tokens, lines, lo, hi - 1));
    }
  }

  /** The induction step of BodyGathers. */
  lemma GatherMore(tokens: seq<Token>, lines: seq<string>, lo: nat, hi: nat, g: seq<string>)
    requires lo < hi <= |tokens| && !SavesAt(tokens, lines, hi - 1)
    requires Run(tokens[..hi - 1], lines).body == Run(tokens[..lo], lines).body + g
    requires Run(tokens[..hi - 1], lines).saved == Run(tokens[..lo], lines).saved
    ensures Run(tokens[..hi], lines).body == Run(tokens[..lo], lines).body + (g + Piece(tokens, lines, hi - 1))
    ensures Run(tokens[..hi], lines).saved == Run(tokens[..lo], lines).saved
  {
    GatherStep(tokens, lines, hi - 1);
    Chain(Run(tokens[..lo], lines).body, g, Piece(tokens, lines, hi - 1),
          Run(tokens[..hi - 1], lines).body, Run(tokens[..hi], lines).body);
  }

  lemma Chain(b0: seq<string>, g: seq<string>, p: seq<string>, b1: seq<string>, b2: seq<string>)
    requires b1 == b0 + g && b2 == b1 + p
    ensures b2 == b0 + (g + p)
  {
    assert (b0 + g) + p == b0 + (g + p);
  }

  /** One token that saves nothing adds its piece and stores nothing. */
  lemma GatherStep(tokens: seq<Token>, lines: seq<string>, i: nat)
    requires i < |tokens| && !SavesAt(tokens, lines, i)
    ensures Run(tokens[..i + 1], lines).body == Run(tokens[..i], lines).body + Piece(tokens, lines, i)
    ensures Run(tokens[..i + 1], lines).saved == Run(tokens[..i], lines).saved
  {
    RunStep(tokens, i, lines);
    StepAdds(Run(tokens[..i], lines), tokens[i], lines);
  }

  /** A save empties `content_lines` and stores the pending section. */
  lemma SaveResets(tokens: seq<Token>, lines: seq<string>, i: nat)
    requires SavesAt(tokens, lines, i)
    ensures Run(tokens[..i + 1], lines).body == []
    ensures Run(tokens[..i + 1], lines).saved == Run(tokens[..i], lines).saved + [Pending(Run(tokens[..i], lines)).value]
  {
    RunStep(tokens, i, lines);
    StepSave(Run(tokens[..i], lines), tokens[i], lines);
  }

  /** A section saved at the heading that opens at `b` holds, as content,
      the stripped line-joined lines gathered since the previous save `a`,
      of which there is at least one; its title and level are the
      heading's and level current at `b`. */
  lemma SavedContent(tokens: seq<Token>, lines: seq<string>, a: nat, b: nat)
    requires a <= b && ResetAt(tokens, lines, a) && SavesAt(tokens, lines, b)
    requires forall i :: a <= i < b ==> !SavesAt(tokens, lines, i)
    ensures var g := Gathered(tokens, lines, a, b);
      var st := Run(tokens[..b], lines);
      && |g| > 0 && HasText(st.heading)
      && Run(tokens[..b + 1], lines).saved == Run(tokens[..a], lines).saved + [SectionRecord(st.heading.value, Strip(Join(g, "\n")), st.level)]
  {
    var st := Run(tokens[..b], lines);
    BodyGathers(tokens, lines, a, b);
    ResetBody(tokens, lines, a);
    assert st.body == Gathered(tokens, lines, a, b);
    SaveResets(tokens, lines, b);
    assert Pending(st).value == SectionRecord(st.heading.value, Strip(Join(st.body, "\n")), st.level);
  }

  /** After the loop, the section saved last holds the lines gathered
      since the last save, and is stored iff there is one under a
      non-empty heading. */
  lemma LastContent(tokens: seq<Token>, lines: seq<string>, a: nat)
    requires a <= |tokens| && ResetAt(tokens, lines, a)
    requires forall i :: a <= i < |tokens| ==> !SavesAt(tokens, lines, i)
    ensures var g := Gathered(tokens, lines, a, |tokens|);
      var st := Run(tokens, lines);
      AllRecords(tokens, lines) == Run(tokens[..a], lines).saved +
        if HasText(st.heading) && |g| > 0 then [SectionRecord(st.heading.value, Strip(Join(g, "\n")), st.level)] else []
  {
    BodyGathers(tokens, lines, a, |tokens|);
    ResetBody(tokens, lines, a);
    assert tokens[..|tokens|] == tokens;
    var st := Run(tokens, lines);
    assert st.body == Gathered(tokens, lines, a, |tokens|);
    assert st.saved == Run(tokens[..a], lines).saved;
  }

  /** At a reset point `content_lines` is empty. */
  lemma ResetBody(tokens: seq<Token>, lines: seq<string>, a: nat)
    requires a <= |tokens| && ResetAt(tokens, lines, a)
    ensures Run(tokens[..a], lines).body == []
  {
    if a > 0 {
      SaveResets(tokens, lines, a - 1);
    } else {
      assert tokens[..0] == [];
    }
  }

  /** If no token adds a line while a heading is current, no section is
      ever stored, whatever headings the stream opens. */
  lemma {:induction false} NoContentNoSections(tokens: seq<Token>, lines: seq<string>)
    requires forall i :: 0 <= i < |tokens| ==> Piece(tokens, lines, i) == []
    ensures AllRecords(tokens, lines) == []
  {
    EmptyBodyPrefix(tokens, lines, |tokens|);
    assert tokens[..|tokens|] == tokens;
  }

  lemma {:induction false} EmptyBodyPrefix(tokens: seq<Token>, lines: seq<string>, n: nat)
    requires n <= |tokens|
    requires forall i :: 0 <= i < n ==> Piece(tokens, lines, i) == []
    ensures Run(tokens[..n], lines).body == [] && Run(tokens[..n], lines).saved == []
  {
    if n > 0 {
      EmptyBodyPrefix(tokens, lines, n - 1);
      RunStep(tokens, n - 1, lines);
      assert Piece(tokens, lines, n - 1) == [];
      StepAdds(Run(tokens[..n - 1], lines), tokens[n - 1], lines);
    } else {
      assert tokens[..0] == [];
    }
  }

  /** A heading with no collected block under it is not stored: the
      shortest such stream. */
  lemma UnbodiedHeadingDropped()
    ensures AllRecords([HeadingOpen(1), Inline("A"), HeadingClose], ["# A"]) == []
  {
    var lines := ["# A"];
    var ts := [HeadingOpen(1), Inline("A"), HeadingClose];
    assert ts[..2] == [HeadingOpen(1), Inline("A")] && ts[..2][..1] == [HeadingOpen(1)] && ts[..2][..1][..0] == [];
    assert Run(ts[..2][..1], lines) == ScanState(None, 1, [], []);
    assert Run(ts[..2], lines) == ScanState(Some("A"), 1, [], []);
    assert Run(ts, lines) == ScanState(Some("A"), 1, [], []);
  }

  /** `# A`, `# B`, a blank line, then `text`: neither heading is stored
      (A has no body; B's title is replaced by the paragraph's own inline
      text before the stream ends), and the one stored section is titled
      with the paragraph text. */
  lemma ParagraphTextBecomesTitle()
    ensures var ts := [HeadingOpen(1), Inline("A"), HeadingClose, HeadingOpen(1), Inline("B"), HeadingClose,
                       ParagraphOpen(Some(LineRange(3, 4))), Inline("text"), OtherToken(None)];
      var recs := AllRecords(ts, ["# A", "# B", "", "text"]);
      |recs| == 1 && recs[0].title == "text" && recs[0].level == 1
  {
    var lines := ["# A", "# B", "", "text"];
    var ts := [HeadingOpen(1), Inline("A"), HeadingClose, HeadingOpen(1), Inline("B"), HeadingClose,
               ParagraphOpen(Some(LineRange(3, 4))), Inline("text"), OtherToken(None)];
    TwoBareHeadings(lines);
    assert ts[..6] == [HeadingOpen(1), Inline("A"), HeadingClose, HeadingOpen(1), Inline("B"), HeadingClose];
    RunStep(ts, 6, lines);
    assert PySlice(lines, 3, 4) == ["text"];
    assert Run(ts[..7], lines) == ScanState(Some("B"), 1, ["text"], []);
    RunStep(ts, 7, lines);
    RunStep(ts, 8, lines);
    assert ts[..9] == ts;
  }

  /** Two headings with nothing between them: the first is dropped, and
      the scan waits on the second. */
  lemma TwoBareHeadings(lines: seq<string>)
    ensures Run([HeadingOpen(1), Inline("A"), HeadingClose, HeadingOpen(1), Inline("B"), HeadingClose], lines)
      == ScanState(Some("B"), 1, [], [])
  {
    var ts := [HeadingOpen(1), Inline("A"), HeadingClose, HeadingOpen(1), Inline("B"), HeadingClose];
    assert ts[..0] == [];
    RunStep(ts, 0, lines);
    RunStep(ts, 1, lines);
    RunStep(ts, 2, lines);
    assert Run(ts[..3], lines) == ScanState(Some("A"), 1, [], []);
    RunStep(ts, 3, lines);
    RunStep(ts, 4, lines);
    RunStep(ts, 5, lines);
    assert ts[..6] == ts;
  }

  /** The content is reset only at a save, so lines gathered under a
      heading that is then replaced by an empty inline are carried over:
      heading `B`, with nothing under it, is stored with A's line. */
  lemma BodyCarriesOver()
    ensures AllRecords([HeadingOpen(1), Inline("A"), HeadingClose, ParagraphOpen(Some(LineRange(0, 1))), Inline(""),
                        HeadingOpen(1), Inline("B"), HeadingClose], ["x"])
      == [SectionRecord("B", "x", 1)]
  {
    var lines := ["x"];
    var ts := [HeadingOpen(1), Inline("A"), HeadingClose, ParagraphOpen(Some(LineRange(0, 1))), Inline(""),
               HeadingOpen(1), Inline("B"), HeadingClose];
    assert ts[..5] == [HeadingOpen(1), Inline("A"), HeadingClose, ParagraphOpen(Some(LineRange(0, 1))), Inline("")];
    CarriedLine();
    RunStep(ts, 5, lines);
    RunStep(ts, 6, lines);
    RunStep(ts, 7, lines);
    assert ts[..8] == ts;
    assert Run(ts, lines) == ScanState(Some("B"), 1, ["x"], []);
    StripWord();
  }

  /** The first five tokens of BodyCarriesOver: A's line is collected,
      then the empty inline replaces the heading. */
  lemma CarriedLine()
    ensures Run([HeadingOpen(1), Inline("A"), HeadingClose, ParagraphOpen(Some(LineRange(0, 1))), Inline("")], ["x"])
      == ScanState(Some(""), 1, ["x"], [])
  {
    var lines := ["x"];
    var ts := [HeadingOpen(1), Inline("A"), HeadingClose, ParagraphOpen(Some(LineRange(0, 1))), Inline("")];
    assert ts[..0] == [];
    RunStep(ts, 0, lines);
    RunStep(ts, 1, lines);
    RunStep(ts, 2, lines);
    assert Run(ts[..3], lines) == ScanState(Some("A"), 1, [], []);
    RunStep(ts, 3, lines);
    assert PySlice(lines, 0, 1) == ["x"];
    assert Run(ts[..4], lines) == ScanState(Some("A"), 1, ["x"], []);
    RunStep(ts, 4, lines);
    assert ts[..5] == ts;
  }

  lemma StripWord()
    ensures Strip(Join(["x"], "\n")) == "x"
  {
    assert Join(["x"], "\n") == "x";
    assert LeadingSpace("x") == 0;
    assert TrailingSpace("x") == 1;
  }
}
