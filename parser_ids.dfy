/** The identifier part of the structural parser: the pattern
    `\[(REQ|NFR|CON|ASM|T)-\d{3,}\]` as a left-to-right scanner. */
module ParserIds {
  import opened Text

  // ------------------------------------------------ the identifier shape

  /** `s` is `[` + `kind` + `-` + at least three digits + `]`. */
  predicate IdShape(s: string, kind: string) {
    && |s| >= |kind| + 6
    && s[0] == '['
    && s[1..1 + |kind|] == kind
    && s[1 + |kind|] == '-'
    && AllDigits(s[2 + |kind|..|s| - 1])
    && s[|s| - 1] == ']'
  }

  /** An identifier: `[REQ-001]`, `[NFR-1234]`, `[T-007]`, ... */
  predicate IsIdentifier(s: string) {
    IdShape(s, "REQ") || IdShape(s, "NFR") || IdShape(s, "CON") || IdShape(s, "ASM") || IdShape(s, "T")
  }

  // -------------------------------------------------------- the matcher

  /** The five kinds of the alternative `(REQ|NFR|CON|ASM|T)`. */
  predicate IsKind(kind: string) {
    kind == "REQ" || kind == "NFR" || kind == "CON" || kind == "ASM" || kind == "T"
  }

  /** The only kind that can start with `c` (the five start with different
      letters), or "" when none does. */
  function KindStarting(c: char): (kind: string)
    ensures kind == "" || (IsKind(kind) && kind[0] == c)
  {
    match c
    case 'R' => "REQ"
    case 'N' => "NFR"
    case 'C' => "CON"
    case 'A' => "ASM"
    case 'T' => "T"
    case _ => ""
  }

  /** `text` holds `word` from position `p` on, compared letter by letter. */
  predicate StartsWith(text: string, p: nat, word: string)
    decreases |word|
  {
    if |word| == 0 then p <= |text|
    else p < |text| && text[p] == word[0] && StartsWith(text, p + 1, word[1..])
  }

  /** The letter-by-letter test is the substring test. */
  lemma {:induction false} StartsWithOccurs(text: string, p: nat, word: string)
    ensures StartsWith(text, p, word) <==> OccursAt(text, word, p)
    decreases |word|
  {
    if |word| > 0 {
      var rest := word[1..];
      StartsWithOccurs(text, p + 1, rest);
      assert |rest| == |word| - 1;
      if p + |word| <= |text| {
        assert text[p..p + |word|] == [text[p]] + text[p + 1..p + 1 + |rest|];
        assert word == [word[0]] + rest;
        assert text[p..p + |word|] == word <==> text[p] == word[0] && text[p + 1..p + 1 + |rest|] == rest;
      }
    }
  }

  /** The length of the kind alternative `(REQ|NFR|CON|ASM|T)` at `p`, or 0.
      At most one alternative can fit, the one its first letter names. */
  function KindLength(text: string, p: nat): (k: nat)
    ensures k > 0 ==> p + k <= |text|
  {
    if p < |text| && KindStarting(text[p]) != "" && StartsWith(text, p, KindStarting(text[p])) then
      StartsWithOccurs(text, p, KindStarting(text[p]));
      |KindStarting(text[p])|
    else 0
  }

  /** The number of consecutive ASCII digits starting at `p`. */
  function DigitRun(text: string, p: nat): (d: nat)
    requires p <= |text|
    ensures p + d <= |text| && AllDigits(text[p..p + d])
    ensures p + d < |text| ==> !IsDigit(text[p + d])
    decreases |text| - p
  {
    if p < |text| && IsDigit(text[p]) then
      var d := DigitRun(text, p + 1);
      assert text[p..p + 1 + d] == [text[p]] + text[p + 1..p + 1 + d];
      1 + d
    else 0
  }

  /** The length of the match starting at `p`, or 0 when none starts there.
      `\d{3,}` is greedy and `]` is not a digit, so backtracking never
      finds a shorter match: the match, if any, is this one. */
  function MatchLength(text: string, p: nat): (n: nat)
    ensures n > 0 ==> p + n <= |text|
  {
    if p < |text| && text[p] == '[' then
      var k := KindLength(text, p + 1);
      if k > 0 && p + 1 + k < |text| && text[p + 1 + k] == '-' then
        var q := p + 2 + k;
        var d := DigitRun(text, q);
        if d >= 3 && q + d < |text| && text[q + d] == ']' then q + d + 1 - p else 0
      else 0
    else 0
  }

  /** The identifiers `finditer` reports among matches starting before `q`. */
  function IdsBefore(text: string, q: nat): set<string>
  {
    set p | 0 <= p < q && MatchLength(text, p) > 0 :: text[p..p + MatchLength(text, p)]
  }

  /** The identifier set of a text: every distinct full match. */
  function IdsIn(text: string): set<string>
  {
    IdsBefore(text, |text|)
  }

  // ------------------------------------------------------- the scanner

  /** `_extract_requirement_ids`: scan left to right like `finditer`,
      collecting each full match and resuming after it. */
  method ExtractRequirementIds(text: string) returns (ids: set<string>)
    ensures ids == IdsIn(text)
    ensures forall s :: s in ids <==> IsIdentifier(s) && Contains(text, s)
  {
    ids := {};
    var pos := 0;
    while pos < |text|
      invariant 0 <= pos <= |text|
      invariant ids == IdsBefore(text, pos)
    {
      ids, pos := ScanFrom(text, pos, ids);
    }
    IdsInMeaning(text);
  }

  /** One step of the scan: a match at `pos` adds its text and is skipped
      whole; elsewhere the scan moves on by one character. */
  method ScanFrom(text: string, pos: nat, ids: set<string>) returns (ids': set<string>, pos': nat)
    requires pos < |text| && ids == IdsBefore(text, pos)
    ensures pos < pos' <= |text| && ids' == IdsBefore(text, pos')
  {
    var n := MatchLength(text, pos);
    if n > 0 {
      ids', pos' := ids + {text[pos..pos + n]}, pos + n;
    } else {
      ids', pos' := ids, pos + 1;
    }
    ScanStep(text, pos, n, ids, ids', pos');
  }

  // ------------------------------------------------------------ lemmas

  /** One step of the scanner: a match adds its text and is skipped whole;
      elsewhere the scan moves on by one character. */
  lemma ScanStep(text: string, q: nat, n: nat, ids: set<string>, ids': set<string>, q': nat)
    requires q < |text| && n == MatchLength(text, q) && ids == IdsBefore(text, q)
    requires n > 0 ==> q + n <= |text| && q' == q + n && ids' == ids + {text[q..q + n]}
    requires n == 0 ==> q' == q + 1 && ids' == ids
    ensures ids' == IdsBefore(text, q')
  {
    if n > 0 {
      IdsBeforeStep(text, q, n, {text[q..q + n]});
      NoMatchInside(text, q, q + 1, q + n);
    } else {
      IdsBeforeStep(text, q, n, {});
    }
  }

  /** Moving the bound past one position adds that position's match. */
  lemma IdsBeforeStep(text: string, q: nat, n: nat, found: set<string>)
    requires n == MatchLength(text, q)
    requires found == if n > 0 then {text[q..q + n]} else {}
    ensures IdsBefore(text, q + 1) == IdsBefore(text, q) + found
  {
    StepShrinks(text, q, n, found);
    StepGrows(text, q, n, found);
  }

  lemma StepShrinks(text: string, q: nat, n: nat, found: set<string>)
    requires n == MatchLength(text, q)
    requires found == if n > 0 then {text[q..q + n]} else {}
    ensures IdsBefore(text, q + 1) <= IdsBefore(text, q) + found
  {
    forall s | s in IdsBefore(text, q + 1) ensures s in IdsBefore(text, q) + found {
      var p := ReportedAt(text, q + 1, s);
      if p < q {
        Reported(text, q, p);
      } else {
        FoundHere(text, q, n, found, p, s);
      }
    }
  }

  /** A match reported at the step's own position is the one it adds. */
  lemma FoundHere(text: string, q: nat, n: nat, found: set<string>, p: nat, s: string)
    requires n == MatchLength(text, q)
    requires found == if n > 0 then {text[q..q + n]} else {}
    requires q <= p < q + 1 && MatchLength(text, p) > 0 && s == text[p..p + MatchLength(text, p)]
    ensures s in found
  {
    assert p == q;
  }

  lemma StepGrows(text: string, q: nat, n: nat, found: set<string>)
    requires n == MatchLength(text, q)
    requires found == if n > 0 then {text[q..q + n]} else {}
    ensures IdsBefore(text, q) + found <= IdsBefore(text, q + 1)
  {
    forall s | s in IdsBefore(text, q) ensures s in IdsBefore(text, q + 1) {
      var p := ReportedAt(text, q, s);
      Reported(text, q + 1, p);
    }
    if n > 0 {
      Reported(text, q + 1, q);
    }
  }

  /** Where a reported identifier was found. */
  lemma ReportedAt(text: string, q: nat, s: string) returns (p: nat)
    requires s in IdsBefore(text, q)
    ensures p < q && MatchLength(text, p) > 0 && s == text[p..p + MatchLength(text, p)]
  {
    p :| 0 <= p < q && MatchLength(text, p) > 0 && s == text[p..p + MatchLength(text, p)];
  }

  /** A match found before the bound is reported. */
  lemma Reported(text: string, q: nat, p: nat)
    requires p < q && MatchLength(text, p) > 0
    ensures text[p..p + MatchLength(text, p)] in IdsBefore(text, q)
  {
  }

  /** No match starts strictly inside a match: the characters after its
      opening bracket are letters, `-`, digits and `]`, never `[`. */
  lemma NoMatchInside(text: string, p: nat, a: nat, b: nat)
    requires MatchLength(text, p) > 0 && p < a <= b <= p + MatchLength(text, p)
    ensures IdsBefore(text, b) == IdsBefore(text, a)
  {
    forall i | a <= i < b ensures MatchLength(text, i) == 0 {
      MatchInterior(text, p, i);
    }
    NoMatchBetween(text, a, b);
  }

  /** Positions where no match starts add nothing. */
  lemma NoMatchBetween(text: string, a: nat, b: nat)
    requires a <= b && forall i :: a <= i < b ==> MatchLength(text, i) == 0
    ensures IdsBefore(text, b) == IdsBefore(text, a)
  {
    forall s | s in IdsBefore(text, b) ensures s in IdsBefore(text, a) {
      var i :| 0 <= i < b && MatchLength(text, i) > 0 && s == text[i..i + MatchLength(text, i)];
    }
  }

  /** Inside a match, after its first character, there is no `[`. */
  lemma MatchInterior(text: string, p: nat, i: nat)
    requires MatchLength(text, p) > 0 && p < i < p + MatchLength(text, p)
    ensures text[i] != '['
  {
    var kind, d := MatchParts(text, p);
    PartsNoBracket(text, p, kind, d, i);
  }

  lemma PartsNoBracket(text: string, p: nat, kind: string, d: nat, i: nat)
    requires IsKind(kind) && p + |kind| + d + 3 <= |text| && p < i < p + |kind| + d + 3
    requires OccursAt(text, kind, p + 1) && text[p + 1 + |kind|] == '-'
    requires AllDigits(text[p + 2 + |kind|..p + 2 + |kind| + d]) && text[p + 2 + |kind| + d] == ']'
    ensures text[i] != '['
  {
    var k, q := |kind|, p + 2 + |kind|;
    if i < p + 1 + k {
      assert text[i] == text[p + 1..p + 1 + k][i - p - 1] == kind[i - p - 1];
    } else if q <= i < q + d {
      assert text[i] == text[q..q + d][i - q];
    }
  }

  /** Every match spells an identifier. */
  lemma MatchIsIdentifier(text: string, p: nat)
    requires MatchLength(text, p) > 0
    ensures IsIdentifier(text[p..p + MatchLength(text, p)])
  {
    var kind, d := MatchParts(text, p);
    PartsShape(text, p, kind, d);
    ShapeIsIdentifier(text[p..p + MatchLength(text, p)], kind);
  }

  /** A match is `[`, a kind, `-`, a run of at least three digits, `]`. */
  lemma MatchParts(text: string, p: nat) returns (kind: string, d: nat)
    requires MatchLength(text, p) > 0
    ensures IsKind(kind) && MatchLength(text, p) == |kind| + d + 3 && d >= 3
    ensures text[p] == '[' && OccursAt(text, kind, p + 1) && text[p + 1 + |kind|] == '-'
    ensures AllDigits(text[p + 2 + |kind|..p + 2 + |kind| + d]) && text[p + 2 + |kind| + d] == ']'
  {
    kind := KindStarting(text[p + 1]);
    d := DigitRun(text, p + 2 + |kind|);
    StartsWithOccurs(text, p + 1, kind);
  }

  /** Those parts, read as one slice, have the identifier shape. */
  lemma PartsShape(text: string, p: nat, kind: string, d: nat)
    requires d >= 3 && p + |kind| + d + 3 <= |text|
    requires text[p] == '[' && OccursAt(text, kind, p + 1) && text[p + 1 + |kind|] == '-'
    requires AllDigits(text[p + 2 + |kind|..p + 2 + |kind| + d]) && text[p + 2 + |kind| + d] == ']'
    ensures IdShape(text[p..p + |kind| + d + 3], kind)
  {
    var k, n := |kind|, |kind| + d + 3;
    var s := text[p..p + n];
    SliceOfSlice(text, p, p + n, 1, 1 + k);
    SliceOfSlice(text, p, p + n, 2 + k, n - 1);
    assert s[1..1 + k] == kind;
    assert s[2 + k..|s| - 1] == text[p + 2 + k..p + 2 + k + d];
  }

  lemma ShapeIsIdentifier(s: string, kind: string)
    requires IsKind(kind) && IdShape(s, kind)
    ensures IsIdentifier(s)
  {
  }

  /** Wherever an identifier occurs, a match of exactly its length starts. */
  lemma IdentifierMatches(text: string, s: string, p: nat)
    requires IsIdentifier(s) && OccursAt(text, s, p)
    ensures MatchLength(text, p) == |s|
  {
    if IdShape(s, "REQ") {
      ShapeMatches(text, s, p, "REQ");
    } else if IdShape(s, "NFR") {
      ShapeMatches(text, s, p, "NFR");
    } else if IdShape(s, "CON") {
      ShapeMatches(text, s, p, "CON");
    } else if IdShape(s, "ASM") {
      ShapeMatches(text, s, p, "ASM");
    } else {
      ShapeMatches(text, s, p, "T");
    }
  }

  lemma ShapeMatches(text: string, s: string, p: nat, kind: string)
    requires IsKind(kind) && IdShape(s, kind) && OccursAt(text, s, p)
    ensures MatchLength(text, p) == |s|
  {
    var d := ShapeParts(text, s, p, kind);
    PartsMatch(text, p, kind, d);
  }

  /** An occurrence of an identifier, read part by part. */
  lemma ShapeParts(text: string, s: string, p: nat, kind: string) returns (d: nat)
    requires IdShape(s, kind) && OccursAt(text, s, p)
    ensures d >= 3 && |s| == |kind| + d + 3 && p + |s| <= |text|
    ensures text[p] == '[' && OccursAt(text, kind, p + 1) && text[p + 1 + |kind|] == '-'
    ensures AllDigits(text[p + 2 + |kind|..p + 2 + |kind| + d]) && text[p + 2 + |kind| + d] == ']'
  {
    var k := |kind|;
    d := |s| - k - 3;
    assert text[p..p + |s|] == s;
    SliceOfSlice(text, p, p + |s|, 1, 1 + k);
    SliceOfSlice(text, p, p + |s|, 2 + k, |s| - 1);
    assert text[p] == s[0] && text[p + 1 + k] == s[1 + k] && text[p + |s| - 1] == s[|s| - 1];
  }

  /** Parts in place make a match of their total length. */
  lemma PartsMatch(text: string, p: nat, kind: string, d: nat)
    requires IsKind(kind) && d >= 3 && p + |kind| + d + 3 <= |text|
    requires text[p] == '[' && OccursAt(text, kind, p + 1) && text[p + 1 + |kind|] == '-'
    requires AllDigits(text[p + 2 + |kind|..p + 2 + |kind| + d]) && text[p + 2 + |kind| + d] == ']'
    ensures MatchLength(text, p) == |kind| + d + 3
  {
    var k := |kind|;
    var q := p + 2 + k;
    KindAt(text, p + 1, kind);
    DigitRunCovers(text, q, q + d);
    MatchOfParts(text, p, k, d);
  }

  /** The matcher's three tests, passed part by part. */
  lemma MatchOfParts(text: string, p: nat, k: nat, d: nat)
    requires p + k + d + 3 <= |text| && k > 0 && d >= 3
    requires text[p] == '[' && KindLength(text, p + 1) == k && text[p + 1 + k] == '-'
    requires DigitRun(text, p + 2 + k) == d && text[p + 2 + k + d] == ']'
    ensures MatchLength(text, p) == k + d + 3
  {
  }

  /** Where one of the kinds occurs, KindLength reports its length. */
  lemma KindAt(text: string, p: nat, kind: string)
    requires IsKind(kind) && OccursAt(text, kind, p)
    ensures KindLength(text, p) == |kind|
  {
    assert text[p] == text[p..p + |kind|][0] == kind[0];
    StartsWithOccurs(text, p, kind);
  }

  lemma OccursAtHead(text: string, needle: string, p: nat)
    requires |needle| > 0
    ensures OccursAt(text, needle, p) ==> text[p] == needle[0]
  {
    if OccursAt(text, needle, p) {
      assert text[p] == text[p..p + |needle|][0];
    }
  }

  /** A run of digits up to a non-digit is exactly what DigitRun counts. */
  lemma DigitRunCovers(text: string, q: nat, e: nat)
    requires q <= e < |text| && AllDigits(text[q..e]) && !IsDigit(text[e])
    ensures DigitRun(text, q) == e - q
    decreases e - q
  {
    if q < e {
      assert text[q] == text[q..e][0];
      assert text[q + 1..e] == text[q..e][1..];
      DigitRunCovers(text, q + 1, e);
    }
  }

  /** The identifier set is exactly the identifiers occurring in the text:
      repeated occurrences collapse into one member. */
  lemma IdsInMeaning(text: string)
    ensures forall s :: s in IdsIn(text) <==> IsIdentifier(s) && Contains(text, s)
  {
    forall s | s in IdsIn(text) ensures IsIdentifier(s) && Contains(text, s) {
      var p :| 0 <= p < |text| && MatchLength(text, p) > 0 && s == text[p..p + MatchLength(text, p)];
      MatchIsIdentifier(text, p);
      assert OccursAt(text, s, p);
    }
    forall s | IsIdentifier(s) && Contains(text, s) ensures s in IdsIn(text) {
      var p: nat :| p <= |text| - |s| && OccursAt(text, s, p);
      IdentifierMatches(text, s, p);
      assert text[p..p + MatchLength(text, p)] == s;
    }
  }

  /** Extracting from one identifier gives back exactly that identifier,
      so re-extraction from any member is idempotent. */
  lemma ExtractSingle(s: string)
    requires IsIdentifier(s)
    ensures IdsIn(s) == {s}
  {
    IdsInMeaning(s);
    ContainsSelf(s);
    forall t | t in IdsIn(s) ensures t == s {
      var p :| 0 <= p < |s| && MatchLength(s, p) > 0 && t == s[p..p + MatchLength(s, p)];
      if p > 0 {
        IdentifierMatches(s, s, 0);
        MatchInterior(s, 0, p);
      }
      assert s[0..0 + |s|] == s;
    }
  }

  /** Too few digits: no match. */
  lemma TooFewDigitsIgnored()
    ensures IdsIn("[REQ-12]") == {}
  {
    var t := "[REQ-12]";
    NoBracketNoMatch(t);
    DigitRunCovers(t, 5, 7);
    assert t[1..4] == [t[1], t[2], t[3]] == "REQ";
    assert MatchLength(t, 0) == 0;
  }

  /** A lower-case kind: no match. */
  lemma LowerCaseKindIgnored()
    ensures IdsIn("[req-001]") == {}
  {
    var t := "[req-001]";
    NoBracketNoMatch(t);
    OccursAtHead(t, "REQ", 1);
    OccursAtHead(t, "NFR", 1);
    OccursAtHead(t, "CON", 1);
    OccursAtHead(t, "ASM", 1);
    OccursAtHead(t, "T", 1);
    assert MatchLength(t, 0) == 0;
  }

  /** A letter after the digits: no match. */
  lemma TrailingLetterIgnored()
    ensures IdsIn("[REQ-001a]") == {}
  {
    var t := "[REQ-001a]";
    NoBracketNoMatch(t);
    DigitRunCovers(t, 5, 8);
    assert t[1..4] == [t[1], t[2], t[3]] == "REQ";
    assert MatchLength(t, 0) == 0;
  }

  /** Only positions holding `[` can start a match, so when the only `[`
      is at 0 and no match starts there, the set is empty. */
  lemma NoBracketNoMatch(text: string)
    requires |text| > 0 && forall i :: 0 < i < |text| ==> text[i] != '['
    ensures MatchLength(text, 0) == 0 ==> IdsIn(text) == {}
  {
  }
}
