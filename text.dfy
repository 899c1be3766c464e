/** The few Python string builtins the inspection engine relies on:
    `str.split('\n')`, `sep.join(xs)`, `str.strip()`, `str.lower()`, the
    substring test `a in b`, `str(n)` for a natural number, the `:03d`
    format and `c * n` repetition. Each is a function on `seq<char>`. */
module Text {

  // ---------------------------------------------------------------- digits

  predicate IsDigit(c: char) {
    '0' <= c <= '9'
  }

  predicate AllDigits(s: string) {
    forall i :: 0 <= i < |s| ==> IsDigit(s[i])
  }

  function DigitChar(d: nat): (c: char)
    requires d < 10
    ensures IsDigit(c) && DigitValue(c) == d
  {
    ('0' as int + d) as char
  }

  function DigitValue(c: char): nat
    requires IsDigit(c)
  {
    c as int - '0' as int
  }

  /** `str(n)` for a natural number: its decimal digits, no leading zero. */
  function Decimal(n: nat): (s: string)
    ensures |s| >= 1 && AllDigits(s)
    ensures s[0] == '0' ==> n == 0
  {
    if n < 10 then [DigitChar(n)] else Decimal(n / 10) + [DigitChar(n % 10)]
  }

  /** The value of a string of decimal digits (leading zeros allowed). */
  function ParseDecimal(s: string): nat
    requires AllDigits(s)
  {
    if |s| == 0 then 0 else 10 * ParseDecimal(s[..|s| - 1]) + DigitValue(s[|s| - 1])
  }

  /** Reading back what `Decimal` wrote gives the number again. */
  lemma {:induction false} DecimalRoundTrip(n: nat)
    ensures ParseDecimal(Decimal(n)) == n
  {
    if n >= 10 {
      var s := Decimal(n);
      assert s[..|s| - 1] == Decimal(n / 10);
      DecimalRoundTrip(n / 10);
    }
  }

  /** Leading zeros do not change the value of a digit string. */
  lemma {:induction false} LeadingZerosIgnored(z: nat, s: string)
    requires AllDigits(s)
    ensures AllDigits(Repeat('0', z) + s)
    ensures ParseDecimal(Repeat('0', z) + s) == ParseDecimal(s)
  {
    var t := Repeat('0', z) + s;
    if |s| == 0 {
      assert t == Repeat('0', z);
      AllZerosIsZero(z);
    } else {
      assert t[..|t| - 1] == Repeat('0', z) + s[..|s| - 1];
      LeadingZerosIgnored(z, s[..|s| - 1]);
    }
  }

  lemma {:induction false} AllZerosIsZero(z: nat)
    ensures AllDigits(Repeat('0', z))
    ensures ParseDecimal(Repeat('0', z)) == 0
  {
    if z > 0 {
      var t := Repeat('0', z);
      assert t[..|t| - 1] == Repeat('0', z - 1);
      AllZerosIsZero(z - 1);
    }
  }

  // --------------------------------------------------------- repetition

  /** Python's `c * n`: `n` copies of `c`, and the empty string for `n <= 0`. */
  function Repeat(c: char, n: int): (s: string)
    ensures |s| == if n <= 0 then 0 else n
    ensures forall i :: 0 <= i < |s| ==> s[i] == c
    decreases n
  {
    if n <= 0 then [] else [c] + Repeat(c, n - 1)
  }

  /** Python's `f"{n:03d}"` for a natural number: the decimal digits,
      padded on the left with zeros to at least three characters. */
  function ZeroPad3(n: nat): string {
    var d := Decimal(n);
    Repeat('0', 3 - |d|) + d
  }

  /** The padded label has exactly three digits, or as many as `str(n)`
      when that is longer, and reads back as `n`. */
  lemma ZeroPad3Meaning(n: nat)
    ensures |ZeroPad3(n)| == if |Decimal(n)| >= 3 then |Decimal(n)| else 3
    ensures AllDigits(ZeroPad3(n))
    ensures ParseDecimal(ZeroPad3(n)) == n
  {
    var d := Decimal(n);
    var z: nat := if |d| >= 3 then 0 else 3 - |d|;
    DecimalRoundTrip(n);
    LeadingZerosIgnored(z, d);
    assert ZeroPad3(n) == Repeat('0', z) + d;
  }

  /** Different numbers get different padded labels. */
  lemma ZeroPad3Injective(a: nat, b: nat)
    requires ZeroPad3(a) == ZeroPad3(b)
    ensures a == b
  {
    ZeroPad3Meaning(a);
    ZeroPad3Meaning(b);
  }

  /** A label `prefix + ZeroPad3(n)` determines `n`. */
  lemma LabelInjective(prefix: string, a: nat, b: nat)
    requires prefix + ZeroPad3(a) == prefix + ZeroPad3(b)
    ensures a == b
  {
    assert (prefix + ZeroPad3(a))[|prefix|..] == ZeroPad3(a);
    assert (prefix + ZeroPad3(b))[|prefix|..] == ZeroPad3(b);
    ZeroPad3Injective(a, b);
  }

  // ------------------------------------------------------- split / join

  /** Python's `s.split(sep)` for a one-character separator: the pieces
      between separators, always at least one (`"".split` gives `[""]`). */
  function Split(s: string, sep: char): (r: seq<string>)
    ensures |r| >= 1
  {
    if |s| == 0 then [""]
    else
      var rest := Split(s[1..], sep);
      if s[0] == sep then [""] + rest else [[s[0]] + rest[0]] + rest[1..]
  }

  /** Python's `sep.join(xs)`. */
  function Join(xs: seq<string>, sep: string): string
  {
    if |xs| == 0 then ""
    else if |xs| == 1 then xs[0]
    else xs[0] + sep + Join(xs[1..], sep)
  }

  /** Joining the pieces with the separator restores the text. */
  lemma {:induction false} JoinSplit(s: string, sep: char)
    ensures Join(Split(s, sep), [sep]) == s
  {
    if |s| > 0 {
      var rest := Split(s[1..], sep);
      JoinSplit(s[1..], sep);
      if s[0] == sep {
        assert ([""] + rest)[1..] == rest;
      } else if |rest| == 1 {
        assert Split(s, sep) == [[s[0]] + rest[0]];
      } else {
        assert Split(s, sep)[1..] == rest[1..];
        assert Join(rest, [sep]) == rest[0] + [sep] + Join(rest[1..], [sep]);
      }
    }
  }

  /** No piece contains the separator. */
  lemma {:induction false} SplitPiecesFree(s: string, sep: char)
    ensures forall i :: 0 <= i < |Split(s, sep)| ==> sep !in Split(s, sep)[i]
  {
    if |s| > 0 {
      SplitPiecesFree(s[1..], sep);
    }
  }

  /** A separator-free prefix of the text is a prefix of the first piece. */
  lemma {:induction false} SplitKeepsPrefix(s: string, sep: char, needle: string)
    requires |needle| <= |s| && s[..|needle|] == needle && sep !in needle
    ensures |needle| <= |Split(s, sep)[0]| && Split(s, sep)[0][..|needle|] == needle
  {
    if |needle| > 0 {
      assert s[0] == needle[0];
      assert s[1..][..|needle| - 1] == needle[1..];
      SplitKeepsPrefix(s[1..], sep, needle[1..]);
      var rest := Split(s[1..], sep);
      assert Split(s, sep)[0] == [s[0]] + rest[0];
      assert ([s[0]] + rest[0])[..|needle|] == [s[0]] + rest[0][..|needle| - 1];
    }
  }

  /** A separator-free substring of the text lies inside a single piece. */
  lemma {:induction false} SplitKeepsInfix(s: string, sep: char, needle: string, p: nat)
    requires p + |needle| <= |s| && OccursAt(s, needle, p) && sep !in needle
    ensures exists i :: 0 <= i < |Split(s, sep)| && Contains(Split(s, sep)[i], needle)
  {
    var r := Split(s, sep);
    if p == 0 {
      SplitKeepsPrefix(s, sep, needle);
      assert OccursAt(r[0], needle, 0);
    } else {
      var rest := Split(s[1..], sep);
      assert OccursAt(s[1..], needle, p - 1) by {
        assert s[1..][p - 1..p - 1 + |needle|] == s[p..p + |needle|];
      }
      SplitKeepsInfix(s[1..], sep, needle, p - 1);
      var i, q :| 0 <= i < |rest| && 0 <= q <= |rest[i]| - |needle| && OccursAt(rest[i], needle, q);
      if s[0] == sep {
        assert r[i + 1] == rest[i];
        assert OccursAt(r[i + 1], needle, q);
      } else if i == 0 {
        assert r[0] == [s[0]] + rest[0];
        assert q + 1 + |needle| <= |r[0]|;
        assert OccursAt(rest[0], needle, q);
        assert rest[0][q..q + |needle|] == needle;
        assert r[0][q + 1..q + 1 + |needle|] == rest[0][q..q + |needle|];
        assert OccursAt(r[0], needle, q + 1);
      } else {
        assert r[i] == rest[i];
        assert OccursAt(r[i], needle, q);
      }
    }
  }

  // ----------------------------------------------------------- substring

  /** A slice of a slice is a slice of the original. */
  lemma SliceOfSlice<T>(s: seq<T>, a: nat, b: nat, c: nat, d: nat)
    requires a <= b <= |s| && c <= d <= b - a
    ensures s[a..b][c..d] == s[a + c..a + d]
  {
    var t := s[a..b];
    forall i | 0 <= i < d - c ensures t[c..d][i] == s[a + c..a + d][i] {
      assert t[c..d][i] == t[c + i];
      assert t[c + i] == s[a + c + i];
    }
  }

  predicate OccursAt(hay: string, needle: string, p: nat)
  {
    p + |needle| <= |hay| && hay[p..p + |needle|] == needle
  }

  /** Python's `needle in hay` on strings. */
  predicate Contains(hay: string, needle: string)
  {
    exists p: nat {:trigger OccursAt(hay, needle, p)} | p <= |hay| - |needle| :: OccursAt(hay, needle, p)
  }

  /** Every string contains itself (so an exact title is always found). */
  lemma ContainsSelf(s: string)
    ensures Contains(s, s)
  {
    assert OccursAt(s, s, 0);
  }

  // ---------------------------------------------------------- strip

  /** The characters `str.strip()` removes, those `str.isspace()` holds of:
      tab to carriage return, the four separators U+001C to U+001F, space,
      next line, no-break space, and the Unicode space and separator
      characters. */
  predicate IsSpace(c: char) {
    || '\t' <= c <= '\r' || '\U{001C}' <= c <= ' ' || c == '\U{0085}' || c == '\U{00A0}'
    || c == '\U{1680}' || '\U{2000}' <= c <= '\U{200A}' || c == '\U{2028}' || c == '\U{2029}'
    || c == '\U{202F}' || c == '\U{205F}' || c == '\U{3000}'
  }

  predicate AllSpace(s: string) {
    forall i :: 0 <= i < |s| ==> IsSpace(s[i])
  }

  /** How many whitespace characters the text starts with. */
  function LeadingSpace(s: string): (i: nat)
    ensures i <= |s| && AllSpace(s[..i])
    ensures i < |s| ==> !IsSpace(s[i])
  {
    if |s| > 0 && IsSpace(s[0]) then
      var k := LeadingSpace(s[1..]);
      assert s[..k + 1] == [s[0]] + s[1..][..k];
      k + 1
    else 0
  }

  /** Where the trailing run of whitespace begins. */
  function TrailingSpace(s: string): (j: nat)
    ensures j <= |s| && AllSpace(s[j..])
    ensures j > 0 ==> !IsSpace(s[j - 1])
  {
    if |s| > 0 && IsSpace(s[|s| - 1]) then
      var k := TrailingSpace(s[..|s| - 1]);
      assert s[k..] == s[..|s| - 1][k..] + [s[|s| - 1]];
      k
    else |s|
  }

  /** Python's `s.strip()`: the text with leading and trailing whitespace
      removed, so the result neither starts nor ends with whitespace. */
  function Strip(s: string): (r: string)
    ensures exists i, j :: 0 <= i <= j <= |s| && r == s[i..j] && AllSpace(s[..i]) && AllSpace(s[j..])
    ensures |r| > 0 ==> !IsSpace(r[0]) && !IsSpace(r[|r| - 1])
  {
    var i := LeadingSpace(s);
    var t := s[i..];
    var j := TrailingSpace(t);
    assert t[..j] == s[i..i + j];
    assert t[j..] == s[i + j..];
    t[..j]
  }

  // ---------------------------------------------------------- lower

  predicate IsUpper(c: char) {
    'A' <= c <= 'Z'
  }

  function LowerChar(c: char): char {
    if IsUpper(c) then (c as int + 32) as char else c
  }

  /** `str.lower()` restricted to ASCII letters; every other character,
      the Japanese titles' included, is left unchanged. */
  function Lower(s: string): (r: string)
    ensures |r| == |s|
  {
    if |s| == 0 then [] else [LowerChar(s[0])] + Lower(s[1..])
  }

  /** Lowering leaves a string without ASCII capitals unchanged. */
  lemma {:induction false} LowerIdentity(s: string)
    requires forall i :: 0 <= i < |s| ==> !IsUpper(s[i])
    ensures Lower(s) == s
  {
    if |s| > 0 {
      LowerIdentity(s[1..]);
    }
  }

  /** Lowering twice is lowering once. */
  lemma {:induction false} LowerIdempotent(s: string)
    ensures Lower(Lower(s)) == Lower(s)
  {
    if |s| > 0 {
      LowerIdempotent(s[1..]);
      assert Lower(s)[1..] == Lower(s[1..]);
    }
  }
}
