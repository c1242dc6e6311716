/** The two grammars of the newer `NumberCompareValidator`
    (src/validators/NumberCompareValidator.php):

      integerPattern  ^\s*(<>|>=|>|<=|<|=)?\s*[+-]?\d+\s*$
      numberPattern   ^\s*(<>|>=|>|<=|<|=)?\s*[-+]?[0-9]*\.?[0-9]+([eE][-+]?[0-9]+)?\s*$

    Each is written twice: as a left-to-right scanner (`Matches`), and as
    the language the regular expression denotes, a split of the string
    into the expression's parts (`PatternLanguage`); the two are proved
    equal. Without the operator group the grammars are those of the
    framework's `NumberValidator`, which the older validator delegates to.
    `$` may also match before a final newline; since `\s*` consumes that
    newline anyway, the language is the same as with an end-of-string anchor. */
module ComparePatterns {
  import opened Wrappers
  import opened CompareOperators

  /** `\s`: space, tab, line feed, vertical tab, form feed, carriage return. */
  predicate IsSpace(c: char)
  {
    c == ' ' || c == '\t' || c == '\n' || c == '\U{B}' || c == '\U{C}' || c == '\r'
  }

  predicate IsDigit(c: char)
  {
    '0' <= c <= '9'
  }

  predicate IsSign(c: char)
  {
    c == '+' || c == '-'
  }

  // ---------------------------------------------------------------------
  // The scanner

  function SkipSpaces(s: string, i: nat): (j: nat)
    requires i <= |s|
    ensures i <= j <= |s|
    ensures j == |s| || !IsSpace(s[j])
    decreases |s| - i
  {
    if i < |s| && IsSpace(s[i]) then SkipSpaces(s, i + 1) else i
  }

  function SkipDigits(s: string, i: nat): (j: nat)
    requires i <= |s|
    ensures i <= j <= |s|
    ensures j == |s| || !IsDigit(s[j])
    decreases |s| - i
  {
    if i < |s| && IsDigit(s[i]) then SkipDigits(s, i + 1) else i
  }

  /** `[+-]?` */
  function SignLength(s: string, i: nat): (n: nat)
    requires i <= |s|
    ensures i + n <= |s|
  {
    if i < |s| && IsSign(s[i]) then 1 else 0
  }

  /** `(<>|>=|>|<=|<|=)?` */
  function OperatorLength(s: string, i: nat): (n: nat)
    requires i <= |s|
    ensures i + n <= |s|
  {
    match OperatorAt(s, i)
    case Some(op) => |op|
    case None => 0
  }

  /** `[+-]?\d+` from position `c`: where it ends. */
  function IntegerEnd(s: string, c: nat): (r: Option<nat>)
    requires c <= |s|
    ensures r.Some? ==> c < r.value <= |s|
  {
    var d := c + SignLength(s, c);
    var e := SkipDigits(s, d);
    if e > d then Some(e) else None
  }

  /** `[0-9]*\.?[0-9]+` from position `d`. */
  function MantissaEnd(s: string, d: nat): (r: Option<nat>)
    requires d <= |s|
    ensures r.Some? ==> d < r.value <= |s|
  {
    var p := SkipDigits(s, d);
    if p < |s| && s[p] == '.' then
      var q := SkipDigits(s, p + 1);
      if q > p + 1 then Some(q) else None
    else if p > d then Some(p)
    else None
  }

  /** `([eE][-+]?[0-9]+)?` from position `m`. */
  function ExponentEnd(s: string, m: nat): (r: Option<nat>)
    requires m <= |s|
    ensures r.Some? ==> m <= r.value <= |s|
  {
    if m < |s| && (s[m] == 'e' || s[m] == 'E') then IntegerEnd(s, m + 1)
    else Some(m)
  }

  /** `[-+]?[0-9]*\.?[0-9]+([eE][-+]?[0-9]+)?` from position `c`. */
  function NumberEnd(s: string, c: nat): (r: Option<nat>)
    requires c <= |s|
    ensures r.Some? ==> c < r.value <= |s|
  {
    var d := c + SignLength(s, c);
    match MantissaEnd(s, d)
    case Some(m) => ExponentEnd(s, m)
    case None => None
  }

  function BodyEnd(s: string, c: nat, integerOnly: bool): (r: Option<nat>)
    requires c <= |s|
    ensures r.Some? ==> c < r.value <= |s|
  {
    if integerOnly then IntegerEnd(s, c) else NumberEnd(s, c)
  }

  /** The number part from `c`, then only whitespace to the end. */
  predicate BodyThenSpaces(s: string, c: nat, integerOnly: bool)
    requires c <= |s|
  {
    var e := BodyEnd(s, c, integerOnly);
    e.Some? && SkipSpaces(s, e.value) == |s|
  }

  /** Where the number part starts when the operator group is present:
      after the leading whitespace, the operator and more whitespace. */
  function AfterOperator(s: string): (c: nat)
    ensures c <= |s|
  {
    var a := SkipSpaces(s, 0);
    SkipSpaces(s, a + OperatorLength(s, a))
  }

  /** The framework's own number patterns, `^\s*[+-]?\d+\s*$` and
      `^\s*[-+]?[0-9]*\.?[0-9]+([eE][-+]?[0-9]+)?\s*$`. */
  predicate PlainMatches(s: string, integerOnly: bool)
  {
    BodyThenSpaces(s, SkipSpaces(s, 0), integerOnly)
  }

  /** The newer revision's patterns, with the operator group. */
  predicate OperatorMatches(s: string, integerOnly: bool)
  {
    BodyThenSpaces(s, AfterOperator(s), integerOnly)
  }

  /** `preg_match($integerPattern, $s)` */
  predicate IntegerPatternMatches(s: string)
  {
    OperatorMatches(s, true)
  }

  /** `preg_match($numberPattern, $s)` */
  predicate NumberPatternMatches(s: string)
  {
    OperatorMatches(s, false)
  }

  /** Where the number part starts, with or without the operator group. */
  function NumberStart(s: string, withOperator: bool): (c: nat)
    ensures c <= |s|
  {
    if withOperator then AfterOperator(s) else SkipSpaces(s, 0)
  }

  /** Both families of patterns at once, for the statements that hold of
      each: `PlainMatches` without the operator group, `OperatorMatches`
      with it. */
  predicate Matches(s: string, integerOnly: bool, withOperator: bool)
  {
    BodyThenSpaces(s, NumberStart(s, withOperator), integerOnly)
  }

  // ---------------------------------------------------------------------
  // The languages the regular expressions denote

  ghost predicate SpacesIn(s: string, lo: nat, hi: nat)
    requires lo <= hi <= |s|
  {
    forall k :: lo <= k < hi ==> IsSpace(s[k])
  }

  ghost predicate DigitsIn(s: string, lo: nat, hi: nat)
    requires lo <= hi <= |s|
  {
    forall k :: lo <= k < hi ==> IsDigit(s[k])
  }

  ghost predicate OptionalSignIn(s: string, lo: nat, hi: nat)
    requires lo <= hi <= |s|
  {
    lo == hi || (hi == lo + 1 && IsSign(s[lo]))
  }

  /** `s[lo..hi]` is matched by `[+-]?\d+`. */
  ghost predicate SignedDigitsIn(s: string, lo: nat, hi: nat)
    requires lo <= hi <= |s|
  {
    exists i: nat :: lo <= i < hi && OptionalSignIn(s, lo, i) && DigitsIn(s, i, hi)
  }

  /** `s[lo..hi]` is matched by `([eE][-+]?[0-9]+)?`. */
  ghost predicate ExponentIn(s: string, lo: nat, hi: nat)
    requires lo <= hi <= |s|
  {
    lo == hi || (lo < hi && (s[lo] == 'e' || s[lo] == 'E') && SignedDigitsIn(s, lo + 1, hi))
  }

  /** `s[lo..hi]` is matched by `[0-9]*\.?[0-9]+`. */
  ghost predicate MantissaIn(s: string, lo: nat, hi: nat)
    requires lo <= hi <= |s|
  {
    exists j: nat, k: nat ::
      lo <= j <= k < hi && DigitsIn(s, lo, j) &&
      (k == j || (k == j + 1 && s[j] == '.')) && DigitsIn(s, k, hi)
  }

  /** `s[lo..hi]` is matched by `[-+]?[0-9]*\.?[0-9]+([eE][-+]?[0-9]+)?`. */
  ghost predicate NumberIn(s: string, lo: nat, hi: nat)
    requires lo <= hi <= |s|
  {
    exists i: nat, m: nat ::
      lo <= i < m <= hi &&
      OptionalSignIn(s, lo, i) && MantissaIn(s, i, m) && ExponentIn(s, m, hi)
  }

  ghost predicate BodyIn(s: string, lo: nat, hi: nat, integerOnly: bool)
    requires lo <= hi <= |s|
  {
    if integerOnly then SignedDigitsIn(s, lo, hi) else NumberIn(s, lo, hi)
  }

  /** The whole pattern: whitespace, optional operator, whitespace, number,
      whitespace, and nothing else. */
  ghost predicate PatternLanguage(s: string, integerOnly: bool, withOperator: bool)
  {
    exists a: nat, b: nat, c: nat, e: nat ::
      LeadIn(s, a, b, c, withOperator) && c <= e <= |s| &&
      BodyIn(s, c, e, integerOnly) && SpacesIn(s, e, |s|)
  }

  /** `s[..c]` is matched by `^\s*`, the operator group and `\s*`, with
      the operator, if any, at `s[a..b]`. */
  ghost predicate LeadIn(s: string, a: nat, b: nat, c: nat, withOperator: bool)
  {
    a <= b <= c <= |s| && SpacesIn(s, 0, a) &&
    (if withOperator then a == b || s[a..b] in Operators else a == b) &&
    SpacesIn(s, b, c)
  }

  // ---------------------------------------------------------------------
  // The scanner accepts exactly the language

  /** What the scanners skip is whitespace, or digits. */
  lemma {:induction false} SkipSpacesSpans(s: string, i: nat)
    requires i <= |s|
    ensures SpacesIn(s, i, SkipSpaces(s, i))
    decreases |s| - i
  {
    if i < |s| && IsSpace(s[i]) {
      SkipSpacesSpans(s, i + 1);
    }
  }

  lemma {:induction false} SkipDigitsSpans(s: string, i: nat)
    requires i <= |s|
    ensures DigitsIn(s, i, SkipDigits(s, i))
    decreases |s| - i
  {
    if i < |s| && IsDigit(s[i]) {
      SkipDigitsSpans(s, i + 1);
    }
  }

  lemma {:induction false} SkipSpacesLands(s: string, i: nat, j: nat)
    requires i <= j <= |s| && SpacesIn(s, i, j) && (j == |s| || !IsSpace(s[j]))
    ensures SkipSpaces(s, i) == j
    decreases j - i
  {
    if i < j {
      SkipSpacesLands(s, i + 1, j);
    }
  }

  lemma {:induction false} SkipDigitsLands(s: string, i: nat, j: nat)
    requires i <= j <= |s| && DigitsIn(s, i, j) && (j == |s| || !IsDigit(s[j]))
    ensures SkipDigits(s, i) == j
    decreases j - i
  {
    if i < j {
      SkipDigitsLands(s, i + 1, j);
    }
  }

  lemma IntegerEndSound(s: string, c: nat)
    requires c <= |s| && IntegerEnd(s, c).Some?
    ensures SignedDigitsIn(s, c, IntegerEnd(s, c).value)
  {
    var i := c + SignLength(s, c);
    SkipDigitsSpans(s, i);
    assert OptionalSignIn(s, c, i) && DigitsIn(s, i, IntegerEnd(s, c).value);
  }

  lemma IntegerEndComplete(s: string, c: nat, e: nat)
    requires c <= e <= |s| && SignedDigitsIn(s, c, e) && (e == |s| || !IsDigit(s[e]))
    ensures IntegerEnd(s, c) == Some(e)
  {
    var i: nat :| c <= i < e && OptionalSignIn(s, c, i) && DigitsIn(s, i, e);
    assert i == c ==> IsDigit(s[c]);
    assert SignLength(s, c) == i - c;
    SkipDigitsLands(s, i, e);
  }

  lemma ExponentEndSound(s: string, m: nat)
    requires m <= |s| && ExponentEnd(s, m).Some?
    ensures ExponentIn(s, m, ExponentEnd(s, m).value)
  {
    if m < |s| && (s[m] == 'e' || s[m] == 'E') {
      IntegerEndSound(s, m + 1);
    }
  }

  lemma ExponentEndComplete(s: string, m: nat, e: nat)
    requires m <= e <= |s| && ExponentIn(s, m, e) && (e == |s| || IsSpace(s[e]))
    ensures ExponentEnd(s, m) == Some(e)
  {
    if m < e {
      IntegerEndComplete(s, m + 1, e);
    }
  }

  lemma MantissaEndSound(s: string, d: nat)
    requires d <= |s| && MantissaEnd(s, d).Some?
    ensures MantissaIn(s, d, MantissaEnd(s, d).value)
  {
    var p := SkipDigits(s, d);
    var m := MantissaEnd(s, d).value;
    SkipDigitsSpans(s, d);
    if p < |s| && s[p] == '.' {
      SkipDigitsSpans(s, p + 1);
      assert d <= p <= p + 1 < m && DigitsIn(s, d, p) && DigitsIn(s, p + 1, m);
    } else {
      assert d <= d <= d < m && DigitsIn(s, d, d) && DigitsIn(s, d, m);
    }
  }

  lemma NumberEndSound(s: string, c: nat)
    requires c <= |s| && NumberEnd(s, c).Some?
    ensures NumberIn(s, c, NumberEnd(s, c).value)
  {
    var d := c + SignLength(s, c);
    var m := MantissaEnd(s, d).value;
    MantissaEndSound(s, d);
    ExponentEndSound(s, m);
    assert OptionalSignIn(s, c, d);
  }

  /** A mantissa starts with a digit or a point. */
  lemma MantissaStart(s: string, i: nat, m: nat)
    requires i <= m <= |s| && MantissaIn(s, i, m)
    ensures i < m && (IsDigit(s[i]) || s[i] == '.')
  {
    var j: nat, k: nat :|
      i <= j <= k < m && DigitsIn(s, i, j) &&
      (k == j || (k == j + 1 && s[j] == '.')) && DigitsIn(s, k, m);
    if i < j {
      assert IsDigit(s[i]);
    } else if k == j {
      assert IsDigit(s[k]);
    }
  }

  lemma MantissaEndComplete(s: string, i: nat, m: nat)
    requires i <= m <= |s| && MantissaIn(s, i, m)
    requires m == |s| || (!IsDigit(s[m]) && s[m] != '.')
    ensures MantissaEnd(s, i) == Some(m)
  {
    var j: nat, k: nat :|
      i <= j <= k < m && DigitsIn(s, i, j) &&
      (k == j || (k == j + 1 && s[j] == '.')) && DigitsIn(s, k, m);
    if k == j + 1 {
      SkipDigitsLands(s, i, j);
      SkipDigitsLands(s, k, m);
    } else {
      assert DigitsIn(s, i, m);
      SkipDigitsLands(s, i, m);
    }
  }

  /** What may follow a mantissa inside a number that ends at `e`. */
  lemma AfterMantissa(s: string, m: nat, e: nat)
    requires m <= e <= |s| && ExponentIn(s, m, e) && (e == |s| || IsSpace(s[e]))
    ensures m == |s| || s[m] == 'e' || s[m] == 'E' || IsSpace(s[m])
  {
  }

  lemma NumberEndOfParts(s: string, c: nat, m: nat, e: nat)
    requires c <= |s| && MantissaEnd(s, c + SignLength(s, c)) == Some(m)
    requires m <= |s| && ExponentEnd(s, m) == Some(e)
    ensures NumberEnd(s, c) == Some(e)
  {
  }

  lemma NumberEndComplete(s: string, c: nat, e: nat)
    requires c <= e <= |s| && NumberIn(s, c, e) && (e == |s| || IsSpace(s[e]))
    ensures NumberEnd(s, c) == Some(e)
  {
    var i: nat, m: nat :|
      c <= i < m <= e &&
      OptionalSignIn(s, c, i) && MantissaIn(s, i, m) && ExponentIn(s, m, e);
    MantissaStart(s, i, m);
    var d := c + SignLength(s, c);
    assert d == i;
    AfterMantissa(s, m, e);
    MantissaEndComplete(s, d, m);
    ExponentEndComplete(s, m, e);
    NumberEndOfParts(s, c, m, e);
  }

  lemma BodyEndSound(s: string, c: nat, integerOnly: bool)
    requires c <= |s| && BodyEnd(s, c, integerOnly).Some?
    ensures BodyIn(s, c, BodyEnd(s, c, integerOnly).value, integerOnly)
  {
    if integerOnly { IntegerEndSound(s, c); } else { NumberEndSound(s, c); }
  }

  lemma BodyEndComplete(s: string, c: nat, e: nat, integerOnly: bool)
    requires c <= e <= |s| && BodyIn(s, c, e, integerOnly) && (e == |s| || IsSpace(s[e]))
    ensures BodyEnd(s, c, integerOnly) == Some(e)
  {
    if integerOnly { IntegerEndComplete(s, c, e); } else { NumberEndComplete(s, c, e); }
  }

  /** A number part starts with a sign, a digit or a point: not with
      whitespace and not with an operator character. */
  lemma BodyInStart(s: string, c: nat, e: nat, integerOnly: bool)
    requires c <= e <= |s| && BodyIn(s, c, e, integerOnly)
    ensures c < e && (IsSign(s[c]) || IsDigit(s[c]) || s[c] == '.')
  {
    if integerOnly {
      var i: nat :| c <= i < e && OptionalSignIn(s, c, i) && DigitsIn(s, i, e);
      assert IsDigit(s[i]);
    } else {
      var i: nat, m: nat :|
        c <= i < m <= e &&
        OptionalSignIn(s, c, i) && MantissaIn(s, i, m) && ExponentIn(s, m, e);
      MantissaStart(s, i, m);
    }
  }

  /** What the operator group consumes is one of the operators. */
  lemma OperatorLengthMatched(s: string, i: nat)
    requires i <= |s|
    ensures var n := OperatorLength(s, i); n > 0 ==> s[i..i + n] in Operators
  {
    var r := s[i..];
    OperatorAtIsLeading(s, i);
    LeadingOperatorIsLongest(r);
    if LeadingOperator(r).Some? {
      var op := LeadingOperator(r).value;
      assert |op| <= |r| && op == r[..|op|];
      assert r[..|op|] == s[i..i + |op|];
    }
  }

  /** Where the scanner puts the start of the number part, and what lies
      before it. */
  lemma NumberStartSpans(s: string, withOperator: bool)
    ensures var a := SkipSpaces(s, 0);
      var b := if withOperator then a + OperatorLength(s, a) else a;
      LeadIn(s, a, b, NumberStart(s, withOperator), withOperator)
  {
    var a := SkipSpaces(s, 0);
    OperatorLengthMatched(s, a);
    SkipSpacesSpans(s, 0);
    SkipSpacesSpans(s, if withOperator then a + OperatorLength(s, a) else a);
  }

  /** The regular expression's split, given its four boundaries. */
  lemma PatternOfSplit(s: string, a: nat, b: nat, c: nat, e: nat, integerOnly: bool, withOperator: bool)
    requires LeadIn(s, a, b, c, withOperator) && c <= e <= |s|
    requires BodyIn(s, c, e, integerOnly) && SpacesIn(s, e, |s|)
    ensures PatternLanguage(s, integerOnly, withOperator)
  {
  }

  lemma MatchesSound(s: string, integerOnly: bool, withOperator: bool)
    requires Matches(s, integerOnly, withOperator)
    ensures PatternLanguage(s, integerOnly, withOperator)
  {
    var a := SkipSpaces(s, 0);
    var b := if withOperator then a + OperatorLength(s, a) else a;
    NumberStartSpans(s, withOperator);
    ScanSplit(s, a, b, NumberStart(s, withOperator), integerOnly, withOperator);
  }

  /** A lead-in the scanner found, then a number part and whitespace to
      the end, is a split of the string by the regular expression. */
  lemma ScanSplit(s: string, a: nat, b: nat, c: nat, integerOnly: bool, withOperator: bool)
    requires LeadIn(s, a, b, c, withOperator) && BodyThenSpaces(s, c, integerOnly)
    ensures PatternLanguage(s, integerOnly, withOperator)
  {
    var e := BodyEnd(s, c, integerOnly).value;
    BodyEndSound(s, c, integerOnly);
    SkipSpacesSpans(s, e);
    PatternOfSplit(s, a, b, c, e, integerOnly, withOperator);
  }

  /** An operator the next character cannot extend is read whole. */
  lemma OperatorLengthAt(s: string, a: nat, b: nat)
    requires a < b <= |s| && s[a..b] in Operators
    requires b == |s| || !IsOperatorChar(s[b])
    ensures OperatorLength(s, a) == b - a
  {
    var op := s[a..b];
    assert s[a..] == op + s[b..];
    LeadingOperatorFollowedBy(op, s[b..]);
    OperatorAtIsLeading(s, a);
  }

  /** Without a comparison character there is no operator. */
  lemma NoOperatorAt(s: string, a: nat)
    requires a <= |s| && (a == |s| || !IsOperatorChar(s[a]))
    ensures OperatorLength(s, a) == 0
  {
  }

  /** Where the scanner puts the start of the number part, given any split
      of the string by the regular expression. */
  lemma NumberStartOfSplit(s: string, a: nat, b: nat, c: nat, e: nat, integerOnly: bool, withOperator: bool)
    requires LeadIn(s, a, b, c, withOperator) && c <= e <= |s|
    requires BodyIn(s, c, e, integerOnly)
    ensures NumberStart(s, withOperator) == c
  {
    BodyInStart(s, c, e, integerOnly);
    if a == b {
      assert SpacesIn(s, 0, c);
      SkipSpacesLands(s, 0, c);
      if withOperator {
        NoOperatorAt(s, c);
        SkipSpacesLands(s, c, c);
      }
    } else {
      SkipSpacesLands(s, 0, a);
      OperatorLengthAt(s, a, b);
      SkipSpacesLands(s, b, c);
    }
  }

  lemma MatchesComplete(s: string, integerOnly: bool, withOperator: bool)
    requires PatternLanguage(s, integerOnly, withOperator)
    ensures Matches(s, integerOnly, withOperator)
  {
    var a: nat, b: nat, c: nat, e: nat :|
      LeadIn(s, a, b, c, withOperator) && c <= e <= |s| &&
      BodyIn(s, c, e, integerOnly) && SpacesIn(s, e, |s|);
    NumberStartOfSplit(s, a, b, c, e, integerOnly, withOperator);
    SkipSpacesLands(s, e, |s|);
    BodyEndComplete(s, c, e, integerOnly);
  }

  /** The scanner is a correct recogniser of the regular expression. */
  lemma MatchesIffLanguage(s: string, integerOnly: bool, withOperator: bool)
    ensures Matches(s, integerOnly, withOperator) <==> PatternLanguage(s, integerOnly, withOperator)
  {
    if Matches(s, integerOnly, withOperator) {
      MatchesSound(s, integerOnly, withOperator);
    }
    if PatternLanguage(s, integerOnly, withOperator) {
      MatchesComplete(s, integerOnly, withOperator);
    }
  }

  /** `integerPattern` and `numberPattern` (src/validators/
      NumberCompareValidator.php) accept exactly their languages. */
  lemma SourcePatternsIffLanguage(s: string)
    ensures IntegerPatternMatches(s) <==> PatternLanguage(s, true, true)
    ensures NumberPatternMatches(s) <==> PatternLanguage(s, false, true)
  {
    MatchesIffLanguage(s, true, true);
    MatchesIffLanguage(s, false, true);
  }

  // ---------------------------------------------------------------------
  // The scanner only looks at what follows its position

  /** `r` moved `b` positions to the right. */
  function Offset(r: Option<nat>, b: nat): Option<nat>
  {
    if r.Some? then Some(r.value + b) else None
  }

  /** `t` is what follows position `b` of `s`. */
  predicate SuffixAt(s: string, t: string, b: nat)
  {
    b <= |s| && |t| == |s| - b && forall k :: 0 <= k < |t| ==> t[k] == s[b + k]
  }

  lemma SkipSpacesShift(s: string, t: string, b: nat, i: nat)
    requires SuffixAt(s, t, b) && i <= |t|
    ensures SkipSpaces(t, i) + b == SkipSpaces(s, b + i)
  {
    var j := SkipSpaces(s, b + i);
    SkipSpacesSpans(s, b + i);
    assert SpacesIn(t, i, j - b);
    SkipSpacesLands(t, i, j - b);
  }

  lemma SkipDigitsShift(s: string, t: string, b: nat, i: nat)
    requires SuffixAt(s, t, b) && i <= |t|
    ensures SkipDigits(t, i) + b == SkipDigits(s, b + i)
  {
    var j := SkipDigits(s, b + i);
    SkipDigitsSpans(s, b + i);
    assert DigitsIn(t, i, j - b);
    SkipDigitsLands(t, i, j - b);
  }

  lemma IntegerEndShift(s: string, t: string, b: nat, i: nat)
    requires SuffixAt(s, t, b) && i <= |t|
    ensures Offset(IntegerEnd(t, i), b) == IntegerEnd(s, b + i)
  {
    assert SignLength(t, i) == SignLength(s, b + i);
    SkipDigitsShift(s, t, b, i + SignLength(s, b + i));
  }

  lemma MantissaEndShift(s: string, t: string, b: nat, i: nat)
    requires SuffixAt(s, t, b) && i <= |t|
    ensures Offset(MantissaEnd(t, i), b) == MantissaEnd(s, b + i)
  {
    SkipDigitsShift(s, t, b, i);
    var p := SkipDigits(s, b + i);
    if p < |s| && s[p] == '.' {
      assert t[p - b] == '.';
      SkipDigitsShift(s, t, b, p + 1 - b);
    }
  }

  lemma ExponentEndShift(s: string, t: string, b: nat, m: nat)
    requires SuffixAt(s, t, b) && m <= |t|
    ensures Offset(ExponentEnd(t, m), b) == ExponentEnd(s, b + m)
  {
    if m < |t| {
      assert t[m] == s[b + m];
      IntegerEndShift(s, t, b, m + 1);
    }
  }

  lemma NumberEndShift(s: string, t: string, b: nat, i: nat)
    requires SuffixAt(s, t, b) && i <= |t|
    ensures Offset(NumberEnd(t, i), b) == NumberEnd(s, b + i)
  {
    var dt := i + SignLength(t, i);
    var ds := (b + i) + SignLength(s, b + i);
    assert b + dt == ds;
    MantissaEndShift(s, t, b, dt);
    var mt := MantissaEnd(t, dt);
    var ms := MantissaEnd(s, ds);
    if mt.Some? {
      assert ms == Some(b + mt.value);
      ExponentEndShift(s, t, b, mt.value);
      assert NumberEnd(t, i) == ExponentEnd(t, mt.value);
      assert NumberEnd(s, b + i) == ExponentEnd(s, b + mt.value);
    } else {
      assert ms.None?;
      assert NumberEnd(t, i).None?;
      assert NumberEnd(s, b + i).None?;
    }
  }

  lemma BodyThenSpacesShift(s: string, t: string, b: nat, c: nat, integerOnly: bool)
    requires SuffixAt(s, t, b) && c <= |t|
    ensures BodyThenSpaces(t, c, integerOnly) == BodyThenSpaces(s, b + c, integerOnly)
  {
    if integerOnly { IntegerEndShift(s, t, b, c); } else { NumberEndShift(s, t, b, c); }
    var e := BodyEnd(s, b + c, integerOnly);
    if e.Some? {
      SkipSpacesShift(s, t, b, e.value - b);
    }
  }

  /** Whatever the scanner has read before position `b`, the plain pattern
      run on what follows `b` is the rest of the scan from `b`. */
  lemma PlainFrom(s: string, t: string, b: nat, integerOnly: bool)
    requires SuffixAt(s, t, b)
    ensures PlainMatches(t, integerOnly) == BodyThenSpaces(s, SkipSpaces(s, b), integerOnly)
  {
    var c := SkipSpaces(t, 0);
    var sb := SkipSpaces(s, b);
    SkipSpacesShift(s, t, b, 0);
    assert b + c == sb;
    BodyThenSpacesShift(s, t, b, c, integerOnly);
    assert BodyThenSpaces(s, b + c, integerOnly) == BodyThenSpaces(s, sb, integerOnly);

  }

  // ---------------------------------------------------------------------
  // What the grammars accept

  /** Whitespace, an operator that the next character cannot extend, and
      the rest: the newer pattern accepts the value exactly when the plain
      number pattern accepts the rest. Which operator it was does not
      matter. */
  lemma OperatorThenPlain(w: string, op: string, rest: string, integerOnly: bool)
    requires forall k :: 0 <= k < |w| ==> IsSpace(w[k])
    requires op in Operators
    requires rest == [] || !IsOperatorChar(rest[0])
    ensures OperatorMatches(w + op + rest, integerOnly) == PlainMatches(rest, integerOnly)
  {
    var s := w + op + rest;
    var b := |w| + |op|;
    assert op[0] == s[|w|];
    SkipSpacesLands(s, 0, |w|);
    assert s[|w|..] == op + rest;
    LeadingOperatorFollowedBy(op, rest);
    OperatorAtIsLeading(s, |w|);
    assert OperatorLength(s, |w|) == |op|;
    assert AfterOperator(s) == SkipSpaces(s, b);
    assert SuffixAt(s, rest, b);
    PlainFrom(s, rest, b, integerOnly);
  }

  /** Two operators in the same place make no difference to acceptance. */
  lemma OperatorChoiceIrrelevant(w: string, op1: string, op2: string, rest: string, integerOnly: bool)
    requires forall k :: 0 <= k < |w| ==> IsSpace(w[k])
    requires op1 in Operators && op2 in Operators
    requires rest == [] || !IsOperatorChar(rest[0])
    ensures OperatorMatches(w + op1 + rest, integerOnly) == OperatorMatches(w + op2 + rest, integerOnly)
  {
    OperatorThenPlain(w, op1, rest, integerOnly);
    OperatorThenPlain(w, op2, rest, integerOnly);
  }

  /** Without an operator after the leading whitespace, the operator group
      changes nothing: the newer pattern and the plain one agree. */
  lemma NoOperatorThenPlain(w: string, rest: string, integerOnly: bool)
    requires forall k :: 0 <= k < |w| ==> IsSpace(w[k])
    requires rest == [] || (!IsSpace(rest[0]) && !IsOperatorChar(rest[0]))
    ensures OperatorMatches(w + rest, integerOnly) == PlainMatches(w + rest, integerOnly)
  {
    var s := w + rest;
    SkipSpacesLands(s, 0, |w|);
    assert rest != [] ==> s[|w|] == rest[0];
  }

  /** The characters a number part is made of. */
  predicate IsNumberChar(c: char)
  {
    IsSign(c) || IsDigit(c) || c == '.' || c == 'e' || c == 'E'
  }

  ghost predicate NumberCharsIn(s: string, lo: nat, hi: nat)
    requires lo <= hi <= |s|
  {
    forall k :: lo <= k < hi ==> IsNumberChar(s[k])
  }

  lemma SignedDigitsChars(s: string, lo: nat, hi: nat)
    requires lo <= hi <= |s| && SignedDigitsIn(s, lo, hi)
    ensures NumberCharsIn(s, lo, hi)
  {
    var i: nat :| lo <= i < hi && OptionalSignIn(s, lo, i) && DigitsIn(s, i, hi);
  }

  lemma MantissaChars(s: string, lo: nat, hi: nat)
    requires lo <= hi <= |s| && MantissaIn(s, lo, hi)
    ensures NumberCharsIn(s, lo, hi)
  {
    var j: nat, k: nat :|
      lo <= j <= k < hi && DigitsIn(s, lo, j) &&
      (k == j || (k == j + 1 && s[j] == '.')) && DigitsIn(s, k, hi);
  }

  lemma NumberChars(s: string, lo: nat, hi: nat)
    requires lo <= hi <= |s| && NumberIn(s, lo, hi)
    ensures NumberCharsIn(s, lo, hi)
  {
    var i: nat, m: nat :|
      lo <= i < m <= hi &&
      OptionalSignIn(s, lo, i) && MantissaIn(s, i, m) && ExponentIn(s, m, hi);
    MantissaChars(s, i, m);
    if m < hi {
      SignedDigitsChars(s, m + 1, hi);
    }
    forall k | lo <= k < hi
      ensures IsNumberChar(s[k])
    {
      if k < i {
        assert IsSign(s[lo]);
      } else if k < m {
        assert NumberCharsIn(s, i, m);
      } else if k > m {
        assert NumberCharsIn(s, m + 1, hi);
      }
    }
  }

  /** The number part of an accepted value holds signs, digits, a point and
      exponent markers only. */
  lemma BodyChars(s: string, c: nat, e: nat, integerOnly: bool)
    requires c <= e <= |s| && BodyIn(s, c, e, integerOnly)
    ensures NumberCharsIn(s, c, e)
  {
    if integerOnly { SignedDigitsChars(s, c, e); } else { NumberChars(s, c, e); }
  }

  /** From the start of an accepted number part to the end of the value
      there is no comparison character. */
  lemma NoOperatorCharsFrom(s: string, c: nat, integerOnly: bool)
    requires c <= |s| && BodyThenSpaces(s, c, integerOnly)
    ensures forall k :: c <= k ==> !OperatorCharAt(s, k)
  {
    var e := BodyEnd(s, c, integerOnly).value;
    BodyEndSound(s, c, integerOnly);
    BodyChars(s, c, e, integerOnly);
    SkipSpacesSpans(s, e);
  }

  /** The plain pattern accepts no comparison character anywhere. */
  lemma PlainHasNoOperatorChars(s: string, integerOnly: bool)
    requires PlainMatches(s, integerOnly)
    ensures forall k :: !OperatorCharAt(s, k)
  {
    var c := SkipSpaces(s, 0);
    NoOperatorCharsFrom(s, c, integerOnly);
    SkipSpacesSpans(s, 0);
  }

  /** Whitespace from `b`, then a number part and whitespace: no comparison
      character from `b` on. */
  lemma SpacesThenBody(s: string, b: nat, integerOnly: bool)
    requires b <= |s| && BodyThenSpaces(s, SkipSpaces(s, b), integerOnly)
    ensures forall k :: b <= k ==> !OperatorCharAt(s, k)
  {
    var c := SkipSpaces(s, b);
    NoOperatorCharsFrom(s, c, integerOnly);
    SkipSpacesSpans(s, b);
    SpacesHaveNoOperatorChars(s, b, c);
  }

  lemma SpacesHaveNoOperatorChars(s: string, lo: nat, hi: nat)
    requires lo <= hi <= |s| && SpacesIn(s, lo, hi)
    ensures forall k :: lo <= k < hi ==> !OperatorCharAt(s, k)
  {
  }

  lemma OperatorCharsBetween(s: string, a: nat, b: nat)
    requires a <= b <= |s| && SpacesIn(s, 0, a)
    requires forall k :: b <= k ==> !OperatorCharAt(s, k)
    ensures forall k :: OperatorCharAt(s, k) ==> a <= k < b
  {
  }

  /** An accepted value holds at most one operator: every comparison
      character lies inside the one the operator group matched. */
  lemma AtMostOneOperator(s: string, integerOnly: bool)
    requires OperatorMatches(s, integerOnly)
    ensures var a := SkipSpaces(s, 0);
      forall k :: OperatorCharAt(s, k) ==> a <= k < a + OperatorLength(s, a)
  {
    var a := SkipSpaces(s, 0);
    OperatorCharsWithin(s, a, a + OperatorLength(s, a), integerOnly);
  }

  /** Leading whitespace up to `a`, then anything up to `b`, then what the
      scanner accepts from `b`: comparison characters occur only in
      `s[a..b]`. */
  lemma OperatorCharsWithin(s: string, a: nat, b: nat, integerOnly: bool)
    requires a <= b <= |s| && a == SkipSpaces(s, 0)
    requires BodyThenSpaces(s, SkipSpaces(s, b), integerOnly)
    ensures forall k :: OperatorCharAt(s, k) ==> a <= k < b
  {
    SpacesThenBody(s, b, integerOnly);
    SkipSpacesSpans(s, 0);
    OperatorCharsBetween(s, a, b);
  }

  /** A number part starts with a sign, a digit or a point. */
  lemma BodyEndStart(s: string, c: nat, integerOnly: bool)
    requires c <= |s| && BodyEnd(s, c, integerOnly).Some?
    ensures c < |s| && (IsSign(s[c]) || IsDigit(s[c]) || s[c] == '.')
  {
    if c < |s| && !IsSign(s[c]) && !integerOnly {
      var p := SkipDigits(s, c);
      assert p > c || (p < |s| && s[p] == '.');
    }
  }

  /** Every value the plain pattern accepts, the pattern with the operator
      group accepts too. */
  lemma PlainWithinOperator(s: string, integerOnly: bool)
    requires PlainMatches(s, integerOnly)
    ensures OperatorMatches(s, integerOnly)
  {
    var a := SkipSpaces(s, 0);
    BodyEndStart(s, a, integerOnly);
    assert OperatorLength(s, a) == 0;
    assert AfterOperator(s) == a;
  }

  /** An integer part followed by whitespace or the end is also a number
      part. */
  lemma IntegerEndIsNumberEnd(s: string, c: nat)
    requires c <= |s| && IntegerEnd(s, c).Some?
    requires var e := IntegerEnd(s, c).value; e == |s| || IsSpace(s[e])
    ensures NumberEnd(s, c) == IntegerEnd(s, c)
  {
    var d := c + SignLength(s, c);
    var e := IntegerEnd(s, c).value;
    assert SkipDigits(s, d) == e;
    assert MantissaEnd(s, d) == Some(e);
  }

  /** Every value the integer pattern accepts, the number pattern accepts. */
  lemma IntegerWithinNumber(s: string, withOperator: bool)
    requires Matches(s, true, withOperator)
    ensures Matches(s, false, withOperator)
  {
    var c := NumberStart(s, withOperator);
    IntegerEndIsNumberEnd(s, c);
  }
}
