/** The expectations of tests/validators/NumberCompareValidatorTest.php,
    as facts about the patterns of the newer revision and, through
    `ComparePrefix.RevisionsAgree`, about the older revision's
    `validateValue`. Each value is worked through the scanner step by
    step. */
module ValidatorVectors {
  import opened Wrappers
  import opened CompareOperators
  import opened ComparePatterns
  import opened ComparePrefix
  import opened FilterDispatch

  lemma PlainDecimal()
    ensures PlainMatches("10.5", false)
    ensures !PlainMatches("10.5", true)
  {
    var s := "10.5";
    assert SkipSpaces(s, 0) == 0;
    assert SkipDigits(s, 3) == 4;
    assert SkipDigits(s, 2) == 2;
    assert SkipDigits(s, 0) == 2;
    assert NumberEnd(s, 0) == Some(4);
    assert SkipSpaces(s, 2) == 2;
  }

  lemma DecimalNotInteger()
    ensures !OperatorMatches("10.5", true)
  {
    var s := "10.5";
    assert SkipSpaces(s, 0) == 0;
    assert s[0..] == s;
    assert OperatorLength(s, 0) == 0;
    assert SkipDigits(s, 0) == 2;
    assert SkipSpaces(s, 2) == 2;
  }

  lemma PlainFifteen()
    ensures PlainMatches("15", true)
  {
    var s := "15";
    assert SkipSpaces(s, 0) == 0;
    assert SkipDigits(s, 2) == 2;
    assert SkipDigits(s, 0) == 2;
  }

  lemma WordRefused(integerOnly: bool)
    ensures !OperatorMatches("abc", integerOnly)
  {
    var s := "abc";
    assert SkipSpaces(s, 0) == 0;
    assert OperatorAt(s, 0) == None;
    assert AfterOperator(s) == 0;
    assert SignLength(s, 0) == 0;
    assert SkipDigits(s, 0) == 0;
    if integerOnly {
      assert IntegerEnd(s, 0) == None;
    } else {
      assert MantissaEnd(s, 0) == None;
    }
  }

  lemma GreaterDecimal()
    ensures OperatorMatches(">10.5", false)
  {
    var s := ">10.5";
    assert SkipSpaces(s, 0) == 0;
    assert s[0..] == s;
    assert OperatorLength(s, 0) == 1;
    assert SkipSpaces(s, 1) == 1;
    assert SkipDigits(s, 4) == 5;
    assert SkipDigits(s, 3) == 3;
    assert SkipDigits(s, 1) == 3;
    assert NumberEnd(s, 1) == Some(5);
  }

  /** A decimal after an operator is no integer: the digits stop at the
      point, where the integer pattern expects whitespace or the end. */
  lemma GreaterDecimalNotInteger()
    ensures !OperatorMatches(">10.5", true)
  {
    var s := ">10.5";
    assert SkipSpaces(s, 0) == 0;
    assert s[0..] == s;
    assert OperatorLength(s, 0) == 1;
    assert SkipSpaces(s, 1) == 1;
    assert SkipDigits(s, 1) == 3;
    assert SkipSpaces(s, 3) == 3;
  }

  lemma GreaterOrEqualDecimal()
    ensures OperatorMatches(">=10.5", false)
  {
    var s := ">=10.5";
    assert SkipSpaces(s, 0) == 0;
    assert s[0..] == s;
    assert OperatorLength(s, 0) == 2;
    assert SkipSpaces(s, 2) == 2;
    assert SkipDigits(s, 5) == 6;
    assert SkipDigits(s, 4) == 4;
    assert SkipDigits(s, 2) == 4;
    assert NumberEnd(s, 2) == Some(6);
  }

  lemma GreaterFifteen()
    ensures OperatorMatches(">15", true)
  {
    var s := ">15";
    assert SkipSpaces(s, 0) == 0;
    assert s[0..] == s;
    assert OperatorLength(s, 0) == 1;
    assert SkipSpaces(s, 1) == 1;
    assert SkipDigits(s, 3) == 3;
    assert SkipDigits(s, 1) == 3;
  }

  lemma GreaterOrEqualTen()
    ensures OperatorMatches(">=10", true)
  {
    var s := ">=10";
    assert SkipSpaces(s, 0) == 0;
    assert s[0..] == s;
    assert OperatorLength(s, 0) == 2;
    assert SkipSpaces(s, 2) == 2;
    assert SkipDigits(s, 4) == 4;
    assert SkipDigits(s, 2) == 4;
  }

  lemma GreaterWordRefused(integerOnly: bool)
    ensures !OperatorMatches(">abc", integerOnly)
  {
    var s := ">abc";
    assert SkipSpaces(s, 0) == 0;
    assert s[0..] == s;
    assert OperatorLength(s, 0) == 1;
    assert SkipSpaces(s, 1) == 1;
    assert SkipDigits(s, 1) == 1;
  }

  lemma GreaterOrEqualWordRefused(integerOnly: bool)
    ensures !OperatorMatches(">=abc", integerOnly)
  {
    var s := ">=abc";
    assert SkipSpaces(s, 0) == 0;
    assert s[0..] == s;
    assert OperatorLength(s, 0) == 2;
    assert SkipSpaces(s, 2) == 2;
    assert SkipDigits(s, 2) == 2;
  }

  /** The alternation takes `>=`; the `=` left over is no number. */
  lemma DoubleEqualsRefused(integerOnly: bool)
    ensures !OperatorMatches(">==16", integerOnly)
  {
    var s := ">==16";
    assert SkipSpaces(s, 0) == 0;
    assert s[0..] == s;
    assert OperatorLength(s, 0) == 2;
    assert SkipSpaces(s, 2) == 2;
    assert SkipDigits(s, 2) == 2;
  }

  /** `dataProviderValidateAttribute` (integerOnly off) and
      `dataProviderValidateValue` (the default, integerOnly off). */
  lemma NumberPatternTable()
    ensures NumberPatternMatches("10.5")
    ensures NumberPatternMatches(">10.5")
    ensures !NumberPatternMatches("abc")
    ensures !NumberPatternMatches(">abc")
    ensures NumberPatternMatches("15")
    ensures NumberPatternMatches(">15")
    ensures NumberPatternMatches(">=10.5")
    ensures !NumberPatternMatches(">=abc")
    ensures !NumberPatternMatches(">==16")
  {
    PlainDecimal();
    PlainWithinOperator("10.5", false);
    GreaterDecimal();
    WordRefused(false);
    GreaterWordRefused(false);
    PlainFifteen();
    PlainWithinOperator("15", true);
    IntegerWithinNumber("15", true);
    GreaterFifteen();
    IntegerWithinNumber(">15", true);
    GreaterOrEqualDecimal();
    GreaterOrEqualWordRefused(false);
    DoubleEqualsRefused(false);
  }

  /** `dataProviderValidateIntegerAttribute` (integerOnly on). */
  lemma IntegerPatternTable()
    ensures !IntegerPatternMatches("10.5")
    ensures !IntegerPatternMatches(">10.5")
    ensures !IntegerPatternMatches("abc")
    ensures !IntegerPatternMatches(">abc")
    ensures IntegerPatternMatches("15")
    ensures IntegerPatternMatches(">15")
    ensures IntegerPatternMatches(">=10")
    ensures !IntegerPatternMatches(">=abc")
    ensures !IntegerPatternMatches(">==16")
  {
    DecimalNotInteger();
    GreaterDecimalNotInteger();
    WordRefused(true);
    GreaterWordRefused(true);
    PlainFifteen();
    PlainWithinOperator("15", true);
    GreaterFifteen();
    GreaterOrEqualTen();
    GreaterOrEqualWordRefused(true);
    DoubleEqualsRefused(true);
  }

  /** The older revision's `validateValue` meets the same expectations
      (none of the values starts with whitespace, where the revisions
      differ): a decimal, in both modes. */
  lemma OlderDecimals()
    ensures ValidateValue(Str("10.5"), false)
    ensures !ValidateValue(Str("10.5"), true)
  {
    assert ValidateValue(Str("10.5"), false) by {
      PlainDecimal();
      PlainWithinOperator("10.5", false);
      RevisionsAgree("10.5", false);
    }
    assert !ValidateValue(Str("10.5"), true) by {
      DecimalNotInteger();
      RevisionsAgree("10.5", true);
    }
  }

  /** Decimals after an operator. */
  lemma OlderGreaterDecimal()
    ensures ValidateValue(Str(">10.5"), false)
    ensures !ValidateValue(Str(">10.5"), true)
  {
    GreaterDecimal();
    RevisionsAgree(">10.5", false);
    GreaterDecimalNotInteger();
    RevisionsAgree(">10.5", true);
  }

  lemma OlderGreaterOrEqualDecimal()
    ensures ValidateValue(Str(">=10.5"), false)
  {
    GreaterOrEqualDecimal();
    RevisionsAgree(">=10.5", false);
  }

  /** Integers, with and without an operator. */
  lemma OlderIntegers()
    ensures ValidateValue(Str("15"), true)
    ensures ValidateValue(Str("15"), false)
    ensures ValidateValue(Str(">15"), true)
    ensures ValidateValue(Str(">15"), false)
    ensures ValidateValue(Str(">=10"), true)
  {
    assert ValidateValue(Str("15"), true) by {
      PlainFifteen();
      PlainWithinOperator("15", true);
      RevisionsAgree("15", true);
    }
    assert ValidateValue(Str("15"), false) by {
      PlainFifteen();
      PlainWithinOperator("15", true);
      IntegerWithinNumber("15", true);
      RevisionsAgree("15", false);
    }
    assert ValidateValue(Str(">15"), true) by {
      GreaterFifteen();
      RevisionsAgree(">15", true);
    }
    assert ValidateValue(Str(">15"), false) by {
      GreaterFifteen();
      IntegerWithinNumber(">15", true);
      RevisionsAgree(">15", false);
    }
    assert ValidateValue(Str(">=10"), true) by {
      GreaterOrEqualTen();
      RevisionsAgree(">=10", true);
    }
  }

  /** Words and a doubled operator, in both modes. */
  lemma OlderRefusals(integerOnly: bool)
    ensures !ValidateValue(Str("abc"), integerOnly)
    ensures !ValidateValue(Str(">abc"), integerOnly)
    ensures !ValidateValue(Str(">=abc"), integerOnly)
    ensures !ValidateValue(Str(">==16"), integerOnly)
  {
    assert !ValidateValue(Str("abc"), integerOnly) by {
      WordRefused(integerOnly);
      RevisionsAgree("abc", integerOnly);
    }
    assert !ValidateValue(Str(">abc"), integerOnly) by {
      GreaterWordRefused(integerOnly);
      RevisionsAgree(">abc", integerOnly);
    }
    assert !ValidateValue(Str(">=abc"), integerOnly) by {
      GreaterOrEqualWordRefused(integerOnly);
      RevisionsAgree(">=abc", integerOnly);
    }
    assert !ValidateValue(Str(">==16"), integerOnly) by {
      DoubleEqualsRefused(integerOnly);
      RevisionsAgree(">==16", integerOnly);
    }
  }

  /** Whitespace before the operator: the newer pattern accepts `" >5"`,
      the older revision refuses it. */
  lemma LeadingSpaceBeforeOperator()
    ensures OperatorMatches(" >5", false)
    ensures !ValidateValue(Str(" >5"), false)
  {
    var s := " >5";
    assert SkipSpaces(s, 1) == 1;
    assert SkipSpaces(s, 0) == 1;
    assert s[1..] == ">5";
    assert OperatorLength(s, 1) == 1;
    assert SkipSpaces(s, 2) == 2;
    assert SkipDigits(s, 3) == 3;
    assert SkipDigits(s, 2) == 3;
    assert NumberEnd(s, 2) == Some(3);
    OperatorNotLeadingRefused(s, 1, false);
  }
}
