/** The older revision of `NumberCompareValidator`
    (validators/NumberCompareValidator.php): it recognises a comparison
    operator at the very start of the value, cuts it off and lets the
    framework's `NumberValidator` judge the rest with its plain number
    patterns (`ComparePatterns.PlainMatches`). */
module ComparePrefix {
  import opened Wrappers
  import opened CompareOperators
  import opened ComparePatterns
  import opened FilterDispatch

  /** `substr($value, strlen($operator))` after
      `preg_match('/^(<>|>=|>|<=|<|=)/', $value, $matches)`: the value
      without the operator it starts with, or the value itself. */
  function StripOperator(s: string): (r: string)
    ensures LeadingOperator(s).Some? ==> s == LeadingOperator(s).value + r
    ensures LeadingOperator(s).None? ==> r == s
  {
    match LeadingOperator(s)
    case Some(op) =>
      LeadingOperatorIsLongest(s);
      s[|op|..]
    case None => s
  }

  /** The parent `NumberValidator::validateValue` with its plain patterns:
      a string is judged by the pattern, `null` and arrays are refused. */
  predicate ParentAccepts(v: Value, integerOnly: bool)
  {
    v.Str? && PlainMatches(v.s, integerOnly)
  }

  /** `validateValue`: a scalar loses its leading operator before the parent
      judges it; anything else goes to the parent unchanged. */
  predicate ValidateValue(v: Value, integerOnly: bool)
  {
    match v
    case Str(s) => ParentAccepts(Str(StripOperator(s)), integerOnly)
    case _ => ParentAccepts(v, integerOnly)
  }

  /** The model being validated: its attribute values and the attributes
      an error was added for, in order. */
  class Model {
    var values: map<string, Value>
    var errors: seq<string>

    constructor(values: map<string, Value>)
      ensures this.values == values && errors == []
    {
      this.values := values;
      errors := [];
    }

    /** `$model->$attribute = $value` */
    method SetValue(attribute: string, v: Value)
      modifies this`values
      ensures values == old(values)[attribute := v]
    {
      values := values[attribute := v];
    }

    /** `$model->addError($attribute, ...)` */
    method AddError(attribute: string)
      modifies this`errors
      ensures errors == old(errors) + [attribute]
    {
      errors := errors + [attribute];
    }
  }

  class NumberCompareValidator {
    /** `NumberValidator::$integerOnly` */
    const integerOnly: bool

    constructor(integerOnly: bool)
      ensures this.integerOnly == integerOnly
    {
      this.integerOnly := integerOnly;
    }

    /** `NumberValidator::validateAttribute`: an error for the attribute
        unless the parent accepts its current value. */
    method ParentValidateAttribute(model: Model, attribute: string)
      requires attribute in model.values
      modifies model`errors
      ensures model.errors == old(model.errors) +
        (if ParentAccepts(model.values[attribute], integerOnly) then [] else [attribute])
    {
      if !ParentAccepts(model.values[attribute], integerOnly) {
        model.AddError(attribute);
      }
    }

    /** `validateAttribute`: the value loses its operator for the duration
        of the parent's check and is put back afterwards, so the model ends
        with its values as they were and an error exactly when
        `validateValue` refuses the value. */
    method ValidateAttribute(model: Model, attribute: string)
      requires attribute in model.values
      modifies model
      ensures model.values == old(model.values)
      ensures model.errors == old(model.errors) +
        (if ValidateValue(old(model.values[attribute]), integerOnly) then [] else [attribute])
    {
      var originValue := model.values[attribute];
      if originValue.Str? && LeadingOperator(originValue.s).Some? {
        model.SetValue(attribute, Str(StripOperator(originValue.s)));
        ParentValidateAttribute(model, attribute);
        model.SetValue(attribute, originValue);
        assert model.values == old(model.values);
      } else {
        ParentValidateAttribute(model, attribute);
      }
    }
  }

  // ---------------------------------------------------------------------
  // Properties

  /** Only strings can be accepted. */
  lemma OnlyStringsAccepted(v: Value, integerOnly: bool)
    requires !v.Str?
    ensures !ValidateValue(v, integerOnly)
  {
  }

  /** An operator followed by something that cannot extend it is cut off
      whole. */
  lemma StripOperatorOf(op: string, rest: string)
    requires op in Operators
    requires rest == [] || !IsOperatorChar(rest[0])
    ensures StripOperator(op + rest) == rest
  {
    LeadingOperatorFollowedBy(op, rest);
    assert (op + rest)[|op|..] == rest;
  }

  /** A value not starting with a comparison character is passed to the
      parent as it is. */
  lemma NoOperatorUnchanged(s: string, integerOnly: bool)
    requires s == [] || !IsOperatorChar(s[0])
    ensures ValidateValue(Str(s), integerOnly) == PlainMatches(s, integerOnly)
  {
  }

  /** The operator is only looked for at the very start: a value that does
      not begin with one goes to the parent whole, which refuses any
      comparison character in it, as in `" >5"`. */
  lemma OperatorNotLeadingRefused(s: string, k: nat, integerOnly: bool)
    requires OperatorCharAt(s, k) && !OperatorCharAt(s, 0)
    ensures !ValidateValue(Str(s), integerOnly)
  {
    if PlainMatches(s, integerOnly) {
      PlainHasNoOperatorChars(s, integerOnly);
    }
  }

  /** After a leading operator that is not followed by another comparison
      character, the newer pattern judges the value as the plain pattern
      judges what the older revision strips it to. */
  lemma StrippedMatches(s: string, integerOnly: bool)
    requires LeadingOperator(s).Some?
    requires var r := StripOperator(s); r == [] || !IsOperatorChar(r[0])
    ensures OperatorMatches(s, integerOnly) == PlainMatches(StripOperator(s), integerOnly)
  {
    LeadingOperatorIsLongest(s);
    var op := LeadingOperator(s).value;
    var r := StripOperator(s);
    OperatorThenPlain([], op, r, integerOnly);
    assert [] + op + r == s;
  }

  /** Two comparison characters beyond the longest operator, as in
      `">==16"`: both revisions refuse. */
  lemma OperatorRepeatedRefused(s: string, integerOnly: bool)
    requires LeadingOperator(s).Some?
    requires var r := StripOperator(s); r != [] && IsOperatorChar(r[0])
    ensures !OperatorMatches(s, integerOnly)
    ensures !PlainMatches(StripOperator(s), integerOnly)
  {
    var op := LeadingOperator(s).value;
    var r := StripOperator(s);
    assert s[|op|] == r[0];
    if OperatorMatches(s, integerOnly) {
      assert SkipSpaces(s, 0) == 0 && OperatorLength(s, 0) == |op|;
      assert OperatorCharAt(s, |op|);
      AtMostOneOperator(s, integerOnly);
    }
    if PlainMatches(r, integerOnly) {
      assert OperatorCharAt(r, 0);
      PlainHasNoOperatorChars(r, integerOnly);
    }
  }

  /** What the older revision accepts, the newer pattern accepts too. */
  lemma OldAcceptsImpliesNew(s: string, integerOnly: bool)
    requires ValidateValue(Str(s), integerOnly)
    ensures OperatorMatches(s, integerOnly)
  {
    if LeadingOperator(s).Some? {
      PlainHasNoOperatorChars(StripOperator(s), integerOnly);
      StrippedMatches(s, integerOnly);
    } else {
      PlainWithinOperator(s, integerOnly);
    }
  }

  /** On values that do not start with whitespace the two revisions agree:
      stripping the operator and applying the plain pattern is the newer
      pattern with its operator group. */
  lemma RevisionsAgree(s: string, integerOnly: bool)
    requires s == [] || !IsSpace(s[0])
    ensures ValidateValue(Str(s), integerOnly) == OperatorMatches(s, integerOnly)
  {
    if LeadingOperator(s).Some? {
      var r := StripOperator(s);
      if r == [] || !IsOperatorChar(r[0]) {
        StrippedMatches(s, integerOnly);
      } else {
        OperatorRepeatedRefused(s, integerOnly);
      }
    } else {
      LeadingOperatorIsLongest(s);
      NoOperatorThenPlain([], s, integerOnly);
      assert [] + s == s;
    }
  }

  /** An accepted value holds no comparison character outside the operator
      it starts with. */
  lemma OldAtMostOneOperator(s: string, integerOnly: bool)
    requires ValidateValue(Str(s), integerOnly)
    ensures forall k :: OperatorCharAt(s, k) ==>
      LeadingOperator(s).Some? && k < |LeadingOperator(s).value|
  {
    var r := StripOperator(s);
    PlainHasNoOperatorChars(r, integerOnly);
    var n := |s| - |r|;
    forall k | n <= k < |s|
      ensures !OperatorCharAt(s, k)
    {
      assert s[k] == r[k - n];
      assert !OperatorCharAt(r, k - n);
    }
  }
}
