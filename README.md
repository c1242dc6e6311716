# ar-search in Dafny

A model of the core of `yii2tech/ar-search`. The package is a search-model layer for
listing endpoints: from a source record model it infers which attributes can be
searched and with which type, validates request parameters against rules derived
from the same model, and turns each validated attribute into one filter call on a
query. It also ships `NumberCompareValidator`, a number validator that allows a
leading comparison operator (`>`, `>=`, `<>`, …), in two revisions:

- **The older revision** strips the operator and lets the plain number check judge the rest.
- **The newer revision** folds the operator into the validator's two regular expressions.

The project has these modules, one per file:

- `OrderedMaps` (ordered_map.dfy): the PHP array used as an ordered
  `attribute => type` dictionary, with first-insertion key order.
- `TypeInference` (type_inference.dfy): `extractModelMetaData`, written as three
  folds over the source model's active attributes, validators and primary key. Each
  fold is proved against an independent reference definition of the resulting types
  (`InferredType`) and of the key order (`AppendNew`).
- `FilterDispatch` (filter_dispatch.dfy): the default operator table, the three-way
  choice of a filter call per attribute, and `SearchCalls`. `SearchCalls` is the
  complete call sequence `search` makes on its query, and it is the specification
  the imperative `search` loop is proved against.
- `SearchModel` (search_model.dfy): the `ActiveSearchModel` object as a class.
  - Its memoized fields are filled by the lazy getters. What each getter returns in
    a state is a function of that state (`EffectiveTypes`, `EffectiveRules`,
    `EffectiveOperators`): the value that was set, otherwise the one inferred from
    the model. `Memoized` states that an operation leaves those results as they were,
    so `search` and the magic accessors are specified over them.
  - Its sparse attribute store is changed by `__set`/`__unset`.
  - `search` makes its calls on a `Query` object, whose state is the log of calls
    made on it.
- `CompareOperators` (compare_operators.dfy): the operator group
  `(<>|>=|>|<=|<|=)`. Its alternatives are tried in order, and it is proved to take
  the longest operator present.
- `ComparePatterns` (compare_patterns.dfy): `integerPattern` and `numberPattern` of
  the newer revision. Each is a left-to-right scanner, proved equal to the language
  of the regular expression (a split of the string into the expression's parts).
  The proved facts include:
  - integer ⊆ number;
  - at most one operator;
  - the choice of operator does not matter.
- `ComparePrefix` (compare_prefix.dfy): the older revision.
  - `validateValue` is a predicate.
  - `validateAttribute` is a method that overwrites the model's attribute, runs the
    parent check and restores the value. It is proved to leave the values unchanged
    and to add an error exactly when `validateValue` refuses.
  - The two revisions are proved to agree on every value that does not start with
    whitespace.
- `ValidatorVectors` (validator_vectors.dfy): the expectations of
  tests/validators/NumberCompareValidatorTest.php for both revisions.

The framework's parent `NumberValidator` is represented by its own two patterns, that
is, the newer patterns without the operator group (`ComparePatterns.PlainMatches`).

## Model

| member | source | states |
|---|---|---|
| OrderedMaps.Put | ActiveSearchModel.php:386 | assigning a key keeps its position if present, appends it otherwise, and changes no other entry |
| OrderedMaps.AppendNewMembers | ActiveSearchModel.php:359-362 | key order is first-insertion order: earlier keys stay in front, and a key is present exactly when it was present or inserted |
| OrderedMaps.AppendNewConcat | ActiveSearchModel.php:359-389 | inserting two runs of keys one after the other gives the key order of inserting their concatenation |
| TypeInference.TypeAll | ActiveSearchModel.php:384-388 | every listed attribute gets the type, all other entries are unchanged, and new attributes are appended in order |
| TypeInference.ExtractModelMetaData | ActiveSearchModel.php:357-422 | the type map is well formed and the first rule is a `safe` rule over the active attributes |
| TypeInference.ApplyValidatorsTypes | ActiveSearchModel.php:367-389 | after the validator loop an attribute has the type of the last validator that types it, or its earlier type |
| TypeInference.ApplyValidatorsKeys | ActiveSearchModel.php:367-389 | the validator loop appends the attributes of typing validators in order, each at its first occurrence |
| TypeInference.AddUntypedTypes | ActiveSearchModel.php:391-415 | a primary-key attribute already typed keeps its type, and an untyped one gets the type its column gives it |
| TypeInference.AddUntypedKeys | ActiveSearchModel.php:391-415 | untyped primary-key attributes are appended after all others, in key order |
| TypeInference.ExtractModelMetaDataTypes | ActiveSearchModel.php:357-422 | the inferred map types exactly the attributes the reference definition types, with the same type: the last typing validator wins, otherwise an active attribute is a string, otherwise a primary-key attribute takes its column's type (string without a schema) |
| TypeInference.ExtractModelMetaDataKeys | ActiveSearchModel.php:357-422 | key order is active attributes, then attributes of typing validators, then the primary key, each at its first occurrence |
| TypeInference.ActiveAttributesFirst | ActiveSearchModel.php:359-366 | the active attributes, typed string, come first in the key order, and the `safe` rule lists exactly them |
| TypeInference.RulesOfConcat | ActiveSearchModel.php:367-383 | the rules of consecutive validator runs concatenate, in validator order |
| TypeInference.ValidatorContribution | ActiveSearchModel.php:367-389 | by validator kind: a number validator emits a compare rule with its attributes and flag and types them integer or float; filter and range validators are copied and retype nothing; boolean and string validators are copied and retype; each validators retype to array without a rule; others do nothing |
| FilterDispatch.DefaultFilterOperators | ActiveSearchModel.php:220-237 | the table has entries for array (`in`) and string only, and the string entry is `ilike` exactly for an active record on a `pgsql` connection, `like` otherwise |
| FilterDispatch.FailedValidationMatchesNothing | ActiveSearchModel.php:303-306 | after a failed validation the only call is `where('0=1')`: no hook and no filter |
| FilterDispatch.SuccessfulSearchCalls | ActiveSearchModel.php:308-325 | after a successful validation the hook fires once and first, then one filter call per attribute in type-map order, carrying its bound value or null |
| FilterDispatch.OneFilterPerAttribute | ActiveSearchModel.php:311-325 | no attribute is filtered twice and every attribute of the type map is filtered |
| FilterDispatch.FilterChoice | ActiveSearchModel.php:312-323 | a table entry for the type wins, as `[op, attr, value]` or as a callback; otherwise `andFilterCompare` exactly for integer and float when the query has it; otherwise equality |
| FilterDispatch.DefaultTableDispatch | ActiveSearchModel.php:311-324 | with the default table strings use `like`/`ilike`, arrays `in`, integers and floats are compared when possible, and booleans use equality |
| FilterDispatch.CallbackOverrides | ActiveSearchModel.php:312-317 | a callable registered for a type replaces the dispatch of that type and of no other |
| SearchModel.SetModelRefusesPlainInstance | ActiveSearchModel.php:118-126 | as written, the setter refuses a plain model instance that the getter accepts when it comes from a definition |
| SearchModel.SetModelAcceptsResolvable | ActiveSearchModel.php:118-126 | the corrected check accepts exactly definitions and `Model` instances (and no model), refuses any other object, accepts every source the getter can resolve and everything the written check accepts, and differs from the written check exactly on plain model instances |
| SearchModel.ShortName | ActiveSearchModel.php:181 | the result is the suffix of the class name after its last namespace separator, and holds no separator |
| SearchModel.Bind | ActiveSearchModel.php:301 | loading assigns every parameter named like a declared attribute, ignores the others, and keeps every other bound value |
| SearchModel.Query.Where | ActiveSearchModel.php:304 | the query records the condition |
| SearchModel.Query.AndFilterWhere | ActiveSearchModel.php:314 | the query records an operator filter |
| SearchModel.Query.AndFilterEquals | ActiveSearchModel.php:322 | the query records an equality filter |
| SearchModel.Query.AndFilterCompare | ActiveSearchModel.php:319-320 | the query records a compare filter, callable only on a query that has the method |
| SearchModel.Query.Invoke | ActiveSearchModel.php:316 | the query records a callback filter |
| SearchModel.Query.AfterCreateQuery | ActiveSearchModel.php:519-525 | the query records the hook |
| SearchModel.ActiveSearchModel.constructor | ActiveSearchModel.php:58-95 | every lazily computed field starts unset and no attribute is bound |
| SearchModel.ActiveSearchModel.GetModel | ActiveSearchModel.php:102-112 | a resolvable source is resolved once and kept as an instance; otherwise a configuration error and nothing changes |
| SearchModel.ActiveSearchModel.SetModel | ActiveSearchModel.php:118-126 | with the corrected check, a definition or `Model` instance is stored; any other object is refused with a configuration error and nothing changes |
| SearchModel.ActiveSearchModel.PopulateFromModel | ActiveSearchModel.php:334-345 | only the type map and rule list that are still unset are filled, from the inferred metadata |
| SearchModel.ActiveSearchModel.GetSearchAttributeTypes | ActiveSearchModel.php:139-145 | a set map is returned unchanged; otherwise inference runs once, also fills unset rules, and fails only when no model resolves |
| SearchModel.ActiveSearchModel.SetSearchAttributeTypes | ActiveSearchModel.php:150-153 | the given map overrides inference |
| SearchModel.ActiveSearchModel.GetRules | ActiveSearchModel.php:158-164 | a set list is returned unchanged; otherwise inference runs once and also fills an unset type map |
| SearchModel.ActiveSearchModel.SetRules | ActiveSearchModel.php:169-172 | the given rules override inference |
| SearchModel.ActiveSearchModel.GetFormName | ActiveSearchModel.php:177-187 | memoized: the model's short class name plus `Search`, or `Search` without a model; fails exactly when no name is set and a configured model does not resolve; a resolved model is kept as its instance |
| SearchModel.ActiveSearchModel.SetFormName | ActiveSearchModel.php:192-195 | the given name overrides the derived one |
| SearchModel.ActiveSearchModel.GetFilterOperators | ActiveSearchModel.php:200-206 | memoized: a set table is returned unchanged, otherwise the default table for the resolved model |
| SearchModel.ActiveSearchModel.SetFilterOperators | ActiveSearchModel.php:211-214 | the given table overrides the default |
| SearchModel.ActiveSearchModel.Get | ActiveSearchModel.php:465-474 | succeeds exactly for a bound non-null value or an attribute of the type map the getter returns (set or inferred), and then returns the bound value or null; otherwise a configuration error when no model resolves, else an unknown-property error; the store is unchanged and the getters' results stay the same |
| SearchModel.ActiveSearchModel.Set | ActiveSearchModel.php:479-486 | succeeds exactly when the name is in the type map the getter returns, and then changes the store at exactly that name; otherwise the same two errors and no change; the getters' results stay the same |
| SearchModel.ActiveSearchModel.Unset | ActiveSearchModel.php:503-510 | succeeds exactly when the name is in the type map the getter returns, and then removes exactly that name from the store; otherwise the same two errors and no change; the getters' results stay the same |
| SearchModel.ActiveSearchModel.Load | ActiveSearchModel.php:301 | reaches `formName()`, `rules()` and the type map (:252-263): fails exactly when one of the three getters would throw; otherwise memoizes all three as the getters return them and binds the parameters over the type map (`Bind`); the getters' results stay the same |
| SearchModel.ActiveSearchModel.Validate | ActiveSearchModel.php:303 | the store becomes what validation left in it, and the result is its verdict |
| SearchModel.ActiveSearchModel.ApplyFilters | ActiveSearchModel.php:311-325 | the loop appends exactly the filter calls of `FilterCalls`, one per attribute in type-map order |
| SearchModel.ActiveSearchModel.FilterQuery | ActiveSearchModel.php:308-325 | memoizes the operator table the getter returns (set, or the default for the model) and appends the hook and the filter calls, `SearchCalls(true, …)` over that table |
| SearchModel.ActiveSearchModel.FillQuery | ActiveSearchModel.php:301-325 | the form name, rules and type map become what their getters return; with the type map and operator table the getters return before the call: the store is what validation makes of the bound parameters, and the query log is `SearchCalls` for its verdict, so only `where('0=1')` after a failure |
| SearchModel.ActiveSearchModel.Search | ActiveSearchModel.php:294-328 | fails exactly when no model resolves (configuration error) or the model is a plain `Model` without `find` (unknown method), leaving the store, form name and rules unchanged; otherwise the form name, rules and type map are memoized as their getters return them, and a fresh query whose log is `SearchCalls` for the validation verdict over the getters' type map and operator table, with the store validation leaves |
| CompareOperators.FirstPrefix | validators/NumberCompareValidator.php:28 | the result is one of the alternatives and a prefix of the value; none exactly when no alternative is a prefix |
| CompareOperators.FirstPrefixIsFirst | validators/NumberCompareValidator.php:28 | the alternation picks by order: the result sits at an index before which no alternative matches, and whatever sits at such an index is the result |
| CompareOperators.LeadingOperatorIsFirstPrefix | validators/NumberCompareValidator.php:28 | the operator found at the start is what the ordered alternation matches |
| CompareOperators.LeadingOperatorIsLongest | validators/NumberCompareValidator.php:28-29 | an operator is found exactly when the value starts with a comparison character, and it is the longest operator the value starts with |
| CompareOperators.LeadingOperatorFollowedBy | validators/NumberCompareValidator.php:28-29 | an operator followed by no comparison character is matched whole |
| CompareOperators.OperatorAtIsLeading | src/validators/NumberCompareValidator.php:24 | the operator read at a position is the one the rest of the value starts with |
| ComparePatterns.SkipSpacesSpans | src/validators/NumberCompareValidator.php:24 | what the whitespace scanner skips is whitespace |
| ComparePatterns.SkipSpacesLands | src/validators/NumberCompareValidator.php:24 | the whitespace scanner stops at the first non-whitespace character |
| ComparePatterns.NumberEndSound | src/validators/NumberCompareValidator.php:28 | what the number scanner reads is a number part of the regular expression |
| ComparePatterns.NumberEndComplete | src/validators/NumberCompareValidator.php:28 | a number part followed by whitespace or the end is read whole by the scanner |
| ComparePatterns.IntegerEndSound | src/validators/NumberCompareValidator.php:24 | what the integer scanner reads is a signed digit run |
| ComparePatterns.IntegerEndComplete | src/validators/NumberCompareValidator.php:24 | a signed digit run ending before a non-digit is read whole |
| ComparePatterns.MatchesSound | src/validators/NumberCompareValidator.php:24-28 | every value the scanner accepts is in the language of the regular expression |
| ComparePatterns.MatchesComplete | src/validators/NumberCompareValidator.php:24-28 | every value in the language, whichever split backtracking would find, is accepted by the scanner |
| ComparePatterns.MatchesIffLanguage | src/validators/NumberCompareValidator.php:24-28 | scanner and language agree, with and without the operator group, for both patterns |
| ComparePatterns.SourcePatternsIffLanguage | src/validators/NumberCompareValidator.php:24-28 | `integerPattern` and `numberPattern` accept exactly their languages: whitespace, an optional operator, whitespace, the number part, whitespace |
| ComparePatterns.BodyThenSpacesShift | src/validators/NumberCompareValidator.php:24-28 | the scan from a position depends only on what follows it |
| ComparePatterns.OperatorThenPlain | src/validators/NumberCompareValidator.php:24-28 | after whitespace and an operator not followed by a comparison character, the pattern accepts exactly when the plain pattern accepts the rest |
| ComparePatterns.OperatorChoiceIrrelevant | src/validators/NumberCompareValidator.php:24-28 | replacing the operator with another leaves acceptance unchanged |
| ComparePatterns.NoOperatorThenPlain | src/validators/NumberCompareValidator.php:24-28 | without an operator, the pattern with the operator group agrees with the plain pattern |
| ComparePatterns.PlainHasNoOperatorChars | src/validators/NumberCompareValidator.php:24-28 | the plain pattern accepts no comparison character anywhere |
| ComparePatterns.AtMostOneOperator | src/validators/NumberCompareValidator.php:24-28 | every comparison character of an accepted value lies inside the single operator the group matched |
| ComparePatterns.PlainWithinOperator | src/validators/NumberCompareValidator.php:24-28 | whatever the plain pattern accepts, the pattern with the operator accepts |
| ComparePatterns.IntegerWithinNumber | src/validators/NumberCompareValidator.php:24-28 | every value `integerPattern` accepts, `numberPattern` accepts |
| ComparePrefix.StripOperator | validators/NumberCompareValidator.php:28-30 | the value is the leading operator followed by the result, or the result is the value when there is no operator |
| ComparePrefix.Model.SetValue | validators/NumberCompareValidator.php:30-32 | the attribute takes the value and no other attribute changes |
| ComparePrefix.NumberCompareValidator.ParentValidateAttribute | validators/NumberCompareValidator.php:31 | an error for the attribute exactly when the parent check refuses its current value |
| ComparePrefix.NumberCompareValidator.ValidateAttribute | validators/NumberCompareValidator.php:24-36 | afterwards the attribute values are as before, and an error was added exactly when `validateValue` refuses the original value |
| ComparePrefix.OnlyStringsAccepted | validators/NumberCompareValidator.php:43-50 | a non-scalar value goes to the parent unstripped and is refused |
| ComparePrefix.StripOperatorOf | validators/NumberCompareValidator.php:28-30 | an operator not followed by a comparison character is cut off whole, as `>=10.5` leaves `10.5` |
| ComparePrefix.NoOperatorUnchanged | validators/NumberCompareValidator.php:47-50 | a value without a leading operator is judged by the parent as it is |
| ComparePrefix.OperatorNotLeadingRefused | validators/NumberCompareValidator.php:44 | an operator that is not the first character is not stripped, and the value is refused |
| ComparePrefix.StrippedMatches | validators/NumberCompareValidator.php:44-50 | when the rest starts with no comparison character, the newer pattern on the value equals the plain pattern on the stripped value |
| ComparePrefix.OperatorRepeatedRefused | validators/NumberCompareValidator.php:28-31 | with a comparison character right after the operator, as in `>==16`, both revisions refuse |
| ComparePrefix.OldAcceptsImpliesNew | validators/NumberCompareValidator.php:41-51 | every value the older revision accepts, the newer one accepts |
| ComparePrefix.RevisionsAgree | validators/NumberCompareValidator.php:41-51 | on values not starting with whitespace the two revisions accept the same values |
| ComparePrefix.OldAtMostOneOperator | validators/NumberCompareValidator.php:41-51 | an accepted value has comparison characters only inside its leading operator |
| ValidatorVectors.PlainDecimal | tests/validators/NumberCompareValidatorTest.php:18 | `10.5` is a number and not an integer for the plain patterns |
| ValidatorVectors.DecimalNotInteger | tests/validators/NumberCompareValidatorTest.php:51 | `integerPattern` refuses `10.5` |
| ValidatorVectors.PlainFifteen | tests/validators/NumberCompareValidatorTest.php:22 | `15` is an integer |
| ValidatorVectors.WordRefused | tests/validators/NumberCompareValidatorTest.php:20 | `abc` is refused in both modes |
| ValidatorVectors.GreaterDecimal | tests/validators/NumberCompareValidatorTest.php:19 | `numberPattern` accepts `>10.5` |
| ValidatorVectors.GreaterOrEqualDecimal | tests/validators/NumberCompareValidatorTest.php:24 | `numberPattern` accepts `>=10.5` |
| ValidatorVectors.GreaterFifteen | tests/validators/NumberCompareValidatorTest.php:23 | `integerPattern` accepts `>15` |
| ValidatorVectors.GreaterOrEqualTen | tests/validators/NumberCompareValidatorTest.php:56 | `integerPattern` accepts `>=10` |
| ValidatorVectors.GreaterWordRefused | tests/validators/NumberCompareValidatorTest.php:21 | `>abc` is refused in both modes |
| ValidatorVectors.GreaterOrEqualWordRefused | tests/validators/NumberCompareValidatorTest.php:25 | `>=abc` is refused in both modes |
| ValidatorVectors.DoubleEqualsRefused | tests/validators/NumberCompareValidatorTest.php:26 | `>==16` is refused in both modes |
| ValidatorVectors.NumberPatternTable | tests/validators/NumberCompareValidatorTest.php:17-27 | `numberPattern` meets every expectation of the two number tables |
| ValidatorVectors.GreaterDecimalNotInteger | src/validators/NumberCompareValidator.php:24 | `integerPattern` refuses `>10.5` |
| ValidatorVectors.IntegerPatternTable | tests/validators/NumberCompareValidatorTest.php:50-59 | `integerPattern` meets every expectation of the integer table, and refuses `>10.5` as well as `10.5` |
| ValidatorVectors.OlderDecimals | tests/validators/NumberCompareValidatorTest.php:18 | the older revision accepts `10.5` as a number and refuses it as an integer |
| ValidatorVectors.OlderGreaterDecimal | tests/validators/NumberCompareValidatorTest.php:19 | the older revision accepts `>10.5` as a number and refuses it as an integer |
| ValidatorVectors.OlderGreaterOrEqualDecimal | tests/validators/NumberCompareValidatorTest.php:24 | the older revision accepts `>=10.5` |
| ValidatorVectors.OlderIntegers | tests/validators/NumberCompareValidatorTest.php:54-56 | the older revision accepts `15`, `>15` and `>=10` |
| ValidatorVectors.OlderRefusals | tests/validators/NumberCompareValidatorTest.php:20-26 | the older revision refuses `abc`, `>abc`, `>=abc` and `>==16` in both modes |
| ValidatorVectors.LeadingSpaceBeforeOperator | validators/NumberCompareValidator.php:44 | `" >5"` is accepted by the newer pattern and refused by the older revision |

## Left out

- `createDataProvider`, `ActiveDataProvider`, `Yii::createObject`, the query builder and
  SQL are not part of this model. The query is the log of calls `search` makes on it.
- `andFilterWhere` skips blank values inside the framework, so a call in the log may
  add no condition.
- Event listeners on `afterCreateQuery` are not modelled: the event is one log entry.
  `ActiveSearchEvent` carries only the query.
- `validate()` of the framework's `Model` is a parameter of `Search`: a function from
  the bound attributes to a verdict and the attributes it leaves (filter validators
  rewrite them). The framework's rule engine is not modelled; of the derived rules
  only `NumberCompareValidator` is.
- `load` is modelled after the parameters have been taken from under the form name.
  Its safe-attribute filter is approximated by the declared attribute names (`Bind`).
- `SearchModel.ActiveSearchModel.Load`: the framework reaches `rules()` only when the
  data holds an entry under the form name. The model assumes there is one, so it
  always consults the rules, and the type map even when no parameter is assigned.
- `__isset`, `canGetProperty`, `canSetProperty`, `attributes()`, `formName()`,
  `rules()`, `attributeLabels` and `attributeHints` are delegations to the framework
  and are not modelled.
- The parent `__get`/`__set`/`__unset` fall back to the framework's properties. Here
  any name that is not a declared attribute gives `UnknownProperty`.
- The PostgreSQL driver detection is a field of the source model description
  (`DbRecord.driverName`).
- `ShortName`: `StringHelper::basename` also treats `/` as a separator and trims
  trailing separators. Class names have neither, so only the backslash is modelled.
- `FilterDispatch.Value` holds null, strings and arrays of strings. PHP integers,
  floats and booleans bound to an attribute are not modelled.
- The parent `NumberValidator` is reduced to its two patterns. Its number
  normalisation, `min`/`max`, messages and `skipOnEmpty` (which skips empty values
  before `validateAttribute` runs) are not modelled.
- PHP 8's `TypeError` when `preg_match` receives an array is not modelled. An array
  takes the no-operator branch.
- The repository's end-to-end search tests against SQLite (row counts) are not
  modelled.
- `SearchModel.ActiveSearchModel.FilterQuery`: it uses the type map already memoized
  by the earlier `load`, so it does not call the getter again.
- The search types form a closed set of five (`SearchType`). The source keeps types
  as strings, so a custom type written into a configured type map or operator table
  cannot be represented.
- `SearchModel.ActiveSearchModel.GetModel`: an object that is neither a `Model` nor a
  closure is returned by the getter without a check. Here it is reported as a
  configuration error. The corrected setter refuses such an object, so it never reaches
  the getter.
- `search` has no allow-list of attributes that may be compared: every integer or
  float attribute without a table entry goes to `andFilterCompare` when the query
  offers it. This follows the code, not the description of a compare-allowed policy.

## Findings

| source | as written | input that shows it | evidently intended | confidence | as-written member | corrected member |
|---|---|---|---|---|---|---|
| ActiveSearchModel.php:118-126 | `setModel` refuses any object that is not an `ActiveRecordInterface`. Its exception message, the `@property` type, and the `instanceof Model` check in `getModel` all admit any `Model`. | a plain `Model` instance such as a `ContactForm` form: refused by the setter, while the same model produced by a definition is accepted | accept every `Model` instance | low, not executed: `search` calls `find()` (ActiveSearchModel.php:298), which a plain model lacks, whichever way it was supplied, so the narrow setter may be deliberate | SearchModel.SetModelRefusesPlainInstance | SearchModel.SetModelAcceptsResolvable |
