/** Attribute-type inference: how a search model derives its attribute
    types and its validation rules from the source model it searches
    (`ActiveSearchModel::extractModelMetaData`). The PHP walks the source
    model's active attributes, then its validators, then its primary key,
    building an ordered `attribute => type` array and a rule list; here
    each of the three loops is a fold over a sequence. */
module TypeInference {
  import opened Wrappers
  import opened OrderedMaps

  /** The five search attribute types (`TYPE_INTEGER` … `TYPE_ARRAY`). */
  datatype SearchType = Integer | Float | Boolean | String | Array

  /** `[attribute => type]`, in insertion order. */
  type TypeMap = OrderedMap<SearchType>

  /** The validator classes inference tells apart; `OtherKind` stands for
      every other class (`required`, `email`, …). */
  datatype ValidatorKind =
    | FilterKind
    | RangeKind
    | NumberKind(integerOnly: bool)
    | BooleanKind
    | StringKind
    | EachKind
    | OtherKind(name: string)

  datatype Validator = Validator(kind: ValidatorKind, attributes: seq<string>)

  /** A search-side validation rule: the leading `safe` rule, a
      `NumberCompareValidator` rule, or a validator of the source model
      copied as it is. */
  datatype Rule =
    | SafeRule(attributes: seq<string>)
    | NumberCompareRule(attributes: seq<string>, integerOnly: bool)
    | CopiedRule(validator: Validator)

  /** A primary-key column with the `phpType` its table schema reports. */
  datatype PrimaryKeyColumn = PrimaryKeyColumn(name: string, phpType: string)

  /** What kind of object the source model is: a plain `Model`, an
      `ActiveRecordInterface` (primary key names only) or a
      `yii\db\ActiveRecord` (primary key columns with a schema, and the
      driver name of its connection). */
  datatype ModelKind =
    | PlainModel
    | RecordInterface(primaryKey: seq<string>)
    | DbRecord(primaryKeyColumns: seq<PrimaryKeyColumn>, driverName: string)

  /** The description of a source model that inference reads. */
  datatype SourceModel = SourceModel(
    className: string,
    activeAttributes: seq<string>,
    validators: seq<Validator>,
    kind: ModelKind)

  datatype MetaData = MetaData(attributes: TypeMap, rules: seq<Rule>)

  // ---------------------------------------------------------------------
  // The three folds

  /** Assigns type `t` to every attribute of `attrs`, in order. */
  function TypeAll(m: TypeMap, attrs: seq<string>, t: SearchType): (r: TypeMap)
    requires m.Valid()
    ensures r.Valid()
    ensures r.keys == AppendNew(m.keys, attrs)
    ensures forall a :: a in r.values <==> a in m.values || a in attrs
    ensures forall a :: a in attrs ==> r.values[a] == t
    ensures forall a :: a !in attrs && a in m.values ==> r.values[a] == m.values[a]
    decreases |attrs|
  {
    if attrs == [] then m
    else
      assert forall a :: a in attrs[1..] ==> a in attrs;
      assert forall a :: a in attrs && a != attrs[0] ==> a in attrs[1..];
      TypeAll(Put(m, attrs[0], t), attrs[1..], t)
  }

  /** The rule one validator of the source model contributes. */
  function RuleOf(v: Validator): Option<Rule>
  {
    match v.kind
    case FilterKind => Some(CopiedRule(v))
    case RangeKind => Some(CopiedRule(v))
    case NumberKind(integerOnly) => Some(NumberCompareRule(v.attributes, integerOnly))
    case BooleanKind => Some(CopiedRule(v))
    case StringKind => Some(CopiedRule(v))
    case EachKind => None
    case OtherKind(_) => None
  }

  /** The type one validator of the source model gives its attributes. */
  function TypeOf(v: Validator): Option<SearchType>
  {
    match v.kind
    case NumberKind(integerOnly) => Some(if integerOnly then Integer else Float)
    case BooleanKind => Some(Boolean)
    case StringKind => Some(String)
    case EachKind => Some(Array)
    case _ => None
  }

  /** The loop over the validators, for the type map. */
  function ApplyValidators(m: TypeMap, vs: seq<Validator>): (r: TypeMap)
    requires m.Valid()
    ensures r.Valid()
    decreases |vs|
  {
    if vs == [] then m
    else
      var before := ApplyValidators(m, vs[..|vs| - 1]);
      var v := vs[|vs| - 1];
      match TypeOf(v)
      case Some(t) => TypeAll(before, v.attributes, t)
      case None => before
  }

  /** The loop over the validators, for the rules. */
  function RulesOf(vs: seq<Validator>): seq<Rule>
    decreases |vs|
  {
    if vs == [] then []
    else
      var v := vs[|vs| - 1];
      RulesOf(vs[..|vs| - 1]) + match RuleOf(v) case Some(rule) => [rule] case None => []
  }

  /** Attributes of the validators that carry a type, in order. */
  function TypedAttributes(vs: seq<Validator>): seq<string>
    decreases |vs|
  {
    if vs == [] then []
    else
      var v := vs[|vs| - 1];
      TypedAttributes(vs[..|vs| - 1]) + if TypeOf(v).Some? then v.attributes else []
  }

  /** The `switch` on a primary-key column's `phpType`. */
  function PhpTypeToSearchType(phpType: string): SearchType
  {
    if phpType == "integer" then Integer
    else if phpType == "boolean" then Boolean
    else if phpType == "double" || phpType == "float" then Float
    else String
  }

  /** The type each primary-key attribute would get if it were still untyped. */
  function PrimaryKeyTyping(kind: ModelKind): seq<(string, SearchType)>
  {
    match kind
    case PlainModel => []
    case RecordInterface(pk) => seq(|pk|, i requires 0 <= i < |pk| => (pk[i], String))
    case DbRecord(columns, _) =>
      seq(|columns|, i requires 0 <= i < |columns| =>
        (columns[i].name, PhpTypeToSearchType(columns[i].phpType)))
  }

  function Names(pairs: seq<(string, SearchType)>): seq<string>
  {
    seq(|pairs|, i requires 0 <= i < |pairs| => pairs[i].0)
  }

  /** The type of the first pair named `a`. */
  function FirstTypeFor(pairs: seq<(string, SearchType)>, a: string): Option<SearchType>
    decreases |pairs|
  {
    if pairs == [] then None
    else if pairs[0].0 == a then Some(pairs[0].1)
    else FirstTypeFor(pairs[1..], a)
  }

  /** The loop over the primary key: only attributes not typed yet are added. */
  function AddUntyped(m: TypeMap, pairs: seq<(string, SearchType)>): (r: TypeMap)
    requires m.Valid()
    ensures r.Valid()
    decreases |pairs|
  {
    if pairs == [] then m
    else if pairs[0].0 in m.values then AddUntyped(m, pairs[1..])
    else AddUntyped(Put(m, pairs[0].0, pairs[0].1), pairs[1..])
  }

  /** `extractModelMetaData`. */
  function ExtractModelMetaData(model: SourceModel): (r: MetaData)
    ensures r.attributes.Valid()
    ensures |r.rules| >= 1 && r.rules[0] == SafeRule(AppendNew([], model.activeAttributes))
  {
    var seeded := TypeAll(Empty(), model.activeAttributes, String);
    var typed := ApplyValidators(seeded, model.validators);
    MetaData(
      AddUntyped(typed, PrimaryKeyTyping(model.kind)),
      [SafeRule(seeded.keys)] + RulesOf(model.validators))
  }

  // ---------------------------------------------------------------------
  // Reference definitions

  /** The type given to `a` by the last validator that types it. */
  function LastValidatorType(vs: seq<Validator>, a: string): Option<SearchType>
    decreases |vs|
  {
    if vs == [] then None
    else
      var v := vs[|vs| - 1];
      if TypeOf(v).Some? && a in v.attributes then TypeOf(v)
      else LastValidatorType(vs[..|vs| - 1], a)
  }

  /** What the type of an attribute should be after inference: the last
      typing validator wins; otherwise an active attribute is a string;
      otherwise a primary-key attribute gets the type of its column. */
  function InferredType(model: SourceModel, a: string): Option<SearchType>
  {
    match LastValidatorType(model.validators, a)
    case Some(t) => Some(t)
    case None =>
      if a in model.activeAttributes then Some(String)
      else FirstTypeFor(PrimaryKeyTyping(model.kind), a)
  }

  // ---------------------------------------------------------------------
  // Lemmas

  lemma {:induction false} ApplyValidatorsTypes(m: TypeMap, vs: seq<Validator>, a: string)
    requires m.Valid()
    ensures a in ApplyValidators(m, vs).values <==> a in m.values || LastValidatorType(vs, a).Some?
    ensures a in ApplyValidators(m, vs).values ==>
      ApplyValidators(m, vs).values[a] ==
        match LastValidatorType(vs, a) case Some(t) => t case None => m.values[a]
    decreases |vs|
  {
    if vs != [] {
      ApplyValidatorsTypes(m, vs[..|vs| - 1], a);
    }
  }

  lemma {:induction false} ApplyValidatorsKeys(m: TypeMap, vs: seq<Validator>)
    requires m.Valid()
    ensures ApplyValidators(m, vs).keys == AppendNew(m.keys, TypedAttributes(vs))
    decreases |vs|
  {
    if vs != [] {
      var init := vs[..|vs| - 1];
      var v := vs[|vs| - 1];
      ApplyValidatorsKeys(m, init);
      AppendNewConcat(m.keys, TypedAttributes(init), if TypeOf(v).Some? then v.attributes else []);
    }
  }

  lemma {:induction false} AddUntypedTypes(m: TypeMap, pairs: seq<(string, SearchType)>, a: string)
    requires m.Valid()
    ensures a in AddUntyped(m, pairs).values <==> a in m.values || FirstTypeFor(pairs, a).Some?
    ensures a in AddUntyped(m, pairs).values ==>
      AddUntyped(m, pairs).values[a] ==
        if a in m.values then m.values[a] else FirstTypeFor(pairs, a).value
    decreases |pairs|
  {
    if pairs != [] {
      if pairs[0].0 in m.values {
        AddUntypedTypes(m, pairs[1..], a);
      } else {
        AddUntypedTypes(Put(m, pairs[0].0, pairs[0].1), pairs[1..], a);
      }
    }
  }

  lemma {:induction false} AddUntypedKeys(m: TypeMap, pairs: seq<(string, SearchType)>)
    requires m.Valid()
    ensures AddUntyped(m, pairs).keys == AppendNew(m.keys, Names(pairs))
    decreases |pairs|
  {
    if pairs != [] {
      assert Names(pairs)[0] == pairs[0].0;
      assert Names(pairs)[1..] == Names(pairs[1..]);
      if pairs[0].0 in m.values {
        AddUntypedKeys(m, pairs[1..]);
      } else {
        AddUntypedKeys(Put(m, pairs[0].0, pairs[0].1), pairs[1..]);
      }
    }
  }

  /** Every attribute ends up with the type the reference definition gives
      it, and exactly the attributes the reference types are in the map. */
  lemma ExtractModelMetaDataTypes(model: SourceModel, a: string)
    ensures a in ExtractModelMetaData(model).attributes.values <==> InferredType(model, a).Some?
    ensures a in ExtractModelMetaData(model).attributes.values ==>
      ExtractModelMetaData(model).attributes.values[a] == InferredType(model, a).value
  {
    var seeded := TypeAll(Empty(), model.activeAttributes, String);
    var typed := ApplyValidators(seeded, model.validators);
    ApplyValidatorsTypes(seeded, model.validators, a);
    AddUntypedTypes(typed, PrimaryKeyTyping(model.kind), a);
  }

  /** Key order: active attributes first, then the attributes of typing
      validators, then the primary key, each kept at its first occurrence. */
  lemma ExtractModelMetaDataKeys(model: SourceModel)
    ensures ExtractModelMetaData(model).attributes.keys ==
      AppendNew([], model.activeAttributes + TypedAttributes(model.validators) + Names(PrimaryKeyTyping(model.kind)))
  {
    var seeded := TypeAll(Empty(), model.activeAttributes, String);
    var typed := ApplyValidators(seeded, model.validators);
    ApplyValidatorsKeys(seeded, model.validators);
    AddUntypedKeys(typed, PrimaryKeyTyping(model.kind));
    AppendNewConcat([], model.activeAttributes, TypedAttributes(model.validators));
    AppendNewConcat([], model.activeAttributes + TypedAttributes(model.validators), Names(PrimaryKeyTyping(model.kind)));
  }

  /** The active attributes come first in the key order, and the safe rule
      lists exactly them. */
  lemma ActiveAttributesFirst(model: SourceModel)
    ensures var r := ExtractModelMetaData(model);
      var active := AppendNew([], model.activeAttributes);
      |active| <= |r.attributes.keys| && r.attributes.keys[..|active|] == active &&
      r.rules[0] == SafeRule(active) &&
      (forall a :: a in active <==> a in model.activeAttributes)
  {
    var keys := ExtractModelMetaData(model).attributes.keys;
    var active := AppendNew([], model.activeAttributes);
    var rest := TypedAttributes(model.validators) + Names(PrimaryKeyTyping(model.kind));
    assert keys == AppendNew(active, rest) by {
      ExtractModelMetaDataKeys(model);
      assert model.activeAttributes + TypedAttributes(model.validators) + Names(PrimaryKeyTyping(model.kind))
        == model.activeAttributes + rest;
      AppendNewConcat([], model.activeAttributes, rest);
    }
    AppendNewMembers(active, rest);
    AppendNewMembers([], model.activeAttributes);
  }

  /** The rules after the safe rule are those of the validators, in
      validator order, and rule lists of consecutive validator runs concatenate. */
  lemma {:induction false} RulesOfConcat(vs: seq<Validator>, ws: seq<Validator>)
    ensures RulesOf(vs + ws) == RulesOf(vs) + RulesOf(ws)
    decreases |ws|
  {
    if ws == [] {
      assert vs + ws == vs;
    } else {
      assert (vs + ws)[..|vs + ws| - 1] == vs + ws[..|ws| - 1];
      assert (vs + ws)[|vs + ws| - 1] == ws[|ws| - 1];
      RulesOfConcat(vs, ws[..|ws| - 1]);
    }
  }

  /** What one validator contributes, by kind: a number validator becomes a
      `NumberCompareValidator` rule with the same attributes and flag and
      types them integer or float; filter and range validators are copied
      without a type; boolean and string validators are copied and retype;
      each validators retype to array without a rule; any other validator
      contributes nothing. */
  lemma ValidatorContribution(m: TypeMap, vs: seq<Validator>, v: Validator, a: string)
    requires m.Valid()
    ensures RulesOf(vs + [v]) == RulesOf(vs) + match v.kind
      case NumberKind(io) => [NumberCompareRule(v.attributes, io)]
      case FilterKind => [CopiedRule(v)]
      case RangeKind => [CopiedRule(v)]
      case BooleanKind => [CopiedRule(v)]
      case StringKind => [CopiedRule(v)]
      case EachKind => []
      case OtherKind(_) => []
    ensures var after := ApplyValidators(m, vs + [v]);
      var before := ApplyValidators(m, vs);
      (a in v.attributes && TypeOf(v).Some? ==> a in after.values && after.values[a] == match v.kind
        case NumberKind(io) => if io then Integer else Float
        case BooleanKind => Boolean
        case StringKind => String
        case _ => Array) &&
      (!(a in v.attributes && TypeOf(v).Some?) ==>
        (a in after.values <==> a in before.values) &&
        (a in before.values ==> after.values[a] == before.values[a]))
    ensures v.kind.FilterKind? || v.kind.RangeKind? || v.kind.OtherKind? ==>
      ApplyValidators(m, vs + [v]) == ApplyValidators(m, vs)
  {
    assert (vs + [v])[..|vs + [v]| - 1] == vs;
    RulesOfConcat(vs, [v]);
  }
}
