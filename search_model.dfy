/** The search model object (`ActiveSearchModel`): its lazily computed,
    memoized configuration fields, its sparse attribute store, and
    `search`, which drives the query. The query is a `Query` object whose
    state is the log of calls made on it. */
module SearchModel {
  import opened Wrappers
  import opened OrderedMaps
  import opened TypeInference
  import opened FilterDispatch

  /** What `_model` holds: nothing, a definition the DI container resolves
      (an array, a class name or a closure; `produces` is the model it
      produces, `None` when it produces no `Model`), a model instance, or
      an object that is not a `Model` at all. */
  datatype ModelSource =
    | NoModel
    | Definition(produces: Option<SourceModel>)
    | Instance(model: SourceModel)
    | Foreign

  /** `InvalidConfigException` for the model, the exception the parent
      accessors throw for a name that is not a search attribute, and the
      one a call of a method the model lacks throws. */
  datatype SearchError = InvalidModel | UnknownProperty(name: string) | UnknownMethod(methodName: string)

  /** What the framework's `validate()` does with the bound attributes:
      whether they pass the rules, and the attribute store afterwards
      (filter rules may rewrite values through `__set`). */
  datatype Validation = Validation(valid: bool, attributes: map<string, Value>)

  /** The model `getModel` obtains from a source, if any. */
  function Resolve(source: ModelSource): Option<SourceModel>
  {
    match source
    case NoModel => None
    case Definition(produces) => produces
    case Instance(model) => Some(model)
    case Foreign => None
  }

  /** The check `setModel` makes, as written: an object must be an
      `ActiveRecordInterface` (or a closure, which is a `Definition` here). */
  function SetModelAcceptsAsWritten(source: ModelSource): bool
  {
    !source.Foreign? && !(source.Instance? && source.model.kind.PlainModel?)
  }

  /** The check `setModel` is meant to make: an object must be a `Model`
      (or a closure). */
  function SetModelAccepts(source: ModelSource): bool
  {
    !source.Foreign?
  }

  /** A plain model instance is refused by the setter as written, although
      the same model is accepted as a definition and `getModel` uses it. */
  lemma SetModelRefusesPlainInstance()
    ensures var m := SourceModel("app\\models\\ContactForm", ["email"], [], PlainModel);
      !SetModelAcceptsAsWritten(Instance(m)) &&
      SetModelAcceptsAsWritten(Definition(Some(m))) &&
      Resolve(Instance(m)) == Some(m)
  {
  }

  /** Corrected: the setter accepts exactly model instances and
      definitions, so every source `getModel` can resolve; it accepts
      whatever the written check accepts, and the two differ exactly on
      plain model instances. */
  lemma SetModelAcceptsResolvable(source: ModelSource)
    ensures SetModelAccepts(source) <==> source.NoModel? || source.Definition? || source.Instance?
    ensures Resolve(source).Some? ==> SetModelAccepts(source)
    ensures SetModelAcceptsAsWritten(source) ==> SetModelAccepts(source)
    ensures SetModelAccepts(source) && !SetModelAcceptsAsWritten(source) <==>
      source.Instance? && source.model.kind.PlainModel?
  {
  }

  /** `StringHelper::basename` on a class name: the part after the last
      namespace separator. */
  function ShortName(className: string): (r: string)
    ensures |r| <= |className| && r == className[|className| - |r|..]
    ensures '\\' !in r
    ensures |r| == |className| || className[|className| - |r| - 1] == '\\'
    decreases |className|
  {
    if className == [] then []
    else if className[|className| - 1] == '\\' then []
    else
      var prefix := className[..|className| - 1];
      var r := ShortName(prefix) + [className[|className| - 1]];
      assert prefix[|prefix| - (|r| - 1)..] + [className[|className| - 1]] == className[|className| - |r|..];
      r
  }

  /** The attribute store after binding `params`: every parameter whose name
      is a declared attribute is assigned, every other parameter is ignored,
      and every attribute without a parameter keeps its value. */
  function Bind(bound: map<string, Value>, params: map<string, Value>, types: TypeMap): (r: map<string, Value>)
    ensures forall a :: a in params && a in types.values ==> a in r && r[a] == params[a]
    ensures forall a :: !(a in params && a in types.values) ==>
      (a in r <==> a in bound) && (a in bound ==> r[a] == bound[a])
  {
    bound + map a | a in params && a in types.values :: params[a]
  }

  /** The query of the data provider: only the calls made on it are kept. */
  class Query {
    /** Whether the query class has an `andFilterCompare` method. */
    const hasCompare: bool
    var log: seq<Call>

    constructor (hasCompare: bool)
      ensures this.hasCompare == hasCompare && log == []
    {
      this.hasCompare := hasCompare;
      log := [];
    }

    method Where(condition: string)
      modifies this
      ensures log == old(log) + [Call.Where(condition)]
    {
      log := log + [Call.Where(condition)];
    }

    method AndFilterWhere(operator: string, attribute: string, value: Value)
      modifies this
      ensures log == old(log) + [FilterWhere(operator, attribute, value)]
    {
      log := log + [FilterWhere(operator, attribute, value)];
    }

    method AndFilterEquals(attribute: string, value: Value)
      modifies this
      ensures log == old(log) + [FilterEquals(attribute, value)]
    {
      log := log + [FilterEquals(attribute, value)];
    }

    method AndFilterCompare(attribute: string, value: Value)
      requires hasCompare
      modifies this
      ensures log == old(log) + [FilterCompare(attribute, value)]
    {
      log := log + [FilterCompare(attribute, value)];
    }

    /** `call_user_func($callable, $query, $attribute, $value)`. */
    method Invoke(callback: string, attribute: string, value: Value)
      modifies this
      ensures log == old(log) + [Custom(callback, attribute, value)]
    {
      log := log + [Custom(callback, attribute, value)];
    }

    /** The `afterCreateQuery` event carrying this query. */
    method AfterCreateQuery()
      modifies this
      ensures log == old(log) + [Call.AfterCreateQuery]
    {
      log := log + [Call.AfterCreateQuery];
    }
  }

  class ActiveSearchModel {
    var source: ModelSource
    var searchAttributeTypes: Option<TypeMap>
    var rules: Option<seq<Rule>>
    var formName: Option<string>
    var filterOperators: Option<OperatorTable>
    /** `_attributes`: only the attributes that were assigned. */
    var attributes: map<string, Value>

    ghost predicate Valid()
      reads this
    {
      searchAttributeTypes.Some? ==> searchAttributeTypes.value.Valid()
    }

    constructor ()
      ensures Valid()
      ensures source == NoModel && searchAttributeTypes == None && rules == None
      ensures formName == None && filterOperators == None && attributes == map[]
    {
      source := NoModel;
      searchAttributeTypes := None;
      rules := None;
      formName := None;
      filterOperators := None;
      attributes := map[];
    }

    function HasModel(): bool
      reads this
    {
      !source.NoModel?
    }

    /** What `getSearchAttributeTypes` returns in this state: the map that
        was set, otherwise the one inferred from the model; `None` where it
        throws because no model resolves. */
    function EffectiveTypes(): Option<TypeMap>
      reads this
    {
      if searchAttributeTypes.Some? then searchAttributeTypes
      else match Resolve(source)
        case Some(m) => Some(ExtractModelMetaData(m).attributes)
        case None => None
    }

    /** What `getRules` returns in this state. */
    function EffectiveRules(): Option<seq<Rule>>
      reads this
    {
      if rules.Some? then rules
      else match Resolve(source)
        case Some(m) => Some(ExtractModelMetaData(m).rules)
        case None => None
    }

    /** What `getFilterOperators` returns in this state: the table that was
        set, otherwise the default table (for no model, or for the resolved
        one); `None` where it throws. */
    function EffectiveOperators(): Option<OperatorTable>
      reads this
    {
      if filterOperators.Some? then filterOperators
      else if source.NoModel? then Some(DefaultFilterOperators(None))
      else match Resolve(source)
        case Some(m) => Some(DefaultFilterOperators(Some(m)))
        case None => None
    }

    /** What `getFormName` returns in this state: the name that was set,
        otherwise `Search` after the model's short class name, or alone
        without a model; `None` where it throws. */
    function EffectiveFormName(): Option<string>
      reads this
    {
      if formName.Some? then formName
      else if source.NoModel? then Some("Search")
      else match Resolve(source)
        case Some(m) => Some(ShortName(m.className) + "Search")
        case None => None
    }

    /** The lazily computed configuration after a call, against before it:
        the model resolves to the same model, a type map or rule list that
        was set is kept, one that was unset is still unset or filled with
        what its getter computes, so what the getters return is unchanged. */
    twostate predicate Memoized()
      reads this
    {
      Resolve(source) == Resolve(old(source)) &&
      (old(searchAttributeTypes).Some? ==> searchAttributeTypes == old(searchAttributeTypes)) &&
      (old(rules).Some? ==> rules == old(rules)) &&
      EffectiveTypes() == old(EffectiveTypes()) &&
      EffectiveRules() == old(EffectiveRules())
    }

    /** `getModel`: resolves a definition once and keeps the instance. */
    method GetModel() returns (r: Result<SourceModel, SearchError>)
      modifies this`source
      ensures Resolve(old(source)).Some? ==>
        r == Ok(Resolve(old(source)).value) && source == Instance(r.value)
      ensures Resolve(old(source)).None? ==> r == Err(InvalidModel) && source == old(source)
    {
      match source
      case Instance(m) =>
        r := Ok(m);
      case Definition(produces) =>
        if produces.Some? {
          source := Instance(produces.value);
          r := Ok(produces.value);
        } else {
          r := Err(InvalidModel);
        }
      case NoModel =>
        r := Err(InvalidModel);
      case Foreign =>
        r := Err(InvalidModel);
    }

    /** `setModel`, with the check it is meant to make (see `SetModelAccepts`). */
    method SetModel(s: ModelSource) returns (r: Result<(), SearchError>)
      modifies this`source
      ensures SetModelAccepts(s) ==> r.Ok? && source == s
      ensures !SetModelAccepts(s) ==> r == Err(InvalidModel) && source == old(source)
    {
      if SetModelAccepts(s) {
        source := s;
        r := Ok(());
      } else {
        r := Err(InvalidModel);
      }
    }

    /** `populateFromModel`: fills only the fields that are still unset. */
    method PopulateFromModel(model: SourceModel)
      requires Valid()
      modifies this`searchAttributeTypes, this`rules
      ensures Valid()
      ensures searchAttributeTypes ==
        if old(searchAttributeTypes).None? then Some(ExtractModelMetaData(model).attributes)
        else old(searchAttributeTypes)
      ensures rules ==
        if old(rules).None? then Some(ExtractModelMetaData(model).rules) else old(rules)
    {
      var meta := ExtractModelMetaData(model);
      if searchAttributeTypes.None? {
        searchAttributeTypes := Some(meta.attributes);
      }
      if rules.None? {
        rules := Some(meta.rules);
      }
    }

    /** `getSearchAttributeTypes`: an explicitly set map is returned as it
        is; otherwise inference runs once, and also fills the rules if they
        are unset. */
    method GetSearchAttributeTypes() returns (r: Result<TypeMap, SearchError>)
      requires Valid()
      modifies this`source, this`searchAttributeTypes, this`rules
      ensures Valid()
      ensures r.Ok? ==> r.value.Valid() && searchAttributeTypes == Some(r.value)
      ensures Resolve(source) == Resolve(old(source))
      ensures old(searchAttributeTypes).Some? ==>
        r == Ok(old(searchAttributeTypes).value) && source == old(source) && rules == old(rules)
      ensures old(searchAttributeTypes).None? && Resolve(old(source)).None? ==>
        r == Err(InvalidModel) && searchAttributeTypes == None && rules == old(rules) && source == old(source)
      ensures old(searchAttributeTypes).None? && Resolve(old(source)).Some? ==>
        var meta := ExtractModelMetaData(Resolve(old(source)).value);
        r == Ok(meta.attributes) && source == Instance(Resolve(old(source)).value) &&
        rules == if old(rules).None? then Some(meta.rules) else old(rules)
    {
      if searchAttributeTypes.None? {
        var model := GetModel();
        if model.Err? {
          return Err(model.error);
        }
        PopulateFromModel(model.value);
      }
      r := Ok(searchAttributeTypes.value);
    }

    method SetSearchAttributeTypes(types: TypeMap)
      requires types.Valid()
      modifies this`searchAttributeTypes
      ensures Valid() && searchAttributeTypes == Some(types)
    {
      searchAttributeTypes := Some(types);
    }

    /** `getRules`: an explicitly set list is returned as it is; otherwise
        inference runs once, and also fills the types if they are unset. */
    method GetRules() returns (r: Result<seq<Rule>, SearchError>)
      requires Valid()
      modifies this`source, this`searchAttributeTypes, this`rules
      ensures Valid()
      ensures r.Ok? ==> rules == Some(r.value)
      ensures old(rules).Some? ==>
        r == Ok(old(rules).value) && source == old(source) &&
        searchAttributeTypes == old(searchAttributeTypes)
      ensures old(rules).None? && Resolve(old(source)).None? ==>
        r == Err(InvalidModel) && rules == None &&
        searchAttributeTypes == old(searchAttributeTypes) && source == old(source)
      ensures old(rules).None? && Resolve(old(source)).Some? ==>
        var meta := ExtractModelMetaData(Resolve(old(source)).value);
        r == Ok(meta.rules) && source == Instance(Resolve(old(source)).value) &&
        searchAttributeTypes ==
          if old(searchAttributeTypes).None? then Some(meta.attributes) else old(searchAttributeTypes)
    {
      if rules.None? {
        var model := GetModel();
        if model.Err? {
          return Err(model.error);
        }
        PopulateFromModel(model.value);
      }
      r := Ok(rules.value);
    }

    method SetRules(newRules: seq<Rule>)
      modifies this`rules
      ensures rules == Some(newRules)
    {
      rules := Some(newRules);
    }

    /** `getFormName`: the short class name of the model followed by
        `Search`, or `Search` alone without a model; computed once. */
    method GetFormName() returns (r: Result<string, SearchError>)
      modifies this`source, this`formName
      ensures r.Ok? ==> formName == Some(r.value)
      ensures old(formName).Some? ==> r == Ok(old(formName).value) && source == old(source)
      ensures old(formName).None? && old(source).NoModel? ==>
        r == Ok("Search") && source == old(source)
      ensures old(formName).None? && !old(source).NoModel? && Resolve(old(source)).None? ==>
        r == Err(InvalidModel) && formName == None && source == old(source)
      ensures old(formName).None? && Resolve(old(source)).Some? ==>
        r == Ok(ShortName(Resolve(old(source)).value.className) + "Search") &&
        source == Instance(Resolve(old(source)).value)
      ensures r.Ok? <==> old(EffectiveFormName()).Some?
      ensures r.Ok? ==> r.value == old(EffectiveFormName()).value
    {
      ghost var expected := EffectiveFormName();
      if formName.None? {
        if HasModel() {
          var model := GetModel();
          if model.Err? {
            assert expected.None?;
            return Err(model.error);
          }
          formName := Some(ShortName(model.value.className) + "Search");
        } else {
          formName := Some("Search");
        }
      }
      assert formName == expected;
      r := Ok(formName.value);
    }

    method SetFormName(name: string)
      modifies this`formName
      ensures formName == Some(name)
    {
      formName := Some(name);
    }

    /** `getFilterOperators`: the default table, computed once, unless a
        table was set. */
    method GetFilterOperators() returns (r: Result<OperatorTable, SearchError>)
      modifies this`source, this`filterOperators
      ensures r.Ok? ==> filterOperators == Some(r.value)
      ensures old(filterOperators).Some? ==> r == Ok(old(filterOperators).value) && source == old(source)
      ensures old(filterOperators).None? && old(source).NoModel? ==>
        r == Ok(DefaultFilterOperators(None)) && source == old(source)
      ensures old(filterOperators).None? && !old(source).NoModel? && Resolve(old(source)).None? ==>
        r == Err(InvalidModel) && filterOperators == None && source == old(source)
      ensures old(filterOperators).None? && Resolve(old(source)).Some? ==>
        r == Ok(DefaultFilterOperators(Resolve(old(source))))
      ensures Resolve(source) == Resolve(old(source))
    {
      if filterOperators.None? {
        var model: Option<SourceModel> := None;
        if HasModel() {
          var resolved := GetModel();
          if resolved.Err? {
            return Err(resolved.error);
          }
          model := Some(resolved.value);
        }
        filterOperators := Some(DefaultFilterOperators(model));
      }
      r := Ok(filterOperators.value);
    }

    method SetFilterOperators(ops: OperatorTable)
      modifies this`filterOperators
      ensures filterOperators == Some(ops)
    {
      filterOperators := Some(ops);
    }

    /** `__get`: an assigned non-null value; null for a declared attribute;
        an error for any other name. */
    method Get(name: string) returns (r: Result<Value, SearchError>)
      requires Valid()
      modifies this`source, this`searchAttributeTypes, this`rules
      ensures Valid() && Memoized()
      ensures attributes == old(attributes)
      ensures old(searchAttributeTypes).Some? ==> rules == old(rules) && source == old(source)
      ensures r.Ok? <==> ((name in attributes && attributes[name] != Null) ||
                          (old(EffectiveTypes()).Some? && name in old(EffectiveTypes()).value.values))
      ensures r.Ok? ==> r.value == ValueOf(attributes, name)
      ensures r.Err? ==> r.error == if old(EffectiveTypes()).None? then InvalidModel else UnknownProperty(name)
    {
      if name in attributes && attributes[name] != Null {
        return Ok(attributes[name]);
      }
      var types := GetSearchAttributeTypes();
      if types.Err? {
        return Err(types.error);
      }
      if name in types.value.values {
        r := Ok(Null);
      } else {
        r := Err(UnknownProperty(name));
      }
    }

    /** `__set`: only a declared attribute can be assigned. */
    method Set(name: string, value: Value) returns (r: Result<(), SearchError>)
      requires Valid()
      modifies this`source, this`searchAttributeTypes, this`rules, this`attributes
      ensures Valid() && Memoized()
      ensures old(searchAttributeTypes).Some? ==> rules == old(rules) && source == old(source)
      ensures r.Ok? <==> old(EffectiveTypes()).Some? && name in old(EffectiveTypes()).value.values
      ensures r.Err? ==> r.error == if old(EffectiveTypes()).None? then InvalidModel else UnknownProperty(name)
      ensures r.Ok? ==> attributes == old(attributes)[name := value]
      ensures r.Err? ==> attributes == old(attributes)
    {
      var types := GetSearchAttributeTypes();
      if types.Err? {
        return Err(types.error);
      }
      if name in types.value.values {
        attributes := attributes[name := value];
        r := Ok(());
      } else {
        r := Err(UnknownProperty(name));
      }
    }

    /** `__unset`: only a declared attribute can be unset. */
    method Unset(name: string) returns (r: Result<(), SearchError>)
      requires Valid()
      modifies this`source, this`searchAttributeTypes, this`rules, this`attributes
      ensures Valid() && Memoized()
      ensures old(searchAttributeTypes).Some? ==> rules == old(rules) && source == old(source)
      ensures r.Ok? <==> old(EffectiveTypes()).Some? && name in old(EffectiveTypes()).value.values
      ensures r.Err? ==> r.error == if old(EffectiveTypes()).None? then InvalidModel else UnknownProperty(name)
      ensures r.Ok? ==> attributes == old(attributes) - {name}
      ensures r.Err? ==> attributes == old(attributes)
    {
      var types := GetSearchAttributeTypes();
      if types.Err? {
        return Err(types.error);
      }
      if name in types.value.values {
        attributes := attributes - {name};
        r := Ok(());
      } else {
        r := Err(UnknownProperty(name));
      }
    }

    /** `load`: the framework's `load` asks for `formName()`, reaches
        `rules()` through the safe-attribute lookup, and assigns each safe
        parameter through `__set`, which consults the type map. Each of the
        three getters memoizes what it computes. The parameters are those
        already taken from under the form name; names that are not declared
        attributes are ignored. */
    method Load(params: map<string, Value>) returns (r: Result<(), SearchError>)
      requires Valid()
      modifies this`source, this`searchAttributeTypes, this`rules, this`formName, this`attributes
      ensures Valid() && Memoized()
      ensures formName == old(formName) || formName == old(EffectiveFormName())
      ensures r.Ok? <==> (old(EffectiveFormName()).Some? && old(EffectiveRules()).Some? &&
                          old(EffectiveTypes()).Some?)
      ensures r.Ok? ==> (formName == old(EffectiveFormName()) && rules == old(EffectiveRules()) &&
                         searchAttributeTypes == old(EffectiveTypes()) &&
                         attributes == Bind(old(attributes), params, old(EffectiveTypes()).value))
      ensures r.Err? ==> r.error == InvalidModel && attributes == old(attributes)
    {
      var name := GetFormName();
      if name.Err? {
        return Err(name.error);
      }
      var ruleList := GetRules();
      if ruleList.Err? {
        return Err(ruleList.error);
      }
      var types := GetSearchAttributeTypes();
      if types.Err? {
        return Err(types.error);
      }
      attributes := Bind(attributes, params, types.value);
      r := Ok(());
    }

    /** The `foreach` of `search`: one filter call per attribute, in
        type-map order, chosen by the operator table. */
    method ApplyFilters(query: Query, types: TypeMap, ops: OperatorTable, bound: map<string, Value>)
      requires types.Valid()
      modifies query
      ensures query.log == old(query.log) + FilterCalls(types, ops, bound, query.hasCompare)
    {
      var i := 0;
      while i < |types.keys|
        invariant 0 <= i <= |types.keys|
        invariant query.log == old(query.log) + FilterCalls(types, ops, bound, query.hasCompare)[..i]
      {
        var attribute := types.keys[i];
        var t := types.values[attribute];
        var value := ValueOf(bound, attribute);
        if t in ops {
          match ops[t]
          case Operator(token) => query.AndFilterWhere(token, attribute, value);
          case Callback(name) => query.Invoke(name, attribute, value);
        } else if (t == Integer || t == Float) && query.hasCompare {
          query.AndFilterCompare(attribute, value);
        } else {
          query.AndFilterEquals(attribute, value);
        }
        assert FilterCalls(types, ops, bound, query.hasCompare)[..i + 1] ==
          FilterCalls(types, ops, bound, query.hasCompare)[..i] +
          [FilterCall(attribute, t, value, ops, query.hasCompare)];
        i := i + 1;
      }
      assert FilterCalls(types, ops, bound, query.hasCompare)[..i] == FilterCalls(types, ops, bound, query.hasCompare);
    }

    /** `validate`: runs the rules, which may rewrite attribute values (as
        filter validators do), and reports whether all of them passed. */
    method Validate(validate: map<string, Value> -> Validation) returns (valid: bool)
      modifies this`attributes
      ensures valid == validate(old(attributes)).valid
      ensures attributes == validate(old(attributes)).attributes
    {
      var v := validate(attributes);
      attributes := v.attributes;
      valid := v.valid;
    }

    /** The part of `search` after a successful validation: fires the hook,
        then makes one filter call per attribute, with the operator table
        `getFilterOperators` returns. */
    method FilterQuery(query: Query)
      requires Valid() && searchAttributeTypes.Some? && Resolve(source).Some?
      modifies this`source, this`filterOperators, query
      ensures Valid()
      ensures Resolve(source) == Resolve(old(source))
      ensures filterOperators == old(EffectiveOperators())
      ensures query.log == old(query.log) +
        SearchCalls(true, searchAttributeTypes.value, old(EffectiveOperators()).value, attributes, query.hasCompare)
    {
      ghost var table := EffectiveOperators();
      query.AfterCreateQuery();
      var ops := GetFilterOperators();
      assert ops == Ok(table.value);
      // `getSearchAttributeTypes()` returns the map already computed.
      ApplyFilters(query, searchAttributeTypes.value, ops.value, attributes);
    }

    /** `search`: obtains the model's query (a plain `Model` has no `find`)
        and fills it with `FillQuery`: a validation failure makes it match
        nothing, otherwise it gets one filter per attribute. `validate`
        stands for the framework's rule-driven validation of the bound
        attributes. */
    method Search(params: map<string, Value>, validate: map<string, Value> -> Validation, hasCompare: bool)
      returns (r: Result<Query, SearchError>)
      requires Valid()
      modifies this
      ensures Valid() && Memoized()
      ensures filterOperators == old(filterOperators) || filterOperators == old(EffectiveOperators())
      ensures r.Err? <==> Resolve(old(source)).None? || Resolve(old(source)).value.kind.PlainModel?
      ensures r.Err? ==> (attributes == old(attributes) && formName == old(formName) && rules == old(rules) &&
                          r.error == if Resolve(old(source)).None? then InvalidModel else UnknownMethod("find"))
      ensures r.Ok? ==> fresh(r.value) && r.value.hasCompare == hasCompare
      ensures r.Ok? ==> (formName == old(EffectiveFormName()) && rules == old(EffectiveRules()) &&
                         searchAttributeTypes == old(EffectiveTypes()))
      ensures r.Ok? ==>
        var v := validate(Bind(old(attributes), params, old(EffectiveTypes()).value));
        attributes == v.attributes &&
        r.value.log == SearchCalls(v.valid, old(EffectiveTypes()).value, old(EffectiveOperators()).value, v.attributes, hasCompare)
    {
      var model := GetModel();
      if model.Err? {
        return Err(model.error);
      }
      if model.value.kind.PlainModel? {
        return Err(UnknownMethod("find"));
      }
      var query := new Query(hasCompare);
      FillQuery(query, params, validate);
      r := Ok(query);
    }

    /** The body of `search` once the model's query exists: binds and
        validates the parameters, then either makes the query match nothing
        or goes on with `FilterQuery`. */
    method FillQuery(query: Query, params: map<string, Value>, validate: map<string, Value> -> Validation)
      requires Valid() && Resolve(source).Some? && query.log == []
      modifies this, query
      ensures Valid() && Memoized()
      ensures formName == old(EffectiveFormName()) && rules == old(EffectiveRules()) &&
        searchAttributeTypes == old(EffectiveTypes())
      ensures filterOperators == old(filterOperators) || filterOperators == old(EffectiveOperators())
      ensures var v := validate(Bind(old(attributes), params, old(EffectiveTypes()).value));
        attributes == v.attributes &&
        query.log == SearchCalls(v.valid, old(EffectiveTypes()).value, old(EffectiveOperators()).value, v.attributes, query.hasCompare)
    {
      var loaded := Load(params);
      var valid := Validate(validate);
      if !valid {
        query.Where(FalseCondition);
      } else {
        FilterQuery(query);
      }
    }
  }
}
