/** How `ActiveSearchModel::search` turns a validated attribute into a
    filter call on the query, and the default operator table. The query
    itself is not modelled: each call made on it is recorded in a log, so
    that order, count and choice of the calls can be stated exactly. */
module FilterDispatch {
  import opened Wrappers
  import opened OrderedMaps
  import opened TypeInference

  /** A bound attribute value: PHP null, a string, or an array of strings. */
  datatype Value = Null | Str(s: string) | List(items: seq<string>)

  /** An entry of the operator table: a scalar operator token such as
      `like`, or a PHP callable, identified by name. */
  datatype Strategy = Operator(token: string) | Callback(name: string)

  /** `[type => operator]`. */
  type OperatorTable = map<SearchType, Strategy>

  /** One call made on the query. */
  datatype Call =
    | Where(condition: string)                                   // `where($condition)`
    | FilterWhere(operator: string, attribute: string, value: Value) // `andFilterWhere([op, attr, value])`
    | FilterCompare(attribute: string, value: Value)             // `andFilterCompare(attr, value)`
    | FilterEquals(attribute: string, value: Value)              // `andFilterWhere([attr => value])`
    | Custom(callback: string, attribute: string, value: Value)  // `call_user_func(callable, query, attr, value)`
    | AfterCreateQuery                                            // the `afterCreateQuery` event

  predicate IsFilter(c: Call)
  {
    c.FilterWhere? || c.FilterCompare? || c.FilterEquals? || c.Custom?
  }

  /** The condition that makes the query match no rows. */
  const FalseCondition: string := "0=1"

  /** `defaultFilterOperators`: arrays use `in`, strings use `like`, or
      `ilike` for an active record on a PostgreSQL connection. `source` is
      the resolved source model, `None` when no model is set. */
  function DefaultFilterOperators(source: Option<SourceModel>): (r: OperatorTable)
    ensures r.Keys == {Array, String}
    ensures r[Array] == Operator("in")
    ensures r[String] == Operator("ilike") <==>
      source.Some? && source.value.kind.DbRecord? && source.value.kind.driverName == "pgsql"
    ensures r[String] == Operator("like") || r[String] == Operator("ilike")
  {
    var stringOperator :=
      if source.Some? && source.value.kind.DbRecord? && source.value.kind.driverName == "pgsql"
      then "ilike" else "like";
    map[Array := Operator("in"), String := Operator(stringOperator)]
  }

  /** The three-way choice for one attribute of type `t` holding `value`. */
  function FilterCall(attribute: string, t: SearchType, value: Value, ops: OperatorTable, hasCompare: bool): Call
  {
    if t in ops then
      match ops[t]
      case Operator(token) => FilterWhere(token, attribute, value)
      case Callback(name) => Custom(name, attribute, value)
    else if (t == Integer || t == Float) && hasCompare then FilterCompare(attribute, value)
    else FilterEquals(attribute, value)
  }

  /** `__get` for a declared attribute: its bound value, or null when unset. */
  function ValueOf(bound: map<string, Value>, attribute: string): Value
  {
    if attribute in bound then bound[attribute] else Null
  }

  /** The filter calls for the attributes of `types` in map order. */
  function FilterCalls(types: TypeMap, ops: OperatorTable, bound: map<string, Value>, hasCompare: bool): seq<Call>
    requires types.Valid()
  {
    seq(|types.keys|, i requires 0 <= i < |types.keys| =>
      FilterCall(types.keys[i], types.values[types.keys[i]], ValueOf(bound, types.keys[i]), ops, hasCompare))
  }

  /** The calls `search` makes on its query after validation: `where('0=1')`
      alone on failure; on success the hook, then the filter calls. */
  function SearchCalls(valid: bool, types: TypeMap, ops: OperatorTable, bound: map<string, Value>, hasCompare: bool): seq<Call>
    requires types.Valid()
  {
    if valid then [AfterCreateQuery] + FilterCalls(types, ops, bound, hasCompare)
    else [Where(FalseCondition)]
  }

  /** The attribute a filter call is about. */
  function Target(c: Call): Option<string>
  {
    match c
    case FilterWhere(_, a, _) => Some(a)
    case FilterCompare(a, _) => Some(a)
    case FilterEquals(a, _) => Some(a)
    case Custom(_, a, _) => Some(a)
    case _ => None
  }

  // ---------------------------------------------------------------------
  // Lemmas

  /** Fail-closed: after a failed validation the only call is `where('0=1')`:
      no hook and no filter. A restatement of the `false` branch of
      `SearchCalls`, kept as the table entry it is; it needs no proof. */
  lemma FailedValidationMatchesNothing(types: TypeMap, ops: OperatorTable, bound: map<string, Value>, hasCompare: bool)
    requires types.Valid()
    ensures SearchCalls(false, types, ops, bound, hasCompare) == [Where(FalseCondition)]
    ensures forall c :: c in SearchCalls(false, types, ops, bound, hasCompare) ==> !IsFilter(c) && c != AfterCreateQuery
  {
  }

  /** After a successful validation the hook fires exactly once, first, and
      then each attribute gets exactly one filter call, in type-map order,
      carrying the attribute's bound value (null when unset). */
  lemma SuccessfulSearchCalls(types: TypeMap, ops: OperatorTable, bound: map<string, Value>, hasCompare: bool)
    requires types.Valid()
    ensures var calls := SearchCalls(true, types, ops, bound, hasCompare);
      |calls| == 1 + |types.keys| &&
      calls[0] == AfterCreateQuery &&
      (forall i :: 1 <= i < |calls| ==> IsFilter(calls[i]) && Target(calls[i]) == Some(types.keys[i - 1])) &&
      (forall i :: 1 <= i < |calls| ==> calls[i].value == ValueOf(bound, types.keys[i - 1]))
  {
  }

  /** No attribute is filtered twice, and every attribute of the type map is
      filtered. */
  lemma OneFilterPerAttribute(types: TypeMap, ops: OperatorTable, bound: map<string, Value>, hasCompare: bool)
    requires types.Valid()
    ensures var calls := SearchCalls(true, types, ops, bound, hasCompare);
      (forall i, j :: 1 <= i < j < |calls| ==> Target(calls[i]) != Target(calls[j])) &&
      (forall a :: a in types.values ==> exists i :: 1 <= i < |calls| && Target(calls[i]) == Some(a))
  {
    var calls := SearchCalls(true, types, ops, bound, hasCompare);
    SuccessfulSearchCalls(types, ops, bound, hasCompare);
    forall a | a in types.values
      ensures exists i :: 1 <= i < |calls| && Target(calls[i]) == Some(a)
    {
      var k :| 0 <= k < |types.keys| && types.keys[k] == a;
      assert Target(calls[k + 1]) == Some(a);
    }
  }

  /** The choice for one attribute: a table entry for its type wins (a token
      gives `[op, attr, value]`, a callable is called); otherwise integers
      and floats are compared when the query offers `andFilterCompare`;
      otherwise the value is matched by equality. A restatement of
      `FilterCall` per position of `FilterCalls`, kept as the dispatch table
      it is; it needs no proof. */
  lemma FilterChoice(types: TypeMap, ops: OperatorTable, bound: map<string, Value>, hasCompare: bool, i: nat)
    requires types.Valid() && i < |types.keys|
    ensures var a := types.keys[i];
      var t := types.values[a];
      var v := ValueOf(bound, a);
      var c := FilterCalls(types, ops, bound, hasCompare)[i];
      (t in ops && ops[t].Operator? ==> c == FilterWhere(ops[t].token, a, v)) &&
      (t in ops && ops[t].Callback? ==> c == Custom(ops[t].name, a, v)) &&
      (c.FilterCompare? <==> t !in ops && (t == Integer || t == Float) && hasCompare) &&
      (c.FilterEquals? <==> t !in ops && !((t == Integer || t == Float) && hasCompare))
  {
  }

  /** With the default table: strings are matched with `like` (`ilike` on
      PostgreSQL), arrays with `in`, integers and floats are compared when
      the query can, and booleans are matched by equality. */
  lemma DefaultTableDispatch(a: string, t: SearchType, v: Value, source: Option<SourceModel>, hasCompare: bool)
    ensures var c := FilterCall(a, t, v, DefaultFilterOperators(source), hasCompare);
      (t == String ==> c == FilterWhere("like", a, v) || c == FilterWhere("ilike", a, v)) &&
      (t == Array ==> c == FilterWhere("in", a, v)) &&
      ((t == Integer || t == Float) ==> c == if hasCompare then FilterCompare(a, v) else FilterEquals(a, v)) &&
      (t == Boolean ==> c == FilterEquals(a, v))
  {
  }

  /** A callable registered for a type replaces the default dispatch for
      every attribute of that type and for no other attribute. */
  lemma CallbackOverrides(a: string, t: SearchType, u: SearchType, v: Value, ops: OperatorTable, name: string, hasCompare: bool)
    ensures FilterCall(a, t, v, ops[t := Callback(name)], hasCompare) == Custom(name, a, v)
    ensures u != t ==> FilterCall(a, u, v, ops[t := Callback(name)], hasCompare) == FilterCall(a, u, v, ops, hasCompare)
  {
  }
}
