/** The message builders: request parameters, selections, conditions and
    criteria assembled from plain values, and criteria, order-by columns and
    value maps read back into plain values. */
module Builders {
  import opened Wrappers
  import opened JsValues
  import opened Wire
  import opened Codec
  import opened Enums

  // ---------------------------------------------------------------------------
  // Plain inputs. A field the caller may leave out is an `Option`.

  /** One `{ columnName, value }` entry of a selection. */
  datatype SelectionItem = SelectionItem(columnName: Option<string>, value: JsValue)

  /** The `{ columnName, value, valueTo, values, operator }` argument of
      `convertConditionToGRPC`. `operator` is `None` when it is `undefined` or
      `null`; `values` is `[]` when left out. */
  datatype ConditionParams = ConditionParams(
    columnName: Option<string>,
    value: JsValue,
    valueTo: JsValue,
    values: seq<JsValue>,
    operator: Option<string>)

  /** The argument of `convertCriteriaToGRPC`. */
  datatype CriteriaParams = CriteriaParams(
    tableName: Option<string>,
    query: Option<string>,
    whereClause: Option<string>,
    referenceUuid: Option<string>,
    conditionsList: seq<ConditionParams>,
    orderByClause: Option<string>,
    valuesList: seq<JsValue>,
    orderByColumnList: seq<JsValue>,
    limit: Option<int>)

  // ---------------------------------------------------------------------------
  // What the builders produce.

  /** The values `convertValueToGRPC({ value })` gives for each element, in
      order. */
  function InferAll(vs: seq<JsValue>): seq<Value>
  {
    if vs == [] then [] else InferAll(vs[..|vs| - 1]) + [InferredValue(vs[|vs| - 1])]
  }

  /** Element `k` of the built list is the value inferred for element `k`. */
  lemma {:induction false} InferAllPointwise(vs: seq<JsValue>)
    ensures |InferAll(vs)| == |vs|
    ensures forall k :: 0 <= k < |vs| ==> InferAll(vs)[k] == InferredValue(vs[k])
  {
    if vs != [] {
      InferAllPointwise(vs[..|vs| - 1]);
    }
  }

  /** The key-values `convertSelectionToGRPC` adds, one per item, in order. */
  function SelectionOf(items: seq<SelectionItem>): (r: seq<KeyValue>)
    ensures |r| == |items|
    ensures forall k :: 0 <= k < |items| ==>
      r[k].key == items[k].columnName && r[k].value == Some(InferredValue(items[k].value))
  {
    if items == [] then []
    else
      var last := items[|items| - 1];
      SelectionOf(items[..|items| - 1]) + [KeyValue(last.columnName, ConvertedValue(last.value, None))]
  }

  /** `value !== undefined && value !== null`. */
  predicate Defined(v: JsValue) {
    !v.Undef? && !v.Null?
  }

  /** The operator a condition carries: a truthy (non-empty) name is looked up
      in the generated `Operator` table, anything else stands for EQUAL. A name
      the table lacks leaves the field unset. */
  function OperatorOf(operator: Option<string>, operators: EnumTable): Option<int> {
    if operator.Some? && operator.value != "" then CodeOf(operators, operator.value)
    else CodeOf(operators, "EQUAL")
  }

  /** The fields of the `Condition` that `convertConditionToGRPC` builds. */
  function ConditionOf(p: ConditionParams, operators: EnumTable): ConditionFields {
    ConditionFields(
      p.columnName,
      OperatorOf(p.operator, operators),
      if Defined(p.value) then Some(InferredValue(p.value)) else None,
      if Defined(p.valueTo) then Some(InferredValue(p.valueTo)) else None,
      InferAll(p.values))
  }

  // ---------------------------------------------------------------------------
  // The builders.

  /** `convertParameterToGRPC`: the column name as key, the encoded value
      (missing when an explicit kind is UNKNOWN or undeclared). */
  method ConvertParameterToGRPC(columnName: Option<string>, v: JsValue, valueType: Option<string>)
    returns (keyValue: KeyValue)
    ensures keyValue.key == columnName
    ensures keyValue.value == ConvertedValue(v, valueType)
  {
    keyValue := KeyValue(None, None);
    keyValue := keyValue.(key := columnName);
    var converted := ConvertValueToGRPC(v, valueType);
    keyValue := keyValue.(value := converted);
  }

  /** `convertSelectionToGRPC`: the selection id, and one inferred key-value
      per item in order. The selection UUID is accepted and ignored. */
  method ConvertSelectionToGRPC(selectionId: Option<int>, selectionUuid: Option<string>, selectionValues: seq<SelectionItem>)
    returns (selection: KeyValueSelection)
    ensures fresh(selection)
    ensures selection.selectionId == selectionId
    ensures selection.values == SelectionOf(selectionValues)
  {
    selection := new KeyValueSelection();
    selection.selectionId := selectionId;
    var i := 0;
    while i < |selectionValues|
      invariant 0 <= i <= |selectionValues|
      invariant selection.selectionId == selectionId
      invariant selection.values == SelectionOf(selectionValues[..i])
    {
      var item := selectionValues[i];
      var converted := ConvertParameterToGRPC(item.columnName, item.value, None);
      selection.AddValues(converted);
      assert selectionValues[..i + 1][..i] == selectionValues[..i];
      i := i + 1;
    }
    assert selectionValues[..i] == selectionValues;
  }

  /** `convertConditionToGRPC`, given the generated `Condition.Operator`
      table. */
  method ConvertConditionToGRPC(p: ConditionParams, operators: EnumTable) returns (condition: Condition)
    ensures fresh(condition)
    ensures condition.Fields() == ConditionOf(p, operators)
  {
    condition := new Condition();
    condition.columnName := p.columnName;
    condition.operator := CodeOf(operators, "EQUAL");
    if p.operator.Some? && p.operator.value != "" {
      condition.operator := CodeOf(operators, p.operator.value);
    }
    if Defined(p.value) {
      var converted := ConvertValueToGRPC(p.value, None);
      condition.value := converted;
    }
    if Defined(p.valueTo) {
      var converted := ConvertValueToGRPC(p.valueTo, None);
      condition.valueTo := converted;
    }
    var i := 0;
    while i < |p.values|
      invariant 0 <= i <= |p.values|
      invariant condition.Fields() == ConditionOf(p, operators).(values := InferAll(p.values[..i]))
    {
      var converted := ConvertValueToGRPC(p.values[i], None);
      assert p.values[..i + 1][..i] == p.values[..i];
      assert InferAll(p.values[..i + 1]) == InferAll(p.values[..i]) + [converted.value];
      condition.AddValues(converted.value);
      i := i + 1;
    }
    assert p.values[..i] == p.values;
  }

  /** The text fields of a criteria as given. */
  ghost predicate TextsFrom(criteria: Criteria, p: CriteriaParams)
    reads criteria
  {
    && criteria.tableName == p.tableName
    && criteria.query == p.query
    && criteria.whereClause == p.whereClause
    && criteria.referenceUuid == p.referenceUuid
  }

  /** The conditions `convertCriteriaToGRPC` adds, one per entry, in order. */
  function ConditionsOf(ps: seq<ConditionParams>, operators: EnumTable): seq<ConditionFields>
  {
    if ps == [] then [] else ConditionsOf(ps[..|ps| - 1], operators) + [ConditionOf(ps[|ps| - 1], operators)]
  }

  /** Condition `k` of the built list is the one built from entry `k`. */
  lemma {:induction false} ConditionsOfPointwise(ps: seq<ConditionParams>, operators: EnumTable)
    ensures |ConditionsOf(ps, operators)| == |ps|
    ensures forall k :: 0 <= k < |ps| ==> ConditionsOf(ps, operators)[k] == ConditionOf(ps[k], operators)
  {
    if ps != [] {
      ConditionsOfPointwise(ps[..|ps| - 1], operators);
    }
  }

  /** The state `convertCriteriaToGRPC` leaves a criteria in: the text fields
      and the limit as given, the values inferred in order, one built
      condition per entry in order, and no order-by columns. */
  ghost predicate BuiltFrom(criteria: Criteria, p: CriteriaParams, operators: EnumTable)
    reads criteria
  {
    && TextsFrom(criteria, p)
    && criteria.orderByClause == p.orderByClause
    && criteria.limit == p.limit
    && criteria.values == InferAll(p.valuesList)
    && criteria.conditions == ConditionsOf(p.conditionsList, operators)
    && criteria.orderByColumns == []
  }

  /** The `valuesList.forEach` of `convertCriteriaToGRPC`: each value is
      inferred and added in order; nothing else changes. */
  method AddCriteriaValues(criteria: Criteria, valuesList: seq<JsValue>)
    modifies criteria
    ensures criteria.values == old(criteria.values) + InferAll(valuesList)
    ensures criteria.conditions == old(criteria.conditions) && criteria.orderByColumns == old(criteria.orderByColumns)
    ensures criteria.tableName == old(criteria.tableName) && criteria.query == old(criteria.query)
    ensures criteria.whereClause == old(criteria.whereClause) && criteria.referenceUuid == old(criteria.referenceUuid)
    ensures criteria.orderByClause == old(criteria.orderByClause) && criteria.limit == old(criteria.limit)
  {
    var i := 0;
    while i < |valuesList|
      invariant 0 <= i <= |valuesList|
      invariant criteria.values == old(criteria.values) + InferAll(valuesList[..i])
      invariant criteria.conditions == old(criteria.conditions) && criteria.orderByColumns == old(criteria.orderByColumns)
      invariant criteria.tableName == old(criteria.tableName) && criteria.query == old(criteria.query)
      invariant criteria.whereClause == old(criteria.whereClause) && criteria.referenceUuid == old(criteria.referenceUuid)
      invariant criteria.orderByClause == old(criteria.orderByClause) && criteria.limit == old(criteria.limit)
    {
      var converted := ConvertValueToGRPC(valuesList[i], None);
      assert valuesList[..i + 1][..i] == valuesList[..i];
      assert InferAll(valuesList[..i + 1]) == InferAll(valuesList[..i]) + [converted.value];
      criteria.AddValues(converted.value);
      i := i + 1;
    }
    assert valuesList[..i] == valuesList;
  }

  /** The `conditionsList.forEach` of `convertCriteriaToGRPC`: each entry is
      built into a condition and added in order; nothing else changes. */
  method AddCriteriaConditions(criteria: Criteria, conditionsList: seq<ConditionParams>, operators: EnumTable)
    modifies criteria
    ensures criteria.conditions == old(criteria.conditions) + ConditionsOf(conditionsList, operators)
    ensures criteria.values == old(criteria.values) && criteria.orderByColumns == old(criteria.orderByColumns)
    ensures criteria.tableName == old(criteria.tableName) && criteria.query == old(criteria.query)
    ensures criteria.whereClause == old(criteria.whereClause) && criteria.referenceUuid == old(criteria.referenceUuid)
    ensures criteria.orderByClause == old(criteria.orderByClause) && criteria.limit == old(criteria.limit)
  {
    var i := 0;
    while i < |conditionsList|
      invariant 0 <= i <= |conditionsList|
      invariant criteria.conditions == old(criteria.conditions) + ConditionsOf(conditionsList[..i], operators)
      invariant criteria.values == old(criteria.values) && criteria.orderByColumns == old(criteria.orderByColumns)
      invariant criteria.tableName == old(criteria.tableName) && criteria.query == old(criteria.query)
      invariant criteria.whereClause == old(criteria.whereClause) && criteria.referenceUuid == old(criteria.referenceUuid)
      invariant criteria.orderByClause == old(criteria.orderByClause) && criteria.limit == old(criteria.limit)
    {
      var condition := ConvertConditionToGRPC(conditionsList[i], operators);
      assert conditionsList[..i + 1][..i] == conditionsList[..i];
      assert ConditionsOf(conditionsList[..i + 1], operators) == ConditionsOf(conditionsList[..i], operators) + [condition.Fields()];
      criteria.AddConditions(condition);
      i := i + 1;
    }
    assert conditionsList[..i] == conditionsList;
  }

  /** `convertCriteriaToGRPC`, given the generated `Condition.Operator`
      table. The order-by column list is accepted and not sent. */
  method ConvertCriteriaToGRPC(p: CriteriaParams, operators: EnumTable) returns (criteria: Criteria)
    ensures fresh(criteria)
    ensures BuiltFrom(criteria, p, operators)
  {
    criteria := new Criteria();
    criteria.tableName := p.tableName;
    criteria.query := p.query;
    criteria.whereClause := p.whereClause;
    criteria.referenceUuid := p.referenceUuid;
    AddCriteriaValues(criteria, p.valuesList);
    AddCriteriaConditions(criteria, p.conditionsList, operators);
    criteria.orderByClause := p.orderByClause;
    criteria.limit := p.limit;
  }

  // ---------------------------------------------------------------------------
  // Reading messages back into plain values. `None` stands for `undefined`.

  /** The plain object `convertOrderByPropertyFromGRPC` returns. */
  datatype NativeOrderBy = NativeOrderBy(columnName: Option<string>, orderType: Option<int>, orderTypeName: Option<string>)

  /** `convertOrderByPropertyFromGRPC`: the column, the code and the code's
      name in `OrderByProperty.OrderType`; all `undefined` without a message. */
  function ConvertOrderByPropertyFromGRPC(o: Option<OrderByProperty>): (r: NativeOrderBy)
    ensures o.None? ==> r == NativeOrderBy(None, None, None)
    ensures o.Some? ==> r.columnName == Some(o.value.columnName) && r.orderType == Some(o.value.orderType)
    ensures o.Some? ==> r.orderTypeName == NameOf(OrderTypes, Num(Integral(o.value.orderType)))
  {
    if o.None? then NativeOrderBy(None, None, None)
    else
      var reflected := GetOrderType(None, Num(Integral(o.value.orderType)));
      NativeOrderBy(Some(o.value.columnName), Some(o.value.orderType), reflected.name)
  }

  /** The decoded values of a repeated `Value` field, in order. */
  function DecodeAll(ws: seq<Value>): (r: seq<Decoded>)
    ensures |r| == |ws|
    ensures forall k :: 0 <= k < |ws| ==> r[k] == ConvertValueFromGRPC(Some(ws[k]))
  {
    if ws == [] then [] else DecodeAll(ws[..|ws| - 1]) + [ConvertValueFromGRPC(Some(ws[|ws| - 1]))]
  }

  /** The converted order-by columns, in order. */
  function OrderByAll(os: seq<OrderByProperty>): (r: seq<NativeOrderBy>)
    ensures |r| == |os|
    ensures forall k :: 0 <= k < |os| ==> r[k] == ConvertOrderByPropertyFromGRPC(Some(os[k]))
  {
    if os == [] then [] else OrderByAll(os[..|os| - 1]) + [ConvertOrderByPropertyFromGRPC(Some(os[|os| - 1]))]
  }

  /** The plain object `convertCriteriaFromGRPC` returns. The conditions are
      the message's own conditions, not converted. */
  datatype NativeCriteria = NativeCriteria(
    tableName: Option<string>,
    query: Option<string>,
    whereClause: Option<string>,
    orderByClause: Option<string>,
    referenceUuid: Option<string>,
    conditionsList: Option<seq<ConditionFields>>,
    valuesList: Option<seq<Decoded>>,
    orderByColumnList: Option<seq<NativeOrderBy>>,
    limit: Option<int>)

  const UndefinedCriteria := NativeCriteria(None, None, None, None, None, None, None, None, None)

  /** `convertCriteriaFromGRPC`: each getter's value (an unset text reads as
      "" and an unset limit as 0), the values decoded and the order-by columns
      converted; every field `undefined` without a message. */
  function ConvertCriteriaFromGRPC(criteria: Criteria?): (r: NativeCriteria)
    reads criteria
    ensures criteria == null <==> r == UndefinedCriteria
    ensures criteria != null ==>
      && r.tableName == Some(criteria.tableName.GetOr(""))
      && r.query == Some(criteria.query.GetOr(""))
      && r.whereClause == Some(criteria.whereClause.GetOr(""))
      && r.orderByClause == Some(criteria.orderByClause.GetOr(""))
      && r.referenceUuid == Some(criteria.referenceUuid.GetOr(""))
      && r.limit == Some(criteria.limit.GetOr(0))
      && r.conditionsList == Some(criteria.conditions)
    ensures criteria != null ==>
      && r.valuesList.Some? && |r.valuesList.value| == |criteria.values|
      && (forall k :: 0 <= k < |criteria.values| ==>
            r.valuesList.value[k] == ConvertValueFromGRPC(Some(criteria.values[k])))
    ensures criteria != null ==>
      && r.orderByColumnList.Some? && |r.orderByColumnList.value| == |criteria.orderByColumns|
      && (forall k :: 0 <= k < |criteria.orderByColumns| ==>
            r.orderByColumnList.value[k] == ConvertOrderByPropertyFromGRPC(Some(criteria.orderByColumns[k])))
  {
    if criteria == null then UndefinedCriteria
    else
      NativeCriteria(
        Some(criteria.tableName.GetOr("")),
        Some(criteria.query.GetOr("")),
        Some(criteria.whereClause.GetOr("")),
        Some(criteria.orderByClause.GetOr("")),
        Some(criteria.referenceUuid.GetOr("")),
        Some(criteria.conditions),
        Some(DecodeAll(criteria.values)),
        Some(OrderByAll(criteria.orderByColumns)),
        Some(criteria.limit.GetOr(0)))
  }

  // ---------------------------------------------------------------------------
  // Value maps.

  /** A property of an `array`-form item: the key under `keyName`, the decoded
      value under `value`. */
  datatype ItemField = KeyField(key: string) | ValueField(value: Decoded)

  /** The three forms `convertValuesMapFromGRPC` returns: a plain object, an
      array of `{ [keyName]: key, value }` items, or a `Map` (its entries in
      insertion order). */
  datatype ValuesMap =
    | AsObject(fields: map<string, Decoded>)
    | AsArray(items: seq<map<string, ItemField>>)
    | AsMap(entries: seq<(string, Decoded)>)

  /** Assigning every entry as an object property: a later key overwrites. */
  function ObjectOf(entries: seq<(string, Value)>): map<string, Decoded> {
    if entries == [] then map[]
    else
      var last := entries[|entries| - 1];
      ObjectOf(entries[..|entries| - 1])[last.0 := ConvertValueFromGRPC(Some(last.1))]
  }

  /** One `array`-form item; with `keyName` "value" the decoded value
      overwrites the key. */
  function ItemOf(keyName: string, entry: (string, Value)): map<string, ItemField> {
    map[keyName := KeyField(entry.0)]["value" := ValueField(ConvertValueFromGRPC(Some(entry.1)))]
  }

  function ItemsOf(entries: seq<(string, Value)>, keyName: string): (r: seq<map<string, ItemField>>)
    ensures |r| == |entries|
    ensures forall k :: 0 <= k < |entries| ==> r[k] == ItemOf(keyName, entries[k])
  {
    if entries == [] then [] else ItemsOf(entries[..|entries| - 1], keyName) + [ItemOf(keyName, entries[|entries| - 1])]
  }

  /** `Map.prototype.set`: an existing key keeps its place and takes the new
      value; a new key goes last. */
  function MapSet(m: seq<(string, Decoded)>, key: string, d: Decoded): seq<(string, Decoded)> {
    if m == [] then [(key, d)]
    else if m[0].0 == key then [(key, d)] + m[1..]
    else [m[0]] + MapSet(m[1..], key, d)
  }

  function MapOf(entries: seq<(string, Value)>): seq<(string, Decoded)> {
    if entries == [] then []
    else
      var last := entries[|entries| - 1];
      MapSet(MapOf(entries[..|entries| - 1]), last.0, ConvertValueFromGRPC(Some(last.1)))
  }

  /** The form a `returnType` selects: "object", "array", and otherwise (the
      default "map" included) a `Map`; `keyName` defaults to "key". */
  function ValuesMapOf(entries: seq<(string, Value)>, returnType: Option<string>, keyName: Option<string>): ValuesMap {
    match returnType.GetOr("map")
    case "object" => AsObject(ObjectOf(entries))
    case "array" => AsArray(ItemsOf(entries, keyName.GetOr("key")))
    case _ => AsMap(MapOf(entries))
  }

  /** `convertValuesMapFromGRPC` over the map's entries in iteration order. */
  method ConvertValuesMapFromGRPC(mapToConvert: seq<(string, Value)>, returnType: Option<string>, keyName: Option<string>)
    returns (returnValues: ValuesMap)
    ensures returnValues == ValuesMapOf(mapToConvert, returnType, keyName)
  {
    var kind := returnType.GetOr("map");
    var name := keyName.GetOr("key");
    var i := 0;
    if kind == "object" {
      var fields: map<string, Decoded> := map[];
      while i < |mapToConvert|
        invariant 0 <= i <= |mapToConvert|
        invariant fields == ObjectOf(mapToConvert[..i])
      {
        var (key, value) := mapToConvert[i];
        fields := fields[key := ConvertValueFromGRPC(Some(value))];
        assert mapToConvert[..i + 1][..i] == mapToConvert[..i];
        i := i + 1;
      }
      assert mapToConvert[..i] == mapToConvert;
      returnValues := AsObject(fields);
    } else if kind == "array" {
      var items: seq<map<string, ItemField>> := [];
      while i < |mapToConvert|
        invariant 0 <= i <= |mapToConvert|
        invariant items == ItemsOf(mapToConvert[..i], name)
      {
        var (key, value) := mapToConvert[i];
        var item: map<string, ItemField> := map[];
        item := item[name := KeyField(key)];
        item := item["value" := ValueField(ConvertValueFromGRPC(Some(value)))];
        items := items + [item];
        assert mapToConvert[..i + 1][..i] == mapToConvert[..i];
        i := i + 1;
      }
      assert mapToConvert[..i] == mapToConvert;
      returnValues := AsArray(items);
    } else {
      var entries: seq<(string, Decoded)> := [];
      while i < |mapToConvert|
        invariant 0 <= i <= |mapToConvert|
        invariant entries == MapOf(mapToConvert[..i])
      {
        var (key, value) := mapToConvert[i];
        entries := MapSet(entries, key, ConvertValueFromGRPC(Some(value)));
        assert mapToConvert[..i + 1][..i] == mapToConvert[..i];
        i := i + 1;
      }
      assert mapToConvert[..i] == mapToConvert;
      returnValues := AsMap(entries);
    }
  }
}
