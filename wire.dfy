/** The protobuf messages of the remote service that the core reads and
    writes. Each datatype or field holds what the message's generated getter
    returns; a field that an unconstrained caller may leave unset (by passing
    `undefined` to the setter) is an `Option`, and its getter then reads the
    proto3 default. Repeated fields are sequences and `add*` calls append. */
module Wire {
  import opened Wrappers
  import opened JsValues

  /** `Value.ValueType`, by name; the numeric codes of the generated enum are
      not needed by the codec. */
  datatype Kind = INTEGER | DECIMAL | BOOLEAN | STRING | DATE | UNKNOWN

  /** The kind a `ValueType[name]` lookup selects; `None` for a name the enum
      does not declare. */
  function KindNamed(name: string): (k: Option<Kind>)
    ensures k.Some? ==> KindName(k.value) == name
    ensures k.None? ==> forall kind: Kind :: KindName(kind) != name
  {
    match name
    case "INTEGER" => Some(INTEGER)
    case "DECIMAL" => Some(DECIMAL)
    case "BOOLEAN" => Some(BOOLEAN)
    case "STRING" => Some(STRING)
    case "DATE" => Some(DATE)
    case "UNKNOWN" => Some(UNKNOWN)
    case _ => None
  }

  function KindName(k: Kind): string {
    match k
    case INTEGER => "INTEGER"
    case DECIMAL => "DECIMAL"
    case BOOLEAN => "BOOLEAN"
    case STRING => "STRING"
    case DATE => "DATE"
    case UNKNOWN => "UNKNOWN"
  }

  /** `Decimal`: the rendered digits and the scale derived from them. */
  datatype Decimal = Decimal(digits: string, scale: int)

  /** `new Decimal()`. */
  const EmptyDecimal := Decimal("", 0)

  /** `Value`. `intValue` holds whatever the encoder handed to `setIntvalue`,
      which is not always a number. `decimalValue` is a nested message and so
      may be missing. */
  datatype Value = Value(
    valueType: Kind,
    intValue: JsValue,
    longValue: int,
    booleanValue: bool,
    stringValue: string,
    decimalValue: Option<Decimal>)

  /** `new Value()` followed by `setValuetype(kind)`. */
  function NewValue(kind: Kind): Value {
    Value(kind, Num(Integral(0)), 0, false, "", None)
  }

  /** `KeyValue`: a named parameter. The value is missing when the encoder
      returned `undefined`. */
  datatype KeyValue = KeyValue(key: Option<string>, value: Option<Value>)

  /** `OrderByProperty` as received. */
  datatype OrderByProperty = OrderByProperty(columnName: string, orderType: int)

  /** The fields of a `Condition` message. */
  datatype ConditionFields = ConditionFields(
    columnName: Option<string>,
    operator: Option<int>,
    value: Option<Value>,
    valueTo: Option<Value>,
    values: seq<Value>)

  /** `Condition`. */
  class Condition {
    var columnName: Option<string>
    var operator: Option<int>
    var value: Option<Value>
    var valueTo: Option<Value>
    var values: seq<Value>

    constructor ()
      ensures Fields() == ConditionFields(None, None, None, None, [])
    {
      columnName, operator, value, valueTo, values := None, None, None, None, [];
    }

    function Fields(): ConditionFields
      reads this
    {
      ConditionFields(columnName, operator, value, valueTo, values)
    }

    /** `addValues`. */
    method AddValues(v: Value)
      modifies this
      ensures Fields() == old(Fields()).(values := old(values) + [v])
    {
      values := values + [v];
    }
  }

  /** `Criteria`. */
  class Criteria {
    var tableName: Option<string>
    var query: Option<string>
    var whereClause: Option<string>
    var orderByClause: Option<string>
    var referenceUuid: Option<string>
    var limit: Option<int>
    var conditions: seq<ConditionFields>
    var values: seq<Value>
    var orderByColumns: seq<OrderByProperty>

    constructor ()
      ensures tableName == query == whereClause == orderByClause == referenceUuid == None
      ensures limit == None && conditions == [] && values == [] && orderByColumns == []
    {
      tableName, query, whereClause, orderByClause, referenceUuid := None, None, None, None, None;
      limit, conditions, values, orderByColumns := None, [], [], [];
    }

    /** `addValues`. */
    method AddValues(v: Value)
      modifies this
      ensures values == old(values) + [v]
      ensures conditions == old(conditions) && orderByColumns == old(orderByColumns)
      ensures tableName == old(tableName) && query == old(query) && whereClause == old(whereClause)
      ensures orderByClause == old(orderByClause) && referenceUuid == old(referenceUuid)
      ensures limit == old(limit)
    {
      values := values + [v];
    }

    /** `addConditions`: the condition is recorded by its fields at the
        time it is added. */
    method AddConditions(c: Condition)
      modifies this
      ensures conditions == old(conditions) + [c.Fields()]
      ensures values == old(values) && orderByColumns == old(orderByColumns)
      ensures tableName == old(tableName) && query == old(query) && whereClause == old(whereClause)
      ensures orderByClause == old(orderByClause) && referenceUuid == old(referenceUuid)
      ensures limit == old(limit)
    {
      conditions := conditions + [c.Fields()];
    }
  }

  /** `KeyValueSelection`. */
  class KeyValueSelection {
    var selectionId: Option<int>
    var values: seq<KeyValue>

    constructor ()
      ensures selectionId == None && values == []
    {
      selectionId, values := None, [];
    }

    /** `addValues`. */
    method AddValues(kv: KeyValue)
      modifies this
      ensures values == old(values) + [kv] && selectionId == old(selectionId)
    {
      values := values + [kv];
    }
  }
}
