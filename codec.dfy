/** The value codec: decoding a wire `Value` into a native value, and
    encoding a native value into a wire `Value`, either by an explicit kind
    name or by inspecting the value's runtime type. */
module Codec {
  import opened Wrappers
  import opened JsValues
  import opened Emptiness
  import opened Wire

  /** What a decoder hands back to its caller. `Raw` is a payload returned as
      it is; `NumberFrom(d)` is `Number(d)` (the parse is not modelled);
      `DateAt(ms)` is `new Date(ms)`. `undefined` is never `null`. */
  datatype Decoded = Undefined | Raw(value: JsValue) | NumberFrom(digits: string) | DateAt(time: int)

  // ---------------------------------------------------------------------------
  // Decoding. A present message object is never empty for `isEmptyValue`
  // (it has own keys), so the decoders' emptiness checks reduce to "absent".

  function GetDecimalFromValue(w: Value): (r: Decoded)
    ensures r == Undefined <==> w.decimalValue.None?
    ensures r != Undefined ==> r == NumberFrom(w.decimalValue.value.digits)
  {
    if w.decimalValue.None? then Undefined else NumberFrom(w.decimalValue.value.digits)
  }

  function GetDateFromValue(w: Option<Value>): (r: Decoded)
    ensures r == Undefined <==> w.None? || w.value.longValue <= 0
    ensures r != Undefined ==> r == DateAt(w.value.longValue)
  {
    if w.None? || w.value.longValue == 0 then Undefined
    else if w.value.longValue > 0 then DateAt(w.value.longValue)
    else Undefined
  }

  /** `toUpperCase`, for ASCII letters only. */
  function ToUpperCase(s: string): (r: string)
    ensures |r| == |s|
  {
    seq(|s|, k requires 0 <= k < |s| => if 'a' <= s[k] <= 'z' then (s[k] as int - 32) as char else s[k])
  }

  function GetStringFromValue(w: Option<Value>, uppercase: bool): (r: Decoded)
    ensures r == Undefined <==> w.None?
    ensures w.Some? ==> r == Raw(Str(if uppercase then ToUpperCase(w.value.stringValue) else w.value.stringValue))
  {
    if w.None? then Undefined
    else Raw(Str(if uppercase then ToUpperCase(w.value.stringValue) else w.value.stringValue))
  }

  function GetIntegerFromValue(w: Option<Value>): (r: Decoded)
    ensures r == Undefined <==> w.None?
    ensures w.Some? ==> r == Raw(w.value.intValue)
  {
    if w.None? then Undefined else Raw(w.value.intValue)
  }

  /** Unlike every other decoder, an absent value gives `false`, not `undefined`. */
  function GetBooleanFromValue(w: Option<Value>): (r: Decoded)
    ensures r.Raw? && r.value.Bool?
    ensures r.value.flag <==> w.Some? && w.value.booleanValue
  {
    if w.None? then Raw(Bool(false)) else Raw(Bool(w.value.booleanValue))
  }

  /** `convertValueFromGRPC`. */
  function ConvertValueFromGRPC(w: Option<Value>): (r: Decoded)
    // nil, or UNKNOWN whatever the payload
    ensures w.None? || w.value.valueType == UNKNOWN ==> r == Undefined
    // exactly these inputs decode to undefined
    ensures r == Undefined <==>
      w.None? || w.value.valueType == UNKNOWN
      || (w.value.valueType == DECIMAL && w.value.decimalValue.None?)
      || (w.value.valueType == DATE && w.value.longValue <= 0)
    // the payload of the value's own kind, and no other, is what comes back
    ensures w.Some? && w.value.valueType == INTEGER ==> r == Raw(w.value.intValue)
    ensures w.Some? && w.value.valueType == STRING ==> r == Raw(Str(w.value.stringValue))
    ensures w.Some? && w.value.valueType == BOOLEAN ==> r == Raw(Bool(w.value.booleanValue))
    ensures w.Some? && w.value.valueType == DATE && w.value.longValue > 0 ==> r == DateAt(w.value.longValue)
    ensures w.Some? && w.value.valueType == DECIMAL && w.value.decimalValue.Some? ==>
      r == NumberFrom(w.value.decimalValue.value.digits)
  {
    if w.None? || w.value.valueType == UNKNOWN then Undefined
    else
      match w.value.valueType
      case INTEGER => GetIntegerFromValue(w)
      case DECIMAL => GetDecimalFromValue(w.value)
      case BOOLEAN => GetBooleanFromValue(w)
      case STRING => GetStringFromValue(w, false)
      case DATE => GetDateFromValue(w)
  }

  // ---------------------------------------------------------------------------
  // Encoding: the values each `getValueFrom*` builds. The methods below build
  // them step by step; these functions are what the lemmas are about.

  /** The index of the first `c` in `s`, or -1: `indexOf`. */
  function IndexOf(s: string, c: char): (r: int)
    ensures -1 <= r < |s|
    ensures r == -1 <==> c !in s
    ensures r >= 0 ==> s[r] == c && c !in s[..r]
  {
    if s == [] then -1
    else if s[0] == c then 0
    else
      var r := IndexOf(s[1..], c);
      assert r >= 0 ==> s[1..][..r] == s[1..r + 1] && s[..r + 1] == [s[0]] + s[1..r + 1];
      if r == -1 then -1 else r + 1
  }

  /** The text `getValueFromDecimal` stores: an integral number with two
      fraction digits (`toFixed(2)`), anything else as `toString()`. */
  function DecimalText(v: JsValue): string {
    if IsInteger(v) then IntToString(v.n.i) + ".00" else ToJsString(v)
  }

  /** The scale `getValueFromDecimal` derives from a digit string. */
  function ScaleOf(text: string): int {
    var point := IndexOf(text, '.');
    if point == -1 then 0 else |text| - point - 1
  }

  function DecimalValue(v: JsValue): Value {
    var d := if IsEmptyValue(v) then EmptyDecimal else Decimal(DecimalText(v), ScaleOf(DecimalText(v)));
    NewValue(DECIMAL).(decimalValue := Some(d))
  }

  function IntegerValue(v: JsValue): Value {
    if IsEmptyValue(v) then NewValue(INTEGER)
    else if |ToJsString(v)| < 11 then NewValue(INTEGER).(intValue := v)
    else DecimalValue(v)
  }

  function StringValue(v: JsValue): Value {
    if Truthy(v) then NewValue(STRING).(stringValue := ToJsString(v)) else NewValue(STRING)
  }

  /** The flag `getValueFromBoolean` stores: a string is false only when it
      trims to "N"; any other value by its truthiness. */
  predicate BooleanFlag(v: JsValue) {
    if v.Str? then Trim(v.s) != "N" else Truthy(v)
  }

  function BooleanValue(v: JsValue): Value {
    NewValue(BOOLEAN).(booleanValue := BooleanFlag(v))
  }

  function DateValue(v: JsValue): Value {
    if v.Date? then NewValue(DATE).(longValue := v.time) else NewValue(DATE)
  }

  /** The encoder `convertValueToGRPC` picks from the value's runtime type. */
  function InferredValue(v: JsValue): Value {
    match v
    case Undef => StringValue(v)
    case Null => StringValue(v)
    case Num(Integral(_)) => IntegerValue(v)
    case Num(NonIntegral(_)) => DecimalValue(v)
    case Bool(_) => BooleanValue(v)
    case Date(_, _) => DateValue(v)
    case _ => StringValue(v)
  }

  /** The encoder an explicit kind name selects; `None` (`undefined`) for
      UNKNOWN and for a name the enum does not declare. */
  function TypedValue(v: JsValue, name: string): Option<Value> {
    match KindNamed(name)
    case Some(INTEGER) => Some(IntegerValue(v))
    case Some(DECIMAL) => Some(DecimalValue(v))
    case Some(BOOLEAN) => Some(BooleanValue(v))
    case Some(STRING) => Some(StringValue(v))
    case Some(DATE) => Some(DateValue(v))
    case _ => None
  }

  /** A truthy `valueType` (a non-blank name) takes precedence over inference. */
  function ConvertedValue(v: JsValue, valueType: Option<string>): Option<Value> {
    if valueType.Some? && valueType.value != "" then TypedValue(v, valueType.value)
    else Some(InferredValue(v))
  }

  // ---------------------------------------------------------------------------
  // The encoders, statement for statement.

  method GetValueFromInteger(v: JsValue) returns (converted: Value)
    ensures converted == IntegerValue(v)
  {
    converted := NewValue(INTEGER);
    if !IsEmptyValue(v) {
      if |ToJsString(v)| < 11 {
        converted := converted.(intValue := v);
      } else {
        converted := GetValueFromDecimal(v);
      }
    }
  }

  method GetValueFromString(v: JsValue) returns (converted: Value)
    ensures converted == StringValue(v)
  {
    converted := NewValue(STRING);
    if Truthy(v) {
      converted := converted.(stringValue := ToJsString(v));
    }
  }

  method GetValueFromBoolean(v: JsValue) returns (converted: Value)
    ensures converted == BooleanValue(v)
  {
    converted := NewValue(BOOLEAN);
    var value := v;
    if value.Str? {
      if Trim(value.s) == "N" {
        value := Bool(false);
      } else {
        value := Bool(true);
      }
    }
    converted := converted.(booleanValue := Truthy(value));
  }

  method GetValueFromDate(v: JsValue) returns (converted: Value)
    ensures converted == DateValue(v)
  {
    converted := NewValue(DATE);
    if v.Date? {
      converted := converted.(longValue := v.time);
    }
    converted := converted.(valueType := DATE);
  }

  method GetValueFromDecimal(v: JsValue) returns (converted: Value)
    ensures converted == DecimalValue(v)
  {
    converted := NewValue(DECIMAL);
    var decimal := EmptyDecimal;
    var empty := IsEmptyValue(v);
    if !empty {
      var text := if IsInteger(v) then IntToString(v.n.i) + ".00" else ToJsString(v);
      assert text == DecimalText(v);
      decimal := decimal.(digits := text);
      var scale := IndexOf(text, '.');
      if scale == -1 {
        scale := 0;
      } else {
        scale := |text| - scale - 1;
      }
      assert scale == ScaleOf(text);
      decimal := decimal.(scale := scale);
    }
    converted := converted.(decimalValue := Some(decimal));
  }

  method ConvertValueToGRPCWithValueType(v: JsValue, valueType: string) returns (converted: Option<Value>)
    ensures converted == TypedValue(v, valueType)
  {
    match KindNamed(valueType)
    case Some(INTEGER) =>
      var c := GetValueFromInteger(v);
      converted := Some(c);
    case Some(DECIMAL) =>
      var c := GetValueFromDecimal(v);
      converted := Some(c);
    case Some(BOOLEAN) =>
      var c := GetValueFromBoolean(v);
      converted := Some(c);
    case Some(STRING) =>
      var c := GetValueFromString(v);
      converted := Some(c);
    case Some(DATE) =>
      var c := GetValueFromDate(v);
      converted := Some(c);
    case _ =>
      converted := None;
  }

  method ConvertValueToGRPC(v: JsValue, valueType: Option<string>) returns (converted: Option<Value>)
    ensures converted == ConvertedValue(v, valueType)
  {
    if valueType.Some? && valueType.value != "" {
      converted := ConvertValueToGRPCWithValueType(v, valueType.value);
      return;
    }
    var c: Value;
    if v.Undef? || v.Null? {
      c := GetValueFromString(v);
    } else if v.Num? {
      if IsInteger(v) {
        c := GetValueFromInteger(v);
      } else {
        c := GetValueFromDecimal(v);
      }
    } else if v.Bool? {
      c := GetValueFromBoolean(v);
    } else if v.Date? {
      c := GetValueFromDate(v);
    } else {
      c := GetValueFromString(v);
    }
    converted := Some(c);
  }
}
