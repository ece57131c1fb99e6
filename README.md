# convertUtils core in Dafny

A model of the conversion core of `src/convertUtils.js`, the layer between the
ADempiere gRPC service's wire messages and plain JavaScript values:

- **Emptiness** (`emptiness.dfy`): `isEmptyValue`, the priority-ordered test
  that every encoder and decoder uses to decide whether a value is "absent". It
  is written over a model of JavaScript values (`js_values.dfy`: `undefined`,
  `null`, numbers, BigInts, strings, booleans, Dates, arrays, plain objects,
  Maps, Sets, functions), together with what `String()`, `trim()` and
  truthiness do on them.
- **Wire messages** (`wire.dfy`): `Value` (kind plus payloads), `Decimal`,
  `KeyValue` and `OrderByProperty` are datatypes. `Condition`, `Criteria` and
  `KeyValueSelection`, which the builders fill through setters and `add*`
  calls, are classes with `seq` fields.
- **Value codec** (`codec.dfy`): the decoders `convertValueFromGRPC` and
  `get*FromValue`; the encoders `getValueFrom*`, `convertValueToGRPC` and
  `convertValueToGRPCWithValueType`. Each encoder is a method that builds its
  `Value` statement by statement, proved equal to a specification function
  (`IntegerValue`, `DecimalValue`, ...). `codec_properties.dfy` proves what
  those functions promise: the integer width escape, the string-derived decimal
  scale, the "N" rule for booleans, date positivity, kind dispatch against
  runtime-type inference, and what decoding an encoded value gives back.
- **Enum reflector** (`enums.dfy`): an enum is its entries in declared order,
  `seq<(string, int)>`. `Reflect` is the three-mode `{ key, value }` lookup of
  `getOrderType`, `getRollbackEntityRequestEventType`,
  `getWorkflowConditionConditionType` and `getWorkflowConditionOperation`.
  `ReflectByCode` is the code-to-name `find` of `getValueTypes`,
  `getConditionOperators`, `getRecordLogEventType` and the chat and workflow
  `get*Type`/`Status`/`Priority`/`Action` helpers. Each of those helpers is a
  one-line function (`Enums.GetOrderType`, `Enums.GetWorkflowNodeAction`, ...)
  over its table. A key of `None` and a value of `Undef` stand for
  `undefined`; `null` is a value like any other, as the `!== undefined` tests
  have it. The tables the source lists in its comments are constants,
  and each is proved to reflect every name to its code and back.
- **Builders** (`builders.dfy`, properties in `builder_properties.dfy`):
  `convertParameterToGRPC`, `convertSelectionToGRPC`, `convertConditionToGRPC`
  and `convertCriteriaToGRPC` build messages in loops that append in input
  order. `convertValuesMapFromGRPC` fills an object, an array or a `Map` in a
  loop. `convertCriteriaFromGRPC` and `convertOrderByPropertyFromGRPC` read
  messages back into plain values.

Assumptions the model makes explicit:

- An unset message field is `None`. Its generated getter reads the proto3
  default ("" for text, 0 for numbers, false for booleans). `None` in a plain
  result stands for `undefined`.
- A wire message that is present is never empty for `isEmptyValue`, so for
  messages that test means "the argument is missing".
- `setIntvalue` is modelled as storing whatever it is given, because
  `getValueFromInteger` under an explicit INTEGER kind passes non-numbers
  through. So `Value.intValue` is a JavaScript value.
- A non-integral number is given by its rendered text (`NonIntegral(text)`),
  not as a float. A decoded decimal is `NumberFrom(digits)`: the text that
  `Number(...)` would parse, with the parse itself left abstract.
- A Date is its millisecond count and its rendered text. A function is its
  source text.
- The `ValueType`, `Condition.Operator` and `RecordLog.EventType` tables are
  generated code whose entries the source does not list. Value kinds are a
  datatype looked up by name (`Wire.KindNamed`). The condition and criteria
  builders, `getConditionOperators`, `getValueTypes` and
  `getRecordLogEventType` take their table as a parameter.
- The entries of a gRPC map are given in the order its `forEach` visits them.

Where the module's design notes and the code disagree, the model follows the
code:

- **Wide integers.** An integer goes to the decimal encoder when its `String()`
  has 11 or more characters, the minus sign included. So -1000000000 is wide,
  and 9999999999 is not. The decimal encoder renders an integer with
  `toFixed(2)`, so a wide integer arrives as DECIMAL with scale 2, not 0
  (`CodecProperties.IntegerEncoding`).
- **Emptiness of containers.** The comment on `isEmptyValue` says it checks
  arrays and objects deeply and that `[{0:false},"",0]` is empty. The code only
  looks at sizes, so that array is not empty. But `[-1]` is empty, because it
  renders as "-1" (`Emptiness.ShallowArrayExamples`).
- **BigInts.** A BigInt matches none of the type tests, so every BigInt is
  empty (`Emptiness.BigIntAlwaysEmpty`).
- **Imperfect round trips.** Encoding -1 as an integer and decoding it gives 0.
  Encoding `undefined` or `null` gives back "". An empty input through the
  decimal encoder still carries a `Decimal` message and decodes to `Number("")`,
  not `undefined` (`CodecProperties.DecodeAfterInfer`,
  `CodecProperties.DecimalRoundTrip`).

## Model

| member | source | states |
|---|---|---|
| Emptiness.IsEmptyValue | src/convertUtils.js:24-42 | the source's checks in their order: nil or the "-1" sentinel is empty; a number, boolean, Date or function is empty only as the sentinel; a Map or Set by its size; a BigInt always; characterised further by the Emptiness lemmas below |
| Emptiness.NilAndSentinelEmpty | src/convertUtils.js:24-28 | `undefined`, `null` and anything whose `String()` trims to "-1" are empty |
| Emptiness.StringEmptiness | src/convertUtils.js:27-30 | a string is empty exactly when it trims to "" or to "-1" |
| Emptiness.IntegerEmptiness | src/convertUtils.js:27-32 | among integral numbers exactly -1 is empty; 0 is not |
| Emptiness.BigIntAlwaysEmpty | src/convertUtils.js:24-41 | every BigInt falls through to the final `return true` |
| Emptiness.ScalarsNeverEmpty | src/convertUtils.js:31-32 | fractions, booleans (false too), Dates and functions are never empty |
| Emptiness.KeyedContainerEmptiness | src/convertUtils.js:33-38 | a Map or Set is empty iff its size is 0, a plain object iff it has no own keys |
| Emptiness.ArrayEmptiness | src/convertUtils.js:35-36 | an array is empty iff it has no elements or renders as "-1"; elements are not inspected |
| Emptiness.EmptinessExamples | src/convertUtils.js:20 | `[]`, `{}` and an empty Map are empty; `{0:1}` and false are not |
| Emptiness.MinusOneExamples | src/convertUtils.js:27-32 | "-1" and -1 are empty; 0 and "0" are not |
| Emptiness.PaddedStringExamples | src/convertUtils.js:27-30 | "  " and " -1 " are empty, because the test trims |
| Emptiness.ShallowArrayExamples | src/convertUtils.js:20-36 | `[{0:false},"",0]` is not empty, against the comment; `[-1]` is empty |
| Wire.KindNamed | src/convertUtils.js:310 | the kind `ValueType[name]` selects, and `None` exactly when no kind has that name |
| Codec.GetDecimalFromValue | src/convertUtils.js:91-98 | `undefined` iff the nested Decimal is missing, otherwise the number its digits parse to |
| Codec.GetDateFromValue | src/convertUtils.js:105-113 | `undefined` iff the message is missing or its millisecond payload is 0 or negative, otherwise the Date at exactly that payload |
| Codec.ToUpperCase | src/convertUtils.js:128-130 | upper-casing keeps the length (ASCII letters only, see Left out) |
| Codec.GetStringFromValue | src/convertUtils.js:121-132 | `undefined` iff the message is missing; the raw string payload, upper-cased only when asked |
| Codec.GetIntegerFromValue | src/convertUtils.js:139-144 | `undefined` iff the message is missing, otherwise the raw integer payload (0 when unset) |
| Codec.GetBooleanFromValue | src/convertUtils.js:151-156 | always a boolean, true iff the message is present with its flag set; `false`, not `undefined`, when missing |
| Codec.ConvertValueFromGRPC | src/convertUtils.js:49-84 | nil or UNKNOWN decodes to `undefined` whatever the payload; `undefined` exactly for those, a DECIMAL without Decimal and a DATE at or before the epoch; each kind yields its own payload |
| Codec.IndexOf | src/convertUtils.js:256 | `indexOf`: -1 iff the character is absent, otherwise its first position |
| Codec.GetValueFromInteger | src/convertUtils.js:163-177 | builds the integer encoding `IntegerValue` that `CodecProperties.IntegerEncoding` characterises |
| Codec.GetValueFromString | src/convertUtils.js:184-194 | builds the string encoding that `CodecProperties.StringEncoding` characterises |
| Codec.GetValueFromBoolean | src/convertUtils.js:201-216 | builds the boolean encoding that `CodecProperties.BooleanEncoding` characterises |
| Codec.GetValueFromDate | src/convertUtils.js:223-235 | builds the date encoding that `CodecProperties.DateEncoding` characterises |
| Codec.GetValueFromDecimal | src/convertUtils.js:242-266 | builds the decimal encoding, digits and derived scale, that `CodecProperties.DecimalScale` characterises |
| Codec.ConvertValueToGRPCWithValueType | src/convertUtils.js:305-337 | dispatches on the kind name, `undefined` for UNKNOWN or an undeclared name |
| Codec.ConvertValueToGRPC | src/convertUtils.js:278-303 | a truthy kind name dispatches, otherwise the runtime type chooses the encoder |
| CodecProperties.DecimalOfIntegral | src/convertUtils.js:250-262 | an integral number other than -1 is stored as its digits plus ".00" with scale 2 |
| CodecProperties.IntegerEncoding | src/convertUtils.js:163-177 | -1 gives INTEGER with no payload; an integer whose text, sign included, is shorter than 11 characters is the INTEGER payload; a wider one is exactly the decimal encoding, DECIMAL with scale 2 |
| CodecProperties.DecimalScale | src/convertUtils.js:242-266 | always DECIMAL with a Decimal; an empty input gives an empty Decimal; otherwise the digits are the rendered text and the scale is 0 without a '.', else the count of characters after the first '.', so 0 <= scale < length |
| CodecProperties.DecimalFractionExample | src/convertUtils.js:253-262 | 12.5 gives digits "12.5", scale 1 |
| CodecProperties.DecimalIntegralExample | src/convertUtils.js:250-262 | 7 gives digits "7.00", scale 2 |
| CodecProperties.DecimalStringExample | src/convertUtils.js:253-262 | the string "12.50" keeps its two fraction digits |
| CodecProperties.DecimalBlankArrayExample | src/convertUtils.js:249-262 | `[undefined]` is not empty but renders as "", so it gives digits "" and scale 0 |
| CodecProperties.BooleanEncoding | src/convertUtils.js:201-216 | kind BOOLEAN; a string is false iff it trims to "N"; a non-string by its truthiness |
| CodecProperties.BooleanExamples | src/convertUtils.js:207-214 | "N" and " N " are false; "Y", "" and "n" are true; 0 is false and `{}` true |
| CodecProperties.DateEncoding | src/convertUtils.js:223-235 | kind DATE; the millisecond payload is set only for a Date, and nothing else is set |
| CodecProperties.StringEncoding | src/convertUtils.js:184-194 | kind STRING; the text is `String(v)` for a truthy value, unset otherwise; nothing else is set |
| CodecProperties.InferredKinds | src/convertUtils.js:285-302 | nil gives STRING with no payload, an integer the integer encoder, a fraction the decimal one, a boolean BOOLEAN, a Date DATE, anything else STRING |
| CodecProperties.KindNamePrecedence | src/convertUtils.js:278-337 | a truthy kind name wins over inference, and the result is `undefined` iff the name is UNKNOWN or undeclared; a missing or blank name infers |
| CodecProperties.DecodeAfterInfer | src/convertUtils.js:278-302 | encoding without a kind and decoding gives `DecodedForm(v)`: unchanged for booleans, strings, short non-sentinel integers and dates after the epoch; -1 becomes 0, nil becomes "", wide integers and fractions their digit text |
| CodecProperties.StringRoundTrip | src/convertUtils.js:184-194 | every string, "" included, comes back unchanged |
| CodecProperties.IntegerRoundTrip | src/convertUtils.js:163-177 | every integer other than -1 whose text is shorter than 11 characters comes back unchanged |
| CodecProperties.BooleanRoundTrip | src/convertUtils.js:201-216 | through the BOOLEAN encoder a value comes back as its "N"-rule flag |
| CodecProperties.DateRoundTrip | src/convertUtils.js:223-235 | through the DATE encoder a Date after the epoch comes back as the same instant, and anything else as `undefined` |
| CodecProperties.DecimalRoundTrip | src/convertUtils.js:91-98 | through the DECIMAL encoder a value comes back as the number of its rendered text, and an empty one as `Number("")` |
| CodecProperties.DateDecodeExamples | src/convertUtils.js:105-113 | 1700000000000 ms decodes to that instant; 0 and -5 to `undefined` |
| Enums.CodeOf | src/convertUtils.js:612-615 | `table[key]`: `undefined` iff no entry has the name, otherwise the code of the first entry with it |
| Enums.NameOf | src/convertUtils.js:616-618 | the `find`: `undefined` iff no code equals the value (`===`), otherwise the first matching name in declared order |
| Enums.Reflect | src/convertUtils.js:609-622 | a code exactly when a key is given; the whole table exactly when neither a key nor a value other than `undefined` is given; a name lookup otherwise (modes characterised by `ReflectModes`) |
| Enums.ReflectByCode | src/convertUtils.js:343-351 | never a code; the whole table exactly when the code is `undefined`, a name lookup otherwise |
| Enums.ReflectModes | src/convertUtils.js:609-622 | a given key returns a code from the table, or `undefined` iff the name is absent; otherwise a value other than `undefined` (`null` included) returns the first matching name, or `undefined` iff none matches; with neither, the whole table; the one-argument form is the same lookup with no key |
| Enums.InjectiveRoundTrip | src/convertUtils.js:686-699 | in a table with distinct names and codes, a name reflects to its code and that code back to the name |
| Enums.InjectiveRoundTrips | src/convertUtils.js:686-699 | the same, for every entry of such a table |
| Enums.OrderTypesRoundTrip | src/convertUtils.js:683-684 | every `OrderType` name and code reflect into each other |
| Enums.RollbackEventTypesRoundTrip | src/convertUtils.js:605-607 | every `RollbackEntityRequest.EventType` name and code reflect into each other |
| Enums.ConfidentialTypesRoundTrip | src/convertUtils.js:1187-1189 | every `RecordChat`/`ChatEntry` `ConfidentialType` name and code reflect into each other |
| Enums.ModerationTypesRoundTrip | src/convertUtils.js:1204-1206 | every `RecordChat.ModerationType` name and code reflect into each other |
| Enums.ModeratorStatusesRoundTrip | src/convertUtils.js:1271-1274 | every `ChatEntry.ModeratorStatus` name and code reflect into each other |
| Enums.ChatEntryTypesRoundTrip | src/convertUtils.js:1289-1291 | every `ChatEntry.ChatEntryType` name and code reflect into each other |
| Enums.WorkflowStatesRoundTrip | src/convertUtils.js:1362-1367 | every `WorkflowProcess.WorkflowState` name and code reflect into each other |
| Enums.WorkflowPrioritiesRoundTrip | src/convertUtils.js:1382-1386 | every `WorkflowProcess.Priority` name and code reflect into each other |
| Enums.WorkflowEventTypesRoundTrip | src/convertUtils.js:1449-1451 | every `WorkflowEvent.EventType` name and code reflect into each other |
| Enums.PublishStatusesRoundTrip | src/convertUtils.js:1512-1515 | every `WorkflowDefinition.PublishStatus` name and code reflect into each other |
| Enums.DurationUnitsRoundTrip | src/convertUtils.js:1530-1535 | every `WorkflowDefinition.DurationUnit` name and code reflect into each other |
| Enums.WorkflowNodeActionsRoundTrip | src/convertUtils.js:1600-1612 | every `WorkflowNode.Action` name and code reflect into each other |
| Enums.WorkflowConditionTypesRoundTrip | src/convertUtils.js:1687-1688 | every `WorkflowCondition.ConditionType` name and code reflect into each other |
| Enums.WorkflowConditionOperationsRoundTrip | src/convertUtils.js:1707-1715 | every `WorkflowCondition.Operation` name and code reflect into each other (code 3 is undeclared) |
| Enums.OrderTypeExamples | src/convertUtils.js:686-699 | ASCENDING is 0, 0 is ASCENDING, 99, "0" and `null` have no name, a key wins over a value, and with neither (an `undefined` value) the table is returned |
| Enums.ConfidentialTypeExamples | src/convertUtils.js:1190-1198 | code 1 is PARTER, `null` has no name, and only `undefined` returns the table |
| Builders.InferAllPointwise | src/convertUtils.js:791-796 | the built value list has one element per input, and element `k` is the inferred encoding of input `k` |
| Builders.SelectionOf | src/convertUtils.js:387-394 | one key-value per item, in order, keyed by the item's column and holding its inferred encoding |
| Builders.ConvertParameterToGRPC | src/convertUtils.js:359-372 | the key is the column name and the value the encoder's result, missing when the kind is UNKNOWN or undeclared |
| Builders.ConvertSelectionToGRPC | src/convertUtils.js:381-396 | a new selection with the given id and `SelectionOf` the items; the UUID is not written |
| Builders.ConvertConditionToGRPC | src/convertUtils.js:766-800 | a new condition whose fields are exactly `ConditionOf` the arguments |
| Builders.ConditionsOfPointwise | src/convertUtils.js:729-734 | the built condition list has one entry per input, and entry `k` is `ConditionOf` input `k` |
| Builders.AddCriteriaValues | src/convertUtils.js:720-725 | appends the inferred encodings of the values in order and changes no other field |
| Builders.AddCriteriaConditions | src/convertUtils.js:728-734 | appends the fields of one built condition per entry in order and changes no other field |
| Builders.ConvertCriteriaToGRPC | src/convertUtils.js:711-741 | a new criteria with the texts and limit copied, the values inferred in order, one built condition per entry in order, and no order-by columns |
| Builders.ConvertOrderByPropertyFromGRPC | src/convertUtils.js:662-677 | all `undefined` without a message; otherwise the column, the code and the code's `OrderType` name |
| Builders.ConvertCriteriaFromGRPC | src/convertUtils.js:629-660 | the all-`undefined` shape exactly for a nil input; otherwise the getters' values, the same conditions, and the values and order-by columns converted positionally with equal lengths |
| Builders.DecodeAll | src/convertUtils.js:640-642 | one decoded value per wire value, in order |
| Builders.OrderByAll | src/convertUtils.js:643-645 | one converted column per order-by property, in order |
| Builders.ItemsOf | src/convertUtils.js:415-422 | one item per entry, in order |
| Builders.ConvertValuesMapFromGRPC | src/convertUtils.js:404-434 | the object, array or Map that `ValuesMapOf` describes for the return type and key name |
| BuilderProperties.InferredParameterDecodes | src/convertUtils.js:359-372 | a parameter without a kind always carries a value, and it decodes to `DecodedForm` of the input |
| BuilderProperties.SelectionDecodes | src/convertUtils.js:381-396 | every key-value of a selection keeps its column and decodes to its item's `DecodedForm`, in order |
| BuilderProperties.InferAllDecodes | src/convertUtils.js:721-726 | a built value list decodes element by element to the `DecodedForm` of its input |
| BuilderProperties.OperatorChoice | src/convertUtils.js:774-777 | no operator or a blank one means EQUAL; in a bijective table a named operator carries its own code; an unknown name leaves the operator unset |
| BuilderProperties.ConditionDecodes | src/convertUtils.js:771-796 | the column is copied; a value and an upper bound are present iff given (not nil) and decode to their `DecodedForm`; the value list keeps length and order |
| BuilderProperties.CriteriaRoundTrip | src/convertUtils.js:629-660 | reading back a built criteria gives the texts (unset as ""), the limit (unset as 0), the built conditions, the values' `DecodedForm`s in order, and no order-by columns |
| BuilderProperties.OrderByNames | src/convertUtils.js:662-677 | code 0 reads back as ASCENDING, 1 as DESCENDING, any other code as no name |
| BuilderProperties.ObjectKeys | src/convertUtils.js:408-411 | the object form has exactly the entries' keys |
| BuilderProperties.ObjectLastWins | src/convertUtils.js:408-411 | in the object form a key holds the decoded value of its last entry |
| BuilderProperties.MapSetShape | src/convertUtils.js:427-429 | `Map.set` keeps keys distinct, replaces an existing key in place and appends a new one |
| BuilderProperties.MapOfPositional | src/convertUtils.js:426-429 | entries with distinct keys come out of the Map form in iteration order with their decoded values |
| BuilderProperties.ArrayItemFields | src/convertUtils.js:416-420 | an array item holds the key under `keyName` and the decoded value under "value"; with `keyName` "value" the key is lost |
| BuilderProperties.ReturnTypeDefault | src/convertUtils.js:404-434 | the Map form is the default and any unrecognised return type selects it; the array form has one item per entry |

## Left out

- Floating point: `Number(...)` in the DECIMAL decoder is not computed; a decoded decimal is the text it parses. Non-integral numbers are given by their rendered text.
- `NaN`: the `value === NaN` test never holds, so NaN is treated as the number it is (`NonIntegral("NaN")`, never empty); its special parsing and comparison behaviour is not modelled.
- Number rendering: integers are rendered in plain decimal. Exponent notation from 1e21 upward, rounding beyond 2^53 and `-0` are not modelled.
- Dates: `new Date(ms)`, `getTime()` and `Date.prototype.toString` are not computed. A Date is its millisecond count and its text, and a decoded Date is `DateAt(ms)`. Invalid dates are not modelled.
- Codec.ToUpperCase: only ASCII letters are mapped; Unicode and locale case mapping is left out.
- Strings are sequences of Unicode characters, not UTF-16 code units, so lengths of astral characters differ.
- Symbols and other exotic JavaScript values are not modelled.
- Plain objects are their own enumerable keys. Property values, inherited keys and key order are not modelled.
- Enums.CodeOf: inherited properties such as `table["toString"]` are not found.
- Builders.ConvertValuesMapFromGRPC: the `__proto__` key of a plain object, a non-string `keyName` and `null` vs `undefined` defaults are not modelled.
- jspb internals: `toString` and `Object.keys` of a message object are not modelled; a present message counts as non-empty.
- Codec.GetDecimalFromValue: it dereferences its argument, so a missing message throws. The model takes a present message, and the throw is not modelled.
- `getDecimalInstance` is the constant `Wire.EmptyDecimal`, a fresh `Decimal` message built by generated code.
- Wire.Criteria.AddConditions: the criteria records the fields a condition has when it is added. Later writes through the same `Condition` object do not reach the criteria, so that aliasing is not modelled; no builder writes to a condition after adding it.
- The generated protobuf classes are not part of this model. Setters are field writes and `add*` calls are appends. The numeric codes of `ValueType`, `Condition.Operator` and `RecordLog.EventType` are not known; the latter two are parameters.
- Thrown errors of the builders for malformed arguments, such as a non-array `values`, are not modelled; list arguments are sequences.
- The per-entity record mappers (`convertLookupFromGRPC` through `convertDocumentStatus`) are field-by-field copies and are not part of this model.
- The enum helper functions (`Enums.GetOrderType` and the other `Enums.Get*`) carry no contract of their own. Each is `Reflect` or `ReflectByCode` on one table, and their properties are the table lemmas above.
