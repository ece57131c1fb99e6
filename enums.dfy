/** The enum reflector: lookups between an enum's symbolic names and its
    numeric wire codes. An enum is its entries in declared order, which is the
    order `Object.keys` lists them in. */
module Enums {
  import opened Wrappers
  import opened JsValues

  type EnumTable = seq<(string, int)>

  /** `table[name]`: the code of the first entry with that name, if any. */
  function CodeOf(t: EnumTable, name: string): (r: Option<int>)
    ensures r.None? <==> forall k :: 0 <= k < |t| ==> t[k].0 != name
    ensures r.Some? ==> exists k :: 0 <= k < |t| && t[k] == (name, r.value) && forall j :: 0 <= j < k ==> t[j].0 != name
  {
    if t == [] then None
    else if t[0].0 == name then Some(t[0].1)
    else
      var r := CodeOf(t[1..], name);
      assert r.Some? ==> exists k :: 1 <= k < |t| && t[k] == (name, r.value) && forall j :: 0 <= j < k ==> t[j].0 != name by {
        if r.Some? {
          var k :| 0 <= k < |t[1..]| && t[1..][k] == (name, r.value) && forall j :: 0 <= j < k ==> t[1..][j].0 != name;
          assert t[k + 1] == (name, r.value);
          assert forall j :: 0 <= j < k + 1 ==> t[j].0 != name by {
            forall j | 0 <= j < k + 1 ensures t[j].0 != name {
              if j > 0 { assert t[j] == t[1..][j - 1]; }
            }
          }
        }
      }
      r
  }

  /** A code matches `value` under `===`: only a number with that integral
      value does. */
  predicate Matches(code: int, value: JsValue) {
    value == Num(Integral(code))
  }

  /** `Object.keys(table).find(key => table[key] === value)`: the first name,
      in declared order, whose code is `value`. */
  function NameOf(t: EnumTable, value: JsValue): (r: Option<string>)
    ensures r.None? <==> forall k :: 0 <= k < |t| ==> !Matches(t[k].1, value)
    ensures r.Some? ==> exists k :: 0 <= k < |t| && t[k].0 == r.value && Matches(t[k].1, value) && forall j :: 0 <= j < k ==> !Matches(t[j].1, value)
  {
    if t == [] then None
    else if Matches(t[0].1, value) then Some(t[0].0)
    else
      var r := NameOf(t[1..], value);
      assert r.Some? ==> exists k :: 1 <= k < |t| && t[k].0 == r.value && Matches(t[k].1, value) && forall j :: 0 <= j < k ==> !Matches(t[j].1, value) by {
        if r.Some? {
          var k :| 0 <= k < |t[1..]| && t[1..][k].0 == r.value && Matches(t[1..][k].1, value) && forall j :: 0 <= j < k ==> !Matches(t[1..][j].1, value);
          assert t[k + 1] == t[1..][k];
          assert forall j :: 0 <= j < k + 1 ==> !Matches(t[j].1, value) by {
            forall j | 0 <= j < k + 1 ensures !Matches(t[j].1, value) {
              if j > 0 { assert t[j] == t[1..][j - 1]; }
            }
          }
        }
      }
      r
  }

  /** What a reflector returns: a code, a name (either possibly `undefined`),
      or the whole table. */
  datatype Reflection = Code(code: Option<int>) | Name(name: Option<string>) | Whole(table: EnumTable)

  /** The three-mode `{ key, value }` reflector: a key other than
      `undefined` wins, then a value other than `undefined` (`null` included),
      and with neither the table itself is returned. */
  function Reflect(t: EnumTable, key: Option<string>, value: JsValue): (r: Reflection)
    ensures r.Code? <==> key.Some?
    ensures r.Whole? <==> key.None? && value.Undef?
    ensures r.Whole? ==> r.table == t
  {
    if key.Some? then Code(CodeOf(t, key.value))
    else if !value.Undef? then Name(NameOf(t, value))
    else Whole(t)
  }

  /** The one-argument reflectors (`getValueTypes(keyFind)` and the like):
      a code other than `undefined` is looked up, otherwise the table is
      returned. */
  function ReflectByCode(t: EnumTable, keyFind: JsValue): (r: Reflection)
    ensures !r.Code?
    ensures r.Whole? <==> keyFind.Undef?
    ensures r.Whole? ==> r.table == t
  {
    if !keyFind.Undef? then Name(NameOf(t, keyFind)) else Whole(t)
  }

  /** The three modes, stated by what they find. */
  lemma ReflectModes(t: EnumTable, key: Option<string>, value: JsValue)
    ensures key.Some? ==> Reflect(t, key, value).Code?
    ensures key.Some? ==> forall c :: Reflect(t, key, value) == Code(Some(c)) ==> (key.value, c) in t
    ensures key.Some? ==> (Reflect(t, key, value) == Code(None) <==> forall k :: 0 <= k < |t| ==> t[k].0 != key.value)
    ensures key.None? && !value.Undef? ==> Reflect(t, key, value).Name? && Reflect(t, key, value).name == NameOf(t, value)
    ensures key.None? && !value.Undef? ==>
      (Reflect(t, key, value) == Name(None) <==> forall k :: 0 <= k < |t| ==> !Matches(t[k].1, value))
    ensures key.None? && value.Undef? ==> Reflect(t, key, value) == Whole(t)
    ensures ReflectByCode(t, value) == Reflect(t, None, value)
  {
    if key.Some? {
      forall c | Reflect(t, key, value) == Code(Some(c)) ensures (key.value, c) in t {
        var k :| 0 <= k < |t| && t[k] == (key.value, c) && forall j :: 0 <= j < k ==> t[j].0 != key.value;
      }
    }
  }

  /** Names and codes both distinct: the table is a bijection. */
  ghost predicate Injective(t: EnumTable) {
    forall i, j :: 0 <= i < j < |t| ==> t[i].0 != t[j].0 && t[i].1 != t[j].1
  }

  /** In a bijective table name and code reflect into each other. */
  lemma InjectiveRoundTrip(t: EnumTable, k: int)
    requires Injective(t) && 0 <= k < |t|
    ensures Reflect(t, Some(t[k].0), Undef) == Code(Some(t[k].1))
    ensures Reflect(t, None, Num(Integral(t[k].1))) == Name(Some(t[k].0))
  {
    var c := CodeOf(t, t[k].0);
    var i :| 0 <= i < |t| && t[i] == (t[k].0, c.value) && forall j :: 0 <= j < i ==> t[j].0 != t[k].0;
    assert i == k;
    var n := NameOf(t, Num(Integral(t[k].1)));
    var i' :| 0 <= i' < |t| && t[i'].0 == n.value && Matches(t[i'].1, Num(Integral(t[k].1)))
      && forall j :: 0 <= j < i' ==> !Matches(t[j].1, Num(Integral(t[k].1)));
    assert i' == k;
  }

  /** Every entry of the table reflects to its code and back to its name. */
  ghost predicate RoundTrips(t: EnumTable) {
    forall k :: 0 <= k < |t| ==>
      Reflect(t, Some(t[k].0), Undef) == Code(Some(t[k].1)) &&
      Reflect(t, None, Num(Integral(t[k].1))) == Name(Some(t[k].0))
  }

  lemma InjectiveRoundTrips(t: EnumTable)
    requires Injective(t)
    ensures RoundTrips(t)
  {
    forall k | 0 <= k < |t|
      ensures Reflect(t, Some(t[k].0), Undef) == Code(Some(t[k].1))
      ensures Reflect(t, None, Num(Integral(t[k].1))) == Name(Some(t[k].0))
    {
      InjectiveRoundTrip(t, k);
    }
  }

  // ---------------------------------------------------------------------------
  // The enums whose entries the source lists in its comments.

  /** `OrderByProperty.OrderType` (getOrderType). */
  const OrderTypes: EnumTable := [("ASCENDING", 0), ("DESCENDING", 1)]
  /** `RollbackEntityRequest.EventType` (getRollbackEntityRequestEventType). */
  const RollbackEventTypes: EnumTable := [("INSERT", 0), ("UPDATE", 1), ("DELETE", 2)]
  /** `RecordChat.ConfidentialType` and `ChatEntry.ConfidentialType`. */
  const ConfidentialTypes: EnumTable := [("PUBLIC", 0), ("PARTER", 1), ("INTERNAL", 2)]
  /** `RecordChat.ModerationType`. */
  const ModerationTypes: EnumTable := [("NOT_MODERATED", 0), ("BEFORE_PUBLISHING", 1), ("AFTER_PUBLISHING", 2)]
  /** `ChatEntry.ModeratorStatus`. */
  const ModeratorStatuses: EnumTable :=
    [("NOT_DISPLAYED", 0), ("PUBLISHED", 1), ("SUSPICIUS", 2), ("TO_BE_REVIEWED", 3)]
  /** `ChatEntry.ChatEntryType`. */
  const ChatEntryTypes: EnumTable := [("NOTE_FLAT", 0), ("FORUM_THREADED", 1), ("WIKI", 2)]
  /** `WorkflowProcess.WorkflowState`. */
  const WorkflowStates: EnumTable :=
    [("RUNNING", 0), ("COMPLETED", 1), ("ABORTED", 2), ("TERMINATED", 3), ("SUSPENDED", 4), ("NOT_STARTED", 5)]
  /** `WorkflowProcess.Priority`. */
  const WorkflowPriorities: EnumTable :=
    [("URGENT", 0), ("HIGH", 1), ("MEDIUM", 2), ("LOW", 3), ("MINOR", 4)]
  /** `WorkflowEvent.EventType`. */
  const WorkflowEventTypes: EnumTable := [("PROCESS_CREATED", 0), ("PROCESS_COMPLETED", 1), ("STATE_CHANGED", 2)]
  /** `WorkflowDefinition.PublishStatus`. */
  const PublishStatuses: EnumTable := [("RELEASED", 0), ("TEST", 1), ("UNDER_REVISION", 2), ("VOID", 3)]
  /** `WorkflowDefinition.DurationUnit`. */
  const DurationUnits: EnumTable :=
    [("DAY", 0), ("HOUR", 1), ("MINUTE", 2), ("MONTH", 3), ("SECOND", 4), ("YEAR", 5)]
  /** `WorkflowNode.Action`. */
  const WorkflowNodeActions: EnumTable :=
    [("USER_CHOICE", 0), ("DOCUMENT_ACTION", 1), ("SUB_WORKFLOW", 2), ("EMAIL", 3), ("APPS_PROCESS", 4),
     ("SMART_VIEW", 5), ("APPS_REPORT", 6), ("SMART_BROWSE", 7), ("APPS_TASK", 8), ("SET_VARIABLE", 9),
     ("USER_WINDOW", 10), ("USER_FORM", 11), ("WAIT_SLEEP", 12)]
  /** `WorkflowCondition.ConditionType`. */
  const WorkflowConditionTypes: EnumTable := [("AND", 0), ("OR", 1)]
  /** `WorkflowCondition.Operation`: code 3 is not declared. */
  const WorkflowConditionOperations: EnumTable :=
    [("EQUAL", 0), ("NOT_EQUAL", 1), ("LIKE", 2), ("GREATER", 4), ("GREATER_EQUAL", 5),
     ("LESS", 6), ("LESS_EQUAL", 7), ("BETWEEN", 8), ("SQL", 9)]

  // Every listed enum is a bijection, so its reflector maps every declared
  // name to its code and that code back to the same name.

  lemma OrderTypesRoundTrip()
    ensures RoundTrips(OrderTypes)
  {
    assert Injective(OrderTypes);
    InjectiveRoundTrips(OrderTypes);
  }

  lemma RollbackEventTypesRoundTrip()
    ensures RoundTrips(RollbackEventTypes)
  {
    assert Injective(RollbackEventTypes);
    InjectiveRoundTrips(RollbackEventTypes);
  }

  lemma ConfidentialTypesRoundTrip()
    ensures RoundTrips(ConfidentialTypes)
  {
    assert Injective(ConfidentialTypes);
    InjectiveRoundTrips(ConfidentialTypes);
  }

  lemma ModerationTypesRoundTrip()
    ensures RoundTrips(ModerationTypes)
  {
    assert Injective(ModerationTypes);
    InjectiveRoundTrips(ModerationTypes);
  }

  lemma ModeratorStatusesRoundTrip()
    ensures RoundTrips(ModeratorStatuses)
  {
    assert Injective(ModeratorStatuses);
    InjectiveRoundTrips(ModeratorStatuses);
  }

  lemma ChatEntryTypesRoundTrip()
    ensures RoundTrips(ChatEntryTypes)
  {
    assert Injective(ChatEntryTypes);
    InjectiveRoundTrips(ChatEntryTypes);
  }

  lemma WorkflowStatesRoundTrip()
    ensures RoundTrips(WorkflowStates)
  {
    assert Injective(WorkflowStates);
    InjectiveRoundTrips(WorkflowStates);
  }

  lemma WorkflowPrioritiesRoundTrip()
    ensures RoundTrips(WorkflowPriorities)
  {
    assert Injective(WorkflowPriorities);
    InjectiveRoundTrips(WorkflowPriorities);
  }

  lemma WorkflowEventTypesRoundTrip()
    ensures RoundTrips(WorkflowEventTypes)
  {
    assert Injective(WorkflowEventTypes);
    InjectiveRoundTrips(WorkflowEventTypes);
  }

  lemma PublishStatusesRoundTrip()
    ensures RoundTrips(PublishStatuses)
  {
    assert Injective(PublishStatuses);
    InjectiveRoundTrips(PublishStatuses);
  }

  lemma DurationUnitsRoundTrip()
    ensures RoundTrips(DurationUnits)
  {
    assert Injective(DurationUnits);
    InjectiveRoundTrips(DurationUnits);
  }

  lemma WorkflowNodeActionsRoundTrip()
    ensures RoundTrips(WorkflowNodeActions)
  {
    assert Injective(WorkflowNodeActions);
    InjectiveRoundTrips(WorkflowNodeActions);
  }

  lemma WorkflowConditionTypesRoundTrip()
    ensures RoundTrips(WorkflowConditionTypes)
  {
    assert Injective(WorkflowConditionTypes);
    InjectiveRoundTrips(WorkflowConditionTypes);
  }

  lemma WorkflowConditionOperationsRoundTrip()
    ensures RoundTrips(WorkflowConditionOperations)
  {
    assert Injective(WorkflowConditionOperations);
    InjectiveRoundTrips(WorkflowConditionOperations);
  }

  // The reflectors, one per enum. Those over enums whose entries the source
  // does not list take the generated table as a parameter.

  function GetOrderType(key: Option<string>, value: JsValue): Reflection {
    Reflect(OrderTypes, key, value)
  }

  function GetRollbackEntityRequestEventType(key: Option<string>, value: JsValue): Reflection {
    Reflect(RollbackEventTypes, key, value)
  }

  function GetWorkflowConditionConditionType(key: Option<string>, value: JsValue): Reflection {
    Reflect(WorkflowConditionTypes, key, value)
  }

  function GetWorkflowConditionOperation(key: Option<string>, value: JsValue): Reflection {
    Reflect(WorkflowConditionOperations, key, value)
  }

  function GetValueTypes(valueTypes: EnumTable, keyFind: JsValue): Reflection {
    ReflectByCode(valueTypes, keyFind)
  }

  function GetConditionOperators(operators: EnumTable, keyFind: JsValue): Reflection {
    ReflectByCode(operators, keyFind)
  }

  function GetRecordLogEventType(eventTypes: EnumTable, keyFind: JsValue): Reflection {
    ReflectByCode(eventTypes, keyFind)
  }

  function GetRecordChatsConfidentialType(keyFind: JsValue): Reflection {
    ReflectByCode(ConfidentialTypes, keyFind)
  }

  function GetRecordChatsModerationType(keyFind: JsValue): Reflection {
    ReflectByCode(ModerationTypes, keyFind)
  }

  function GetChatEntryConfidentialType(keyFind: JsValue): Reflection {
    ReflectByCode(ConfidentialTypes, keyFind)
  }

  function GetChatEntryModeratorStatus(keyFind: JsValue): Reflection {
    ReflectByCode(ModeratorStatuses, keyFind)
  }

  function GetChatEntryChatEntryType(keyFind: JsValue): Reflection {
    ReflectByCode(ChatEntryTypes, keyFind)
  }

  function GetWorkflowProcessWorkflowState(keyFind: JsValue): Reflection {
    ReflectByCode(WorkflowStates, keyFind)
  }

  function GetWorkflowProcessWorkflowPriority(keyFind: JsValue): Reflection {
    ReflectByCode(WorkflowPriorities, keyFind)
  }

  function GetWorkflowEventWorkflowEventType(keyFind: JsValue): Reflection {
    ReflectByCode(WorkflowEventTypes, keyFind)
  }

  function GetWorkflowDefinitionPublishStatus(keyFind: JsValue): Reflection {
    ReflectByCode(PublishStatuses, keyFind)
  }

  function GetWorkflowDefinitionDurationUnit(keyFind: JsValue): Reflection {
    ReflectByCode(DurationUnits, keyFind)
  }

  function GetWorkflowNodeAction(keyFind: JsValue): Reflection {
    ReflectByCode(WorkflowNodeActions, keyFind)
  }

  /** The order-type examples: ASCENDING is 0, 0 is ASCENDING, 99 and `null`
      are nothing, a key wins over a value, and with neither (an `undefined`
      value included) the table comes back. */
  lemma OrderTypeExamples()
    ensures GetOrderType(Some("ASCENDING"), Undef) == Code(Some(0))
    ensures GetOrderType(None, Num(Integral(0))) == Name(Some("ASCENDING"))
    ensures GetOrderType(None, Num(Integral(99))) == Name(None)
    ensures GetOrderType(None, Str("0")) == Name(None)
    ensures GetOrderType(None, Null) == Name(None)
    ensures GetOrderType(Some("DESCENDING"), Num(Integral(0))) == Code(Some(1))
    ensures GetOrderType(None, Undef) == Whole(OrderTypes)
  {
  }

  /** The one-argument form: a code is looked up, `null` is looked up and
      found nowhere, and only `undefined` returns the table. */
  lemma ConfidentialTypeExamples()
    ensures GetRecordChatsConfidentialType(Num(Integral(1))) == Name(Some("PARTER"))
    ensures GetRecordChatsConfidentialType(Null) == Name(None)
    ensures GetRecordChatsConfidentialType(Undef) == Whole(ConfidentialTypes)
  {
  }
}
