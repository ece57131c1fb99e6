/** What the builders promise: parameters, selections, conditions and
    criteria decode back to the values they were built from, an operator
    name falls back to EQUAL, order-by codes read back by name, and value
    maps keep the entries they are given. */
module BuilderProperties {
  import opened Wrappers
  import opened JsValues
  import opened Wire
  import opened Codec
  import opened Enums
  import opened CodecProperties
  import opened Builders

  /** A parameter or selection item without an explicit kind decodes to the
      value's decoded form. */
  lemma InferredParameterDecodes(v: JsValue)
    ensures ConvertedValue(v, None).Some?
    ensures ConvertValueFromGRPC(ConvertedValue(v, None)) == DecodedForm(v)
  {
    DecodeAfterInfer(v);
  }

  /** Every key-value of a selection keeps its column and decodes to its
      item's value, in order. */
  lemma SelectionDecodes(items: seq<SelectionItem>)
    ensures |SelectionOf(items)| == |items|
    ensures forall k :: 0 <= k < |items| ==>
      SelectionOf(items)[k].key == items[k].columnName &&
      ConvertValueFromGRPC(SelectionOf(items)[k].value) == DecodedForm(items[k].value)
  {
    forall k | 0 <= k < |items|
      ensures ConvertValueFromGRPC(SelectionOf(items)[k].value) == DecodedForm(items[k].value)
    {
      InferredParameterDecodes(items[k].value);
    }
  }

  /** The values of a built list decode, one by one, to what they were built
      from. */
  lemma InferAllDecodes(vs: seq<JsValue>)
    ensures |DecodeAll(InferAll(vs))| == |vs|
    ensures forall k :: 0 <= k < |vs| ==> DecodeAll(InferAll(vs))[k] == DecodedForm(vs[k])
  {
    InferAllPointwise(vs);
    forall k | 0 <= k < |vs| ensures DecodeAll(InferAll(vs))[k] == DecodedForm(vs[k]) {
      DecodeAfterInfer(vs[k]);
    }
  }

  /** Without an operator, or with a blank one, a condition compares for
      EQUAL; in a bijective table a named operator carries its own code, and
      a name the table lacks leaves the operator unset. */
  lemma OperatorChoice(operator: Option<string>, operators: EnumTable)
    ensures operator.None? || operator == Some("") ==> OperatorOf(operator, operators) == CodeOf(operators, "EQUAL")
    ensures operator.Some? && operator.value != "" && (forall k :: 0 <= k < |operators| ==> operators[k].0 != operator.value) ==>
      OperatorOf(operator, operators).None?
    ensures Injective(operators) && operator.Some? && operator.value != "" ==>
      forall c :: (operator.value, c) in operators ==> OperatorOf(operator, operators) == Some(c)
  {
    if Injective(operators) && operator.Some? && operator.value != "" {
      forall c | (operator.value, c) in operators ensures OperatorOf(operator, operators) == Some(c) {
        var k :| 0 <= k < |operators| && operators[k] == (operator.value, c);
        InjectiveRoundTrip(operators, k);
      }
    }
  }

  /** A condition holds a value (and an upper bound) exactly when one was
      given, and each decodes to what it was built from, as does every
      element of its list. */
  lemma ConditionDecodes(p: ConditionParams, operators: EnumTable)
    ensures ConditionOf(p, operators).columnName == p.columnName
    ensures ConditionOf(p, operators).value.Some? <==> Defined(p.value)
    ensures ConditionOf(p, operators).valueTo.Some? <==> Defined(p.valueTo)
    ensures Defined(p.value) ==> ConvertValueFromGRPC(ConditionOf(p, operators).value) == DecodedForm(p.value)
    ensures Defined(p.valueTo) ==> ConvertValueFromGRPC(ConditionOf(p, operators).valueTo) == DecodedForm(p.valueTo)
    ensures |ConditionOf(p, operators).values| == |p.values|
    ensures forall k :: 0 <= k < |p.values| ==>
      ConvertValueFromGRPC(Some(ConditionOf(p, operators).values[k])) == DecodedForm(p.values[k])
  {
    if Defined(p.value) { DecodeAfterInfer(p.value); }
    if Defined(p.valueTo) { DecodeAfterInfer(p.valueTo); }
    InferAllPointwise(p.values);
    forall k | 0 <= k < |p.values|
      ensures ConvertValueFromGRPC(Some(ConditionOf(p, operators).values[k])) == DecodedForm(p.values[k])
    {
      DecodeAfterInfer(p.values[k]);
    }
  }

  /** Reading back a built criteria: unset texts and limit come back as the
      proto3 defaults, the conditions are the built ones, the values come back
      in their decoded forms and the order-by columns are lost. */
  lemma CriteriaRoundTrip(criteria: Criteria, p: CriteriaParams, operators: EnumTable)
    requires BuiltFrom(criteria, p, operators)
    ensures ConvertCriteriaFromGRPC(criteria).tableName == Some(p.tableName.GetOr(""))
    ensures ConvertCriteriaFromGRPC(criteria).query == Some(p.query.GetOr(""))
    ensures ConvertCriteriaFromGRPC(criteria).whereClause == Some(p.whereClause.GetOr(""))
    ensures ConvertCriteriaFromGRPC(criteria).orderByClause == Some(p.orderByClause.GetOr(""))
    ensures ConvertCriteriaFromGRPC(criteria).referenceUuid == Some(p.referenceUuid.GetOr(""))
    ensures ConvertCriteriaFromGRPC(criteria).limit == Some(p.limit.GetOr(0))
    ensures ConvertCriteriaFromGRPC(criteria).conditionsList == Some(criteria.conditions)
    ensures ConvertCriteriaFromGRPC(criteria).orderByColumnList == Some([])
    ensures ConvertCriteriaFromGRPC(criteria).valuesList.Some?
    ensures |ConvertCriteriaFromGRPC(criteria).valuesList.value| == |p.valuesList|
    ensures forall k :: 0 <= k < |p.valuesList| ==>
      ConvertCriteriaFromGRPC(criteria).valuesList.value[k] == DecodedForm(p.valuesList[k])
  {
    InferAllDecodes(p.valuesList);
  }

  /** Order-by codes read back by name: 0 is ASCENDING, 1 DESCENDING, and
      any other code has no name. */
  lemma OrderByNames(o: OrderByProperty)
    ensures ConvertOrderByPropertyFromGRPC(Some(o)).orderTypeName == Some("ASCENDING") <==> o.orderType == 0
    ensures ConvertOrderByPropertyFromGRPC(Some(o)).orderTypeName == Some("DESCENDING") <==> o.orderType == 1
    ensures ConvertOrderByPropertyFromGRPC(Some(o)).orderTypeName.None? <==> o.orderType != 0 && o.orderType != 1
  {
    OrderTypesRoundTrip();
    assert OrderTypes[0] == ("ASCENDING", 0) && OrderTypes[1] == ("DESCENDING", 1);
  }

  // ---------------------------------------------------------------------------
  // Value maps.

  ghost predicate DistinctKeys<V>(s: seq<(string, V)>) {
    forall i, j :: 0 <= i < j < |s| ==> s[i].0 != s[j].0
  }

  /** In the `object` form the keys are exactly the entries' keys. */
  lemma {:induction false} ObjectKeys(entries: seq<(string, Value)>)
    ensures ObjectOf(entries).Keys == set i | 0 <= i < |entries| :: entries[i].0
  {
    if entries != [] {
      var n := |entries| - 1;
      var prefix := entries[..n];
      ObjectKeys(prefix);
      assert forall i :: 0 <= i < n ==> prefix[i] == entries[i];
      assert (set i | 0 <= i < |entries| :: entries[i].0) == (set i | 0 <= i < n :: entries[i].0) + {entries[n].0};
    }
  }

  /** In the `object` form a key holds the decoded value of the last entry
      with that key. */
  lemma {:induction false} ObjectLastWins(entries: seq<(string, Value)>, i: int)
    requires 0 <= i < |entries|
    requires forall j :: i < j < |entries| ==> entries[j].0 != entries[i].0
    ensures entries[i].0 in ObjectOf(entries)
    ensures ObjectOf(entries)[entries[i].0] == ConvertValueFromGRPC(Some(entries[i].1))
  {
    var n := |entries| - 1;
    if i < n {
      var prefix := entries[..n];
      assert prefix[i] == entries[i];
      assert forall j :: i < j < n ==> prefix[j] == entries[j];
      ObjectLastWins(prefix, i);
    }
  }

  /** `Map.prototype.set` never duplicates a key, replaces in place and
      appends a new key. */
  lemma {:induction false} MapSetShape(m: seq<(string, Decoded)>, key: string, d: Decoded)
    requires DistinctKeys(m)
    ensures DistinctKeys(MapSet(m, key, d))
    ensures (forall i :: 0 <= i < |m| ==> m[i].0 != key) ==> MapSet(m, key, d) == m + [(key, d)]
    ensures forall i :: 0 <= i < |m| && m[i].0 == key ==> MapSet(m, key, d) == m[i := (key, d)]
  {
    if m != [] {
      MapSetShape(m[1..], key, d);
      assert DistinctKeys(m[1..]) by {
        forall i, j | 0 <= i < j < |m[1..]| ensures m[1..][i].0 != m[1..][j].0 {
          assert m[1..][i] == m[i + 1] && m[1..][j] == m[j + 1];
        }
      }
      if m[0].0 != key {
        var r := MapSet(m, key, d);
        assert r == [m[0]] + MapSet(m[1..], key, d);
        forall i | 0 <= i < |m| && m[i].0 == key ensures r == m[i := (key, d)] {
          assert i > 0;
          assert m[1..][i - 1].0 == key;
          assert MapSet(m[1..], key, d) == m[1..][i - 1 := (key, d)];
          assert r == [m[0]] + m[1..][i - 1 := (key, d)];
        }
        if forall i :: 0 <= i < |m| ==> m[i].0 != key {
          assert forall j :: 0 <= j < |m[1..]| ==> m[1..][j].0 != key by {
            forall j | 0 <= j < |m[1..]| ensures m[1..][j].0 != key { assert m[1..][j] == m[j + 1]; }
          }
        }
      } else {
        forall i | 0 < i < |m| ensures m[i].0 != key { }
      }
    }
  }

  /** Entries with distinct keys come out of the `map` form in iteration
      order, each with its decoded value. */
  lemma {:induction false} MapOfPositional(entries: seq<(string, Value)>)
    requires DistinctKeys(entries)
    ensures |MapOf(entries)| == |entries|
    ensures DistinctKeys(MapOf(entries))
    ensures forall k :: 0 <= k < |entries| ==>
      MapOf(entries)[k] == (entries[k].0, ConvertValueFromGRPC(Some(entries[k].1)))
  {
    if entries != [] {
      var n := |entries| - 1;
      var prefix := entries[..n];
      assert DistinctKeys(prefix) by {
        forall i, j | 0 <= i < j < |prefix| ensures prefix[i].0 != prefix[j].0 {
          assert prefix[i] == entries[i] && prefix[j] == entries[j];
        }
      }
      MapOfPositional(prefix);
      var m := MapOf(prefix);
      assert forall i :: 0 <= i < |m| ==> m[i].0 != entries[n].0 by {
        forall i | 0 <= i < |m| ensures m[i].0 != entries[n].0 {
          assert m[i].0 == entries[i].0;
        }
      }
      MapSetShape(m, entries[n].0, ConvertValueFromGRPC(Some(entries[n].1)));
      forall k | 0 <= k < n ensures MapOf(entries)[k] == (entries[k].0, ConvertValueFromGRPC(Some(entries[k].1))) {
        assert prefix[k] == entries[k];
      }
    }
  }

  /** An `array`-form item holds the key under `keyName` and the decoded
      value under "value"; with `keyName` "value" the key is lost. */
  lemma ArrayItemFields(keyName: string, entry: (string, Value))
    ensures "value" in ItemOf(keyName, entry)
    ensures ItemOf(keyName, entry)["value"] == ValueField(ConvertValueFromGRPC(Some(entry.1)))
    ensures keyName != "value" ==> keyName in ItemOf(keyName, entry) && ItemOf(keyName, entry)[keyName] == KeyField(entry.0)
    ensures keyName != "value" ==> ItemOf(keyName, entry).Keys == {keyName, "value"}
    ensures keyName == "value" ==> ItemOf(keyName, entry).Keys == {"value"}
  {
  }

  /** The `map` form is the default, and any unrecognised `returnType`
      selects it too. */
  lemma ReturnTypeDefault(entries: seq<(string, Value)>, returnType: Option<string>, keyName: Option<string>)
    ensures returnType.None? ==> ValuesMapOf(entries, returnType, keyName) == ValuesMapOf(entries, Some("map"), keyName)
    ensures returnType.Some? && returnType.value != "object" && returnType.value != "array" ==>
      ValuesMapOf(entries, returnType, keyName) == AsMap(MapOf(entries))
    ensures returnType == Some("array") ==> |ValuesMapOf(entries, returnType, keyName).items| == |entries|
  {
  }
}
