/** `isEmptyValue`: the test every other component uses to decide whether a
    value is logically absent. The checks run in a fixed priority order, and
    containers are judged by their size alone: their elements are never
    inspected. */
module Emptiness {
  import opened JsValues

  /** True when `v` renders, as `String(v).trim()`, to the sentinel "-1"
      (the host application's "nothing selected"). */
  predicate IsSentinel(v: JsValue) {
    Trim(ToJsString(v)) == "-1"
  }

  /** The checks of `isEmptyValue` in the source's order: nil, then the
      sentinel, then the value's type; a BigInt matches no type test. */
  function IsEmptyValue(v: JsValue): (r: bool)
    ensures v.Undef? || v.Null? || IsSentinel(v) ==> r
    ensures v.Num? || v.Bool? || v.Date? || v.Func? ==> (r <==> IsSentinel(v))
    ensures (v.JsMap? || v.JsSet?) && !IsSentinel(v) ==> (r <==> v.size == 0)
    ensures v.BigInt? ==> r
  {
    if v.Undef? || v.Null? then true
    else if IsSentinel(v) then true
    else
      match v
      case Str(s) => Trim(s) == ""
      case Num(_) => false
      case Bool(_) => false
      case Date(_, _) => false
      case Func(_) => false
      case JsMap(n) => n == 0
      case JsSet(n) => n == 0
      case Arr(elems) => |elems| == 0
      case Obj(keys) => |keys| == 0
      case _ => true
  }

  /** `undefined`, `null` and every value whose text trims to "-1" are empty. */
  lemma NilAndSentinelEmpty(v: JsValue)
    requires v.Undef? || v.Null? || IsSentinel(v)
    ensures IsEmptyValue(v)
  {
  }

  /** A string is empty exactly when it trims to "" or to "-1". */
  lemma StringEmptiness(s: string)
    ensures IsEmptyValue(Str(s)) <==> Trim(s) == "" || Trim(s) == "-1"
  {
  }

  /** Among integral numbers only -1 is empty; 0 is not. */
  lemma IntegerEmptiness(i: int)
    ensures IsEmptyValue(Num(Integral(i))) <==> i == -1
  {
    IntToStringMinusOne(i);
  }

  /** BigInts: -1n is the sentinel and every other one falls through every
      check to the final `return true`. */
  lemma BigIntAlwaysEmpty(b: int)
    ensures IsEmptyValue(BigInt(b))
  {
  }

  /** Fractions, booleans (even false), dates (even epoch 0) and functions are
      never empty. */
  lemma ScalarsNeverEmpty(v: JsValue)
    requires (v.Num? && v.n.NonIntegral?) || v.Bool? || v.Date? || v.Func?
    ensures !IsEmptyValue(v)
  {
    match v
    case Num(n) => TrimNoWhiteSpace(n.text);
    case Bool(f) =>
      assert ToJsString(v) == (if f then "true" else "false");
      TrimNoWhiteSpace(ToJsString(v));
    case Date(_, t) => HostTextNotMinusOne(t);
    case Func(src) => HostTextNotMinusOne(src);
  }

  /** Maps, sets and plain objects are empty exactly when they hold nothing;
      what they hold is not looked at. */
  lemma KeyedContainerEmptiness(v: JsValue)
    requires v.JsMap? || v.JsSet? || v.Obj?
    ensures IsEmptyValue(v) <==> (if v.Obj? then v.keys == [] else v.size == 0)
  {
    assert ToJsString(v)[0] == '[';
    TrimKeepsFirst(ToJsString(v));
  }

  /** An array is empty when it has no elements or renders as "-1" (such as
      `[-1]` or `["-1"]`); its elements are not checked for emptiness. */
  lemma ArrayEmptiness(elems: seq<JsValue>)
    ensures IsEmptyValue(Arr(elems)) <==> elems == [] || IsSentinel(Arr(elems))
  {
  }

  /** Containers from the cases the source's own comment lists: `[]`, `{}`
      and an empty `Map` are empty; `{0:1}` is not, and neither is `false`. */
  lemma EmptinessExamples()
    ensures IsEmptyValue(Arr([])) && IsEmptyValue(Obj([])) && IsEmptyValue(JsMap(0))
    ensures !IsEmptyValue(Obj(["0"])) && !IsEmptyValue(Bool(false))
  {
    KeyedContainerEmptiness(Obj([]));
    KeyedContainerEmptiness(JsMap(0));
    KeyedContainerEmptiness(Obj(["0"]));
    ScalarsNeverEmpty(Bool(false));
  }

  /** -1 is empty as a number and as a string; 0 is empty as neither. */
  lemma MinusOneExamples()
    ensures IsEmptyValue(Str("-1")) && IsEmptyValue(Num(Integral(-1)))
    ensures !IsEmptyValue(Num(Integral(0))) && !IsEmptyValue(Str("0"))
  {
    IntegerEmptiness(-1);
    IntegerEmptiness(0);
    TrimNoWhiteSpace("-1");
    TrimNoWhiteSpace("0");
  }

  /** Blank and padded strings: "  " and " -1 " are both empty. */
  lemma PaddedStringExamples()
    ensures IsEmptyValue(Str("  ")) && IsEmptyValue(Str(" -1 "))
  {
    assert Trim(" -1 ") == "-1" by {
      assert TrimStart(" -1 ") == "-1 ";
      assert TrimEnd("-1 ") == "-1";
    }
    assert Trim("  ") == "" by {
      assert TrimStart("  ") == "";
    }
  }

  /** Containers are not searched: `[{0:false}, "", 0]` is not empty, although
      the source's comment says it is; but `[-1]`, which renders as "-1", is. */
  lemma ShallowArrayExamples()
    ensures !IsEmptyValue(Arr([Obj(["0"]), Str(""), Num(Integral(0))]))
    ensures IsEmptyValue(Arr([Num(Integral(-1))]))
  {
    var deep := Arr([Obj(["0"]), Str(""), Num(Integral(0))]);
    assert ToJsString(deep)[0] == '[' by {
      var parts := ["[object Object]", "", "0"];
      var elems := deep.elems;
      var texts := seq(|elems|, k requires 0 <= k < |elems| =>
        if elems[k].Undef? || elems[k].Null? then "" else ToJsString(elems[k]));
      assert ToJsString(Num(Integral(0))) == "0";
      assert texts[0] == parts[0] && texts[1] == parts[1] && texts[2] == parts[2];
      assert texts == parts;
      assert Join(parts) == Join(parts[..2]) + "," + "0";
      assert Join(parts[..2]) == Join(parts[..1]) + "," + "";
    }
    TrimKeepsFirst(ToJsString(deep));
    var minus := Arr([Num(Integral(-1))]);
    assert ToJsString(minus) == "-1" by {
      assert ToJsString(minus) == Join(["-1"]);
    }
    TrimNoWhiteSpace("-1");
  }
}
