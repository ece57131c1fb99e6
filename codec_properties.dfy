/** What the value codec promises: how each encoder fills a `Value`, which
    encoder a runtime type selects, and what decoding an encoded value gives
    back. */
module CodecProperties {
  import opened Wrappers
  import opened JsValues
  import opened Emptiness
  import opened Wire
  import opened Codec

  const MinWideNegative := -1_000_000_000
  const MinWideNonNegative := 10_000_000_000

  /** Integers whose text, sign included, is shorter than 11 characters. */
  predicate FitsIntegerPayload(i: int) {
    MinWideNegative < i < MinWideNonNegative
  }

  lemma {:induction false} IndexOfAfterPrefix(a: string, b: string, c: char)
    requires c !in a && b != [] && b[0] == c
    ensures IndexOf(a + b, c) == |a|
  {
    var s := a + b;
    assert s[|a|] == c;
    assert s[..|a|] == a;
  }

  /** An integral number other than -1 is stored with two fraction digits. */
  lemma DecimalOfIntegral(i: int)
    requires i != -1
    ensures DecimalValue(Num(Integral(i))) ==
      NewValue(DECIMAL).(decimalValue := Some(Decimal(IntToString(i) + ".00", 2)))
  {
    IntegerEmptiness(i);
    IntToStringPlain(i);
    IndexOfAfterPrefix(IntToString(i), ".00", '.');
  }

  /** `getValueFromInteger` on a JavaScript integer: -1 is the "nothing"
      sentinel and leaves the payload unset; an integer whose text has fewer
      than 11 characters is the integer payload; a wider one is re-routed to
      the decimal encoder and arrives as DECIMAL with scale 2. */
  lemma IntegerEncoding(i: int)
    ensures i == -1 ==> IntegerValue(Num(Integral(i))) == NewValue(INTEGER)
    ensures i != -1 && FitsIntegerPayload(i) ==>
      IntegerValue(Num(Integral(i))) == NewValue(INTEGER).(intValue := Num(Integral(i)))
    ensures !FitsIntegerPayload(i) ==>
      IntegerValue(Num(Integral(i))) ==
        NewValue(DECIMAL).(decimalValue := Some(Decimal(IntToString(i) + ".00", 2)))
  {
    IntegerEmptiness(i);
    IntToStringShort(i);
    if i != -1 {
      DecimalOfIntegral(i);
    }
  }

  /** The decimal payload is the rendered text itself, and its scale is the
      number of characters after the first '.' in it, or 0 without one. */
  lemma DecimalScale(v: JsValue)
    ensures DecimalValue(v).valueType == DECIMAL && DecimalValue(v).decimalValue.Some?
    ensures IsEmptyValue(v) ==> DecimalValue(v).decimalValue.value == EmptyDecimal
    ensures !IsEmptyValue(v) ==>
      var d := DecimalValue(v).decimalValue.value;
      && d.digits == DecimalText(v)
      && ('.' !in d.digits ==> d.scale == 0)
      && ('.' in d.digits ==>
            && 0 <= d.scale < |d.digits|
            && d.digits[|d.digits| - d.scale - 1] == '.'
            && '.' !in d.digits[..|d.digits| - d.scale - 1])
  {
  }

  /** The first position of a character is the one with no earlier copy. */
  lemma IndexOfFirst(s: string, c: char, i: int)
    requires 0 <= i < |s| && s[i] == c && c !in s[..i]
    ensures IndexOf(s, c) == i
  {
  }

  /** The worked example 12.5: digits "12.5", scale 1. */
  lemma DecimalFractionExample()
    ensures DecimalValue(Num(NonIntegral("12.5"))).decimalValue == Some(Decimal("12.5", 1))
  {
    ScalarsNeverEmpty(Num(NonIntegral("12.5")));
    assert "12.5"[..2] == "12";
    IndexOfFirst("12.5", '.', 2);
  }

  /** The worked example 7: digits "7.00", scale 2. */
  lemma DecimalIntegralExample()
    ensures DecimalValue(Num(Integral(7))).decimalValue == Some(Decimal("7.00", 2))
  {
    assert IntToString(7) == "7" by {
      assert NatToString(7) == [DigitChar(7)];
    }
    DecimalOfIntegral(7);
    assert IntToString(7) + ".00" == "7.00";
  }

  /** A string keeps the scale it is written with: "12.50" gives ("12.50", 2). */
  lemma DecimalStringExample()
    ensures DecimalValue(Str("12.50")).decimalValue == Some(Decimal("12.50", 2))
  {
    TrimNoWhiteSpace("12.50");
    assert !IsEmptyValue(Str("12.50"));
    assert DecimalText(Str("12.50")) == "12.50";
    assert "12.50"[..2] == "12";
    IndexOfFirst("12.50", '.', 2);
  }

  /** `[undefined]` is not empty but renders as "", so it gives ("", 0). */
  lemma DecimalBlankArrayExample()
    ensures DecimalValue(Arr([Undef])).decimalValue == Some(Decimal("", 0))
  {
    var blank := Arr([Undef]);
    assert ToJsString(blank) == "" by {
      var texts := seq(1, k requires 0 <= k < 1 => if [Undef][k].Undef? || [Undef][k].Null? then "" else ToJsString([Undef][k]));
      assert texts == [""];
    }
    assert !IsEmptyValue(blank);
  }

  /** `getValueFromBoolean`: a string is false exactly when it trims to "N"
      (so "Y", "" and "n" are true); anything else by its truthiness. */
  lemma BooleanEncoding(v: JsValue)
    ensures BooleanValue(v) == NewValue(BOOLEAN).(booleanValue := BooleanFlag(v))
    ensures v.Str? ==> (BooleanFlag(v) <==> Trim(v.s) != "N")
    ensures v.Bool? ==> BooleanFlag(v) == v.flag
    ensures !v.Str? ==> (BooleanFlag(v) <==> Truthy(v))
  {
  }

  lemma BooleanExamples()
    ensures !BooleanFlag(Str("N")) && !BooleanFlag(Str(" N "))
    ensures BooleanFlag(Str("Y")) && BooleanFlag(Str("")) && BooleanFlag(Str("n"))
    ensures !BooleanFlag(Num(Integral(0))) && BooleanFlag(Obj([]))
  {
    assert Trim(" N ") == "N" by {
      assert TrimStart(" N ") == "N ";
      assert TrimEnd("N ") == "N";
    }
    TrimNoWhiteSpace("N");
    TrimNoWhiteSpace("Y");
    TrimNoWhiteSpace("n");
  }

  /** `getValueFromDate`: only a Date sets the millisecond payload; anything
      else yields a DATE value without one. */
  lemma DateEncoding(v: JsValue)
    ensures DateValue(v).valueType == DATE
    ensures DateValue(v).longValue == (if v.Date? then v.time else 0)
    ensures DateValue(v).(longValue := 0) == NewValue(DATE)
  {
  }

  /** `getValueFromString`: the text is set only for a truthy value. */
  lemma StringEncoding(v: JsValue)
    ensures StringValue(v).(stringValue := "") == NewValue(STRING)
    ensures StringValue(v).stringValue == (if Truthy(v) then ToJsString(v) else "")
  {
  }

  /** Without a kind name, the runtime type picks the encoder. */
  lemma InferredKinds(v: JsValue)
    ensures v.Undef? || v.Null? ==> InferredValue(v) == NewValue(STRING)
    ensures v.Num? && v.n.Integral? ==>
      InferredValue(v).valueType == (if FitsIntegerPayload(v.n.i) then INTEGER else DECIMAL)
    ensures v.Num? && v.n.NonIntegral? ==>
      InferredValue(v).valueType == DECIMAL && InferredValue(v).decimalValue == Some(Decimal(v.n.text, ScaleOf(v.n.text)))
    ensures v.Bool? ==> InferredValue(v) == NewValue(BOOLEAN).(booleanValue := v.flag)
    ensures v.Date? ==> InferredValue(v) == NewValue(DATE).(longValue := v.time)
    ensures !(v.Undef? || v.Null? || v.Num? || v.Bool? || v.Date?) ==> InferredValue(v) == StringValue(v)
  {
    match v
    case Num(Integral(i)) => IntegerEncoding(i);
    case Num(NonIntegral(_)) => ScalarsNeverEmpty(v);
    case _ =>
  }

  /** A truthy kind name decides, and inference is skipped even when the name
      is UNKNOWN or not declared, in which case the result is `undefined`;
      an absent or blank name falls back to inference. */
  lemma KindNamePrecedence(v: JsValue, valueType: Option<string>)
    ensures valueType.None? || valueType.value == "" ==> ConvertedValue(v, valueType) == Some(InferredValue(v))
    ensures valueType.Some? && valueType.value != "" ==>
      (ConvertedValue(v, valueType).None? <==> KindNamed(valueType.value) in {None, Some(UNKNOWN)})
    ensures valueType.Some? && KindNamed(valueType.value) == Some(DATE) ==> ConvertedValue(v, valueType) == Some(DateValue(v))
    ensures valueType.Some? && KindNamed(valueType.value) == Some(INTEGER) ==> ConvertedValue(v, valueType) == Some(IntegerValue(v))
    ensures valueType.Some? && KindNamed(valueType.value) == Some(DECIMAL) ==> ConvertedValue(v, valueType) == Some(DecimalValue(v))
    ensures valueType.Some? && KindNamed(valueType.value) == Some(BOOLEAN) ==> ConvertedValue(v, valueType) == Some(BooleanValue(v))
    ensures valueType.Some? && KindNamed(valueType.value) == Some(STRING) ==> ConvertedValue(v, valueType) == Some(StringValue(v))
  {
  }

  // ---------------------------------------------------------------------------
  // Round trips

  /** What decoding the inferred encoding of `v` gives, by runtime type. */
  function DecodedForm(v: JsValue): Decoded {
    match v
    case Undef => Raw(Str(""))
    case Null => Raw(Str(""))
    case Num(Integral(i)) =>
      if i == -1 then Raw(Num(Integral(0)))
      else if FitsIntegerPayload(i) then Raw(v)
      else NumberFrom(IntToString(i) + ".00")
    case Num(NonIntegral(t)) => NumberFrom(t)
    case Bool(_) => Raw(v)
    case Date(ms, _) => if ms > 0 then DateAt(ms) else Undefined
    case _ => Raw(Str(if Truthy(v) then ToJsString(v) else ""))
  }

  /** Encoding without a kind name and decoding again gives `DecodedForm`:
      booleans, strings, non-sentinel integers of fewer than 11 characters
      and dates after the epoch come back unchanged; -1 comes back as 0,
      `undefined` and `null` as "", wide integers and fractions as their
      digit strings, and dates at or before the epoch as `undefined`. */
  lemma DecodeAfterInfer(v: JsValue)
    ensures ConvertValueFromGRPC(Some(InferredValue(v))) == DecodedForm(v)
  {
    match v
    case Num(Integral(i)) => IntegerEncoding(i);
    case Num(NonIntegral(_)) => ScalarsNeverEmpty(v);
    case _ =>
  }

  /** A string always survives the round trip, even the empty one (whose
      payload stays unset and reads back as ""). */
  lemma StringRoundTrip(s: string)
    ensures ConvertValueFromGRPC(Some(InferredValue(Str(s)))) == Raw(Str(s))
  {
    DecodeAfterInfer(Str(s));
  }

  lemma IntegerRoundTrip(i: int)
    requires i != -1 && FitsIntegerPayload(i)
    ensures ConvertValueFromGRPC(Some(InferredValue(Num(Integral(i))))) == Raw(Num(Integral(i)))
  {
    DecodeAfterInfer(Num(Integral(i)));
  }

  /** Through the explicit BOOLEAN encoder: "N" comes back false, "Y" and
      every other string true, and true and false as themselves. */
  lemma BooleanRoundTrip(v: JsValue)
    ensures ConvertValueFromGRPC(Some(BooleanValue(v))) == Raw(Bool(BooleanFlag(v)))
  {
  }

  /** Through the explicit DATE encoder: a Date after the epoch comes back as
      the same instant; a Date at or before it, and anything that is not a
      Date, comes back `undefined`. */
  lemma DateRoundTrip(v: JsValue)
    ensures ConvertValueFromGRPC(Some(DateValue(v))) ==
      (if v.Date? && v.time > 0 then DateAt(v.time) else Undefined)
  {
  }

  /** The decimal encoder always attaches a Decimal message, so even an empty
      input decodes to `Number("")` rather than to `undefined`. */
  lemma DecimalRoundTrip(v: JsValue)
    ensures ConvertValueFromGRPC(Some(DecimalValue(v))) ==
      NumberFrom(if IsEmptyValue(v) then "" else DecimalText(v))
  {
  }

  /** The date scenario: 1700000000000 ms decodes to that instant, 0 and -5
      to `undefined`. */
  lemma DateDecodeExamples(w: Value)
    requires w.valueType == DATE
    ensures ConvertValueFromGRPC(Some(w.(longValue := 1_700_000_000_000))) == DateAt(1_700_000_000_000)
    ensures ConvertValueFromGRPC(Some(w.(longValue := 0))) == Undefined
    ensures ConvertValueFromGRPC(Some(w.(longValue := -5))) == Undefined
  {
  }
}
