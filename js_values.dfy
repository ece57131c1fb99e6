/** The JavaScript values the conversion layer receives from its callers, and
    the three pieces of JavaScript semantics it leans on: `String(v)`,
    `String.prototype.trim` and truthiness (`Boolean(v)`, `if (v)`). */
module JsValues {

  /** ECMAScript WhiteSpace and LineTerminator code points: what `trim` removes. */
  predicate IsWhiteSpace(c: char) {
    c == '\t' || c == '\n' || c == '\U{B}' || c == '\U{C}' || c == '\r' || c == ' '
    || c == '\U{A0}' || c == '\U{1680}' || ('\U{2000}' <= c <= '\U{200A}')
    || c == '\U{2028}' || c == '\U{2029}' || c == '\U{202F}' || c == '\U{205F}'
    || c == '\U{3000}' || c == '\U{FEFF}'
  }


  predicate NoWhiteSpace(s: string) {
    forall k :: 0 <= k < |s| ==> !IsWhiteSpace(s[k])
  }

  /** What `Number.prototype.toString` renders for a number that is not an
      integer (`12.5`, `1e-7`, `NaN`, `Infinity`): never blank, never spaced,
      never the text of an integer such as `-1`. */
  predicate IsNumberText(s: string) {
    s != [] && NoWhiteSpace(s) && s != "-1"
  }

  type NumberText = s: string | IsNumberText(s) witness "0.5"

  /** What the host renders for a `Date` (`Date.prototype.toString`, a weekday
      name or "Invalid Date") or for a function (its source text): both begin
      with a character that is neither blank nor a minus sign. */
  predicate IsHostText(s: string) {
    s != [] && s[0] != '-' && !IsWhiteSpace(s[0])
  }

  type HostText = s: string | IsHostText(s) witness "Invalid Date"

  /** A JavaScript number. Integral numbers carry their value; any other
      number (a fraction, NaN, an infinity) carries its `toString` text. */
  datatype Number = Integral(i: int) | NonIntegral(text: NumberText)

  /** The runtime shapes `typeof`, `Array.isArray` and
      `Object.prototype.toString` distinguish. A plain object is given by its
      own enumerable keys, a `Map` or `Set` by its size. */
  datatype JsValue =
    | Undef
    | Null
    | Num(n: Number)
    | BigInt(big: int)
    | Str(s: string)
    | Bool(flag: bool)
    | Date(time: int, text: HostText)
    | Arr(elems: seq<JsValue>)
    | Obj(keys: seq<string>)
    | JsMap(size: nat)
    | JsSet(size: nat)
    | Func(source: HostText)

  // ---------------------------------------------------------------------------
  // trim

  function TrimStart(s: string): string {
    if s != [] && IsWhiteSpace(s[0]) then TrimStart(s[1..]) else s
  }

  function TrimEnd(s: string): string {
    if s != [] && IsWhiteSpace(s[|s| - 1]) then TrimEnd(s[..|s| - 1]) else s
  }

  /** `String.prototype.trim`. */
  function Trim(s: string): string {
    TrimEnd(TrimStart(s))
  }

  /** Trimming the end keeps a prefix, and keeps at least the first character
      when that one is not blank. */
  lemma {:induction false} TrimEndPrefix(s: string)
    ensures |TrimEnd(s)| <= |s| && TrimEnd(s) == s[..|TrimEnd(s)|]
    ensures s != [] && !IsWhiteSpace(s[0]) ==> TrimEnd(s) != []
    decreases |s|
  {
    if s != [] && IsWhiteSpace(s[|s| - 1]) {
      TrimEndPrefix(s[..|s| - 1]);
    }
  }

  lemma TrimNoWhiteSpace(s: string)
    requires NoWhiteSpace(s)
    ensures Trim(s) == s
  {
    if s != [] {
      assert !IsWhiteSpace(s[0]);
      assert !IsWhiteSpace(s[|s| - 1]);
    }
  }

  /** A string that starts with a visible character keeps it first when trimmed. */
  lemma TrimKeepsFirst(s: string)
    requires s != [] && !IsWhiteSpace(s[0])
    ensures Trim(s) != [] && Trim(s)[0] == s[0]
  {
    assert TrimStart(s) == s;
    TrimEndPrefix(s);
  }

  lemma HostTextNotMinusOne(s: HostText)
    ensures Trim(s) != "-1"
  {
    TrimKeepsFirst(s);
  }

  // ---------------------------------------------------------------------------
  // rendering integers

  predicate IsDigit(c: char) {
    '0' <= c <= '9'
  }

  function DigitChar(d: int): (c: char)
    requires 0 <= d < 10
    ensures IsDigit(c)
  {
    "0123456789"[d]
  }

  /** Decimal digits of a natural number, most significant first, no leading zero. */
  function NatToString(n: nat): (r: string)
    ensures |r| >= 1 && (n >= 10 ==> |r| >= 2)
    ensures forall k :: 0 <= k < |r| ==> IsDigit(r[k])
  {
    if n < 10 then [DigitChar(n)] else NatToString(n / 10) + [DigitChar(n % 10)]
  }

  /** `String(i)` for an integral number: a minus sign, then the digits. */
  function IntToString(i: int): string {
    if i < 0 then "-" + NatToString(-i) else NatToString(i)
  }

  function Pow10(k: nat): (p: nat)
    ensures p >= 1
  {
    if k == 0 then 1 else 10 * Pow10(k - 1)
  }

  /** A natural number has at most `k` digits exactly when it is below `10^k`. */
  lemma {:induction false} NatToStringWidth(n: nat, k: nat)
    requires k >= 1
    ensures |NatToString(n)| <= k <==> n < Pow10(k)
    decreases n
  {
    if n >= 10 {
      if k == 1 {
        assert Pow10(1) == 10;
      } else {
        NatToStringWidth(n / 10, k - 1);
        assert n / 10 < Pow10(k - 1) <==> n < 10 * Pow10(k - 1);
      }
    } else {
      assert Pow10(k) == 10 * Pow10(k - 1);
    }
  }

  /** The sign counts: `String(i)` has fewer than 11 characters exactly when
      `-10^9 < i < 10^10`. */
  lemma IntToStringShort(i: int)
    ensures |IntToString(i)| < 11 <==> -1_000_000_000 < i < 10_000_000_000
  {
    assert Pow10(9) == 1_000_000_000 by {
      assert Pow10(3) == 1000;
      assert Pow10(6) == 1000 * Pow10(3) by { Pow10Add(3, 3); }
      Pow10Add(6, 3);
    }
    assert Pow10(10) == 10_000_000_000;
    if i < 0 {
      NatToStringWidth(-i, 9);
    } else {
      NatToStringWidth(i, 10);
    }
  }

  lemma {:induction false} Pow10Add(a: nat, b: nat)
    ensures Pow10(a + b) == Pow10(a) * Pow10(b)
    decreases b
  {
    if b > 0 {
      Pow10Add(a, b - 1);
      assert Pow10(a + b) == 10 * Pow10(a + b - 1);
    }
  }

  lemma IntToStringPlain(i: int)
    ensures IntToString(i) != [] && NoWhiteSpace(IntToString(i))
    ensures '.' !in IntToString(i)
  {
    var d := NatToString(if i < 0 then -i else i);
    assert forall k :: 0 <= k < |d| ==> IsDigit(d[k]);
    if i < 0 {
      assert IntToString(i) == "-" + d;
      assert forall k :: 1 <= k < |IntToString(i)| ==> IntToString(i)[k] == d[k - 1];
    }
  }

  /** The only integer whose text trims to "-1" is -1. */
  lemma IntToStringMinusOne(i: int)
    ensures Trim(IntToString(i)) == "-1" <==> i == -1
  {
    IntToStringPlain(i);
    TrimNoWhiteSpace(IntToString(i));
    if i < 0 {
      var d := NatToString(-i);
      if i != -1 {
        // A different single digit, or at least two digits.
        if -i < 10 {
          assert d == [DigitChar(-i)];
          assert d[0] != '1';
        } else {
          assert |d| >= 2;
        }
        assert IntToString(i) == "-" + d;
      }
    } else {
      assert IsDigit(NatToString(i)[0]);
    }
  }

  // ---------------------------------------------------------------------------
  // String(v) and truthiness

  /** `String(v)`, also `v.toString()` for every value that has one. An array
      is the `join(",")` of its elements, with `undefined` and `null` blank. */
  function ToJsString(v: JsValue): string
    decreases v
  {
    match v
    case Undef => "undefined"
    case Null => "null"
    case Num(Integral(i)) => IntToString(i)
    case Num(NonIntegral(t)) => t
    case BigInt(b) => IntToString(b)
    case Str(s) => s
    case Bool(f) => if f then "true" else "false"
    case Date(_, t) => t
    case Arr(elems) =>
      Join(seq(|elems|, k requires 0 <= k < |elems| =>
        if elems[k].Undef? || elems[k].Null? then "" else ToJsString(elems[k])))
    case Obj(_) => "[object Object]"
    case JsMap(_) => "[object Map]"
    case JsSet(_) => "[object Set]"
    case Func(src) => src
  }

  /** Strings joined with "," between them. */
  function Join(parts: seq<string>): string {
    if parts == [] then ""
    else if |parts| == 1 then parts[0]
    else Join(parts[..|parts| - 1]) + "," + parts[|parts| - 1]
  }

  /** JavaScript truthiness: `Boolean(v)`. */
  predicate Truthy(v: JsValue) {
    match v
    case Undef => false
    case Null => false
    case Num(Integral(i)) => i != 0
    case Num(NonIntegral(t)) => t != "NaN"
    case BigInt(b) => b != 0
    case Str(s) => s != ""
    case Bool(f) => f
    case _ => true
  }

  /** `Number.isInteger(v)`. */
  predicate IsInteger(v: JsValue) {
    v.Num? && v.n.Integral?
  }
}
