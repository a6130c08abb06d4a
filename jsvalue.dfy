/** JavaScript values as the query engine sees them, and the one JavaScript
    operation it applies to them: reading a property, `v[part]`. */
module JsValue {

  /** A JSON-like JavaScript value; `Undef` is `undefined`. Objects are
      modelled as maps, so property order is not represented. */
  datatype Value =
    | Obj(fields: map<string, Value>)
    | Arr(elems: seq<Value>)
    | Str(s: string)
    | Num(n: int)
    | Bool(b: bool)
    | Null
    | Undef

  /** The empty string, which the path walker substitutes for `undefined`. */
  const Sentinel: Value := Str("")

  /** Replace `undefined` by the sentinel (`if (result === undefined) result = ''`). */
  function OrSentinel(v: Value): (r: Value)
    ensures r != Undef
    ensures v.Undef? ==> r == Sentinel
    ensures v != Undef ==> r == v
  {
    if v.Undef? then Sentinel else v
  }

  /** What a query or a parse can throw. */
  datatype Error =
    | TypeError                  // a property read on undefined or null
    | MacroNotFound(name: string)
    | Thrown(reason: string)     // raised by a registered macro itself

  datatype Option<+T> = None | Some(value: T)

  /** A value, or the exception that ended the computation. */
  datatype Result<+T> = Ok(value: T) | Err(error: Error) {
    predicate IsFailure() { Err? }
    function PropagateFailure<U>(): Result<U>
      requires Err?
    {
      Err(error)
    }
    function Extract(): T
      requires Ok?
    {
      value
    }
  }

  /** A path segment after numeric coercion: a number or a property name. */
  datatype Segment = Index(i: nat) | Key(k: string)

  predicate IsDigit(c: char) { '0' <= c <= '9' }

  predicate AllDigits(s: string) { forall i :: 0 <= i < |s| ==> IsDigit(s[i]) }

  function DigitValue(c: char): (d: nat)
    requires IsDigit(c)
    ensures d < 10
  {
    (c as int - '0' as int) as nat
  }

  function DigitChar(d: nat): (c: char)
    requires d < 10
    ensures IsDigit(c) && DigitValue(c) == d
  {
    ('0' as int + d) as char
  }

  /** The number a string of decimal digits denotes, most significant digit first. */
  function DecimalValue(ds: string): nat
    requires AllDigits(ds)
  {
    if ds == [] then 0 else DecimalValue(ds[..|ds| - 1]) * 10 + DigitValue(ds[|ds| - 1])
  }

  /** JavaScript's conversion of a non-negative integer to a property name:
      its decimal numeral, without leading zeros, which reads back as `n`. */
  function NatToString(n: nat): (s: string)
    ensures s != [] && AllDigits(s)
    ensures s[0] == '0' ==> s == "0"
    ensures DecimalValue(s) == n
  {
    if n < 10 then [DigitChar(n)]
    else
      var prefix := NatToString(n / 10);
      var s := prefix + [DigitChar(n % 10)];
      assert s[..|s| - 1] == prefix;
      s
  }

  /** The property name a segment reads: numbers are converted to their numeral. */
  function PropertyName(seg: Segment): string
  {
    match seg
    case Index(i) => NatToString(i)
    case Key(k) => k
  }

  /** `v[seg]`. Reading any property of `undefined` or `null` throws a
      TypeError; a missing property is `undefined`. Arrays and strings answer
      their elements and `length`, strings counted in Dafny characters rather
      than UTF-16 code units; inherited properties are not modelled. A
      digit-led name such as `Key("0")` would in JavaScript read an array
      element too, but the path walker never produces one: `Coerce` turns
      every digit-led part into an `Index`. */
  function Get(v: Value, seg: Segment): (r: Result<Value>)
    ensures r.Err? <==> v.Undef? || v.Null?
    ensures r.Err? ==> r.error == TypeError
  {
    match v
    case Undef => Err(TypeError)
    case Null => Err(TypeError)
    case Obj(m) =>
      var name := PropertyName(seg);
      Ok(if name in m then m[name] else Undef)
    case Arr(es) =>
      Ok(match seg
         case Index(i) => if i < |es| then es[i] else Undef
         case Key(k) => if k == "length" then Num(|es|) else Undef)
    case Str(s) =>
      Ok(match seg
         case Index(i) => if i < |s| then Str([s[i]]) else Undef
         case Key(k) => if k == "length" then Num(|s|) else Undef)
    case Num(_) => Ok(Undef)
    case Bool(_) => Ok(Undef)
  }
}
