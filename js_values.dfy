/**
 * Values as JSON.parse hands them to the app, and the two JavaScript
 * coercions the app applies to them: Boolean(v) and Number(v).
 * Numbers are modelled as integers; NaN is a missing number.
 */
module JsValues {
  import opened Wrappers
  import opened Text

  /** A decoded value. `Undefined` stands for a property that is not there. */
  datatype JsValue =
    | Undefined
    | Null
    | Bool(b: bool)
    | Num(n: int)
    | Str(s: string)
    | Arr(elems: seq<JsValue>)
    | Obj(fields: map<string, JsValue>)

  /** `v && typeof v === "object"`: arrays and plain objects. The truthiness
      test rules out null, the typeof test the other primitives. */
  predicate IsObject(v: JsValue)
    ensures IsObject(v) <==> Truthy(v) && !(v.Null? || v.Bool? || v.Num? || v.Str?)
  {
    v.Arr? || v.Obj?
  }

  /** A value JSON.parse can produce, which is also what JSON.stringify writes
      back unchanged: no `undefined` anywhere inside it. */
  predicate IsJsonValue(v: JsValue) {
    match v
    case Undefined => false
    case Arr(elems) => forall i :: 0 <= i < |elems| ==> IsJsonValue(elems[i])
    case Obj(fields) => forall k :: k in fields ==> IsJsonValue(fields[k])
    case _ => true
  }

  /** `v ?? fallback` takes the fallback exactly for these. */
  predicate IsNullish(v: JsValue) {
    v.Undefined? || v.Null?
  }

  /** Property access `v[key]`; none of the keys the app reads exists on an
      array or on the object prototype. */
  function Get(v: JsValue, key: string): JsValue {
    if v.Obj? && key in v.fields then v.fields[key] else Undefined
  }

  /** Boolean(v). */
  predicate Truthy(v: JsValue)
    ensures !Truthy(v) <==> v in {Undefined, Null, Bool(false), Num(0), Str("")}
  {
    match v
    case Undefined => false
    case Null => false
    case Bool(b) => b
    case Num(n) => n != 0
    case Str(s) => s != []
    case Arr(_) => true
    case Obj(_) => true
  }

  predicate IsDigit(c: char) {
    '0' <= c <= '9'
  }

  predicate IsDigits(s: string) {
    s != [] && forall i :: 0 <= i < |s| ==> IsDigit(s[i])
  }

  /** The value of a run of decimal digits. */
  function DigitsValue(s: string): int
    requires forall i :: 0 <= i < |s| ==> IsDigit(s[i])
  {
    if s == [] then 0 else 10 * DigitsValue(s[..|s| - 1]) + (s[|s| - 1] as int - '0' as int)
  }

  /** Number(s) for a string: blank is 0, an optionally signed run of decimal
      digits is its value, anything else is NaN (None). */
  function StringToNumber(s: string): Option<int> {
    var t := Trim(s);
    if t == [] then Some(0)
    else if IsDigits(t) then Some(DigitsValue(t))
    else if (t[0] == '+' || t[0] == '-') && IsDigits(t[1..]) then
      Some(if t[0] == '-' then -DigitsValue(t[1..]) else DigitsValue(t[1..]))
    else None
  }

  /** Whether converting v to a primitive throws a TypeError. A decoded
      object whose own "toString" key holds data has neither a callable
      toString nor a valueOf that yields a primitive; an array converts by
      joining its elements, so it throws when one of them does (null and
      undefined elements join as the empty string). */
  predicate ConversionThrows(v: JsValue) {
    match v
    case Obj(fields) => "toString" in fields
    case Arr(elems) => exists i :: 0 <= i < |elems| && ConversionThrows(elems[i])
    case _ => false
  }

  /** Number(v) when it does not throw; None is NaN. An array converts
      through its comma-joined string: the empty array is 0, a one-element
      array converts as its element would (null and undefined joining to the
      empty string), and an array of two or more elements contains a comma,
      which is NaN. A plain object converts through "[object Object]", NaN. */
  function NumericValue(v: JsValue): Option<int> {
    match v
    case Undefined => None
    case Null => Some(0)
    case Bool(b) => Some(if b then 1 else 0)
    case Num(n) => Some(n)
    case Str(s) => StringToNumber(s)
    case Arr(elems) =>
      if |elems| == 0 then Some(0)
      else if |elems| > 1 then None
      else (match elems[0]
            case Undefined => Some(0)
            case Null => Some(0)
            case Bool(_) => None
            case Obj(_) => None
            case _ => NumericValue(elems[0]))
    case Obj(_) => None
  }

  /** Number(v): a TypeError when the conversion to a primitive throws,
      otherwise the numeric value, None standing for NaN. */
  function ToNumber(v: JsValue): (r: Outcome<Option<int>>)
    ensures r.Threw? <==> ConversionThrows(v)
    ensures IsNullish(v) || !IsObject(v) ==> r.Returned?
    ensures v.Num? ==> r == Returned(Some(v.n))
    ensures v.Str? ==> r == Returned(StringToNumber(v.s))
    ensures v.Obj? && r.Returned? ==> r.value.None?
    ensures v.Arr? && |v.elems| >= 2 && r.Returned? ==> r.value.None?
  {
    if ConversionThrows(v) then Threw else Returned(NumericValue(v))
  }
}
