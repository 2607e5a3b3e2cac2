/** The JSON values the page binds, with the three JavaScript operations the
    binder applies to them: truthiness, property access and string conversion. */
module Json {
  import opened Maybe
  import Strings

  /** A decoded JSON value. Numbers are integers; objects are finite maps
      from property names to values. */
  datatype Json =
    | Null
    | Bool(b: bool)
    | Num(n: int)
    | Str(s: string)
    | Arr(items: seq<Json>)
    | Obj(fields: map<string, Json>)

  /** JavaScript `ToBoolean`: `null`, `false`, `0` and `""` are falsy; every
      array and every object, empty or not, is truthy. */
  predicate Truthy(v: Json)
    ensures !Truthy(v) <==> v in {Null, Bool(false), Num(0), Str("")}
    ensures v.Arr? || v.Obj? ==> Truthy(v)
  {
    match v
    case Null => false
    case Bool(b) => b
    case Num(n) => n != 0
    case Str(s) => s != ""
    case Arr(_) => true
    case Obj(_) => true
  }

  /** Property access `v[key]`; a missing property is `undefined` (`None`).
      Properties of non-objects (and inherited ones) are not modelled. */
  function Get(v: Json, key: string): (r: Option<Json>)
    ensures r.Some? <==> v.Obj? && key in v.fields
    ensures r.Some? ==> r.value == v.fields[key]
  {
    if v.Obj? && key in v.fields then Some(v.fields[key]) else None
  }

  predicate IsDigit(c: char)
  {
    '0' <= c <= '9'
  }

  /** A canonical decimal numeral: one or more digits, no leading zero. */
  predicate IsDecimal(s: string)
  {
    && |s| >= 1
    && (forall i :: 0 <= i < |s| ==> IsDigit(s[i]))
    && (|s| > 1 ==> s[0] != '0')
  }

  /** The value a string of digits denotes, read left to right. */
  function DigitsValue(s: string): nat
    requires forall i :: 0 <= i < |s| ==> IsDigit(s[i])
    decreases |s|
  {
    if |s| == 0 then 0
    else
      assert IsDigit(s[|s| - 1]);
      DigitsValue(s[..|s| - 1]) * 10 + (s[|s| - 1] as int - '0' as int)
  }

  function DigitChar(d: nat): char
    requires d < 10
  {
    ('0' as int + d) as char
  }

  /** `String(n)` for a natural number: the canonical numeral denoting `n`. */
  function Decimal(n: nat): (r: string)
    ensures IsDecimal(r) && DigitsValue(r) == n
    ensures n > 0 ==> r[0] != '0'
    decreases n
  {
    if n < 10 then [DigitChar(n)]
    else
      var r := Decimal(n / 10) + [DigitChar(n % 10)];
      assert r[..|r| - 1] == Decimal(n / 10);
      r
  }

  /** JavaScript `String(v)` succeeds on `v`. A JSON value is never
      callable, so an object with an own `toString` property falls through to
      `valueOf`, which returns the object itself, and the conversion throws a
      `TypeError`; an object without one prints through
      `Object.prototype.toString`. An array converts when each of its
      non-null elements does, as `Array.prototype.join` converts them. */
  predicate Stringable(v: Json)
    decreases v
  {
    match v
    case Obj(fields) => "toString" !in fields
    case Arr(items) => forall i :: 0 <= i < |items| ==> items[i].Null? || Stringable(items[i])
    case _ => true
  }

  /** JavaScript `String(v)`, which template literals, `textContent` and
      `src` apply to the value they receive, on a value it accepts. An array
      prints its element texts in order, one `,` between each two, where a
      `null` element prints as the empty string, as `Array.prototype.join`
      does. */
  function ToStr(v: Json): (r: string)
    requires Stringable(v)
    ensures v.Null? ==> r == "null"
    ensures v.Bool? ==> r == (if v.b then "true" else "false")
    ensures v.Obj? ==> r == "[object Object]"
    ensures v.Str? ==> r == v.s
    ensures v.Num? && v.n >= 0 ==> IsDecimal(r) && DigitsValue(r) == v.n
    ensures v.Num? && v.n < 0 ==>
              |r| >= 2 && r[0] == '-' && IsDecimal(r[1..]) && DigitsValue(r[1..]) == -v.n
    ensures v.Arr? && |v.items| == 0 ==> r == ""
    ensures v.Arr? ==>
              var texts := seq(|v.items|, i requires 0 <= i < |v.items| =>
                                 if v.items[i].Null? then "" else ToStr(v.items[i]));
              forall i :: 0 <= i < |v.items| ==> Strings.PlacedAt(r, texts, ",", i)
    decreases v
  {
    match v
    case Null => "null"
    case Bool(b) => if b then "true" else "false"
    case Num(n) =>
      if n < 0 then
        var r := "-" + Decimal(-n);
        assert r[1..] == Decimal(-n);
        r
      else Decimal(n)
    case Str(s) => s
    case Arr(items) =>
      var texts := seq(|items|, i requires 0 <= i < |items| =>
                         if items[i].Null? then "" else ToStr(items[i]));
      Strings.JoinLayoutAll(texts, ",");
      Strings.Join(texts, ",")
    case Obj(_) => "[object Object]"
  }
}
