/** JSON values as `JSON.parse` produces them, and the JavaScript coercions
    the core applies to them: truthiness, `String(x)`, `Number(x)` and
    property reads. JSON numbers are integers in this model. */
module JsValues {
  import opened Common

  datatype Json =
    | JNull
    | JBool(b: bool)
    | JNumber(n: int)
    | JString(s: string)
    | JArray(items: seq<Json>)
    | JObject(members: map<string, Json>)

  /** What `JSON.parse` makes of a completion's text: a value, or a thrown
      SyntaxError. */
  datatype Content = Malformed | Parsed(value: Json)

  /** The result of `Number(x)`: NaN or an integer. */
  datatype NumVal = NaN | Finite(n: int)

  /** A property read `v.key` or `v?.key` on a value that is not null:
      objects answer their member, every other value `undefined` (None). */
  function Get(v: Json, key: string): (r: Option<Json>)
    ensures r.Some? <==> v.JObject? && key in v.members
    ensures r.Some? ==> r.value == v.members[key]
  {
    if v.JObject? && key in v.members then Some(v.members[key]) else None
  }

  /** JavaScript truthiness; None is `undefined`. */
  predicate Truthy(v: Option<Json>) {
    match v
    case None => false
    case Some(JNull) => false
    case Some(JBool(b)) => b
    case Some(JNumber(n)) => n != 0
    case Some(JString(s)) => s != ""
    case Some(JArray(_)) => true
    case Some(JObject(_)) => true
  }

  /** `x != null`: neither `undefined` nor `null`. */
  predicate NotNullish(v: Option<Json>) {
    v.Some? && !v.value.JNull?
  }

  function DigitChar(d: nat): (c: char)
    requires d < 10
    ensures '0' <= c <= '9'
  {
    ('0' as int + d) as char
  }

  function DigitValue(c: char): (d: nat)
    requires '0' <= c <= '9'
    ensures d < 10
  {
    c as int - '0' as int
  }

  /** Decimal digits of a natural number, most significant first. */
  function NatToString(n: nat): (s: string)
    ensures |s| > 0
    ensures forall i :: 0 <= i < |s| ==> '0' <= s[i] <= '9'
    decreases n
  {
    if n < 10 then [DigitChar(n)] else NatToString(n / 10) + [DigitChar(n % 10)]
  }

  /** `String(n)` for an integer. */
  function IntToString(n: int): string {
    if n < 0 then "-" + NatToString(-n) else NatToString(n)
  }

  predicate AllDigits(s: string) {
    forall i :: 0 <= i < |s| ==> '0' <= s[i] <= '9'
  }

  /** The number a string of decimal digits denotes. */
  function DigitsValue(s: string): nat
    requires AllDigits(s)
  {
    if s == [] then 0 else DigitsValue(s[..|s| - 1]) * 10 + DigitValue(s[|s| - 1])
  }

  predicate IsSpace(c: char) {
    c == ' ' || c == '\t' || c == '\n' || c == '\r' || c == '\U{B}' || c == '\U{C}'
  }

  /** Leading and trailing white space removed. */
  function Trim(s: string): (t: string)
    ensures |t| <= |s|
    ensures t != [] ==> !IsSpace(t[0]) && !IsSpace(t[|t| - 1])
  {
    if s != [] && IsSpace(s[0]) then Trim(s[1..])
    else if s != [] && IsSpace(s[|s| - 1]) then Trim(s[..|s| - 1])
    else s
  }

  /** `Number(s)` for a string: white space is ignored, the empty string is 0,
      an optionally signed run of decimal digits is its value, anything else
      is NaN. */
  function StringToNumber(s: string): NumVal {
    var t := Trim(s);
    if t == [] then Finite(0)
    else if AllDigits(t) then Finite(DigitsValue(t))
    else if (t[0] == '-' || t[0] == '+') && |t| > 1 && AllDigits(t[1..]) then
      var d: int := DigitsValue(t[1..]);
      Finite(if t[0] == '-' then -d else d)
    else NaN
  }

  /** Pieces joined by commas, as `Array.prototype.join` does. */
  function JoinWithCommas(parts: seq<string>): string {
    if parts == [] then ""
    else if |parts| == 1 then parts[0]
    else JoinWithCommas(parts[..|parts| - 1]) + "," + parts[|parts| - 1]
  }

  /** `String(v)`; inside an array `null` elements print as "". */
  function ToStr(v: Json): string {
    match v
    case JNull => "null"
    case JBool(b) => if b then "true" else "false"
    case JNumber(n) => IntToString(n)
    case JString(s) => s
    case JArray(items) =>
      JoinWithCommas(seq(|items|, i requires 0 <= i < |items| =>
        if items[i].JNull? then "" else ToStr(items[i])))
    case JObject(_) => "[object Object]"
  }

  /** `Number(v)`; None is `undefined`. Arrays and objects go through
      their string form. */
  function ToNumber(v: Option<Json>): NumVal {
    match v
    case None => NaN
    case Some(JNull) => Finite(0)
    case Some(JBool(b)) => Finite(if b then 1 else 0)
    case Some(JNumber(n)) => Finite(n)
    case Some(JString(s)) => StringToNumber(s)
    case Some(JArray(_)) => StringToNumber(ToStr(v.value))
    case Some(JObject(_)) => NaN
  }

  lemma {:induction false} DigitsOfNatToString(n: nat)
    ensures DigitsValue(NatToString(n)) == n
    decreases n
  {
    var s := NatToString(n);
    if n >= 10 {
      DigitsOfNatToString(n / 10);
      assert s[..|s| - 1] == NatToString(n / 10);
    }
  }

  lemma TrimUnspaced(s: string)
    requires s != [] && !IsSpace(s[0]) && !IsSpace(s[|s| - 1])
    ensures Trim(s) == s
  {
  }

  /** `Number(String(n)) == n` for every integer. */
  lemma StringToNumberOfIntToString(n: int)
    ensures StringToNumber(IntToString(n)) == Finite(n)
  {
    var s := IntToString(n);
    if n < 0 {
      var digits := NatToString(-n);
      DigitsOfNatToString(-n);
      assert s == "-" + digits;
      assert s[1..] == digits;
      assert s[|s| - 1] == digits[|digits| - 1];
      TrimUnspaced(s);
      assert !AllDigits(s) by { assert s[0] == '-'; }
    } else {
      DigitsOfNatToString(n);
      TrimUnspaced(s);
    }
  }
}
