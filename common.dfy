/** Shared vocabulary of the property-management core: optional values,
    results with the error kinds the services raise, the property-type
    enumeration and the small string helpers the comparisons need. */
module Common {

  datatype Option<+T> = None | Some(value: T) {
    function GetOr(default: T): T {
      match this
      case Some(v) => v
      case None => default
    }
  }

  /** The exceptions the services throw, as values. */
  datatype Error =
    | NotFound            // NotFoundException
    | Conflict            // ConflictException
    | MalformedResponse   // JSON.parse rejected the completion text
    | NullAccess          // a property read on a JSON `null` (TypeError)
    | EmptyCompletion     // the completion carried no content
    | TransportFailure    // the completion call or the store failed

  datatype Result<+T> = Success(value: T) | Failure(error: Error)

  /** The `PropertyType` enumeration: `office`, `warehouse`, `retail`. */
  datatype PropertyType = Office | Warehouse | Retail

  /** The string value of each enumeration member. */
  function TypeName(t: PropertyType): (s: string)
    ensures |s| > 0
  {
    match t
    case Office => "office"
    case Warehouse => "warehouse"
    case Retail => "retail"
  }

  lemma TypeNameInjective(t: PropertyType, u: PropertyType)
    ensures TypeName(t) == TypeName(u) <==> t == u
  {
  }

  type PropertyId = nat
  type FeatureId = nat

  /** ASCII lower-casing of one character. */
  function LowerChar(c: char): (d: char)
    ensures 'A' <= c <= 'Z' ==> d as int == c as int + 32
    ensures !('A' <= c <= 'Z') ==> d == c
  {
    if 'A' <= c <= 'Z' then (c as int + 32) as char else c
  }

  /** ASCII `toLowerCase`. */
  function ToLower(s: string): (r: string)
    ensures |r| == |s|
    ensures forall i :: 0 <= i < |s| ==> r[i] == LowerChar(s[i])
  {
    seq(|s|, i requires 0 <= i < |s| => LowerChar(s[i]))
  }

  lemma {:induction false} ToLowerIdempotent(s: string)
    ensures ToLower(ToLower(s)) == ToLower(s)
  {
    var l := ToLower(s);
    var ll := ToLower(l);
    assert forall i :: 0 <= i < |s| ==> ll[i] == l[i];
  }

  /** A string without upper-case letters is its own lower-case form. */
  lemma ToLowerOfLower(s: string)
    requires forall i :: 0 <= i < |s| ==> !('A' <= s[i] <= 'Z')
    ensures ToLower(s) == s
  {
  }

  /** `needle` occurs as a contiguous piece of `hay`. */
  predicate ContainsSubstring(hay: string, needle: string) {
    exists i :: 0 <= i <= |hay| && needle <= hay[i..]
  }
}
