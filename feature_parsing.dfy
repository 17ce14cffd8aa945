/** The response normalizer (`property-feature.utils.ts`): a loosely typed
    JSON answer of the completion service becomes a typed extraction. */
module FeatureParsing {
  import opened Common
  import opened JsValues

  /** `LlmAnalysisResult`: one note's extraction. `None` is `undefined`. */
  datatype Extraction = Extraction(
    nearSubway: Option<bool>,
    needsRenovation: Option<bool>,
    estimatedCapacityPeople: int,
    recommendedUse: Option<PropertyType>)

  /** `Object.values(PropertyType).includes(name)`, answering the member. */
  function TypeNamed(name: string): (r: Option<PropertyType>)
    ensures r.Some? ==> TypeName(r.value) == name
    ensures r.None? ==> forall t :: TypeName(t) != name
  {
    if name == "office" then Some(Office)
    else if name == "warehouse" then Some(Warehouse)
    else if name == "retail" then Some(Retail)
    else None
  }

  /** `parsePropertyType`: falsy values are unset; any other value is
      converted to a string, lower-cased and looked up among the members. */
  function ParsePropertyType(value: Option<Json>): (r: Option<PropertyType>)
    ensures !Truthy(value) ==> r == None
    ensures r.Some? ==> Truthy(value) && TypeName(r.value) == ToLower(ToStr(value.value))
    ensures Truthy(value) ==>
      forall t :: TypeName(t) == ToLower(ToStr(value.value)) ==> r == Some(t)
  {
    if !Truthy(value) then None
    else TypeNamed(ToLower(ToStr(value.value)))
  }

  /** `x === null ? undefined : Boolean(x)`. */
  function BooleanField(value: Option<Json>): (r: Option<bool>)
    ensures r.None? <==> value == Some(JNull)
    ensures r.Some? ==> (r.value <==> Truthy(value))
  {
    if value == Some(JNull) then None else Some(Truthy(value))
  }

  /** `Number(x) || 0`. */
  function CapacityField(value: Option<Json>): (r: int)
    ensures ToNumber(value).NaN? ==> r == 0
    ensures ToNumber(value).Finite? ==> r == ToNumber(value).n
  {
    match ToNumber(value)
    case NaN => 0
    case Finite(n) => if n != 0 then n else 0
  }

  /** `parsePropertyFeatureResponse`: text that is not JSON is an error, and
      so is the JSON `null` (reading a property of it throws); every other
      value gives a full extraction, field by field. */
  function ParsePropertyFeatureResponse(content: Content): (r: Result<Extraction>)
    ensures content.Malformed? ==> r == Failure(MalformedResponse)
    ensures content == Parsed(JNull) ==> r == Failure(NullAccess)
    ensures r.Success? <==> content.Parsed? && !content.value.JNull?
    ensures r.Success? ==>
      var parsed := content.value;
      && r.value.nearSubway == BooleanField(Get(parsed, "nearSubway"))
      && r.value.needsRenovation == BooleanField(Get(parsed, "needsRenovation"))
      && r.value.estimatedCapacityPeople == CapacityField(Get(parsed, "estimatedCapacityPeople"))
      && r.value.recommendedUse == ParsePropertyType(Get(parsed, "recommendedUse"))
  {
    match content
    case Malformed => Failure(MalformedResponse)
    case Parsed(parsed) =>
      if parsed.JNull? then Failure(NullAccess)
      else Success(Extraction(
        BooleanField(Get(parsed, "nearSubway")),
        BooleanField(Get(parsed, "needsRenovation")),
        CapacityField(Get(parsed, "estimatedCapacityPeople")),
        ParsePropertyType(Get(parsed, "recommendedUse"))))
  }

  /** Matching ignores case: a string and its lower-cased form parse alike. */
  lemma ParsePropertyTypeIgnoresCase(s: string)
    ensures ParsePropertyType(Some(JString(s))) == ParsePropertyType(Some(JString(ToLower(s))))
  {
    ToLowerIdempotent(s);
  }

  /** Every member's own name, and its upper-case spelling, parse to it. */
  lemma ParsePropertyTypeNames(t: PropertyType)
    ensures ParsePropertyType(Some(JString(TypeName(t)))) == Some(t)
    ensures ParsePropertyType(Some(JString("OFFICE"))) == Some(Office)
  {
    var upper := ToLower("OFFICE");
    assert upper == "office" by {
      assert |upper| == 6;
      assert upper[0] == 'o' && upper[1] == 'f' && upper[2] == 'f';
      assert upper[3] == 'i' && upper[4] == 'c' && upper[5] == 'e';
    }
    ToLowerOfLower(TypeName(t));
  }

  /** An unknown string is unset, and so are the falsy values. */
  lemma ParsePropertyTypeRejects()
    ensures ParsePropertyType(Some(JString("invalid_type"))) == None
    ensures ParsePropertyType(None) == None
    ensures ParsePropertyType(Some(JNull)) == None
    ensures ParsePropertyType(Some(JString(""))) == None
    ensures ParsePropertyType(Some(JNumber(0))) == None
    ensures ParsePropertyType(Some(JBool(false))) == None
  {
    ToLowerOfLower("invalid_type");
  }

  /** A missing key is `false`, while the string "false" is truthy. */
  lemma BooleanFieldCoercions()
    ensures BooleanField(None) == Some(false)
    ensures BooleanField(Some(JString("false"))) == Some(true)
    ensures BooleanField(Some(JString("true"))) == Some(true)
    ensures BooleanField(Some(JNumber(0))) == Some(false)
  {
  }

  /** The boolean fields for every kind of value: null is unset, a missing
      key is false, and everything else is its truthiness (a string is true
      unless empty, a number unless 0, arrays and objects always). */
  lemma BooleanFieldMeaning(value: Option<Json>)
    ensures value.None? ==> BooleanField(value) == Some(false)
    ensures value == Some(JNull) ==> BooleanField(value) == None
    ensures value.Some? && value.value.JBool? ==> BooleanField(value) == Some(value.value.b)
    ensures value.Some? && value.value.JString? ==> BooleanField(value) == Some(value.value.s != "")
    ensures value.Some? && value.value.JNumber? ==> BooleanField(value) == Some(value.value.n != 0)
    ensures value.Some? && (value.value.JArray? || value.value.JObject?) ==> BooleanField(value) == Some(true)
  {
  }

  predicate Letter(c: char) {
    'a' <= c <= 'z' || 'A' <= c <= 'Z'
  }

  /** Trimming a string that starts with a non-space keeps that first
      character. */
  lemma {:induction false} TrimKeepsFirst(s: string)
    requires s != [] && !IsSpace(s[0])
    ensures Trim(s) != [] && Trim(s)[0] == s[0]
    decreases |s|
  {
    if IsSpace(s[|s| - 1]) {
      var init := s[..|s| - 1];
      assert init[0] == s[0];
      TrimKeepsFirst(init);
    }
  }

  /** The capacity for every kind of value: missing and null are 0, a
      number is kept, a boolean is 1 or 0, the decimal form of any integer
      is that integer, and a string starting with a letter, an object or a
      key the answer lacks is 0. */
  lemma CapacityFieldMeaning(value: Option<Json>)
    ensures value.None? || value == Some(JNull) ==> CapacityField(value) == 0
    ensures value.Some? && value.value.JNumber? ==> CapacityField(value) == value.value.n
    ensures value == Some(JBool(true)) ==> CapacityField(value) == 1
    ensures value == Some(JBool(false)) ==> CapacityField(value) == 0
    ensures value.Some? && value.value.JObject? ==> CapacityField(value) == 0
    ensures forall n :: value == Some(JString(IntToString(n))) ==> CapacityField(value) == n
    ensures value.Some? && value.value.JString? && value.value.s != [] && Letter(value.value.s[0]) ==>
      CapacityField(value) == 0
  {
    forall n | value == Some(JString(IntToString(n))) ensures CapacityField(value) == n {
      StringToNumberOfIntToString(n);
    }
    if value.Some? && value.value.JString? && value.value.s != [] && Letter(value.value.s[0]) {
      var t := value.value.s;
      TrimKeepsFirst(t);
      assert !AllDigits(Trim(t)) by { assert !('0' <= Trim(t)[0] <= '9'); }
    }
  }

  /** What the normalizer makes of any parsed answer that is not null: null
      booleans are unset and missing ones false (every key is missing when
      the answer is not an object), a missing or null capacity is 0, a
      number is kept, and any casing of a type name gives that type while
      a falsy or unknown value is unset. */
  lemma ParseResponseFields(parsed: Json)
    ensures ParsePropertyFeatureResponse(Parsed(parsed)).Success? <==> !parsed.JNull?
    ensures !parsed.JNull? ==>
      var e := ParsePropertyFeatureResponse(Parsed(parsed)).value;
      var near := Get(parsed, "nearSubway");
      var renovation := Get(parsed, "needsRenovation");
      var capacity := Get(parsed, "estimatedCapacityPeople");
      var use := Get(parsed, "recommendedUse");
      && (near.None? ==> e.nearSubway == Some(false))
      && (near == Some(JNull) ==> e.nearSubway == None)
      && (near.Some? && near.value.JString? ==> e.nearSubway == Some(near.value.s != ""))
      && (renovation.None? ==> e.needsRenovation == Some(false))
      && (renovation == Some(JNull) ==> e.needsRenovation == None)
      && (renovation.Some? && renovation.value.JString? ==> e.needsRenovation == Some(renovation.value.s != ""))
      && (capacity.None? || capacity == Some(JNull) ==> e.estimatedCapacityPeople == 0)
      && (capacity.Some? && capacity.value.JNumber? ==> e.estimatedCapacityPeople == capacity.value.n)
      && (forall n :: capacity == Some(JString(IntToString(n))) ==> e.estimatedCapacityPeople == n)
      && (forall t, s :: use == Some(JString(s)) && ToLower(s) == TypeName(t) ==> e.recommendedUse == Some(t))
      && (!Truthy(use) ==> e.recommendedUse == None)
      && (!parsed.JObject? ==> e == Extraction(Some(false), Some(false), 0, None))
  {
    if !parsed.JNull? {
      BooleanFieldMeaning(Get(parsed, "nearSubway"));
      BooleanFieldMeaning(Get(parsed, "needsRenovation"));
      CapacityFieldMeaning(Get(parsed, "estimatedCapacityPeople"));
    }
  }

  /** Null, missing and non-numeric capacities are 0; "50" is 50. */
  lemma CapacityFieldCoercions()
    ensures CapacityField(Some(JNull)) == 0
    ensures CapacityField(None) == 0
    ensures CapacityField(Some(JString("many"))) == 0
    ensures CapacityField(Some(JString("50"))) == 50
    ensures CapacityField(Some(JNumber(20))) == 20
  {
    assert Trim("50") == "50";
    assert DigitsValue("50") == 50 by {
      assert "50"[..1] == "5";
      assert DigitsValue("5") == 5 by { assert "5"[..0] == ""; }
    }
    assert Trim("many") == "many";
    assert !AllDigits("many") by { assert !('0' <= "many"[0] <= '9'); }
  }
}
