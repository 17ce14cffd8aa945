/** The ranking engine behind `PropertyService.findAll` and
    `rankProperties`: the hard filters a query applies, the soft fields a
    candidate is compared on, the 0..10 score and the stable sort by score.
    Prices and areas are exact numbers of hundredths (the columns are
    decimals with two places). */
module Ranking {
  import opened Common
  import opened JsValues
  import opened FeatureParsing
  import opened FeatureService
  import opened Aggregation
  import opened Llm

  /** A `Property` row. */
  datatype Property = Property(
    id: PropertyId,
    title: string,
    city: string,
    neighborhood: string,
    price: int,
    areaM2: int,
    propertyType: PropertyType)

  /** The feature joined to a property (`LEFT JOIN` on the property id). */
  function FeatureOf(features: map<PropertyId, FeatureRecord>, id: PropertyId): (r: Option<FeatureRecord>)
    ensures r.Some? <==> id in features
    ensures r.Some? ==> r.value == features[id]
  {
    if id in features then Some(features[id]) else None
  }

  // ---------------------------------------------------------------------
  // Hard filters

  /** The two numeric columns a range can bound. */
  datatype Column = Price | Area

  function ColumnValue(p: Property, column: Column): int {
    match column
    case Price => p.price
    case Area => p.areaM2
  }

  /** One `andWhere` clause of the query builder. Bounds are hundredths;
      `NaN` is the bound `Number` makes of a non-numeric value. */
  datatype Condition =
    | CityLike(pattern: string)          // LOWER(city) LIKE LOWER('%pattern%')
    | NeighborhoodLike(pattern: string)
    | TypeIs(value: Json)                // property_type = :value
    | AtLeastBound(column: Column, bound: NumVal)
    | AtMostBound(column: Column, bound: NumVal)
    | FeatureNearSubway(b: bool)         // feature.near_subway = :b
    | FeatureNeedsRenovation(b: bool)
    | FeatureUse(use: PropertyType)

  /** `column >= bound` in SQL: a numeric NaN is above every number. */
  predicate AtLeast(x: int, bound: NumVal) {
    bound.Finite? && x >= bound.n
  }

  /** `column <= bound` in SQL. */
  predicate AtMost(x: int, bound: NumVal) {
    bound.NaN? || x <= bound.n
  }

  /** A `varchar` column compared with a bound parameter: only a string
      parameter with exactly the column's text is equal to it. */
  predicate TextEquals(column: string, value: Json) {
    value == JString(column)
  }

  /** Whether a property (with its joined feature, if any) passes one
      clause; a comparison with a missing feature is false. */
  predicate Satisfies(p: Property, feature: Option<FeatureRecord>, c: Condition) {
    match c
    case CityLike(pattern) => ContainsSubstring(ToLower(p.city), ToLower(pattern))
    case NeighborhoodLike(pattern) => ContainsSubstring(ToLower(p.neighborhood), ToLower(pattern))
    case TypeIs(value) => TextEquals(TypeName(p.propertyType), value)
    case AtLeastBound(column, bound) => AtLeast(ColumnValue(p, column), bound)
    case AtMostBound(column, bound) => AtMost(ColumnValue(p, column), bound)
    case FeatureNearSubway(b) => feature.Some? && feature.value.nearSubway == b
    case FeatureNeedsRenovation(b) => feature.Some? && feature.value.needsRenovation == b
    case FeatureUse(use) => feature.Some? && feature.value.recommendedUse == Some(use)
  }

  predicate SatisfiesAll(p: Property, feature: Option<FeatureRecord>, conditions: seq<Condition>) {
    forall c :: c in conditions ==> Satisfies(p, feature, c)
  }

  /** `query.getMany()`: the rows passing every clause, in table order. */
  function Candidates(rows: seq<Property>, features: map<PropertyId, FeatureRecord>,
                      conditions: seq<Condition>): seq<Property>
  {
    if rows == [] then []
    else
      var last := rows[|rows| - 1];
      Candidates(rows[..|rows| - 1], features, conditions)
        + (if SatisfiesAll(last, FeatureOf(features, last.id), conditions) then [last] else [])
  }

  lemma {:induction false} CandidatesMembers(rows: seq<Property>, features: map<PropertyId, FeatureRecord>,
                                             conditions: seq<Condition>, p: Property)
    ensures p in Candidates(rows, features, conditions) <==>
      p in rows && SatisfiesAll(p, FeatureOf(features, p.id), conditions)
  {
    if rows != [] {
      CandidatesMembers(rows[..|rows| - 1], features, conditions, p);
      assert rows == rows[..|rows| - 1] + [rows[|rows| - 1]];
    }
  }

  /** `a` is `b` with some of its elements left out, the rest in order. */
  predicate SubsequenceOf<T(==)>(a: seq<T>, b: seq<T>)
    decreases |b|
  {
    if b == [] then a == []
    else
      SubsequenceOf(a, b[..|b| - 1])
      || (a != [] && a[|a| - 1] == b[|b| - 1] && SubsequenceOf(a[..|a| - 1], b[..|b| - 1]))
  }

  lemma {:induction false} SubsequenceLength<T>(a: seq<T>, b: seq<T>)
    requires SubsequenceOf(a, b)
    ensures |a| <= |b|
    decreases |b|
  {
    if b != [] {
      if SubsequenceOf(a, b[..|b| - 1]) {
        SubsequenceLength(a, b[..|b| - 1]);
      } else {
        SubsequenceLength(a[..|a| - 1], b[..|b| - 1]);
      }
    }
  }

  /** The query only drops rows: the candidates keep the table's order and
      repeat no row. */
  lemma {:induction false} CandidatesSubsequence(rows: seq<Property>, features: map<PropertyId, FeatureRecord>,
                                                 conditions: seq<Condition>)
    ensures SubsequenceOf(Candidates(rows, features, conditions), rows)
    ensures |Candidates(rows, features, conditions)| <= |rows|
  {
    var c := Candidates(rows, features, conditions);
    if rows != [] {
      var init := rows[..|rows| - 1];
      var last := rows[|rows| - 1];
      CandidatesSubsequence(init, features, conditions);
      if SatisfiesAll(last, FeatureOf(features, last.id), conditions) {
        assert c == Candidates(init, features, conditions) + [last];
        assert c[..|c| - 1] == Candidates(init, features, conditions);
        assert c[|c| - 1] == last;
      } else {
        assert c == Candidates(init, features, conditions);
      }
    }
    SubsequenceLength(c, rows);
  }

  /** A JSON number as hundredths. */
  function Hundredths(v: NumVal): NumVal {
    match v
    case NaN => NaN
    case Finite(n) => Finite(100 * n)
  }

  function MinKey(column: Column): string {
    match column
    case Price => "minPrice"
    case Area => "minArea"
  }

  function MaxKey(column: Column): string {
    match column
    case Price => "maxPrice"
    case Area => "maxArea"
  }

  /** The range counts when either end is truthy. */
  predicate RangeCounted(filters: Json, column: Column) {
    Truthy(Get(filters, MinKey(column))) || Truthy(Get(filters, MaxKey(column)))
  }

  /** The clauses of a counted range: a comparison for each end that is
      neither null nor missing. */
  function RangeConditions(filters: Json, column: Column): seq<Condition> {
    var lo := Get(filters, MinKey(column));
    var hi := Get(filters, MaxKey(column));
    if RangeCounted(filters, column) then
      (if NotNullish(lo) then [AtLeastBound(column, Hundredths(ToNumber(lo)))] else [])
        + (if NotNullish(hi) then [AtMostBound(column, Hundredths(ToNumber(hi)))] else [])
    else []
  }

  /** The clauses for the city, neighborhood and type filters. */
  function NamedConditions(filters: Json): seq<Condition> {
    var city := Get(filters, "city");
    var neighborhood := Get(filters, "neighborhood");
    var propertyType := Get(filters, "propertyType");
    (if Truthy(city) then [CityLike(ToStr(city.value))] else [])
      + (if Truthy(neighborhood) then [NeighborhoodLike(ToStr(neighborhood.value))] else [])
      + (if Truthy(propertyType) then [TypeIs(propertyType.value)] else [])
  }

  /** The clauses `rankProperties` adds for the parsed search filters. */
  function HardConditions(filters: Json): seq<Condition> {
    NamedConditions(filters) + RangeConditions(filters, Price) + RangeConditions(filters, Area)
  }

  /** How many of the city, neighborhood and type filters are truthy. */
  function NamedFilterCount(filters: Json): (n: nat)
    ensures n <= 3
  {
    (if Truthy(Get(filters, "city")) then 1 else 0)
      + (if Truthy(Get(filters, "neighborhood")) then 1 else 0)
      + (if Truthy(Get(filters, "propertyType")) then 1 else 0)
  }

  /** `propertyFields`: one per truthy city, neighborhood and type, one per
      range with a truthy end. */
  function HardFilterCount(filters: Json): (n: nat)
    ensures n <= 5
  {
    NamedFilterCount(filters)
      + (if RangeCounted(filters, Price) then 1 else 0)
      + (if RangeCounted(filters, Area) then 1 else 0)
  }

  /** A counted range read directly: each end that is set bounds the
      column, inclusively. */
  predicate MeetsRange(p: Property, filters: Json, column: Column) {
    var lo := Get(filters, MinKey(column));
    var hi := Get(filters, MaxKey(column));
    RangeCounted(filters, column) ==>
      && (NotNullish(lo) ==> AtLeast(ColumnValue(p, column), Hundredths(ToNumber(lo))))
      && (NotNullish(hi) ==> AtMost(ColumnValue(p, column), Hundredths(ToNumber(hi))))
  }

  /** The search filters read directly: what a candidate of
      `rankProperties` must be. */
  predicate MeetsSearch(p: Property, filters: Json) {
    var city := Get(filters, "city");
    var neighborhood := Get(filters, "neighborhood");
    var propertyType := Get(filters, "propertyType");
    && (Truthy(city) ==> ContainsSubstring(ToLower(p.city), ToLower(ToStr(city.value))))
    && (Truthy(neighborhood) ==>
          ContainsSubstring(ToLower(p.neighborhood), ToLower(ToStr(neighborhood.value))))
    && (Truthy(propertyType) ==> propertyType.value == JString(TypeName(p.propertyType)))
    && MeetsRange(p, filters, Price)
    && MeetsRange(p, filters, Area)
  }

  lemma SatisfiesAllAppend(p: Property, feature: Option<FeatureRecord>, a: seq<Condition>, b: seq<Condition>)
    ensures SatisfiesAll(p, feature, a + b) <==> SatisfiesAll(p, feature, a) && SatisfiesAll(p, feature, b)
  {
    assert forall c :: c in a + b <==> c in a || c in b;
  }

  /** The clause for one optional filter holds exactly when the filter is
      off or the clause holds. */
  lemma SatisfiesOptional(p: Property, feature: Option<FeatureRecord>, on: bool, c: Condition)
    ensures SatisfiesAll(p, feature, if on then [c] else []) <==> (on ==> Satisfies(p, feature, c))
  {
    if on {
      assert c in [c];
    }
  }

  lemma RangeConditionsMeaning(p: Property, feature: Option<FeatureRecord>, filters: Json, column: Column)
    ensures SatisfiesAll(p, feature, RangeConditions(filters, column)) <==> MeetsRange(p, filters, column)
  {
    var lo := Get(filters, MinKey(column));
    var hi := Get(filters, MaxKey(column));
    if RangeCounted(filters, column) {
      var a := if NotNullish(lo) then [AtLeastBound(column, Hundredths(ToNumber(lo)))] else [];
      var b := if NotNullish(hi) then [AtMostBound(column, Hundredths(ToNumber(hi)))] else [];
      SatisfiesAllAppend(p, feature, a, b);
      SatisfiesOptional(p, feature, NotNullish(lo), AtLeastBound(column, Hundredths(ToNumber(lo))));
      SatisfiesOptional(p, feature, NotNullish(hi), AtMostBound(column, Hundredths(ToNumber(hi))));
    }
  }

  /** The clauses of a search hold exactly when the filters do. */
  lemma HardConditionsMeaning(p: Property, feature: Option<FeatureRecord>, filters: Json)
    ensures SatisfiesAll(p, feature, HardConditions(filters)) <==> MeetsSearch(p, filters)
  {
    var city := Get(filters, "city");
    var neighborhood := Get(filters, "neighborhood");
    var propertyType := Get(filters, "propertyType");
    var a := if Truthy(city) then [CityLike(ToStr(city.value))] else [];
    var b := if Truthy(neighborhood) then [NeighborhoodLike(ToStr(neighborhood.value))] else [];
    var c := if Truthy(propertyType) then [TypeIs(propertyType.value)] else [];
    var d := RangeConditions(filters, Price);
    var e := RangeConditions(filters, Area);
    assert NamedConditions(filters) == a + b + c;
    assert HardConditions(filters) == a + b + c + d + e;
    SatisfiesAllAppend(p, feature, a, b);
    SatisfiesAllAppend(p, feature, a + b, c);
    SatisfiesAllAppend(p, feature, a + b + c, d);
    SatisfiesAllAppend(p, feature, a + b + c + d, e);
    if Truthy(city) {
      SatisfiesOptional(p, feature, true, CityLike(ToStr(city.value)));
    }
    if Truthy(neighborhood) {
      SatisfiesOptional(p, feature, true, NeighborhoodLike(ToStr(neighborhood.value)));
    }
    if Truthy(propertyType) {
      SatisfiesOptional(p, feature, true, TypeIs(propertyType.value));
    }
    RangeConditionsMeaning(p, feature, filters, Price);
    RangeConditionsMeaning(p, feature, filters, Area);
  }

  /** A range whose ends are both falsy (a minimum of 0 and no maximum,
      say) is neither counted nor applied: the column does not matter. */
  lemma FalsyRangeIgnored(filters: Json, column: Column, p: Property)
    requires !Truthy(Get(filters, MinKey(column))) && !Truthy(Get(filters, MaxKey(column)))
    ensures RangeConditions(filters, column) == []
    ensures MeetsRange(p, filters, column)
  {
  }

  /** Typed filters of `findAll`; `None` is an absent query parameter and
      bounds are hundredths. */
  datatype PropertyFilter = PropertyFilter(
    city: Option<string>,
    neighborhood: Option<string>,
    propertyType: Option<PropertyType>,
    minPrice: Option<int>,
    maxPrice: Option<int>,
    minArea: Option<int>,
    maxArea: Option<int>,
    nearSubway: Option<bool>,
    needsRenovation: Option<bool>,
    recommendedUse: Option<PropertyType>)

  /** The clauses `findAll` may add, each with whether it is added:
      strings when non-empty, enumerations when given, bounds and feature
      flags whenever they are defined. */
  function FilterPieces(f: PropertyFilter): seq<(bool, Condition)> {
    [ (f.city.Some? && f.city.value != "", CityLike(f.city.GetOr(""))),
      (f.neighborhood.Some? && f.neighborhood.value != "", NeighborhoodLike(f.neighborhood.GetOr(""))),
      (f.propertyType.Some?, TypeIs(JString(TypeName(f.propertyType.GetOr(Office))))),
      (f.minPrice.Some?, AtLeastBound(Price, Finite(f.minPrice.GetOr(0)))),
      (f.maxPrice.Some?, AtMostBound(Price, Finite(f.maxPrice.GetOr(0)))),
      (f.minArea.Some?, AtLeastBound(Area, Finite(f.minArea.GetOr(0)))),
      (f.maxArea.Some?, AtMostBound(Area, Finite(f.maxArea.GetOr(0)))),
      (f.nearSubway.Some?, FeatureNearSubway(f.nearSubway.GetOr(false))),
      (f.needsRenovation.Some?, FeatureNeedsRenovation(f.needsRenovation.GetOr(false))),
      (f.recommendedUse.Some?, FeatureUse(f.recommendedUse.GetOr(Office))) ]
  }

  /** The clauses `findAll` adds, in order. */
  function FilterConditions(f: PropertyFilter): seq<Condition> {
    Optionals(FilterPieces(f))
  }

  /** The clauses of a list of optional filters, in order. */
  function Optionals(pieces: seq<(bool, Condition)>): seq<Condition> {
    if pieces == [] then []
    else
      Optionals(pieces[..|pieces| - 1])
        + (if pieces[|pieces| - 1].0 then [pieces[|pieces| - 1].1] else [])
  }

  lemma {:induction false} OptionalsMeaning(p: Property, feature: Option<FeatureRecord>,
                                            pieces: seq<(bool, Condition)>)
    ensures SatisfiesAll(p, feature, Optionals(pieces)) <==>
      forall i :: 0 <= i < |pieces| && pieces[i].0 ==> Satisfies(p, feature, pieces[i].1)
  {
    if pieces != [] {
      var init := pieces[..|pieces| - 1];
      var last := pieces[|pieces| - 1];
      OptionalsMeaning(p, feature, init);
      SatisfiesAllAppend(p, feature, Optionals(init), if last.0 then [last.1] else []);
      SatisfiesOptional(p, feature, last.0, last.1);
      assert forall i :: 0 <= i < |init| ==> init[i] == pieces[i];
    }
  }

  /** The typed filters read directly. */
  predicate MeetsFilter(p: Property, feature: Option<FeatureRecord>, f: PropertyFilter) {
    && (f.city.Some? && f.city.value != "" ==> ContainsSubstring(ToLower(p.city), ToLower(f.city.value)))
    && (f.neighborhood.Some? && f.neighborhood.value != "" ==>
          ContainsSubstring(ToLower(p.neighborhood), ToLower(f.neighborhood.value)))
    && (f.propertyType.Some? ==> p.propertyType == f.propertyType.value)
    && (f.minPrice.Some? ==> p.price >= f.minPrice.value)
    && (f.maxPrice.Some? ==> p.price <= f.maxPrice.value)
    && (f.minArea.Some? ==> p.areaM2 >= f.minArea.value)
    && (f.maxArea.Some? ==> p.areaM2 <= f.maxArea.value)
    && (f.nearSubway.Some? ==> feature.Some? && feature.value.nearSubway == f.nearSubway.value)
    && (f.needsRenovation.Some? ==> feature.Some? && feature.value.needsRenovation == f.needsRenovation.value)
    && (f.recommendedUse.Some? ==> feature.Some? && feature.value.recommendedUse == f.recommendedUse)
  }

  /** The `i`-th conjunct of `MeetsFilter`. */
  predicate FilterClause(p: Property, feature: Option<FeatureRecord>, f: PropertyFilter, i: nat) {
    if i == 0 then f.city.Some? && f.city.value != "" ==> ContainsSubstring(ToLower(p.city), ToLower(f.city.value))
    else if i == 1 then f.neighborhood.Some? && f.neighborhood.value != "" ==>
      ContainsSubstring(ToLower(p.neighborhood), ToLower(f.neighborhood.value))
    else if i == 2 then f.propertyType.Some? ==> p.propertyType == f.propertyType.value
    else if i == 3 then f.minPrice.Some? ==> p.price >= f.minPrice.value
    else if i == 4 then f.maxPrice.Some? ==> p.price <= f.maxPrice.value
    else if i == 5 then f.minArea.Some? ==> p.areaM2 >= f.minArea.value
    else if i == 6 then f.maxArea.Some? ==> p.areaM2 <= f.maxArea.value
    else if i == 7 then f.nearSubway.Some? ==> feature.Some? && feature.value.nearSubway == f.nearSubway.value
    else if i == 8 then f.needsRenovation.Some? ==>
      feature.Some? && feature.value.needsRenovation == f.needsRenovation.value
    else f.recommendedUse.Some? ==> feature.Some? && feature.value.recommendedUse == f.recommendedUse
  }

  /** One added clause holding, or not being added, gives its conjunct. */
  lemma PieceMeetsClause(p: Property, feature: Option<FeatureRecord>, f: PropertyFilter, i: nat)
    requires i < |FilterPieces(f)|
    requires FilterPieces(f)[i].0 ==> Satisfies(p, feature, FilterPieces(f)[i].1)
    ensures FilterClause(p, feature, f, i)
  {
    if i == 2 && f.propertyType.Some? {
      TypeNameInjective(p.propertyType, f.propertyType.value);
    }
  }

  /** Every added clause holding means the typed filters hold. */
  lemma PiecesMeetFilter(p: Property, feature: Option<FeatureRecord>, f: PropertyFilter)
    requires forall i :: 0 <= i < |FilterPieces(f)| && FilterPieces(f)[i].0 ==>
      Satisfies(p, feature, FilterPieces(f)[i].1)
    ensures MeetsFilter(p, feature, f)
  {
    PieceMeetsClause(p, feature, f, 0);
    PieceMeetsClause(p, feature, f, 1);
    PieceMeetsClause(p, feature, f, 2);
    PieceMeetsClause(p, feature, f, 3);
    PieceMeetsClause(p, feature, f, 4);
    PieceMeetsClause(p, feature, f, 5);
    PieceMeetsClause(p, feature, f, 6);
    PieceMeetsClause(p, feature, f, 7);
    PieceMeetsClause(p, feature, f, 8);
    PieceMeetsClause(p, feature, f, 9);
    assert FilterClause(p, feature, f, 0) && FilterClause(p, feature, f, 1) && FilterClause(p, feature, f, 2)
      && FilterClause(p, feature, f, 3) && FilterClause(p, feature, f, 4) && FilterClause(p, feature, f, 5)
      && FilterClause(p, feature, f, 6) && FilterClause(p, feature, f, 7) && FilterClause(p, feature, f, 8)
      && FilterClause(p, feature, f, 9);
  }

  /** The typed filters holding means every added clause holds. */
  lemma FilterMeetsPieces(p: Property, feature: Option<FeatureRecord>, f: PropertyFilter, i: nat)
    requires MeetsFilter(p, feature, f)
    requires i < |FilterPieces(f)| && FilterPieces(f)[i].0
    ensures Satisfies(p, feature, FilterPieces(f)[i].1)
  {
    if i == 0 {} else if i == 1 {} else if i == 2 {} else if i == 3 {} else if i == 4 {}
    else if i == 5 {} else if i == 6 {} else if i == 7 {} else if i == 8 {} else {}
  }

  /** The clauses of `findAll` hold exactly when the typed filters do. */
  lemma FilterConditionsMeaning(p: Property, feature: Option<FeatureRecord>, f: PropertyFilter)
    ensures SatisfiesAll(p, feature, FilterConditions(f)) <==> MeetsFilter(p, feature, f)
  {
    var pieces := FilterPieces(f);
    OptionalsMeaning(p, feature, pieces);
    if forall i :: 0 <= i < |pieces| && pieces[i].0 ==> Satisfies(p, feature, pieces[i].1) {
      PiecesMeetFilter(p, feature, f);
    }
    if MeetsFilter(p, feature, f) {
      forall i | 0 <= i < |pieces| && pieces[i].0 ensures Satisfies(p, feature, pieces[i].1) {
        FilterMeetsPieces(p, feature, f, i);
      }
    }
  }

  // ---------------------------------------------------------------------
  // Soft fields and the score

  /** One entry of `relevantFeatures`: a field of the extraction and the
      value expected for it. */
  datatype SoftField =
    | NearSubwayIs(b: bool)
    | NeedsRenovationIs(b: bool)
    | CapacityIs(n: int)
    | UseIs(use: PropertyType)

  /** The defined entries of the extraction, in key order; the capacity
      only when positive. */
  function RelevantFields(e: Extraction): (r: seq<SoftField>)
    ensures |r| <= 4
  {
    (if e.nearSubway.Some? then [NearSubwayIs(e.nearSubway.value)] else [])
      + (if e.needsRenovation.Some? then [NeedsRenovationIs(e.needsRenovation.value)] else [])
      + (if e.estimatedCapacityPeople > 0 then [CapacityIs(e.estimatedCapacityPeople)] else [])
      + (if e.recommendedUse.Some? then [UseIs(e.recommendedUse.value)] else [])
  }

  /** Which entries are relevant, stated per field. */
  lemma RelevantFieldsMembers(e: Extraction)
    ensures var r := RelevantFields(e);
      && (forall b :: NearSubwayIs(b) in r <==> e.nearSubway == Some(b))
      && (forall b :: NeedsRenovationIs(b) in r <==> e.needsRenovation == Some(b))
      && (forall n :: CapacityIs(n) in r <==> n == e.estimatedCapacityPeople && n > 0)
      && (forall t :: UseIs(t) in r <==> e.recommendedUse == Some(t))
  {
    forall x ensures x in RelevantFields(e) <==> RelevantEntry(e, x) {
      RelevantFieldsMember(e, x);
    }
  }

  /** Whether `x` is the entry the extraction yields for its field. */
  predicate RelevantEntry(e: Extraction, x: SoftField) {
    match x
    case NearSubwayIs(b) => e.nearSubway == Some(b)
    case NeedsRenovationIs(b) => e.needsRenovation == Some(b)
    case CapacityIs(n) => n == e.estimatedCapacityPeople && n > 0
    case UseIs(t) => e.recommendedUse == Some(t)
  }

  lemma RelevantFieldsMember(e: Extraction, x: SoftField)
    ensures x in RelevantFields(e) <==> RelevantEntry(e, x)
  {
    var a := if e.nearSubway.Some? then [NearSubwayIs(e.nearSubway.value)] else [];
    var b := if e.needsRenovation.Some? then [NeedsRenovationIs(e.needsRenovation.value)] else [];
    var c := if e.estimatedCapacityPeople > 0 then [CapacityIs(e.estimatedCapacityPeople)] else [];
    var d := if e.recommendedUse.Some? then [UseIs(e.recommendedUse.value)] else [];
    assert RelevantFields(e) == a + b + c + d;
    assert x in a + b + c + d <==> x in a + b + c || x in d;
    assert x in a + b + c <==> x in a + b || x in c;
  }

  /** `property.feature?.[key] === expectedValue`. */
  predicate FieldMatches(feature: Option<FeatureRecord>, f: SoftField) {
    match f
    case NearSubwayIs(b) => feature.Some? && feature.value.nearSubway == b
    case NeedsRenovationIs(b) => feature.Some? && feature.value.needsRenovation == b
    case CapacityIs(n) => feature.Some? && feature.value.estimatedCapacityPeople == Some(n)
    case UseIs(t) => feature.Some? && feature.value.recommendedUse == Some(t)
  }

  /** How many of the fields the feature matches. */
  function SoftMatches(feature: Option<FeatureRecord>, fields: seq<SoftField>): (n: nat)
    ensures n <= |fields|
  {
    if fields == [] then 0
    else
      SoftMatches(feature, fields[..|fields| - 1])
        + (if FieldMatches(feature, fields[|fields| - 1]) then 1 else 0)
  }

  lemma {:induction false} SoftMatchesWithoutFeature(fields: seq<SoftField>)
    ensures SoftMatches(None, fields) == 0
  {
    if fields != [] {
      SoftMatchesWithoutFeature(fields[..|fields| - 1]);
    }
  }

  lemma {:induction false} SoftMatchesAll(feature: Option<FeatureRecord>, fields: seq<SoftField>)
    ensures SoftMatches(feature, fields) == |fields| <==>
      forall i :: 0 <= i < |fields| ==> FieldMatches(feature, fields[i])
  {
    if fields != [] {
      var init := fields[..|fields| - 1];
      SoftMatchesAll(feature, init);
      if forall i :: 0 <= i < |fields| ==> FieldMatches(feature, fields[i]) {
        assert forall i :: 0 <= i < |init| ==> init[i] == fields[i];
      } else if SoftMatches(feature, fields) == |fields| {
        assert SoftMatches(feature, init) == |init|;
        assert forall i :: 0 <= i < |init| ==> init[i] == fields[i];
      }
    }
  }

  /** `Math.round((matchCount / totalFields) * 10)`, 0 without fields. */
  function Score(matchCount: nat, totalFields: nat): int {
    if totalFields > 0 then RoundHalfUp(10 * matchCount, totalFields) else 0
  }

  /** Scores lie in 0..10; matching every field scores 10. */
  lemma ScoreBounds(matchCount: nat, totalFields: nat)
    requires matchCount <= totalFields
    ensures 0 <= Score(matchCount, totalFields) <= 10
    ensures 0 < totalFields && matchCount == totalFields ==> Score(matchCount, totalFields) == 10
  {
    if totalFields > 0 {
      var r := Score(matchCount, totalFields);
      if r < 0 {
        MultiplyMonotone(totalFields, 2 * r + 1, -1);
      }
      if r > 10 {
        MultiplyMonotone(totalFields, 21, 2 * r - 1);
      }
      if matchCount == totalFields {
        RoundHalfUpUnique(10 * totalFields, totalFields, 10);
      }
    }
  }

  /** With at most nine fields any mismatch scores below 10. */
  lemma ScoreMismatch(matchCount: nat, totalFields: nat)
    requires matchCount < totalFields <= 9
    ensures Score(matchCount, totalFields) < 10
  {
    var r := Score(matchCount, totalFields);
    if r >= 10 {
      MultiplyMonotone(totalFields, 19, 2 * r - 1);
      assert false;
    }
  }

  lemma ScoreExamples()
    ensures Score(4, 6) == 7
    ensures Score(0, 0) == 0
    ensures Score(1, 4) == 3
  {
    RoundHalfUpUnique(40, 6, 7);
    RoundHalfUpUnique(10, 4, 3);
  }

  /** A candidate with its joined feature and score. */
  datatype ScoredProperty = ScoredProperty(property: Property, feature: Option<FeatureRecord>, score: int)

  /** The map step of `rankProperties` for one candidate. */
  function ScoreOf(p: Property, feature: Option<FeatureRecord>, propertyFields: nat,
                   relevant: seq<SoftField>): ScoredProperty
  {
    ScoredProperty(p, feature,
      Score(propertyFields + SoftMatches(feature, relevant), propertyFields + |relevant|))
  }

  /** The candidates of a search with their scores, before sorting. */
  function ScoreAll(candidates: seq<Property>, features: map<PropertyId, FeatureRecord>,
                    propertyFields: nat, relevant: seq<SoftField>): (r: seq<ScoredProperty>)
    ensures |r| == |candidates|
    ensures forall i :: 0 <= i < |r| ==>
      r[i] == ScoreOf(candidates[i], FeatureOf(features, candidates[i].id), propertyFields, relevant)
  {
    seq(|candidates|, i requires 0 <= i < |candidates| =>
      ScoreOf(candidates[i], FeatureOf(features, candidates[i].id), propertyFields, relevant))
  }

  // ---------------------------------------------------------------------
  // The stable sort by descending score

  predicate NonIncreasing(s: seq<ScoredProperty>) {
    forall i, j :: 0 <= i < j < |s| ==> s[i].score >= s[j].score
  }

  /** `x` placed after every element scoring at least as high. */
  function Insert(x: ScoredProperty, s: seq<ScoredProperty>): seq<ScoredProperty> {
    if s == [] then [x]
    else if s[0].score >= x.score then [s[0]] + Insert(x, s[1..])
    else [x] + s
  }

  /** `Array.prototype.sort` with `(a, b) => b.score - a.score`, which is
      stable. */
  function SortByScore(s: seq<ScoredProperty>): seq<ScoredProperty> {
    if s == [] then [] else Insert(s[|s| - 1], SortByScore(s[..|s| - 1]))
  }

  lemma {:induction false} InsertPermutes(x: ScoredProperty, s: seq<ScoredProperty>)
    ensures multiset(Insert(x, s)) == multiset(s) + multiset{x}
  {
    if s != [] && s[0].score >= x.score {
      InsertPermutes(x, s[1..]);
      assert s == [s[0]] + s[1..];
    }
  }

  lemma {:induction false} InsertSorted(x: ScoredProperty, s: seq<ScoredProperty>)
    requires NonIncreasing(s)
    ensures NonIncreasing(Insert(x, s))
  {
    if s != [] && s[0].score >= x.score {
      var rest := Insert(x, s[1..]);
      InsertSorted(x, s[1..]);
      InsertPermutes(x, s[1..]);
      forall j | 0 <= j < |rest| ensures s[0].score >= rest[j].score {
        assert rest[j] in multiset(rest);
        assert rest[j] in multiset(s[1..]) || rest[j] == x;
        if rest[j] != x {
          var k :| 0 <= k < |s[1..]| && s[1..][k] == rest[j];
          assert s[k + 1] == rest[j];
        }
      }
    }
  }

  lemma {:induction false} SortByScorePermutes(s: seq<ScoredProperty>)
    ensures multiset(SortByScore(s)) == multiset(s)
  {
    if s != [] {
      SortByScorePermutes(s[..|s| - 1]);
      InsertPermutes(s[|s| - 1], SortByScore(s[..|s| - 1]));
      assert s == s[..|s| - 1] + [s[|s| - 1]];
    }
  }

  lemma {:induction false} SortByScoreSorted(s: seq<ScoredProperty>)
    ensures NonIncreasing(SortByScore(s))
  {
    if s != [] {
      SortByScoreSorted(s[..|s| - 1]);
      InsertSorted(s[|s| - 1], SortByScore(s[..|s| - 1]));
    }
  }

  /** The elements with score `v`, in order. */
  function WithScore(s: seq<ScoredProperty>, v: int): seq<ScoredProperty> {
    if s == [] then []
    else (if s[0].score == v then [s[0]] else []) + WithScore(s[1..], v)
  }

  lemma {:induction false} WithScoreAppend(a: seq<ScoredProperty>, b: seq<ScoredProperty>, v: int)
    ensures WithScore(a + b, v) == WithScore(a, v) + WithScore(b, v)
  {
    if a == [] {
      assert a + b == b;
    } else {
      var ab := a + b;
      var head := if a[0].score == v then [a[0]] else [];
      WithScoreAppend(a[1..], b, v);
      assert ab[0] == a[0];
      assert ab[1..] == a[1..] + b;
      calc {
        WithScore(ab, v);
        head + WithScore(a[1..] + b, v);
        head + (WithScore(a[1..], v) + WithScore(b, v));
        (head + WithScore(a[1..], v)) + WithScore(b, v);
      }
    }
  }

  lemma {:induction false} WithScoreBelow(s: seq<ScoredProperty>, v: int)
    requires forall i :: 0 <= i < |s| ==> s[i].score < v
    ensures WithScore(s, v) == []
  {
    if s != [] {
      WithScoreBelow(s[1..], v);
    }
  }

  lemma {:induction false} InsertStable(x: ScoredProperty, s: seq<ScoredProperty>, v: int)
    requires NonIncreasing(s)
    ensures WithScore(Insert(x, s), v) == WithScore(s, v) + (if x.score == v then [x] else [])
  {
    var tail := if x.score == v then [x] else [];
    if s == [] {
      assert Insert(x, s) == [x];
      assert WithScore([x], v) == tail + WithScore([x][1..], v);
    } else if s[0].score >= x.score {
      var rest := Insert(x, s[1..]);
      var head := if s[0].score == v then [s[0]] else [];
      InsertStable(x, s[1..], v);
      assert Insert(x, s) == [s[0]] + rest;
      assert ([s[0]] + rest)[0] == s[0];
      assert ([s[0]] + rest)[1..] == rest;
      calc {
        WithScore([s[0]] + rest, v);
        head + WithScore(rest, v);
        head + (WithScore(s[1..], v) + tail);
        (head + WithScore(s[1..], v)) + tail;
      }
    } else {
      assert Insert(x, s) == [x] + s;
      assert ([x] + s)[0] == x;
      assert ([x] + s)[1..] == s;
      assert WithScore([x] + s, v) == tail + WithScore(s, v);
      if x.score == v {
        WithScoreBelow(s, v);
      } else {
        assert WithScore(s, v) + tail == WithScore(s, v);
      }
    }
  }

  /** Stability: among equal scores the sorted order is the input order. */
  lemma {:induction false} SortByScoreStable(s: seq<ScoredProperty>, v: int)
    ensures WithScore(SortByScore(s), v) == WithScore(s, v)
  {
    if s != [] {
      var init := s[..|s| - 1];
      var last := s[|s| - 1];
      var tail := if last.score == v then [last] else [];
      SortByScoreStable(init, v);
      SortByScoreSorted(init);
      InsertStable(last, SortByScore(init), v);
      assert s == init + [last];
      WithScoreAppend(init, [last], v);
      assert WithScore([last], v) == tail + WithScore([last][1..], v);
      calc {
        WithScore(SortByScore(s), v);
        WithScore(Insert(last, SortByScore(init)), v);
        WithScore(SortByScore(init), v) + tail;
        WithScore(init, v) + WithScore([last], v);
        WithScore(s, v);
      }
    }
  }

  // ---------------------------------------------------------------------
  // rankProperties as a whole

  /** What `rankProperties` answers for the completion of the search text:
      the errors of the completion and of parsing, or the candidates of the
      parsed filters, scored and sorted by descending score. */
  function Ranked(rows: seq<Property>, features: map<PropertyId, FeatureRecord>,
                  completion: Completion): (r: Result<seq<ScoredProperty>>)
    ensures completion.Blank? ==> r == Failure(EmptyCompletion)
    ensures completion.Unreachable? ==> r == Failure(TransportFailure)
    ensures completion == Answered(Malformed) ==> r == Failure(MalformedResponse)
    ensures completion == Answered(Parsed(JNull)) ==> r == Failure(NullAccess)
    ensures r.Success? <==>
      completion.Answered? && completion.content.Parsed? && !completion.content.value.JNull?
  {
    match CompletionContent(completion)
    case Failure(e) => Failure(e)
    case Success(content) =>
      match content
      case Malformed => Failure(MalformedResponse)
      case Parsed(filters) =>
        match ParsePropertyFeatureResponse(content)
        case Failure(e) => Failure(e)
        case Success(expected) =>
          var candidates := Candidates(rows, features, HardConditions(filters));
          var scored := ScoreAll(candidates, features, HardFilterCount(filters), RelevantFields(expected));
          Success(SortByScore(scored))
  }

  /** The candidates of a search are exactly the rows meeting its filters. */
  lemma CandidatesMeetSearch(rows: seq<Property>, features: map<PropertyId, FeatureRecord>, filters: Json)
    ensures forall p :: p in Candidates(rows, features, HardConditions(filters)) <==>
      p in rows && MeetsSearch(p, filters)
  {
    forall p ensures p in Candidates(rows, features, HardConditions(filters)) <==>
      p in rows && MeetsSearch(p, filters)
    {
      CandidatesMembers(rows, features, HardConditions(filters), p);
      HardConditionsMeaning(p, FeatureOf(features, p.id), filters);
    }
  }

  /** A well-scored entry: a candidate with its joined feature and a score
      in 0..10. */
  predicate ScoredEntry(e: ScoredProperty, candidates: seq<Property>, features: map<PropertyId, FeatureRecord>) {
    && e.property in candidates
    && e.feature == FeatureOf(features, e.property.id)
    && 0 <= e.score <= 10
  }

  /** Before sorting, every entry is well scored. */
  lemma ScoreAllEntries(candidates: seq<Property>, features: map<PropertyId, FeatureRecord>,
                        propertyFields: nat, relevant: seq<SoftField>)
    ensures forall e :: e in ScoreAll(candidates, features, propertyFields, relevant) ==>
      ScoredEntry(e, candidates, features)
  {
    var scored := ScoreAll(candidates, features, propertyFields, relevant);
    forall e | e in scored ensures ScoredEntry(e, candidates, features) {
      var i :| 0 <= i < |scored| && scored[i] == e;
      assert e.property == candidates[i];
      ScoreBounds(propertyFields + SoftMatches(e.feature, relevant), propertyFields + |relevant|);
    }
  }

  /** Sorting the scored candidates keeps each one once, unchanged, with a
      score in 0..10. */
  lemma SortedScoresEntries(candidates: seq<Property>, features: map<PropertyId, FeatureRecord>,
                            propertyFields: nat, relevant: seq<SoftField>)
    ensures var sorted := SortByScore(ScoreAll(candidates, features, propertyFields, relevant));
      && |sorted| == |candidates|
      && NonIncreasing(sorted)
      && (forall e :: e in sorted ==>
            && e.property in candidates
            && e.feature == FeatureOf(features, e.property.id)
            && 0 <= e.score <= 10)
  {
    var scored := ScoreAll(candidates, features, propertyFields, relevant);
    var sorted := SortByScore(scored);
    SortByScorePermutes(scored);
    SortByScoreSorted(scored);
    ScoreAllEntries(candidates, features, propertyFields, relevant);
    assert |sorted| == |multiset(sorted)| == |multiset(scored)| == |scored|;
    forall e | e in sorted ensures ScoredEntry(e, candidates, features) {
      assert e in multiset(scored);
    }
  }

  /** A successful ranking holds every candidate once, each unchanged with
      its joined feature and its score in 0..10, in descending score order;
      the candidates are exactly the rows meeting the search filters. */
  lemma RankedResult(rows: seq<Property>, features: map<PropertyId, FeatureRecord>, filters: Json)
    requires !filters.JNull?
    ensures var r := Ranked(rows, features, Answered(Parsed(filters)));
      var candidates := Candidates(rows, features, HardConditions(filters));
      && r.Success?
      && |r.value| == |candidates|
      && NonIncreasing(r.value)
      && (forall p :: p in candidates <==> p in rows && MeetsSearch(p, filters))
      && (forall e :: e in r.value ==>
            && e.property in candidates
            && e.feature == FeatureOf(features, e.property.id)
            && 0 <= e.score <= 10)
  {
    var expected := ParsePropertyFeatureResponse(Parsed(filters)).value;
    var candidates := Candidates(rows, features, HardConditions(filters));
    CandidatesMeetSearch(rows, features, filters);
    SortedScoresEntries(candidates, features, HardFilterCount(filters), RelevantFields(expected));
  }

  /** The ranking keeps, for every score, the candidates' order. */
  lemma RankedStable(rows: seq<Property>, features: map<PropertyId, FeatureRecord>, filters: Json, v: int)
    requires !filters.JNull?
    ensures var expected := ParsePropertyFeatureResponse(Parsed(filters)).value;
      var candidates := Candidates(rows, features, HardConditions(filters));
      var scored := ScoreAll(candidates, features, HardFilterCount(filters), RelevantFields(expected));
      WithScore(Ranked(rows, features, Answered(Parsed(filters))).value, v) == WithScore(scored, v)
  {
    var expected := ParsePropertyFeatureResponse(Parsed(filters)).value;
    var candidates := Candidates(rows, features, HardConditions(filters));
    SortByScoreStable(ScoreAll(candidates, features, HardFilterCount(filters), RelevantFields(expected)), v);
  }

  /** Soft credit needs a feature: the match count lies between the hard
      filter count and the total, a candidate without a feature gets only
      the hard filters' credit, and totals never exceed nine. */
  lemma MatchCountBounds(feature: Option<FeatureRecord>, filters: Json, expected: Extraction)
    ensures var pf := HardFilterCount(filters);
      var relevant := RelevantFields(expected);
      var matchCount := pf + SoftMatches(feature, relevant);
      && pf <= matchCount <= pf + |relevant| <= 9
      && (feature.None? ==> matchCount == pf)
      && (pf + |relevant| == 0 ==> Score(matchCount, pf + |relevant|) == 0)
      && (matchCount < pf + |relevant| ==> Score(matchCount, pf + |relevant|) < 10)
  {
    var pf := HardFilterCount(filters);
    var relevant := RelevantFields(expected);
    SoftMatchesWithoutFeature(relevant);
    if pf + SoftMatches(feature, relevant) < pf + |relevant| {
      ScoreMismatch(pf + SoftMatches(feature, relevant), pf + |relevant|);
    }
  }
}
