/** The property store (`PropertyService`): create, look-up, update and
    removal of properties, the filtered listing and the ranking of a search
    text. */
module Properties {
  import opened Common
  import opened JsValues
  import opened FeatureParsing
  import opened FeatureService
  import opened Aggregation
  import opened Llm
  import opened Ranking

  /** `RequestCreateProperty`. */
  datatype NewProperty = NewProperty(
    title: string,
    city: string,
    neighborhood: string,
    price: int,
    areaM2: int,
    propertyType: PropertyType)

  /** `RequestUpdateProperty`; `None` is a key the request does not carry. */
  datatype PropertyChanges = PropertyChanges(
    title: Option<string>,
    city: Option<string>,
    neighborhood: Option<string>,
    price: Option<int>,
    areaM2: Option<int>,
    propertyType: Option<PropertyType>)

  /** `{...property, ...data}`. */
  function Apply(p: Property, c: PropertyChanges): Property {
    p.(
      title := c.title.GetOr(p.title),
      city := c.city.GetOr(p.city),
      neighborhood := c.neighborhood.GetOr(p.neighborhood),
      price := c.price.GetOr(p.price),
      areaM2 := c.areaM2.GetOr(p.areaM2),
      propertyType := c.propertyType.GetOr(p.propertyType))
  }

  /** An update keeps the id, takes the fields the request carries and
      keeps all others. */
  lemma ApplyFields(p: Property, c: PropertyChanges)
    ensures var u := Apply(p, c);
      && u.id == p.id
      && (c.title.Some? ==> u.title == c.title.value) && (c.title.None? ==> u.title == p.title)
      && (c.city.Some? ==> u.city == c.city.value) && (c.city.None? ==> u.city == p.city)
      && (c.neighborhood.Some? ==> u.neighborhood == c.neighborhood.value)
      && (c.neighborhood.None? ==> u.neighborhood == p.neighborhood)
      && (c.price.Some? ==> u.price == c.price.value) && (c.price.None? ==> u.price == p.price)
      && (c.areaM2.Some? ==> u.areaM2 == c.areaM2.value) && (c.areaM2.None? ==> u.areaM2 == p.areaM2)
      && (c.propertyType.Some? ==> u.propertyType == c.propertyType.value)
      && (c.propertyType.None? ==> u.propertyType == p.propertyType)
  {
  }

  /** Applying the same update twice is applying it once. */
  lemma ApplyIdempotent(p: Property, c: PropertyChanges)
    ensures Apply(Apply(p, c), c) == Apply(p, c)
  {
  }

  /** The position of the row with the given id. */
  function IndexOf(rows: seq<Property>, id: PropertyId): (r: Option<nat>)
    ensures r.Some? ==> r.value < |rows| && rows[r.value].id == id
    ensures r.Some? ==> forall i :: 0 <= i < r.value ==> rows[i].id != id
    ensures r.None? ==> forall i :: 0 <= i < |rows| ==> rows[i].id != id
  {
    if rows == [] then None
    else if rows[0].id == id then Some(0)
    else
      match IndexOf(rows[1..], id)
      case None => None
      case Some(k) => Some(k + 1)
  }

  /** The first row with the id is the one `IndexOf` finds. */
  lemma {:induction false} IndexOfFirst(rows: seq<Property>, id: PropertyId, i: nat)
    requires i < |rows| && rows[i].id == id
    requires forall k :: 0 <= k < i ==> rows[k].id != id
    ensures IndexOf(rows, id) == Some(i)
  {
    if i > 0 {
      IndexOfFirst(rows[1..], id, i - 1);
    }
  }

  predicate UniqueIds(rows: seq<Property>) {
    forall i, j :: 0 <= i < j < |rows| ==> rows[i].id != rows[j].id
  }

  /** Ids distinct in the table stay distinct among the rows a query returns. */
  lemma {:induction false} CandidatesUniqueIds(rows: seq<Property>, features: map<PropertyId, FeatureRecord>,
                                               conditions: seq<Condition>)
    requires UniqueIds(rows)
    ensures UniqueIds(Candidates(rows, features, conditions))
  {
    if rows != [] {
      var init := rows[..|rows| - 1];
      var last := rows[|rows| - 1];
      var prefix := Candidates(init, features, conditions);
      CandidatesUniqueIds(init, features, conditions);
      if SatisfiesAll(last, FeatureOf(features, last.id), conditions) {
        var c := prefix + [last];
        forall i | 0 <= i < |prefix| ensures prefix[i].id != last.id {
          CandidatesMembers(init, features, conditions, prefix[i]);
          var k :| 0 <= k < |init| && init[k] == prefix[i];
          assert rows[k] == init[k];
        }
        assert forall i, j :: 0 <= i < j < |c| ==> c[i].id != c[j].id by {
          forall i, j | 0 <= i < j < |c| ensures c[i].id != c[j].id {
            if j < |prefix| {
              assert c[i] == prefix[i] && c[j] == prefix[j];
            } else {
              assert c[i] == prefix[i] && c[j] == last;
            }
          }
        }
      }
    }
  }

  class PropertyService {
    var properties: seq<Property>
    var nextId: PropertyId

    /** Ids are distinct and below the next id to issue. */
    predicate Valid()
      reads this
    {
      && UniqueIds(properties)
      && (forall i :: 0 <= i < |properties| ==> properties[i].id < nextId)
    }

    constructor()
      ensures Valid() && properties == []
    {
      properties := [];
      nextId := 0;
    }

    /** `findOne`: the property with the id, or NotFound. */
    function FindOne(id: PropertyId): (r: Result<Property>)
      reads this
      ensures r.Success? <==> exists i :: 0 <= i < |properties| && properties[i].id == id
      ensures r.Success? ==> r.value in properties && r.value.id == id
      ensures r.Failure? ==> r.error == NotFound
    {
      match IndexOf(properties, id)
      case Some(i) => Success(properties[i])
      case None => Failure(NotFound)
    }

    /** `create`: a new row with a fresh id, found by `findOne` afterwards. */
    method Create(data: NewProperty) returns (p: Property)
      requires Valid()
      modifies this
      ensures Valid()
      ensures p == Property(old(nextId), data.title, data.city, data.neighborhood,
                            data.price, data.areaM2, data.propertyType)
      ensures properties == old(properties) + [p] && nextId == old(nextId) + 1
      ensures FindOne(p.id) == Success(p)
    {
      p := Property(nextId, data.title, data.city, data.neighborhood,
                    data.price, data.areaM2, data.propertyType);
      properties := properties + [p];
      nextId := nextId + 1;
      assert properties[|properties| - 1] == p;
    }

    /** `update`: NotFound and no write for a missing id; otherwise the
        request's fields overwrite the row, which `findOne` then returns. */
    method Update(id: PropertyId, changes: PropertyChanges) returns (r: Result<Property>)
      requires Valid()
      modifies this
      ensures Valid()
      ensures nextId == old(nextId)
      ensures IndexOf(old(properties), id).None? ==>
        r == Failure(NotFound) && properties == old(properties)
      ensures IndexOf(old(properties), id).Some? ==>
        var i := IndexOf(old(properties), id).value;
        && r == Success(Apply(old(properties)[i], changes))
        && properties == old(properties)[i := r.value]
      ensures r.Success? ==> FindOne(id) == r
    {
      match IndexOf(properties, id)
      case None =>
        r := Failure(NotFound);
      case Some(i) =>
        var updated := Apply(properties[i], changes);
        properties := properties[i := updated];
        r := Success(updated);
        IndexOfFirst(properties, id, i);
    }

    /** `remove`: NotFound for a missing id; otherwise the row leaves the
        store and, by the soft-remove cascade, so does its feature. */
    method Remove(id: PropertyId, featureStore: PropertyFeatureService) returns (r: Result<()>)
      requires Valid() && featureStore.Valid()
      modifies this, featureStore
      ensures Valid() && featureStore.Valid()
      ensures nextId == old(nextId)
      ensures IndexOf(old(properties), id).None? ==>
        && r == Failure(NotFound) && properties == old(properties)
        && featureStore.Table() == old(featureStore.Table())
      ensures IndexOf(old(properties), id).Some? ==>
        var i := IndexOf(old(properties), id).value;
        && r == Success(())
        && properties == old(properties)[..i] + old(properties)[i + 1..]
        && featureStore.features == old(featureStore.features) - {id}
        && featureStore.nextId == old(featureStore.nextId)
      ensures r.Success? ==> FindOne(id) == Failure(NotFound)
    {
      match IndexOf(properties, id)
      case None =>
        r := Failure(NotFound);
      case Some(i) =>
        ghost var before := properties;
        properties := properties[..i] + properties[i + 1..];
        featureStore.features := featureStore.features - {id};
        r := Success(());
        forall k | 0 <= k < |properties| ensures properties[k].id != id {
          if k < i {
            assert properties[k] == before[k];
          } else {
            assert properties[k] == before[k + 1];
          }
        }
    }

    /** `findAll`: the properties meeting every given filter; the feature
        filters need a joined feature. */
    method FindAll(filters: PropertyFilter, featureStore: PropertyFeatureService) returns (r: seq<Property>)
      ensures forall p :: p in r <==>
        p in properties && MeetsFilter(p, FeatureOf(featureStore.features, p.id), filters)
      ensures SubsequenceOf(r, properties) && |r| <= |properties|
      ensures Valid() ==> UniqueIds(r)
    {
      r := Candidates(properties, featureStore.features, FilterConditions(filters));
      CandidatesSubsequence(properties, featureStore.features, FilterConditions(filters));
      if Valid() {
        CandidatesUniqueIds(properties, featureStore.features, FilterConditions(filters));
      }
      forall p ensures p in r <==>
        p in properties && MeetsFilter(p, FeatureOf(featureStore.features, p.id), filters)
      {
        CandidatesMembers(properties, featureStore.features, FilterConditions(filters), p);
        FilterConditionsMeaning(p, FeatureOf(featureStore.features, p.id), filters);
      }
    }

    /** `rankProperties`: the search filters extracted from the text add the
        hard clauses, counting `propertyFields`; each candidate is scored
        against the relevant soft fields and the result is sorted by score. */
    method RankProperties(completion: Completion, featureStore: PropertyFeatureService)
      returns (r: Result<seq<ScoredProperty>>)
      ensures r == Ranked(properties, featureStore.features, completion)
    {
      var fetched := CompletionContent(completion);
      if fetched.Failure? {
        return Failure(fetched.error);
      }
      var content := fetched.value;
      if content.Malformed? {
        return Failure(MalformedResponse);
      }
      var filters := content.value;
      var propertyFields: nat, conditions := HardFilters(filters);

      var candidates := Candidates(properties, featureStore.features, conditions);
      var expected := ParsePropertyFeatureResponse(content);
      if expected.Failure? {
        return Failure(expected.error);
      }
      var relevant := RelevantFields(expected.value);
      var scored := ScoreCandidates(candidates, featureStore.features, propertyFields, relevant);
      r := Success(SortByScore(scored));
    }
  }

  /** The `map` of `rankProperties`: each candidate with its joined feature
      and its score. */
  method ScoreCandidates(candidates: seq<Property>, features: map<PropertyId, FeatureRecord>,
                         propertyFields: nat, relevant: seq<SoftField>)
    returns (scored: seq<ScoredProperty>)
    ensures scored == ScoreAll(candidates, features, propertyFields, relevant)
  {
    var totalFields := |relevant| + propertyFields;
    scored := [];
    var i := 0;
    while i < |candidates|
      invariant 0 <= i <= |candidates|
      invariant |scored| == i
      invariant forall k :: 0 <= k < i ==>
        scored[k] == ScoreOf(candidates[k], FeatureOf(features, candidates[k].id), propertyFields, relevant)
    {
      var property := candidates[i];
      var feature := FeatureOf(features, property.id);
      var matchCount := CountMatches(feature, propertyFields, relevant);
      var score := if totalFields > 0 then RoundHalfUp(10 * matchCount, totalFields) else 0;
      scored := scored + [ScoredProperty(property, feature, score)];
      i := i + 1;
    }
  }

  /** The inner loop of `rankProperties`: `matchCount` starts at
      `propertyFields` and grows by one per relevant field the feature
      matches. */
  method CountMatches(feature: Option<FeatureRecord>, propertyFields: nat, relevant: seq<SoftField>)
    returns (matchCount: nat)
    ensures matchCount == propertyFields + SoftMatches(feature, relevant)
  {
    matchCount := propertyFields;
    var j := 0;
    while j < |relevant|
      invariant 0 <= j <= |relevant|
      invariant matchCount == propertyFields + SoftMatches(feature, relevant[..j])
    {
      assert relevant[..j + 1][..j] == relevant[..j];
      if FieldMatches(feature, relevant[j]) {
        matchCount := matchCount + 1;
      }
      j := j + 1;
    }
    assert relevant[..j] == relevant;
  }

  /** The query-building half of `rankProperties`: one clause per applied
      filter, and `propertyFields` incremented once per counted filter. */
  method HardFilters(filters: Json) returns (propertyFields: nat, conditions: seq<Condition>)
    ensures propertyFields == HardFilterCount(filters)
    ensures conditions == HardConditions(filters)
  {
    propertyFields, conditions := NamedFilters(filters);
    var price := RangeFilter(filters, Price);
    if RangeCounted(filters, Price) {
      propertyFields := propertyFields + 1;
    }
    conditions := conditions + price;
    var area := RangeFilter(filters, Area);
    if RangeCounted(filters, Area) {
      propertyFields := propertyFields + 1;
    }
    conditions := conditions + area;
  }

  /** The city, neighborhood and type filters. */
  method NamedFilters(filters: Json) returns (propertyFields: nat, conditions: seq<Condition>)
    ensures propertyFields == NamedFilterCount(filters)
    ensures conditions == NamedConditions(filters)
  {
    propertyFields := 0;
    conditions := [];
    var city := Get(filters, "city");
    if Truthy(city) {
      propertyFields := propertyFields + 1;
      conditions := conditions + [CityLike(ToStr(city.value))];
    }
    var neighborhood := Get(filters, "neighborhood");
    if Truthy(neighborhood) {
      propertyFields := propertyFields + 1;
      conditions := conditions + [NeighborhoodLike(ToStr(neighborhood.value))];
    }
    var propertyType := Get(filters, "propertyType");
    if Truthy(propertyType) {
      propertyFields := propertyFields + 1;
      conditions := conditions + [TypeIs(propertyType.value)];
    }
  }

  /** The clauses of one range, `minX` before `maxX`. */
  method RangeFilter(filters: Json, column: Column) returns (conditions: seq<Condition>)
    ensures conditions == RangeConditions(filters, column)
  {
    conditions := [];
    var lo := Get(filters, MinKey(column));
    var hi := Get(filters, MaxKey(column));
    if Truthy(lo) || Truthy(hi) {
      if NotNullish(lo) {
        conditions := conditions + [AtLeastBound(column, Hundredths(ToNumber(lo)))];
      }
      if NotNullish(hi) {
        conditions := conditions + [AtMostBound(column, Hundredths(ToNumber(hi)))];
      }
    }
  }
}
