/** The feature store (`PropertyFeatureService`): the `property_features`
    table, at most one row per property, with create, look-ups and upsert. */
module FeatureService {
  import opened Common

  /** A stored `PropertyFeature` row; `None` is SQL NULL. */
  datatype FeatureRecord = FeatureRecord(
    id: FeatureId,
    propertyId: PropertyId,
    nearSubway: bool,
    needsRenovation: bool,
    estimatedCapacityPeople: Option<int>,
    recommendedUse: Option<PropertyType>)

  /** The data handed to `create` or `upsert` (without the property id);
      `None` is a key the object does not carry. */
  datatype FeatureChanges = FeatureChanges(
    nearSubway: Option<bool>,
    needsRenovation: Option<bool>,
    estimatedCapacityPeople: Option<int>,
    recommendedUse: Option<PropertyType>)

  const NoChanges := FeatureChanges(None, None, None, None)

  /** The table as a value: its rows keyed by property id, and the id the
      next inserted row receives. */
  datatype FeatureTable = FeatureTable(rows: map<PropertyId, FeatureRecord>, nextId: FeatureId)

  /** Every row sits under its own property id, and the row ids are
      distinct and below the next id to issue. */
  predicate TableValid(t: FeatureTable) {
    && (forall p :: p in t.rows ==> t.rows[p].propertyId == p && t.rows[p].id < t.nextId)
    && (forall p, q :: p in t.rows && q in t.rows && p != q ==> t.rows[p].id != t.rows[q].id)
  }

  /** `repository.create({propertyId, ...data})`: absent booleans take the
      column default `false`, absent optional columns are NULL. */
  function NewFeature(id: FeatureId, propertyId: PropertyId, data: FeatureChanges): FeatureRecord {
    FeatureRecord(
      id, propertyId,
      data.nearSubway.GetOr(false),
      data.needsRenovation.GetOr(false),
      data.estimatedCapacityPeople,
      data.recommendedUse)
  }

  /** `{...existing, ...data}`: the keys `data` carries overwrite. */
  function Merge(existing: FeatureRecord, data: FeatureChanges): FeatureRecord {
    existing.(
      nearSubway := data.nearSubway.GetOr(existing.nearSubway),
      needsRenovation := data.needsRenovation.GetOr(existing.needsRenovation),
      estimatedCapacityPeople :=
        if data.estimatedCapacityPeople.Some? then data.estimatedCapacityPeople
        else existing.estimatedCapacityPeople,
      recommendedUse :=
        if data.recommendedUse.Some? then data.recommendedUse
        else existing.recommendedUse)
  }

  /** A new row for `propertyId` carries the given data and the defaults. */
  lemma NewFeatureFields(id: FeatureId, propertyId: PropertyId, data: FeatureChanges)
    ensures var f := NewFeature(id, propertyId, data);
      && f.id == id && f.propertyId == propertyId
      && (data.nearSubway.Some? ==> f.nearSubway == data.nearSubway.value)
      && (data.nearSubway.None? ==> !f.nearSubway)
      && (data.needsRenovation.Some? ==> f.needsRenovation == data.needsRenovation.value)
      && (data.needsRenovation.None? ==> !f.needsRenovation)
      && f.estimatedCapacityPeople == data.estimatedCapacityPeople
      && f.recommendedUse == data.recommendedUse
  {
  }

  /** A merge keeps the row's identity, takes every field the data carries
      and keeps every other field. */
  lemma MergeFields(existing: FeatureRecord, data: FeatureChanges)
    ensures var m := Merge(existing, data);
      && m.id == existing.id && m.propertyId == existing.propertyId
      && (data.nearSubway.Some? ==> m.nearSubway == data.nearSubway.value)
      && (data.nearSubway.None? ==> m.nearSubway == existing.nearSubway)
      && (data.needsRenovation.Some? ==> m.needsRenovation == data.needsRenovation.value)
      && (data.needsRenovation.None? ==> m.needsRenovation == existing.needsRenovation)
      && (data.estimatedCapacityPeople.Some? ==>
            m.estimatedCapacityPeople == data.estimatedCapacityPeople)
      && (data.estimatedCapacityPeople.None? ==>
            m.estimatedCapacityPeople == existing.estimatedCapacityPeople)
      && (data.recommendedUse.Some? ==> m.recommendedUse == data.recommendedUse)
      && (data.recommendedUse.None? ==> m.recommendedUse == existing.recommendedUse)
  {
  }

  /** Merging the same data twice is merging it once; merging nothing
      changes nothing. */
  lemma MergeIdempotent(existing: FeatureRecord, data: FeatureChanges)
    ensures Merge(Merge(existing, data), data) == Merge(existing, data)
    ensures Merge(existing, NoChanges) == existing
  {
  }

  /** `create`'s write: a new row under `propertyId`. */
  function Inserted(t: FeatureTable, propertyId: PropertyId, data: FeatureChanges): FeatureTable {
    FeatureTable(t.rows[propertyId := NewFeature(t.nextId, propertyId, data)], t.nextId + 1)
  }

  /** `upsert`'s write: a merge into the property's row, or a new row. */
  function Upserted(t: FeatureTable, propertyId: PropertyId, data: FeatureChanges): FeatureTable {
    if propertyId in t.rows then
      FeatureTable(t.rows[propertyId := Merge(t.rows[propertyId], data)], t.nextId)
    else Inserted(t, propertyId, data)
  }

  /** Inserting for a property without a row keeps one row per property,
      adds exactly that row and leaves the others alone. */
  lemma InsertedKeepsOnePerProperty(t: FeatureTable, propertyId: PropertyId, data: FeatureChanges)
    requires TableValid(t) && propertyId !in t.rows
    ensures var u := Inserted(t, propertyId, data);
      && TableValid(u)
      && u.rows.Keys == t.rows.Keys + {propertyId}
      && u.rows[propertyId] == NewFeature(t.nextId, propertyId, data)
      && (forall p :: p in t.rows ==> u.rows[p] == t.rows[p])
  {
  }

  /** An upsert keeps one row per property, leaves the other properties'
      rows alone, and afterwards the property has a row. */
  lemma UpsertedKeepsOnePerProperty(t: FeatureTable, propertyId: PropertyId, data: FeatureChanges)
    requires TableValid(t)
    ensures var u := Upserted(t, propertyId, data);
      && TableValid(u)
      && u.rows.Keys == t.rows.Keys + {propertyId}
      && (forall p :: p in t.rows && p != propertyId ==> u.rows[p] == t.rows[p])
      && (propertyId in t.rows ==> u.rows[propertyId] == Merge(t.rows[propertyId], data))
      && (propertyId in t.rows ==> u.rows[propertyId].id == t.rows[propertyId].id)
      && (propertyId !in t.rows ==> u.rows[propertyId] == NewFeature(t.nextId, propertyId, data))
  {
    if propertyId !in t.rows {
      InsertedKeepsOnePerProperty(t, propertyId, data);
    }
  }

  /** Upserting the same data again changes nothing more. */
  lemma UpsertedIdempotent(t: FeatureTable, propertyId: PropertyId, data: FeatureChanges)
    ensures Upserted(Upserted(t, propertyId, data), propertyId, data) == Upserted(t, propertyId, data)
  {
    var u := Upserted(t, propertyId, data);
    MergeIdempotent(u.rows[propertyId], data);
    if propertyId !in t.rows {
      assert u.rows[propertyId] == NewFeature(t.nextId, propertyId, data);
      assert Merge(u.rows[propertyId], data) == u.rows[propertyId];
      assert u.rows[propertyId := u.rows[propertyId]] == u.rows;
    } else {
      assert u.rows[propertyId := Merge(u.rows[propertyId], data)] == u.rows;
    }
  }

  class PropertyFeatureService {
    var features: map<PropertyId, FeatureRecord>
    var nextId: FeatureId

    function Table(): FeatureTable
      reads this
    {
      FeatureTable(features, nextId)
    }

    predicate Valid()
      reads this
    {
      TableValid(Table())
    }

    constructor()
      ensures Valid() && features == map[]
    {
      features := map[];
      nextId := 0;
    }

    /** `create`: a second feature for the same property is a Conflict and
        writes nothing; otherwise exactly one row is added. */
    method Create(propertyId: PropertyId, data: FeatureChanges) returns (r: Result<FeatureRecord>)
      requires Valid()
      modifies this
      ensures Valid()
      ensures propertyId in old(features) ==>
        r == Failure(Conflict) && Table() == old(Table())
      ensures propertyId !in old(features) ==>
        && r == Success(NewFeature(old(nextId), propertyId, data))
        && Table() == Inserted(old(Table()), propertyId, data)
    {
      if propertyId in features {
        return Failure(Conflict);
      }
      InsertedKeepsOnePerProperty(Table(), propertyId, data);
      var feature := NewFeature(nextId, propertyId, data);
      features := features[propertyId := feature];
      nextId := nextId + 1;
      r := Success(feature);
    }

    /** `findByProperty`: the property's row, or NotFound. */
    method FindByProperty(propertyId: PropertyId) returns (r: Result<FeatureRecord>)
      ensures r.Success? <==> propertyId in features
      ensures r.Success? ==> r.value == features[propertyId]
      ensures r.Failure? ==> r.error == NotFound
    {
      if propertyId in features {
        r := Success(features[propertyId]);
      } else {
        r := Failure(NotFound);
      }
    }

    /** `findOne`: the row with the given feature id, or NotFound. */
    method FindOne(id: FeatureId) returns (r: Result<FeatureRecord>)
      requires Valid()
      ensures r.Success? <==> exists p :: p in features && features[p].id == id
      ensures r.Success? ==>
        r.value.id == id && r.value.propertyId in features && features[r.value.propertyId] == r.value
      ensures r.Failure? ==> r.error == NotFound
    {
      if p :| p in features && features[p].id == id {
        r := Success(features[p]);
      } else {
        r := Failure(NotFound);
      }
    }

    /** `upsert`: merge into the property's row when there is one, create it
        otherwise; the saved row is returned. */
    method Upsert(propertyId: PropertyId, data: FeatureChanges) returns (r: FeatureRecord)
      requires Valid()
      modifies this
      ensures Valid()
      ensures Table() == Upserted(old(Table()), propertyId, data)
      ensures propertyId in features && r == features[propertyId]
    {
      UpsertedKeepsOnePerProperty(Table(), propertyId, data);
      if propertyId in features {
        r := Merge(features[propertyId], data);
        features := features[propertyId := r];
      } else {
        r := NewFeature(nextId, propertyId, data);
        features := features[propertyId := r];
        nextId := nextId + 1;
      }
    }
  }
}
