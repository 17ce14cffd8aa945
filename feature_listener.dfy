/** The re-aggregation handler (`PropertyFeatureListener`): when a note of a
    property has been processed, the extractions of all its notes, oldest
    first, are aggregated and upserted as the property's feature. */
module FeatureListener {
  import opened Common
  import opened Aggregation
  import opened FeatureService

  /** A `PropertyNote` row: its property and its stored extraction, `None`
      when the column is NULL. */
  datatype Note = Note(id: nat, propertyId: PropertyId, aiOutput: Option<FeatureValues>)

  /** How the handler ended; it never throws. */
  datatype Handled = NoOutputs | FeatureSaved | ErrorLogged

  /** The extractions of `propertyId`'s notes with one, in the order of
      `notes` (the handler reads them by ascending creation time). */
  function AiOutputsOf(notes: seq<Note>, propertyId: PropertyId): seq<FeatureValues> {
    if notes == [] then []
    else
      var last := notes[|notes| - 1];
      AiOutputsOf(notes[..|notes| - 1], propertyId)
        + (if last.propertyId == propertyId && last.aiOutput.Some? then [last.aiOutput.value] else [])
  }

  /** The filter keeps the order of the notes: splitting the table splits
      the outputs the same way. */
  lemma {:induction false} AiOutputsOfAppend(a: seq<Note>, b: seq<Note>, propertyId: PropertyId)
    ensures AiOutputsOf(a + b, propertyId) == AiOutputsOf(a, propertyId) + AiOutputsOf(b, propertyId)
    decreases |b|
  {
    if b == [] {
      assert a + b == a;
    } else {
      var init := b[..|b| - 1];
      assert (a + b)[..|a + b| - 1] == a + init;
      AiOutputsOfAppend(a, init, propertyId);
    }
  }

  /** An output is kept exactly when some note of the property carries it. */
  lemma {:induction false} AiOutputsOfMembers(notes: seq<Note>, propertyId: PropertyId, o: FeatureValues)
    ensures o in AiOutputsOf(notes, propertyId) <==>
      exists i :: 0 <= i < |notes| && notes[i].propertyId == propertyId && notes[i].aiOutput == Some(o)
  {
    if notes != [] {
      var init := notes[..|notes| - 1];
      AiOutputsOfMembers(init, propertyId, o);
      if exists i :: 0 <= i < |init| && init[i].propertyId == propertyId && init[i].aiOutput == Some(o) {
        var i :| 0 <= i < |init| && init[i].propertyId == propertyId && init[i].aiOutput == Some(o);
        assert notes[i] == init[i];
      }
      if exists i :: 0 <= i < |notes| && notes[i].propertyId == propertyId && notes[i].aiOutput == Some(o) {
        var i :| 0 <= i < |notes| && notes[i].propertyId == propertyId && notes[i].aiOutput == Some(o);
        if i < |init| {
          assert init[i] == notes[i];
        }
      }
    }
  }

  /** The aggregate as upsert data: every field is present. */
  function AsChanges(f: FeatureValues): FeatureChanges {
    FeatureChanges(
      Some(f.nearSubway), Some(f.needsRenovation),
      Some(f.estimatedCapacityPeople), Some(f.recommendedUse))
  }

  /** The feature table after a successful run for `propertyId`. */
  function AfterNoteProcessed(t: FeatureTable, propertyId: PropertyId, notes: seq<Note>): FeatureTable {
    var outputs := AiOutputsOf(notes, propertyId);
    if outputs == [] then t
    else Upserted(t, propertyId, AsChanges(AggregateAiOutputs(outputs)))
  }

  /** Without outputs nothing is written; with outputs the property's row
      holds the four aggregated values (keeping its id when it had a row)
      and the other rows are untouched. */
  lemma AfterNoteProcessedEffect(t: FeatureTable, propertyId: PropertyId, notes: seq<Note>)
    requires TableValid(t)
    ensures var u := AfterNoteProcessed(t, propertyId, notes);
      var outputs := AiOutputsOf(notes, propertyId);
      var agg := AggregateAiOutputs(outputs);
      && TableValid(u)
      && (outputs == [] ==> u == t)
      && (outputs != [] ==>
            && propertyId in u.rows
            && u.rows[propertyId].propertyId == propertyId
            && u.rows[propertyId].nearSubway == agg.nearSubway
            && u.rows[propertyId].needsRenovation == agg.needsRenovation
            && u.rows[propertyId].estimatedCapacityPeople == Some(agg.estimatedCapacityPeople)
            && u.rows[propertyId].recommendedUse == Some(agg.recommendedUse)
            && (propertyId in t.rows ==> u.rows[propertyId].id == t.rows[propertyId].id)
            && (forall p :: p in t.rows && p != propertyId ==> p in u.rows && u.rows[p] == t.rows[p]))
  {
    var outputs := AiOutputsOf(notes, propertyId);
    if outputs != [] {
      var data := AsChanges(AggregateAiOutputs(outputs));
      UpsertedKeepsOnePerProperty(t, propertyId, data);
    }
  }

  /** Handling the same notes again leaves the table as the first run left
      it. */
  lemma AfterNoteProcessedIdempotent(t: FeatureTable, propertyId: PropertyId, notes: seq<Note>)
    ensures AfterNoteProcessed(AfterNoteProcessed(t, propertyId, notes), propertyId, notes)
      == AfterNoteProcessed(t, propertyId, notes)
  {
    var outputs := AiOutputsOf(notes, propertyId);
    if outputs != [] {
      UpsertedIdempotent(t, propertyId, AsChanges(AggregateAiOutputs(outputs)));
    }
  }

  /** `handleNoteProcessed`. `read` is the outcome of reading the
      property's notes, ordered by ascending creation time; the read and the
      upsert (`writeFails`) may fail, and any failure is logged with nothing
      written. */
  method HandleNoteProcessed(service: PropertyFeatureService, propertyId: PropertyId,
                             read: Result<seq<Note>>, writeFails: bool)
    returns (h: Handled)
    requires service.Valid()
    modifies service
    ensures service.Valid()
    ensures read.Failure? ==> h == ErrorLogged && service.Table() == old(service.Table())
    ensures read.Success? && AiOutputsOf(read.value, propertyId) == [] ==>
      h == NoOutputs && service.Table() == old(service.Table())
    ensures read.Success? && AiOutputsOf(read.value, propertyId) != [] && writeFails ==>
      h == ErrorLogged && service.Table() == old(service.Table())
    ensures read.Success? && AiOutputsOf(read.value, propertyId) != [] && !writeFails ==>
      h == FeatureSaved && service.Table() == AfterNoteProcessed(old(service.Table()), propertyId, read.value)
  {
    if read.Failure? {
      return ErrorLogged;
    }
    var outputs := AiOutputsOf(read.value, propertyId);
    if |outputs| == 0 {
      return NoOutputs;
    }
    var aggregated := AggregateAiOutputs(outputs);
    if writeFails {
      return ErrorLogged;
    }
    var _ := service.Upsert(propertyId, AsChanges(aggregated));
    h := FeatureSaved;
  }
}
