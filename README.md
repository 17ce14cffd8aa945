# Property features and ranking (context-api), modelled in Dafny

The system keeps commercial properties together with free-text notes about them.
A completion service reads each note and extracts four features: near the subway,
needs renovation, estimated capacity and recommended use. This project models the
core behind that:

- the **response normalizer** (`parsePropertyType`, `parsePropertyFeatureResponse`).
  It turns a loosely typed JSON answer into a typed extraction using JavaScript's
  coercion rules. The JSON value is a datatype (`JsValues.Json`). `Truthy`,
  `String()` and `Number()` are written out for it.
- the **aggregator** (`majorityVoteBoolean`, `majorityVoteEnum`, `calculateAverage`,
  `aggregateAiOutputs`). It combines a property's extractions, oldest first, into
  one feature record. `majorityVoteEnum` is a method with the source's two loops.
  The first loop fills a count map and records the keys in insertion order. The
  second collects the winners. The method is proved equal to the specification
  function `EnumVote`, whose meaning is proved by lemmas: it returns a mode, the
  tiebreaker when it leads, and otherwise the leader seen first.
- the **feature store** (`PropertyFeatureService`). It is a class over a
  `map<PropertyId, FeatureRecord>`. `create` fails with Conflict on a second
  feature, and `upsert` merges or inserts. Each method states its new table
  through the value-level functions `Inserted` and `Upserted`. Those keep at most
  one feature per property.
- the **re-aggregation handler** (`handleNoteProcessed`). It takes the property's
  notes with an output, by ascending creation time, aggregates them and upserts
  the result. It
  skips the write when there are no outputs. Any failure is logged and nothing is
  written.
- the **property store** (`PropertyService`). It is a class over a `seq<Property>`
  in table order:
  - `create`, `findOne`, `update` as the spread-merge, and `remove`. `remove`
    soft-removes the feature too, because of the entity's cascade.
  - `findAll`'s query building, as clauses over the rows and their left-joined
    features.
  - `rankProperties`. It counts the hard filters (`propertyFields`), applies them
    as clauses, derives the relevant soft fields from the normalized answer, scores
    each candidate as `Math.round(matchCount / totalFields * 10)` and sorts by
    descending score with a stable sort.

Number semantics:

- Prices and areas are decimal columns with two places. They are integers of
  hundredths here.
- JSON bounds are integers, so they are scaled by 100.
- A non-numeric bound is `NaN`, which a Postgres numeric comparison places above
  every number.

Behaviour of the code that a reader may not expect, which the model follows:

- `Math.round` rounds halves toward positive infinity, not away from zero, so
  `calculateAverage([-1, -2])` is `-1` (`AverageExamples`).
- A price or area range counts once in `propertyFields`, whichever of its ends are
  given. It counts only when an end is *truthy*: a minimum of `0` and no maximum
  neither counts nor filters (`FalsyRangeIgnored`).
- A range end that is given but falsy (0) inside a counted range is still applied
  as a bound, because the code tests `!= null` there.
- In `rankProperties` the propertyType filter is compared with the text column as
  given. Only the exact lower-case name matches (`TypeIs`, `MeetsSearch`), so
  `"OFFICE"` filters every row out.
- Ties in `majorityVoteEnum` when the tiebreaker is not a leader go to the leader
  seen first in input order (`EnumVoteFirstLeader`).

All files lie directly in this directory:

- `common.dfy`: results, errors, property types, ASCII lower-casing.
- `js_values.dfy`: JSON values and JS coercions.
- `feature_parsing.dfy`: the normalizer.
- `aggregation.dfy`: the aggregator.
- `feature_service.dfy`: the feature store.
- `feature_listener.dfy`: the handler.
- `llm.dfy`: the completion outcome.
- `ranking.dfy`: the clauses, scores, sort and the `Ranked` specification.
- `property_service.dfy`: the property store class and its methods.

## Model

| member | source | states |
|---|---|---|
| Aggregation.MajorityVoteBoolean | src/modules/properties/propertyFeatures/domain/aggregation.util.ts:21-34 | no votes gives the tiebreaker; strictly more trues gives true, strictly more falses gives false, equal counts give the tiebreaker (counts as multiset multiplicities) |
| Aggregation.MajorityVoteBooleanOrderFree | src/modules/properties/propertyFeatures/domain/aggregation.util.ts:27-33 | the boolean vote depends only on the multiset of votes, not their order |
| Aggregation.EnumVote | src/modules/properties/propertyFeatures/domain/aggregation.util.ts:45 | no values gives the tiebreaker |
| Aggregation.EnumVoteIsMode | src/modules/properties/propertyFeatures/domain/aggregation.util.ts:45-63 | on non-empty input the vote occurs in the input and no value occurs more often |
| Aggregation.EnumVoteUniqueMode | src/modules/properties/propertyFeatures/domain/aggregation.util.ts:65-67 | a value occurring strictly more often than every other is returned whatever the tiebreaker |
| Aggregation.EnumVoteTiebreakerWins | src/modules/properties/propertyFeatures/domain/aggregation.util.ts:69-71 | when the tiebreaker has the maximal count it is returned |
| Aggregation.EnumVoteFirstLeader | src/modules/properties/propertyFeatures/domain/aggregation.util.ts:56-73 | when the tiebreaker is not a leader, the result is the leader whose first occurrence comes earliest |
| Aggregation.CountOccurrences | src/modules/properties/propertyFeatures/domain/aggregation.util.ts:47-51 | the counting loop yields each value's number of occurrences and the keys in first-insertion order, each value once |
| Aggregation.FindWinners | src/modules/properties/propertyFeatures/domain/aggregation.util.ts:53-63 | the second loop yields a count no key exceeds, exactly the keys having it as winners, and as first winner the first key reaching it |
| Aggregation.WinnersAreLeaders | src/modules/properties/propertyFeatures/domain/aggregation.util.ts:53-63 | the loop's maximum is the largest number of occurrences, the winners are exactly the leaders, and the first winner is the first leader |
| Aggregation.FirstWinnerIsFirstLeader | src/modules/properties/propertyFeatures/domain/aggregation.util.ts:56-73 | the first winner in insertion order is the leader occurring first in the input |
| Aggregation.LeaderIsMode | src/modules/properties/propertyFeatures/domain/aggregation.util.ts:53-63 | a value with the maximal count occurs and is a mode |
| Aggregation.MajorityVoteEnum | src/modules/properties/propertyFeatures/domain/aggregation.util.ts:41-74 | the imperative vote (count map, winners list, tie rules) returns `EnumVote` of its inputs |
| Aggregation.BooleanVoteIsEnumVote | src/modules/properties/propertyFeatures/domain/aggregation.util.ts:21-74 | on booleans the boolean vote and the enum vote agree |
| Aggregation.RoundHalfUpUnique | src/modules/properties/propertyFeatures/domain/aggregation.util.ts:84 | `Math.round(num / den)` is the unique integer r with den·(2r−1) ≤ 2·num < den·(2r+1) |
| Aggregation.CalculateAverage | src/modules/properties/propertyFeatures/domain/aggregation.util.ts:80-85 | no values gives 0; otherwise the result is the mean rounded half toward +∞ (bounded as above) |
| Aggregation.AverageExamples | src/modules/properties/propertyFeatures/domain/aggregation.util.ts:80-85 | [10,11]→11, [10,20]→15, [-10,10]→0, [1,2,3]→2, [-1,-2]→-1 |
| Aggregation.AggregateAiOutputs | src/modules/properties/propertyFeatures/domain/aggregation.util.ts:95-102 | no outputs gives false, false, 0, office |
| Aggregation.AggregateFields | src/modules/properties/propertyFeatures/domain/aggregation.util.ts:104-122 | for non-empty outputs each field is its column's vote or rounded mean, the latest output breaking ties |
| Aggregation.AggregateSingleton | src/modules/properties/propertyFeatures/domain/aggregation.util.ts:104-122 | a single output is reproduced verbatim |
| Common.TypeNameInjective | src/shared/utils/property-feature.utils.ts:7-8 | distinct property types have distinct names |
| Common.ToLowerIdempotent | src/shared/utils/property-feature.utils.ts:6 | lower-casing twice is lower-casing once |
| FeatureParsing.TypeNamed | src/shared/utils/property-feature.utils.ts:7-10 | a name is found exactly when it is some type's name, and the type found has that name |
| FeatureParsing.ParsePropertyType | src/shared/utils/property-feature.utils.ts:4-11 | falsy input is unset; a result is the type whose name is the lower-cased string form; whenever such a type exists it is the result |
| FeatureParsing.ParsePropertyTypeIgnoresCase | src/shared/utils/property-feature.utils.ts:6-10 | a string and its lower-cased form parse alike |
| FeatureParsing.ParsePropertyTypeNames | src/shared/utils/property-feature.utils.ts:6-10 | every canonical name parses to its type, and "OFFICE" parses to office |
| FeatureParsing.ParsePropertyTypeRejects | src/shared/utils/property-feature.utils.ts:5-10 | "invalid_type", missing, null, "", 0 and false are unset |
| FeatureParsing.BooleanFieldMeaning | src/shared/utils/property-feature.utils.ts:18-23 | for every value: null is unset, a missing key is false, a boolean is kept, a string is true unless empty, a number unless 0, arrays and objects are true |
| FeatureParsing.BooleanFieldCoercions | src/shared/utils/property-feature.utils.ts:18-23 | missing gives false, "false" and "true" give true, 0 gives false |
| FeatureParsing.CapacityField | src/shared/utils/property-feature.utils.ts:24 | `NaN` gives 0, a finite number is kept (0 included) |
| FeatureParsing.CapacityFieldMeaning | src/shared/utils/property-feature.utils.ts:24 | for every value: missing and null give 0, a number is kept, true is 1 and false 0, an object is 0, the decimal form of any integer gives that integer, a string starting with a letter gives 0 |
| FeatureParsing.CapacityFieldCoercions | src/shared/utils/property-feature.utils.ts:24 | null, missing and "many" give 0; "50" gives 50; 20 gives 20 |
| JsValues.StringToNumberOfIntToString | src/shared/utils/property-feature.utils.ts:24 | `Number(String(n))` is n for every integer |
| FeatureParsing.ParseResponseFields | src/shared/utils/property-feature.utils.ts:13-27 | for every parsed answer: it fails exactly when it is null; otherwise null booleans are unset and missing ones false, a missing or null capacity is 0 and a number is kept, any casing of a type name gives that type and a falsy type is unset, and an answer that is not an object gives the defaults |
| FeatureService.NewFeatureFields | src/modules/properties/propertyFeatures/domain/property-feature.service.ts:66-68 | a new row has the given id and property, the given fields, and false for absent booleans |
| FeatureService.MergeFields | src/modules/properties/propertyFeatures/domain/property-feature.service.ts:134-139 | a merge keeps id and propertyId, takes every field the data carries and keeps the rest |
| FeatureService.MergeIdempotent | src/modules/properties/propertyFeatures/domain/property-feature.service.ts:134-139 | merging the same data twice is merging it once; merging nothing is the identity |
| FeatureService.InsertedKeepsOnePerProperty | src/modules/properties/propertyFeatures/domain/property-feature.service.ts:51-68 | inserting for a property without a feature keeps the table valid, adds exactly that row and leaves the others |
| FeatureService.UpsertedKeepsOnePerProperty | src/modules/properties/propertyFeatures/domain/property-feature.service.ts:130-159 | an upsert keeps the table valid, merges into the existing row (keeping its id) or adds the new one, and leaves other properties' rows |
| FeatureService.UpsertedIdempotent | src/modules/properties/propertyFeatures/domain/property-feature.service.ts:130-159 | upserting the same data again changes nothing |
| FeatureService.PropertyFeatureService.Create | src/modules/properties/propertyFeatures/domain/property-feature.service.ts:43-75 | an existing feature gives Conflict and no change; otherwise exactly the new row is inserted and returned |
| FeatureService.PropertyFeatureService.FindByProperty | src/modules/properties/propertyFeatures/domain/property-feature.service.ts:77-97 | the property's feature, or NotFound exactly when it has none |
| FeatureService.PropertyFeatureService.FindOne | src/modules/properties/propertyFeatures/domain/property-feature.service.ts:99-116 | the stored row with that feature id, or NotFound exactly when there is none |
| FeatureService.PropertyFeatureService.Upsert | src/modules/properties/propertyFeatures/domain/property-feature.service.ts:118-160 | the table becomes `Upserted` of the old one, stays valid, and the saved row is returned |
| FeatureListener.AiOutputsOfAppend | src/modules/properties/propertyFeatures/listeners/property-feature.listener.ts:38-40 | the output filter preserves note order (it distributes over concatenation) |
| FeatureListener.AiOutputsOfMembers | src/modules/properties/propertyFeatures/listeners/property-feature.listener.ts:38-40 | an output is kept exactly when some note of the property carries it |
| FeatureListener.AfterNoteProcessedEffect | src/modules/properties/propertyFeatures/listeners/property-feature.listener.ts:42-54 | no outputs: table unchanged; otherwise the property's row holds the four aggregated values, keeps its id, and other rows are untouched |
| FeatureListener.AfterNoteProcessedIdempotent | src/modules/properties/propertyFeatures/listeners/property-feature.listener.ts:33-54 | handling the same notes twice leaves the table as once |
| FeatureListener.HandleNoteProcessed | src/modules/properties/propertyFeatures/listeners/property-feature.listener.ts:30-72 | a read or write failure is logged and writes nothing; no outputs skips the write; otherwise the table becomes `AfterNoteProcessed` |
| Ranking.CandidatesMembers | src/modules/properties/property/domain/property.service.ts:270 | a row is a candidate exactly when it passes every clause |
| Ranking.CandidatesSubsequence | src/modules/properties/property/domain/property.service.ts:270 | the query only drops rows: the candidates are a subsequence of the table and no longer than it |
| Properties.CandidatesUniqueIds | src/modules/properties/property/domain/property.service.ts:117 | when the table's ids are distinct, so are the returned rows' ids |
| Ranking.HardFilterCount | src/modules/properties/property/domain/property.service.ts:213-268 | `propertyFields` counts the truthy text filters and each range with a truthy end, so it is at most 5 |
| Ranking.NamedFilterCount | src/modules/properties/property/domain/property.service.ts:219-238 | city, neighborhood and type add at most 3 |
| Ranking.RangeConditionsMeaning | src/modules/properties/property/domain/property.service.ts:240-253 | a range's clauses hold exactly when each non-null end bounds the column inclusively (for a counted range) |
| Ranking.HardConditionsMeaning | src/modules/properties/property/domain/property.service.ts:219-268 | the search clauses hold exactly when the row meets city/neighborhood (case-insensitive substring), type (exact) and both ranges |
| Ranking.FalsyRangeIgnored | src/modules/properties/property/domain/property.service.ts:240-268 | a range with no truthy end adds no clause and constrains nothing |
| Ranking.OptionalsMeaning | src/modules/properties/property/domain/property.service.ts:55-115 | the clauses of optional filters hold exactly when every switched-on filter holds |
| Ranking.PieceMeetsClause | src/modules/properties/property/domain/property.service.ts:55-115 | each of `findAll`'s ten clauses, when added and satisfied, gives its typed condition |
| Ranking.PiecesMeetFilter | src/modules/properties/property/domain/property.service.ts:55-115 | all added `findAll` clauses holding implies the typed filters hold |
| Ranking.FilterMeetsPieces | src/modules/properties/property/domain/property.service.ts:55-115 | the typed filters holding implies every added clause holds |
| Ranking.FilterConditionsMeaning | src/modules/properties/property/domain/property.service.ts:55-115 | `findAll`'s clauses hold exactly when the typed filters hold (feature filters need a joined feature) |
| Ranking.RelevantFields | src/modules/properties/property/domain/property.service.ts:271-280 | at most four relevant soft fields |
| Ranking.RelevantFieldsMembers | src/modules/properties/property/domain/property.service.ts:271-280 | a soft field is relevant exactly when the extraction sets it, capacity only when positive |
| Ranking.RelevantFieldsMember | src/modules/properties/property/domain/property.service.ts:271-280 | per entry: it is relevant exactly when it is the extraction's value for its field |
| Ranking.SoftMatches | src/modules/properties/property/domain/property.service.ts:285-292 | the soft credit never exceeds the number of relevant fields |
| Ranking.SoftMatchesWithoutFeature | src/modules/properties/property/domain/property.service.ts:286-289 | a property without a feature gets no soft credit |
| Ranking.SoftMatchesAll | src/modules/properties/property/domain/property.service.ts:285-292 | full soft credit exactly when every relevant field matches |
| Ranking.ScoreBounds | src/modules/properties/property/domain/property.service.ts:294-295 | the score lies in 0..10, a full match scores 10 |
| Ranking.ScoreMismatch | src/modules/properties/property/domain/property.service.ts:294-295 | with at most nine fields any mismatch scores below 10 |
| Ranking.ScoreExamples | src/modules/properties/property/domain/property.service.ts:294-295 | 4 of 6 scores 7, no fields scores 0, 1 of 4 scores 3 |
| Ranking.MatchCountBounds | src/modules/properties/property/domain/property.service.ts:281-295 | propertyFields ≤ matchCount ≤ totalFields ≤ 9; no feature means matchCount = propertyFields; totalFields 0 scores 0; a mismatch scores below 10 |
| Ranking.ScoreAllEntries | src/modules/properties/property/domain/property.service.ts:283-301 | every scored entry is a candidate with its joined feature and a score in 0..10 |
| Ranking.InsertPermutes | src/modules/properties/property/domain/property.service.ts:307 | one insertion step adds exactly the element |
| Ranking.InsertSorted | src/modules/properties/property/domain/property.service.ts:307 | one insertion step keeps the scores non-increasing |
| Ranking.SortByScorePermutes | src/modules/properties/property/domain/property.service.ts:307 | the sort is a permutation |
| Ranking.SortByScoreSorted | src/modules/properties/property/domain/property.service.ts:307 | the sorted scores are non-increasing |
| Ranking.InsertStable | src/modules/properties/property/domain/property.service.ts:307 | an insertion places the element after every equal score |
| Ranking.SortByScoreStable | src/modules/properties/property/domain/property.service.ts:307 | for every score, the entries with it keep their input order |
| Ranking.Ranked | src/modules/properties/property/domain/property.service.ts:203-308 | the ranking fails exactly for an empty or failed completion, malformed JSON and JSON null, with those errors |
| Ranking.CandidatesMeetSearch | src/modules/properties/property/domain/property.service.ts:215-270 | the candidates are exactly the rows meeting the search filters |
| Ranking.SortedScoresEntries | src/modules/properties/property/domain/property.service.ts:283-307 | the sorted result has one entry per candidate, non-increasing scores, each a candidate with its feature and a 0..10 score |
| Ranking.RankedResult | src/modules/properties/property/domain/property.service.ts:203-308 | a successful ranking has as many entries as candidates (the rows meeting the filters), in descending score order, each unchanged with its feature and score |
| Ranking.RankedStable | src/modules/properties/property/domain/property.service.ts:283-307 | the ranking keeps the candidates' order among equal scores |
| Properties.ApplyFields | src/modules/properties/property/domain/property.service.ts:166-170 | an update keeps the id, takes every provided field and keeps all others |
| Properties.ApplyIdempotent | src/modules/properties/property/domain/property.service.ts:166-170 | applying an update twice is applying it once |
| Properties.IndexOf | src/modules/properties/property/domain/property.service.ts:131-133 | the position found holds the id and no earlier row does; no position means no row has it |
| Properties.IndexOfFirst | src/modules/properties/property/domain/property.service.ts:157 | the first row holding the id is the one found |
| Properties.PropertyService.FindOne | src/modules/properties/property/domain/property.service.ts:126-147 | a row with the id exactly when one exists, otherwise NotFound |
| Properties.PropertyService.Create | src/modules/properties/property/domain/property.service.ts:28-43 | appends the new row with a fresh id, keeps ids unique, and `findOne` then finds it |
| Properties.PropertyService.Update | src/modules/properties/property/domain/property.service.ts:149-177 | a missing id gives NotFound and no write; otherwise the row is replaced by the merge, which `findOne` then returns |
| Properties.PropertyService.Remove | src/modules/properties/property/domain/property.service.ts:179-201 | a missing id gives NotFound and no write; otherwise the row and its feature are removed and `findOne` gives NotFound |
| Properties.PropertyService.FindAll | src/modules/properties/property/domain/property.service.ts:45-124 | the result holds exactly the rows meeting the typed filters, as a subsequence of the table (order kept, at most as many rows) with distinct ids when the store is valid |
| Properties.PropertyService.RankProperties | src/modules/properties/property/domain/property.service.ts:203-308 | the imperative ranking equals `Ranked` of the rows, features and completion |
| Properties.ScoreCandidates | src/modules/properties/property/domain/property.service.ts:283-301 | the map loop yields `ScoreAll` of the candidates |
| Properties.CountMatches | src/modules/properties/property/domain/property.service.ts:284-292 | the inner loop counts propertyFields plus the matching relevant fields |
| Properties.HardFilters | src/modules/properties/property/domain/property.service.ts:213-268 | the query-building code yields `HardFilterCount` and `HardConditions` |
| Properties.NamedFilters | src/modules/properties/property/domain/property.service.ts:219-238 | the city, neighborhood and type branches yield their count and clauses |
| Properties.RangeFilter | src/modules/properties/property/domain/property.service.ts:240-253 | one range's branches yield `RangeConditions` |

## Left out

- The completion service's HTTP exchange, prompts and configuration. Only its outcome (`Llm.Completion`) is an input.
- `JSON.parse`. Content is given already parsed, or as `Malformed`.
- JSON numbers are integers. `Number()` of a string reads optional spaces around an optional sign and decimal digits. Fractions, exponents, hex and `Infinity` give `NaN` here.
- Floating point is not modelled. `Math.round` of a quotient is exact integer rounding. For the scores this agrees with doubles. `matchCount / totalFields * 10` is a half only when the ratio is 1/4 or 3/4 (2/8 and 6/8 included), and both are exact in binary. For `calculateAverage`, IEEE division is correctly rounded and every `k + 1/2` is representable, so the two agree while the sums stay well below 2^52.
- `toLowerCase` is ASCII only. There is no Unicode case mapping.
- SQL `LIKE` wildcards (`%`, `_`) and `\`, the default `LIKE` escape character, inside user-supplied text are taken literally by the substring match.
- Parameter serialization of a non-string `propertyType` filter is not modelled. Such a parameter never equals the text column.
- Database errors other than the handler's read and write failures are not modelled: connection loss, constraint violations, and `findAll`/`rankProperties` query failures.
- The `getMany()` queries of `findAll` and `rankProperties` have no `ORDER BY`, so their order is unspecified. The model uses table (insertion) order for them, and stability is stated relative to that order. The handler's read is ordered by `createdAt` ascending, and its `read` input is taken to be in that order.
- Property and feature ids are `uuid`s generated by the database. They are modelled as counters (`nextId`).
- Timestamps (`createdAt`, `updatedAt`, `deletedAt`) and all logging are not modelled.
- Soft deletion is modelled as removal from the store. The cascade to the property's notes is not modelled, because no notes table is kept beside the stores. The cascade to its feature is modelled.
- Concurrency is not modelled: calls of the handler and of the two services are taken to run one at a time. The handler is an asynchronous event listener, and `create` and `upsert` each look the feature up and then save it with no lock or transaction. The migration creates no unique index on `property_features.property_id`, so interleaved calls for one property can insert two features. The map-typed feature table makes one feature per property hold by construction.
- Events and asynchronous delivery are not modelled. The handler is called directly with the notes read, or with the read's failure.
- `update` data with keys explicitly set to `undefined` is not modelled. An absent key is `None`.
- Validation decorators on request models are not modelled. Request data is taken as typed.
- Stored AI outputs are assumed fully populated, as the cast in the handler asserts.
- `Array.prototype.sort` is modelled as a stable insertion-sort function rather than an in-place sort. The comparator `(b.score ?? 0) - (a.score ?? 0)` always sees defined scores.
- A JavaScript `Map` is modelled as a Dafny `map` plus the sequence of its keys in insertion order.
- Properties.PropertyService.FindAll, Properties.PropertyService.RankProperties: both read the left-joined feature table from the feature store object passed in, instead of a live SQL join.
