/** Feature aggregation (`aggregation.util.ts`): the per-note extractions of
    one property, oldest first, are combined into one feature record by
    majority votes and a rounded mean, the latest note breaking ties. */
module Aggregation {
  import opened Common

  /** `AiOutputForAggregation` and `AggregatedFeature`: the two interfaces
      have the same four fields, so one datatype serves both. */
  datatype FeatureValues = FeatureValues(
    nearSubway: bool,
    needsRenovation: bool,
    estimatedCapacityPeople: int,
    recommendedUse: PropertyType)

  /** The record returned for an empty input. */
  const DefaultFeature := FeatureValues(false, false, 0, Office)

  // ---------------------------------------------------------------------
  // Counting

  /** How often `v` occurs in `s`. */
  function Occurrences<T(==)>(s: seq<T>, v: T): nat {
    if s == [] then 0
    else Occurrences(s[..|s| - 1], v) + (if s[|s| - 1] == v then 1 else 0)
  }

  lemma {:induction false} OccurrencesIsMultiplicity<T>(s: seq<T>, v: T)
    ensures Occurrences(s, v) == multiset(s)[v]
  {
    if s != [] {
      OccurrencesIsMultiplicity(s[..|s| - 1], v);
      assert s == s[..|s| - 1] + [s[|s| - 1]];
    }
  }

  lemma OccurrencesPositive<T>(s: seq<T>, v: T)
    ensures Occurrences(s, v) > 0 <==> v in s
  {
    OccurrencesIsMultiplicity(s, v);
  }

  /** `values.filter((v) => v === true).length`. */
  function TrueCount(values: seq<bool>): (n: nat)
    ensures n <= |values|
  {
    if values == [] then 0 else (if values[0] then 1 else 0) + TrueCount(values[1..])
  }

  lemma {:induction false} TrueCountSplit(values: seq<bool>)
    ensures TrueCount(values) == multiset(values)[true]
    ensures |values| - TrueCount(values) == multiset(values)[false]
  {
    if values != [] {
      TrueCountSplit(values[1..]);
      assert values == [values[0]] + values[1..];
    }
  }

  // ---------------------------------------------------------------------
  // majorityVoteBoolean

  /** Strictly more votes win; a tie (including no votes) goes to the
      tiebreaker. */
  function MajorityVoteBoolean(values: seq<bool>, tiebreaker: bool): (r: bool)
    ensures |values| == 0 ==> r == tiebreaker
    ensures multiset(values)[true] > multiset(values)[false] ==> r
    ensures multiset(values)[false] > multiset(values)[true] ==> !r
    ensures multiset(values)[true] == multiset(values)[false] ==> r == tiebreaker
  {
    TrueCountSplit(values);
    if |values| == 0 then tiebreaker
    else
      var trueCount := TrueCount(values);
      var falseCount := |values| - trueCount;
      if trueCount > falseCount then true
      else if falseCount > trueCount then false
      else tiebreaker
  }

  /** The vote depends on the values only through how often each occurs. */
  lemma MajorityVoteBooleanOrderFree(a: seq<bool>, b: seq<bool>, tiebreaker: bool)
    requires multiset(a) == multiset(b)
    ensures MajorityVoteBoolean(a, tiebreaker) == MajorityVoteBoolean(b, tiebreaker)
  {
    assert |a| == |multiset(a)| && |b| == |multiset(b)|;
  }

  // ---------------------------------------------------------------------
  // majorityVoteEnum: specification

  /** The largest occurrence count among the first `n` positions of `s`. */
  function MaxOccurrencesUpTo<T(==)>(s: seq<T>, n: nat): (m: nat)
    requires n <= |s|
    ensures forall j :: 0 <= j < n ==> Occurrences(s, s[j]) <= m
    ensures n > 0 ==> exists j :: 0 <= j < n && Occurrences(s, s[j]) == m
    ensures n == 0 ==> m == 0
  {
    if n == 0 then 0
    else
      var m := MaxOccurrencesUpTo(s, n - 1);
      var c := Occurrences(s, s[n - 1]);
      if c > m then c else m
  }

  /** The largest occurrence count of any value in `s` (0 when empty). */
  function MaxOccurrences<T(==)>(s: seq<T>): nat {
    MaxOccurrencesUpTo(s, |s|)
  }

  lemma MaxOccurrencesBounds<T>(s: seq<T>, v: T)
    ensures Occurrences(s, v) <= MaxOccurrences(s)
  {
    OccurrencesPositive(s, v);
    if v in s {
      var j :| 0 <= j < |s| && s[j] == v;
    }
  }

  /** `v` occurs in `s` and no value occurs more often. */
  ghost predicate IsMode<T(!new)>(s: seq<T>, v: T) {
    v in s && forall w :: Occurrences(s, w) <= Occurrences(s, v)
  }

  /** The executable form of IsMode. */
  predicate IsLeader<T(==)>(s: seq<T>, v: T) {
    v in s && Occurrences(s, v) == MaxOccurrences(s)
  }

  lemma LeaderIsMode<T(!new)>(s: seq<T>, v: T)
    ensures IsLeader(s, v) <==> IsMode(s, v)
  {
    if IsLeader(s, v) {
      forall w ensures Occurrences(s, w) <= Occurrences(s, v) {
        MaxOccurrencesBounds(s, w);
      }
    }
    if IsMode(s, v) {
      var j :| 0 <= j < |s| && Occurrences(s, s[j]) == MaxOccurrences(s);
      MaxOccurrencesBounds(s, v);
    }
  }

  /** The first position from `from` on whose value occurs `m` times. */
  function FirstIndexWithCount<T(==)>(s: seq<T>, m: nat, from: nat): (k: nat)
    requires from <= |s|
    requires exists j :: from <= j < |s| && Occurrences(s, s[j]) == m
    ensures from <= k < |s| && Occurrences(s, s[k]) == m
    ensures forall t :: from <= t < k ==> Occurrences(s, s[t]) != m
    decreases |s| - from
  {
    if Occurrences(s, s[from]) == m then from
    else FirstIndexWithCount(s, m, from + 1)
  }

  /** The leader that occurs first in `s`. */
  function FirstLeader<T(==)>(s: seq<T>): T
    requires |s| > 0
  {
    s[FirstIndexWithCount(s, MaxOccurrences(s), 0)]
  }

  /** What `majorityVoteEnum` returns: the tiebreaker when there are no
      values or when it is a leader, otherwise the first leader in input
      order (the winner first reached in the count map's insertion order). */
  function EnumVote<T(==)>(values: seq<T>, tiebreaker: T): (r: T)
    ensures |values| == 0 ==> r == tiebreaker
  {
    if |values| == 0 then tiebreaker
    else if IsLeader(values, tiebreaker) then tiebreaker
    else FirstLeader(values)
  }

  /** On a non-empty input the vote returns a most frequent value. */
  lemma EnumVoteIsMode<T(!new)>(values: seq<T>, tiebreaker: T)
    requires |values| > 0
    ensures IsMode(values, EnumVote(values, tiebreaker))
  {
    var r := EnumVote(values, tiebreaker);
    if !IsLeader(values, tiebreaker) {
      var k := FirstIndexWithCount(values, MaxOccurrences(values), 0);
      assert r == values[k];
    }
    assert IsLeader(values, r);
    LeaderIsMode(values, r);
  }

  /** A value occurring strictly more often than every other one wins,
      whatever the tiebreaker. */
  lemma EnumVoteUniqueMode<T(!new)>(values: seq<T>, v: T, tiebreaker: T)
    requires v in values
    requires forall w :: w != v ==> Occurrences(values, w) < Occurrences(values, v)
    ensures EnumVote(values, tiebreaker) == v
  {
    var r := EnumVote(values, tiebreaker);
    EnumVoteIsMode(values, tiebreaker);
    assert Occurrences(values, v) <= Occurrences(values, r);
  }

  /** A tiebreaker that is among the most frequent values is returned. */
  lemma EnumVoteTiebreakerWins<T(!new)>(values: seq<T>, tiebreaker: T)
    requires IsMode(values, tiebreaker)
    ensures EnumVote(values, tiebreaker) == tiebreaker
  {
    LeaderIsMode(values, tiebreaker);
  }

  /** When the tiebreaker is not a most frequent value, the result is the
      most frequent value that occurs first. */
  lemma EnumVoteFirstLeader<T(!new)>(values: seq<T>, tiebreaker: T)
    requires |values| > 0 && !IsMode(values, tiebreaker)
    ensures exists k ::
      && 0 <= k < |values| && values[k] == EnumVote(values, tiebreaker)
      && (forall t :: 0 <= t < k ==> !IsMode(values, values[t]))
  {
    LeaderIsMode(values, tiebreaker);
    var k := FirstIndexWithCount(values, MaxOccurrences(values), 0);
    forall t | 0 <= t < k ensures !IsMode(values, values[t]) {
      LeaderIsMode(values, values[t]);
    }
  }

  // ---------------------------------------------------------------------
  // majorityVoteEnum: the counting loops

  /** The distinct values of `s` in order of first occurrence: the key order
      of a JavaScript `Map` filled from `s`. */
  function Distinct<T(==)>(s: seq<T>): seq<T> {
    if s == [] then []
    else
      var init := Distinct(s[..|s| - 1]);
      if s[|s| - 1] in s[..|s| - 1] then init else init + [s[|s| - 1]]
  }

  lemma {:induction false} DistinctMembers<T>(s: seq<T>, x: T)
    ensures x in Distinct(s) <==> x in s
  {
    if s != [] {
      DistinctMembers(s[..|s| - 1], x);
      assert s == s[..|s| - 1] + [s[|s| - 1]];
    }
  }

  lemma {:induction false} DistinctPrefix<T>(s: seq<T>, i: nat)
    requires i <= |s|
    ensures Distinct(s[..i]) <= Distinct(s)
    decreases |s| - i
  {
    if i < |s| {
      var init := s[..|s| - 1];
      assert init[..i] == s[..i];
      DistinctPrefix(init, i);
    } else {
      assert s[..i] == s;
    }
  }

  /** The map key first reached with the maximal count is the first leader
      in input order. */
  lemma {:induction false} FirstWinnerIsFirstLeader<T>(values: seq<T>, keys: seq<T>, first: nat)
    requires |values| > 0 && keys == Distinct(values)
    requires first < |keys| && Occurrences(values, keys[first]) == MaxOccurrences(values)
    requires forall t :: 0 <= t < first ==> Occurrences(values, keys[t]) < MaxOccurrences(values)
    ensures keys[first] == FirstLeader(values)
  {
    var m := MaxOccurrences(values);
    var k := FirstIndexWithCount(values, m, 0);
    var x := values[k];
    var before := Distinct(values[..k]);
    DistinctMembers(values[..k], x);
    DistinctPrefix(values, k + 1);
    DistinctPrefix(values[..k + 1], k);
    assert values[..k + 1][..k] == values[..k];
    assert values[..k + 1][..k + 1 - 1] == values[..k];
    forall t | 0 <= t < k ensures values[..k][t] != x {
      assert values[..k][t] == values[t];
    }
    assert Distinct(values[..k + 1]) == before + [x];
    var L := |before|;
    assert keys[L] == x;
    forall t | 0 <= t < L ensures Occurrences(values, keys[t]) != m {
      assert keys[t] == before[t];
      DistinctMembers(values[..k], before[t]);
      assert before[t] in values[..k];
      var p :| 0 <= p < k && values[..k][p] == before[t];
      assert values[p] == keys[t];
    }
    assert first == L;
  }

  /** The first loop of `majorityVoteEnum`: the count of every value, and
      the keys in the order the map first receives them. */
  method CountOccurrences<T(==)>(values: seq<T>) returns (counts: map<T, nat>, keys: seq<T>)
    ensures keys == Distinct(values)
    ensures forall v :: v in counts <==> v in values
    ensures forall v :: v in counts ==> counts[v] == Occurrences(values, v)
  {
    counts := map[];
    keys := [];
    var i := 0;
    while i < |values|
      invariant 0 <= i <= |values|
      invariant keys == Distinct(values[..i])
      invariant forall v :: v in counts <==> v in values[..i]
      invariant forall v :: v in counts ==> counts[v] == Occurrences(values[..i], v)
    {
      var value := values[i];
      assert values[..i + 1][..i] == values[..i];
      assert values[..i + 1] == values[..i] + [value];
      if value !in counts {
        keys := keys + [value];
      }
      var current := if value in counts then counts[value] else 0;
      counts := counts[value := current + 1];
      forall v | v in counts ensures counts[v] == Occurrences(values[..i + 1], v) {
        assert Occurrences(values[..i + 1], v)
          == Occurrences(values[..i], v) + (if value == v then 1 else 0);
        OccurrencesPositive(values[..i], v);
      }
      i := i + 1;
    }
    assert values[..i] == values;
  }

  /** The second loop of `majorityVoteEnum`: walking the keys in order, the
      highest count and the keys that reach it; `first` is the position of
      the first key reaching it. */
  method FindWinners<T(==)>(keys: seq<T>, counts: map<T, nat>)
    returns (maxCount: nat, winners: seq<T>, ghost first: nat)
    requires |keys| > 0
    requires forall t :: 0 <= t < |keys| ==> keys[t] in counts
    ensures forall t :: 0 <= t < |keys| ==> counts[keys[t]] <= maxCount
    ensures |winners| > 0 && first < |keys| && keys[first] == winners[0]
    ensures counts[keys[first]] == maxCount
    ensures forall t :: 0 <= t < first ==> counts[keys[t]] < maxCount
    ensures forall w :: w in winners <==> (w in keys && counts[w] == maxCount)
  {
    maxCount := 0;
    winners := [];
    first := 0;
    var j := 0;
    while j < |keys|
      invariant 0 <= j <= |keys|
      invariant forall t :: 0 <= t < j ==> counts[keys[t]] <= maxCount
      invariant j == 0 ==> maxCount == 0 && winners == [] && first == 0
      invariant j > 0 ==> |winners| > 0 && first < j && keys[first] == winners[0]
      invariant j > 0 ==> counts[keys[first]] == maxCount
      invariant j > 0 ==> forall t :: 0 <= t < first ==> counts[keys[t]] < maxCount
      invariant forall w :: w in winners <==> (w in keys[..j] && counts[w] == maxCount)
    {
      var value := keys[j];
      var count := counts[value];
      assert keys[..j + 1] == keys[..j] + [value];
      if count > maxCount {
        maxCount := count;
        winners := [value];
        first := j;
      } else if count == maxCount {
        winners := winners + [value];
      }
      j := j + 1;
    }
    assert keys[..j] == keys;
  }

  /** `majorityVoteEnum`: a first loop fills a count map (recording its key
      order), a second walks the keys in insertion order keeping the highest
      count and the keys that reach it. */
  method MajorityVoteEnum<T(==)>(values: seq<T>, tiebreaker: T) returns (r: T)
    ensures r == EnumVote(values, tiebreaker)
  {
    if |values| == 0 {
      return tiebreaker;
    }
    var counts, keys := CountOccurrences(values);
    forall t | 0 <= t < |keys| ensures keys[t] in counts {
      DistinctMembers(values, keys[t]);
    }
    DistinctMembers(values, values[0]);
    var maxCount, winners, first := FindWinners(keys, counts);
    WinnersAreLeaders(values, keys, counts, maxCount, winners, first);
    if |winners| == 1 {
      r := winners[0];
    } else if tiebreaker in winners {
      r := tiebreaker;
    } else {
      r := winners[0];
    }
  }

  /** What the two loops of MajorityVoteEnum establish, restated over the
      input: the winners are the leaders and the first winner is the first
      leader. */
  lemma WinnersAreLeaders<T>(values: seq<T>, keys: seq<T>, counts: map<T, nat>,
                             maxCount: nat, winners: seq<T>, first: nat)
    requires |values| > 0 && keys == Distinct(values)
    requires forall v :: v in counts <==> v in values
    requires forall v :: v in counts ==> counts[v] == Occurrences(values, v)
    requires forall t :: 0 <= t < |keys| ==> keys[t] in counts
    requires forall t :: 0 <= t < |keys| ==> counts[keys[t]] <= maxCount
    requires |winners| > 0 && first < |keys| && keys[first] == winners[0]
    requires counts[keys[first]] == maxCount
    requires forall t :: 0 <= t < first ==> counts[keys[t]] < maxCount
    requires forall w :: w in winners <==> (w in keys && counts[w] == maxCount)
    ensures maxCount == MaxOccurrences(values)
    ensures forall w :: w in winners <==> IsLeader(values, w)
    ensures winners[0] == FirstLeader(values)
  {
    var m := MaxOccurrences(values);
    var j :| 0 <= j < |values| && Occurrences(values, values[j]) == m;
    var x := values[j];
    DistinctMembers(values, x);
    var t :| 0 <= t < |keys| && keys[t] == x;
    assert counts[x] == m;
    MaxOccurrencesBounds(values, keys[first]);
    assert maxCount == m;
    forall w | w in winners ensures IsLeader(values, w) {
      DistinctMembers(values, w);
    }
    forall w | IsLeader(values, w) ensures w in winners {
      DistinctMembers(values, w);
    }
    FirstWinnerIsFirstLeader(values, keys, first);
  }

  // ---------------------------------------------------------------------
  // calculateAverage

  /** `values.reduce((acc, val) => acc + val, 0)`. */
  function Sum(values: seq<int>): int {
    if values == [] then 0 else Sum(values[..|values| - 1]) + values[|values| - 1]
  }

  /** `Math.round(num / den)`: the nearest integer, halves rounded up. */
  function RoundHalfUp(num: int, den: int): (r: int)
    requires den > 0
    ensures den * (2 * r - 1) <= 2 * num < den * (2 * r + 1)
  {
    var q := (2 * num + den) / (2 * den);
    assert 2 * den * q <= 2 * num + den < 2 * den * q + 2 * den by {
      DivisionBounds(2 * num + den, 2 * den);
    }
    q
  }

  lemma DivisionBounds(a: int, b: int)
    requires b > 0
    ensures b * (a / b) <= a < b * (a / b) + b
  {
  }

  /** The rounding rule determines its result. */
  lemma RoundHalfUpUnique(num: int, den: int, r: int)
    requires den > 0
    requires den * (2 * r - 1) <= 2 * num < den * (2 * r + 1)
    ensures r == RoundHalfUp(num, den)
  {
    var q := RoundHalfUp(num, den);
    if r < q {
      assert den * (2 * r + 1) <= den * (2 * q - 1) by { MultiplyMonotone(den, 2 * r + 1, 2 * q - 1); }
    } else if r > q {
      assert den * (2 * q + 1) <= den * (2 * r - 1) by { MultiplyMonotone(den, 2 * q + 1, 2 * r - 1); }
    }
  }

  lemma MultiplyMonotone(k: int, a: int, b: int)
    requires k > 0 && a <= b
    ensures k * a <= k * b
  {
  }

  /** The mean of the values, rounded half up; 0 for no values. */
  function CalculateAverage(values: seq<int>): (r: int)
    ensures |values| == 0 ==> r == 0
    ensures |values| > 0 ==>
      |values| * (2 * r - 1) <= 2 * Sum(values) < |values| * (2 * r + 1)
  {
    if |values| == 0 then 0 else RoundHalfUp(Sum(values), |values|)
  }

  lemma AverageExamples()
    ensures CalculateAverage([10, 11]) == 11
    ensures CalculateAverage([10, 20]) == 15
    ensures CalculateAverage([-10, 10]) == 0
    ensures CalculateAverage([1, 2, 3]) == 2
    ensures CalculateAverage([-1, -2]) == -1
  {
    assert Sum([-1, -2]) == -3 by { assert [-1, -2][..1] == [-1]; assert [-1][..0] == []; }
    assert Sum([10, 11]) == 21 by { assert [10, 11][..1] == [10]; assert [10][..0] == []; }
    assert Sum([10, 20]) == 30 by { assert [10, 20][..1] == [10]; assert [10][..0] == []; }
    assert Sum([-10, 10]) == 0 by { assert [-10, 10][..1] == [-10]; assert [-10][..0] == []; }
    assert Sum([1, 2, 3]) == 6 by {
      assert [1, 2, 3][..2] == [1, 2]; assert [1, 2][..1] == [1]; assert [1][..0] == [];
    }
  }

  // ---------------------------------------------------------------------
  // aggregateAiOutputs

  function NearSubwayColumn(outputs: seq<FeatureValues>): (c: seq<bool>)
    ensures |c| == |outputs|
  {
    seq(|outputs|, i requires 0 <= i < |outputs| => outputs[i].nearSubway)
  }

  function NeedsRenovationColumn(outputs: seq<FeatureValues>): (c: seq<bool>)
    ensures |c| == |outputs|
  {
    seq(|outputs|, i requires 0 <= i < |outputs| => outputs[i].needsRenovation)
  }

  function CapacityColumn(outputs: seq<FeatureValues>): (c: seq<int>)
    ensures |c| == |outputs|
  {
    seq(|outputs|, i requires 0 <= i < |outputs| => outputs[i].estimatedCapacityPeople)
  }

  function UseColumn(outputs: seq<FeatureValues>): (c: seq<PropertyType>)
    ensures |c| == |outputs|
  {
    seq(|outputs|, i requires 0 <= i < |outputs| => outputs[i].recommendedUse)
  }

  /** `aggregateAiOutputs`: the defaults for no outputs; otherwise each field
      is voted or averaged over its column, the latest output breaking ties. */
  function AggregateAiOutputs(outputs: seq<FeatureValues>): (r: FeatureValues)
    ensures |outputs| == 0 ==> r == DefaultFeature
  {
    if |outputs| == 0 then DefaultFeature
    else
      var latest := outputs[|outputs| - 1];
      FeatureValues(
        MajorityVoteBoolean(NearSubwayColumn(outputs), latest.nearSubway),
        MajorityVoteBoolean(NeedsRenovationColumn(outputs), latest.needsRenovation),
        CalculateAverage(CapacityColumn(outputs)),
        EnumVote(UseColumn(outputs), latest.recommendedUse))
  }

  /** What each field of a non-empty aggregate means. */
  lemma AggregateFields(outputs: seq<FeatureValues>)
    requires |outputs| > 0
    ensures var r := AggregateAiOutputs(outputs);
      var latest := outputs[|outputs| - 1];
      var near := multiset(NearSubwayColumn(outputs));
      var renovation := multiset(NeedsRenovationColumn(outputs));
      && (near[true] > near[false] ==> r.nearSubway)
      && (near[false] > near[true] ==> !r.nearSubway)
      && (near[true] == near[false] ==> r.nearSubway == latest.nearSubway)
      && (renovation[true] > renovation[false] ==> r.needsRenovation)
      && (renovation[false] > renovation[true] ==> !r.needsRenovation)
      && (renovation[true] == renovation[false] ==> r.needsRenovation == latest.needsRenovation)
      && |outputs| * (2 * r.estimatedCapacityPeople - 1) <= 2 * Sum(CapacityColumn(outputs))
      && 2 * Sum(CapacityColumn(outputs)) < |outputs| * (2 * r.estimatedCapacityPeople + 1)
      && IsMode(UseColumn(outputs), r.recommendedUse)
      && (IsMode(UseColumn(outputs), latest.recommendedUse) ==> r.recommendedUse == latest.recommendedUse)
  {
    var uses := UseColumn(outputs);
    var latest := outputs[|outputs| - 1];
    EnumVoteIsMode(uses, latest.recommendedUse);
    if IsMode(uses, latest.recommendedUse) {
      EnumVoteTiebreakerWins(uses, latest.recommendedUse);
    }
  }

  /** A single output is reproduced verbatim. */
  lemma AggregateSingleton(o: FeatureValues)
    ensures AggregateAiOutputs([o]) == o
  {
    var uses := UseColumn([o]);
    assert uses == [o.recommendedUse];
    assert uses[..0] == [];
    assert Occurrences(uses, o.recommendedUse) == 1;
    assert MaxOccurrences(uses) == 1;
    assert CapacityColumn([o]) == [o.estimatedCapacityPeople];
    assert Sum([o.estimatedCapacityPeople]) == o.estimatedCapacityPeople by {
      assert [o.estimatedCapacityPeople][..0] == [];
    }
    RoundHalfUpUnique(o.estimatedCapacityPeople, 1, o.estimatedCapacityPeople);
  }

  /** For two-valued votes the boolean rule and the enum rule agree. */
  lemma BooleanVoteIsEnumVote(values: seq<bool>, tiebreaker: bool)
    ensures MajorityVoteBoolean(values, tiebreaker) == EnumVote(values, tiebreaker)
  {
    if |values| > 0 {
      var r := EnumVote(values, tiebreaker);
      EnumVoteIsMode(values, tiebreaker);
      OccurrencesIsMultiplicity(values, true);
      OccurrencesIsMultiplicity(values, false);
      OccurrencesIsMultiplicity(values, tiebreaker);
      OccurrencesIsMultiplicity(values, r);
      OccurrencesPositive(values, true);
      OccurrencesPositive(values, false);
      if multiset(values)[true] == multiset(values)[false] {
        assert IsMode(values, tiebreaker);
        EnumVoteTiebreakerWins(values, tiebreaker);
      }
    }
  }
}
