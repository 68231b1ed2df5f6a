/** Alignment of test data conditions with the criteria and cases they are to prove. */
module DataCoverage {
  import opened Wrappers
  import opened Sequences

  /** What a planned case asks for: each of its criteria proved on each of its data. */
  datatype Wanted = Wanted(case_: string, criteria: seq<string>, data: seq<string>)

  datatype Tuple = Tuple(criterion: string, case_: string, data: string)

  /** The flow step whose observation a condition or an identity reads. */
  datatype Observation = Observation(flow: Option<string>, step: Option<string>)

  datatype Condition = Condition(id: string, proves: Tuple, source: Observation, path: string)

  /** A data set, the observation that identifies it and the paths of its identity keys. */
  datatype DataSet = DataSet(id: string, identity: Observation, keyPaths: set<string>, conditions: seq<Condition>)

  /** The cases each acceptance criterion applies to, when the criteria are given. */
  type Criteria = Option<map<string, set<string>>>

  datatype Reason =
    | CriteriaDiffer
    | OtherDataSet(data: string, condition: string)
    | NotWanted(data: string, condition: string)
    | OutsideCriterion(data: string, condition: string)
    | OtherObservation(data: string, condition: string)
    | IdentityOnly(data: string, condition: string)
    | RepeatedConditionId
    | NotProved(tuples: set<Tuple>)

  // ----- the declared condition ----------------------------------------------------------------

  predicate Asks(w: Wanted, t: Tuple) {
    t.case_ == w.case_ && t.criterion in w.criteria && t.data in w.data
  }

  predicate IsWanted(wanted: seq<Wanted>, t: Tuple) {
    exists w :: w in wanted && Asks(w, t)
  }

  /** A condition proves a wanted tuple of its own data set, by the observation that identifies the
      data, on something else than the identity. */
  predicate ConditionOk(wanted: seq<Wanted>, criteria: Criteria, d: DataSet, c: Condition) {
    && c.proves.data == d.id
    && IsWanted(wanted, c.proves)
    && (criteria.Some? && c.proves.criterion in criteria.value ==> c.proves.case_ in criteria.value[c.proves.criterion])
    && c.source == d.identity
    && c.path !in d.keyPaths
  }

  predicate Proves(dataSets: seq<DataSet>, t: Tuple) {
    exists d, c :: d in dataSets && c in d.conditions && c.proves == t
  }

  function ConditionIds(conditions: seq<Condition>): (r: seq<string>)
    ensures |r| == |conditions| && forall i :: 0 <= i < |r| ==> r[i] == conditions[i].id
  {
    if conditions == [] then [] else ConditionIds(conditions[..|conditions| - 1]) + [conditions[|conditions| - 1].id]
  }

  function AllConditionIds(dataSets: seq<DataSet>): seq<string> {
    if dataSets == [] then []
    else AllConditionIds(dataSets[..|dataSets| - 1]) + ConditionIds(dataSets[|dataSets| - 1].conditions)
  }

  predicate References(wanted: seq<Wanted>, criterion: string) {
    exists t: Tuple :: t in WantedTuples(wanted) && t.criterion == criterion
  }

  ghost predicate CriteriaMatch(wanted: seq<Wanted>, criteria: Criteria) {
    criteria.Some? ==> forall k :: k in criteria.value <==> References(wanted, k)
  }

  predicate ConditionsOk(wanted: seq<Wanted>, dataSets: seq<DataSet>, criteria: Criteria) {
    forall d, c :: d in dataSets && c in d.conditions ==> ConditionOk(wanted, criteria, d, c)
  }

  ghost predicate AllProved(wanted: seq<Wanted>, dataSets: seq<DataSet>) {
    forall t :: IsWanted(wanted, t) ==> Proves(dataSets, t)
  }

  /** Every wanted tuple is proved, by conditions that are all in order and distinctly named. */
  ghost predicate Aligned(wanted: seq<Wanted>, dataSets: seq<DataSet>, criteria: Criteria) {
    && CriteriaMatch(wanted, criteria)
    && ConditionsOk(wanted, dataSets, criteria)
    && Unique(AllConditionIds(dataSets))
    && AllProved(wanted, dataSets)
  }

  // ----- the loops -----------------------------------------------------------------------------------

  function WantedTuples(wanted: seq<Wanted>): set<Tuple> {
    set w, k, d | w in wanted && k in w.criteria && d in w.data :: Tuple(k, w.case_, d)
  }

  lemma WantedTuplesAre(wanted: seq<Wanted>, t: Tuple)
    ensures t in WantedTuples(wanted) <==> IsWanted(wanted, t)
  {
    if IsWanted(wanted, t) {
      var w :| w in wanted && Asks(w, t);
      assert t == Tuple(t.criterion, w.case_, t.data);
    }
    if t in WantedTuples(wanted) {
      var w, k, d :| w in wanted && k in w.criteria && d in w.data && t == Tuple(k, w.case_, d);
      assert Asks(w, t);
    }
  }

  function ProvedTuples(dataSets: seq<DataSet>): set<Tuple> {
    set d, c | d in dataSets && c in d.conditions :: c.proves
  }

  function ProvedBy(conditions: seq<Condition>): set<Tuple> {
    set c | c in conditions :: c.proves
  }

  lemma OneMoreCondition(conditions: seq<Condition>, j: nat)
    requires j < |conditions|
    ensures ConditionIds(conditions[..j + 1]) == ConditionIds(conditions[..j]) + [conditions[j].id]
    ensures ProvedBy(conditions[..j + 1]) == ProvedBy(conditions[..j]) + {conditions[j].proves}
  {
    assert conditions[..j + 1] == conditions[..j] + [conditions[j]];
    assert conditions[..j + 1][..j] == conditions[..j];
  }

  method CheckCondition(d: DataSet, c: Condition, expected: set<Tuple>, criteria: Criteria, ghost wanted: seq<Wanted>)
    returns (reasons: seq<Reason>)
    requires expected == WantedTuples(wanted)
    ensures reasons == [] <==> ConditionOk(wanted, criteria, d, c)
    ensures OtherDataSet(d.id, c.id) in reasons <==> c.proves.data != d.id
    ensures NotWanted(d.id, c.id) in reasons <==> !IsWanted(wanted, c.proves)
    ensures OutsideCriterion(d.id, c.id) in reasons <==>
              criteria.Some? && c.proves.criterion in criteria.value && c.proves.case_ !in criteria.value[c.proves.criterion]
    ensures OtherObservation(d.id, c.id) in reasons <==> c.source != d.identity
    ensures IdentityOnly(d.id, c.id) in reasons <==> c.path in d.keyPaths
  {
    WantedTuplesAre(wanted, c.proves);
    reasons := [];
    if c.proves.data != d.id {
      reasons := reasons + [OtherDataSet(d.id, c.id)];
    }
    if c.proves !in expected {
      reasons := reasons + [NotWanted(d.id, c.id)];
    }
    if criteria.Some? && c.proves.criterion in criteria.value && c.proves.case_ !in criteria.value[c.proves.criterion] {
      reasons := reasons + [OutsideCriterion(d.id, c.id)];
    }
    if c.source.flow != d.identity.flow || c.source.step != d.identity.step {
      reasons := reasons + [OtherObservation(d.id, c.id)];
    }
    if d.keyPaths != {} && c.path in d.keyPaths {
      reasons := reasons + [IdentityOnly(d.id, c.id)];
    }
  }

  /** The first `n` conditions of the data set are in order. */
  predicate FirstOk(wanted: seq<Wanted>, criteria: Criteria, d: DataSet, n: nat)
    requires n <= |d.conditions|
  {
    forall k :: 0 <= k < n ==> ConditionOk(wanted, criteria, d, d.conditions[k])
  }

  lemma OneMoreOk(wanted: seq<Wanted>, criteria: Criteria, d: DataSet, n: nat)
    requires n < |d.conditions|
    ensures FirstOk(wanted, criteria, d, n + 1) <==>
              FirstOk(wanted, criteria, d, n) && ConditionOk(wanted, criteria, d, d.conditions[n])
  {
  }

  predicate DataSetOk(wanted: seq<Wanted>, criteria: Criteria, d: DataSet) {
    forall c :: c in d.conditions ==> ConditionOk(wanted, criteria, d, c)
  }

  lemma AllOk(wanted: seq<Wanted>, criteria: Criteria, d: DataSet)
    ensures FirstOk(wanted, criteria, d, |d.conditions|) <==> DataSetOk(wanted, criteria, d)
  {
  }

  method CheckDataSet(d: DataSet, expected: set<Tuple>, criteria: Criteria, ghost wanted: seq<Wanted>)
    returns (reasons: seq<Reason>, ids: seq<string>, actual: set<Tuple>)
    requires expected == WantedTuples(wanted)
    ensures reasons == [] <==> DataSetOk(wanted, criteria, d)
    ensures ids == ConditionIds(d.conditions)
    ensures actual == ProvedBy(d.conditions)
  {
    reasons, ids, actual := [], [], {};
    for j := 0 to |d.conditions|
      invariant reasons == [] <==> FirstOk(wanted, criteria, d, j)
      invariant ids == ConditionIds(d.conditions[..j])
      invariant actual == ProvedBy(d.conditions[..j])
    {
      var c := d.conditions[j];
      OneMoreCondition(d.conditions, j);
      OneMoreOk(wanted, criteria, d, j);
      var found := CheckCondition(d, c, expected, criteria, wanted);
      reasons, ids, actual := reasons + found, ids + [c.id], actual + {c.proves};
    }
    assert d.conditions[..|d.conditions|] == d.conditions;
    AllOk(wanted, criteria, d);
  }

  method CheckDataSets(dataSets: seq<DataSet>, expected: set<Tuple>, criteria: Criteria, ghost wanted: seq<Wanted>)
    returns (reasons: seq<Reason>, ids: seq<string>, actual: set<Tuple>)
    requires expected == WantedTuples(wanted)
    ensures reasons == [] <==> ConditionsOk(wanted, dataSets, criteria)
    ensures ids == AllConditionIds(dataSets) && actual == ProvedTuples(dataSets)
  {
    reasons, ids, actual := [], [], {};
    for i := 0 to |dataSets|
      invariant reasons == [] <==> ConditionsOk(wanted, dataSets[..i], criteria)
      invariant ids == AllConditionIds(dataSets[..i]) && actual == ProvedTuples(dataSets[..i])
    {
      var found, newIds, proved := CheckDataSet(dataSets[i], expected, criteria, wanted);
      OneMoreDataSet(dataSets, i, wanted, criteria);
      reasons, ids, actual := reasons + found, ids + newIds, actual + proved;
    }
    assert dataSets[..|dataSets|] == dataSets;
  }

  lemma OneMoreDataSet(dataSets: seq<DataSet>, i: nat, wanted: seq<Wanted>, criteria: Criteria)
    requires i < |dataSets|
    ensures ConditionsOk(wanted, dataSets[..i + 1], criteria) <==>
              ConditionsOk(wanted, dataSets[..i], criteria)
              && DataSetOk(wanted, criteria, dataSets[i])
    ensures AllConditionIds(dataSets[..i + 1]) == AllConditionIds(dataSets[..i]) + ConditionIds(dataSets[i].conditions)
    ensures ProvedTuples(dataSets[..i + 1]) == ProvedTuples(dataSets[..i]) + ProvedBy(dataSets[i].conditions)
  {
    assert dataSets[..i + 1] == dataSets[..i] + [dataSets[i]];
    assert dataSets[..i + 1][..i] == dataSets[..i];
  }

  lemma NothingMissing(wanted: seq<Wanted>, dataSets: seq<DataSet>)
    ensures WantedTuples(wanted) - ProvedTuples(dataSets) == {} <==> AllProved(wanted, dataSets)
  {
    forall t ensures t in WantedTuples(wanted) - ProvedTuples(dataSets) <==> IsWanted(wanted, t) && !Proves(dataSets, t) {
      WantedTuplesAre(wanted, t);
    }
  }

  lemma ReferencedAre(wanted: seq<Wanted>, criteria: map<string, set<string>>)
    ensures (set t | t in WantedTuples(wanted) :: t.criterion) == criteria.Keys <==> CriteriaMatch(wanted, Some(criteria))
  {
    var referenced := set t | t in WantedTuples(wanted) :: t.criterion;
    assert forall k :: k in referenced <==> References(wanted, k);
    assert forall k :: k in criteria.Keys <==> k in criteria;
  }

  /** `validate_test_data_coverage_alignment`. */
  method ValidateAlignment(wanted: seq<Wanted>, dataSets: seq<DataSet>, criteria: Criteria) returns (reasons: seq<Reason>)
    ensures reasons == [] <==> Aligned(wanted, dataSets, criteria)
  {
    var expected := WantedTuples(wanted);
    var early: seq<Reason> := [];
    if criteria.Some? {
      ReferencedAre(wanted, criteria.value);
      if (set t | t in expected :: t.criterion) != criteria.value.Keys {
        early := [CriteriaDiffer];
      }
    }
    var found, ids, actual := CheckDataSets(dataSets, expected, criteria, wanted);
    reasons := early + found;
    UniqueCount(ids);
    if |ids| != |ToSet(ids)| {
      reasons := reasons + [RepeatedConditionId];
    }
    NothingMissing(wanted, dataSets);
    if expected - actual != {} {
      reasons := reasons + [NotProved(expected - actual)];
    }
  }
}
