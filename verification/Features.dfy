/** The feature table: the long fact pivoted to one row per country and year, with its
    completeness accounting. */
module Features {
  import opened Model
  import opened Warehouse

  /** One feature row. `columns` follows the configured feature list. */
  datatype FeatureRow = FeatureRow(country: string, year: int, columns: seq<Option<Float>>, slots: nat, count: nat)

  datatype Group = Group(country: string, year: int)

  predicate InGroup(x: FactRow, g: Group) {
    x.key.ObservationKey? && x.key.country == g.country && x.key.year == g.year
  }

  function ValueOf(x: FactRow): Option<Float> {
    if x.cols.ObservationCols? then x.cols.value else None
  }

  /** anyIf(obs_value, indicator_id = id): the first value that is not null. */
  function AnyIf(fact: seq<FactRow>, g: Group, id: string): Option<Float> {
    if fact == [] then None
    else
      var x, earlier := fact[|fact| - 1], AnyIf(fact[..|fact| - 1], g, id);
      if earlier.Some? then earlier
      else if InGroup(x, g) && x.key.indicator == id then ValueOf(x)
      else None
  }

  /** countIf(obs_value is not null) */
  function CountValues(fact: seq<FactRow>, g: Group): nat {
    if fact == [] then 0
    else
      var x := fact[|fact| - 1];
      CountValues(fact[..|fact| - 1], g) + if InGroup(x, g) && ValueOf(x).Some? then 1 else 0
  }

  /** The groups in order of first occurrence. */
  function Groups(fact: seq<FactRow>): seq<Group> {
    if fact == [] then []
    else
      var x, earlier := fact[|fact| - 1], Groups(fact[..|fact| - 1]);
      if x.key.ObservationKey? && Group(x.key.country, x.key.year) !in earlier
      then earlier + [Group(x.key.country, x.key.year)] else earlier
  }

  function FeatureRowOf(fact: seq<FactRow>, features: seq<string>, g: Group): FeatureRow {
    FeatureRow(g.country, g.year, seq(|features|, i requires 0 <= i < |features| => AnyIf(fact, g, features[i])),
               |features|, CountValues(fact, g))
  }

  /** The model: group, pivot, then the inner join to the country dimension. */
  function Pivot(fact: seq<FactRow>, features: seq<string>, countries: set<string>, groups: seq<Group>): seq<FeatureRow> {
    if groups == [] then []
    else
      var g := groups[|groups| - 1];
      Pivot(fact, features, countries, groups[..|groups| - 1])
      + if g.country in countries then [FeatureRowOf(fact, features, g)] else []
  }

  function FeatureTable(fact: seq<FactRow>, features: seq<string>, countries: set<string>): seq<FeatureRow> {
    Pivot(fact, features, countries, Groups(fact))
  }

  // ---- Grain --------------------------------------------------------------------------

  ghost predicate DistinctGroups(groups: seq<Group>) {
    forall i, j :: 0 <= i < j < |groups| ==> groups[i] != groups[j]
  }

  ghost predicate HasRows(fact: seq<FactRow>, g: Group) {
    exists x :: x in fact && InGroup(x, g)
  }

  lemma HasRowsUnfold(fact: seq<FactRow>, g: Group)
    requires fact != []
    ensures HasRows(fact, g) <==> HasRows(fact[..|fact| - 1], g) || InGroup(fact[|fact| - 1], g)
  {
    var n := |fact| - 1;
    assert forall x :: x in fact <==> x in fact[..n] || x == fact[n];
    if HasRows(fact[..n], g) {
      var x :| x in fact[..n] && InGroup(x, g);
      assert x in fact;
    }
  }

  lemma {:induction false} GroupsAre(fact: seq<FactRow>)
    ensures DistinctGroups(Groups(fact))
    ensures forall g :: g in Groups(fact) <==> HasRows(fact, g)
  {
    if fact != [] {
      GroupsAre(fact[..|fact| - 1]);
      forall g ensures g in Groups(fact) <==> HasRows(fact, g) {
        HasRowsUnfold(fact, g);
      }
    }
  }

  /** r is the row of one of the groups that have a country row. */
  ghost predicate IsRowOf(r: FeatureRow, fact: seq<FactRow>, features: seq<string>, countries: set<string>, groups: seq<Group>) {
    exists g :: g in groups && g.country in countries && r == FeatureRowOf(fact, features, g)
  }

  ghost predicate UniqueGrain(rows: seq<FeatureRow>) {
    forall i, j :: 0 <= i < j < |rows| ==> Group(rows[i].country, rows[i].year) != Group(rows[j].country, rows[j].year)
  }

  lemma {:induction false} PivotIs(fact: seq<FactRow>, features: seq<string>, countries: set<string>, groups: seq<Group>)
    requires DistinctGroups(groups)
    ensures forall r :: r in Pivot(fact, features, countries, groups) <==> IsRowOf(r, fact, features, countries, groups)
    ensures UniqueGrain(Pivot(fact, features, countries, groups))
  {
    if groups != [] {
      var n := |groups| - 1;
      PivotIs(fact, features, countries, groups[..n]);
      assert forall g :: g in groups <==> g in groups[..n] || g == groups[n];
      var some, rows := Pivot(fact, features, countries, groups[..n]), Pivot(fact, features, countries, groups);
      forall r ensures r in rows <==> IsRowOf(r, fact, features, countries, groups) {
        if IsRowOf(r, fact, features, countries, groups[..n]) {
          var g :| g in groups[..n] && g.country in countries && r == FeatureRowOf(fact, features, g);
          assert g in groups;
        }
      }
      forall i | 0 <= i < |some| ensures Group(some[i].country, some[i].year) != groups[n] {
        assert some[i] in some;
        var g :| g in groups[..n] && g.country in countries && some[i] == FeatureRowOf(fact, features, g);
      }
    }
  }

  /** Exactly one row for each country and year that has facts and a country row. */
  lemma GrainIsUnique(fact: seq<FactRow>, features: seq<string>, countries: set<string>)
    ensures UniqueGrain(FeatureTable(fact, features, countries))
    ensures forall g: Group :: HasRows(fact, g) && g.country in countries <==>
              exists r :: r in FeatureTable(fact, features, countries) && r.country == g.country && r.year == g.year
  {
    GroupsAre(fact);
    PivotIs(fact, features, countries, Groups(fact));
    forall g: Group | HasRows(fact, g) && g.country in countries
      ensures exists r :: r in FeatureTable(fact, features, countries) && r.country == g.country && r.year == g.year
    {
      assert IsRowOf(FeatureRowOf(fact, features, g), fact, features, countries, Groups(fact));
    }
  }

  // ---- Values ---------------------------------------------------------------------------

  /** How many values a group has for one indicator. */
  function CountFor(fact: seq<FactRow>, g: Group, id: string): nat {
    if fact == [] then 0
    else
      var x := fact[|fact| - 1];
      CountFor(fact[..|fact| - 1], g, id)
      + if InGroup(x, g) && x.key.indicator == id && ValueOf(x).Some? then 1 else 0
  }

  /** The fact has this value for the group and indicator. */
  ghost predicate HasValue(fact: seq<FactRow>, g: Group, id: string, v: Float) {
    exists x :: x in fact && InGroup(x, g) && x.key.indicator == id && ValueOf(x) == Some(v)
  }

  lemma HasValueUnfold(fact: seq<FactRow>, g: Group, id: string, v: Float)
    requires fact != []
    ensures var x := fact[|fact| - 1];
            HasValue(fact, g, id, v) <==>
              HasValue(fact[..|fact| - 1], g, id, v) || (InGroup(x, g) && x.key.indicator == id && ValueOf(x) == Some(v))
  {
    var n := |fact| - 1;
    assert forall x :: x in fact <==> x in fact[..n] || x == fact[n];
    if HasValue(fact[..n], g, id, v) {
      var x :| x in fact[..n] && InGroup(x, g) && x.key.indicator == id && ValueOf(x) == Some(v);
      assert x in fact;
    }
  }

  lemma {:induction false} AnyIfIs(fact: seq<FactRow>, g: Group, id: string)
    requires UniqueKeys(fact)
    ensures CountFor(fact, g, id) == if AnyIf(fact, g, id).Some? then 1 else 0
    ensures forall v :: AnyIf(fact, g, id) == Some(v) <==> HasValue(fact, g, id, v)
  {
    if fact != [] {
      var n := |fact| - 1;
      AnyIfIs(fact[..n], g, id);
      forall v ensures AnyIf(fact, g, id) == Some(v) <==> HasValue(fact, g, id, v) {
        HasValueUnfold(fact, g, id, v);
      }
      if AnyIf(fact[..n], g, id).Some? {
        var x :| x in fact[..n] && InGroup(x, g) && x.key.indicator == id && ValueOf(x) == AnyIf(fact[..n], g, id);
        assert x.key != fact[n].key;
      }
    }
  }

  /** Losslessness: with unique fact keys, the column of an indicator on a country and year
      holds a value exactly when the fact does. */
  lemma PivotIsLossless(fact: seq<FactRow>, features: seq<string>, countries: set<string>,
                        country: string, year: int, i: nat, v: Float)
    requires UniqueKeys(fact) && i < |features| && country in countries
    ensures (exists r :: r in FeatureTable(fact, features, countries) && r.country == country && r.year == year
                      && |r.columns| == |features| && r.columns[i] == Some(v))
       <==> exists x :: x in fact && x.key == ObservationKey(country, features[i], year) && ValueOf(x) == Some(v)
  {
    var g := Group(country, year);
    GroupsAre(fact);
    PivotIs(fact, features, countries, Groups(fact));
    AnyIfIs(fact, g, features[i]);
    var r := FeatureRowOf(fact, features, g);
    if x :| x in fact && x.key == ObservationKey(country, features[i], year) && ValueOf(x) == Some(v) {
      assert HasValue(fact, g, features[i], v) && HasRows(fact, g);
      assert IsRowOf(r, fact, features, countries, Groups(fact));
      assert r.columns[i] == Some(v);
    }
    if q :| q in FeatureTable(fact, features, countries) && q.country == country && q.year == year
            && |q.columns| == |features| && q.columns[i] == Some(v) {
      assert IsRowOf(q, fact, features, countries, Groups(fact));
      assert HasValue(fact, g, features[i], v);
    }
  }

  // ---- Completeness ----------------------------------------------------------------------

  function NonNull(columns: seq<Option<Float>>): nat {
    if columns == [] then 0 else NonNull(columns[..|columns| - 1]) + if columns[|columns| - 1].Some? then 1 else 0
  }

  ghost predicate DistinctFeatures(features: seq<string>) {
    forall i, j :: 0 <= i < j < |features| ==> features[i] != features[j]
  }

  /** Values of a group that belong to one of the first n features. */
  function CountCovered(fact: seq<FactRow>, g: Group, features: seq<string>, n: nat): nat
    requires n <= |features|
  {
    if fact == [] then 0
    else
      var x := fact[|fact| - 1];
      CountCovered(fact[..|fact| - 1], g, features, n)
      + if InGroup(x, g) && ValueOf(x).Some? && x.key.indicator in features[..n] then 1 else 0
  }

  lemma {:induction false} CoveredGrows(fact: seq<FactRow>, g: Group, features: seq<string>, n: nat)
    requires n < |features| && DistinctFeatures(features)
    ensures CountCovered(fact, g, features, n + 1) == CountCovered(fact, g, features, n) + CountFor(fact, g, features[n])
  {
    if fact != [] {
      CoveredGrows(fact[..|fact| - 1], g, features, n);
      assert features[..n + 1] == features[..n] + [features[n]];
      assert features[n] !in features[..n];
    }
  }

  lemma {:induction false} CoveredByNone(fact: seq<FactRow>, g: Group, features: seq<string>)
    ensures CountCovered(fact, g, features, 0) == 0
  {
    if fact != [] {
      CoveredByNone(fact[..|fact| - 1], g, features);
    }
  }

  /** The populated columns of a group's row are its values of configured indicators. */
  lemma {:induction false} ColumnsAreCovered(fact: seq<FactRow>, g: Group, features: seq<string>, n: nat)
    requires n <= |features| && DistinctFeatures(features) && UniqueKeys(fact)
    ensures NonNull(FeatureRowOf(fact, features, g).columns[..n]) == CountCovered(fact, g, features, n)
  {
    var columns := FeatureRowOf(fact, features, g).columns;
    if n == 0 {
      CoveredByNone(fact, g, features);
    } else {
      ColumnsAreCovered(fact, g, features, n - 1);
      CoveredGrows(fact, g, features, n - 1);
      AnyIfIs(fact, g, features[n - 1]);
      assert columns[..n][..n - 1] == columns[..n - 1];
    }
  }

  /** The group has a value whose indicator is not configured. */
  ghost predicate HasUnconfigured(fact: seq<FactRow>, g: Group, features: seq<string>) {
    exists x :: x in fact && InGroup(x, g) && ValueOf(x).Some? && x.key.indicator !in features
  }

  lemma {:induction false} CoveredIsAll(fact: seq<FactRow>, g: Group, features: seq<string>)
    ensures CountCovered(fact, g, features, |features|) <= CountValues(fact, g)
    ensures CountCovered(fact, g, features, |features|) == CountValues(fact, g) <==> !HasUnconfigured(fact, g, features)
  {
    assert features[..|features|] == features;
    if fact != [] {
      var n := |fact| - 1;
      CoveredIsAll(fact[..n], g, features);
      assert forall x :: x in fact <==> x in fact[..n] || x == fact[n];
    }
  }

  /** feature_count never understates the populated columns, and equals their number, at most
      feature_slots, exactly when every value of the group belongs to a configured
      indicator. */
  lemma CountIsColumns(fact: seq<FactRow>, g: Group, features: seq<string>)
    requires DistinctFeatures(features) && UniqueKeys(fact)
    ensures var r := FeatureRowOf(fact, features, g);
            && r.country == g.country && r.year == g.year && r.slots == |r.columns| == |features|
            && NonNull(r.columns) <= r.count
            && (NonNull(r.columns) == r.count <==> !HasUnconfigured(fact, g, features))
            && (!HasUnconfigured(fact, g, features) ==> r.count <= r.slots)
  {
    var columns := FeatureRowOf(fact, features, g).columns;
    ColumnsAreCovered(fact, g, features, |features|);
    CoveredIsAll(fact, g, features);
    assert columns[..|features|] == columns;
    NonNullBound(columns);
  }

  lemma {:induction false} NonNullBound(columns: seq<Option<Float>>)
    ensures NonNull(columns) <= |columns|
  {
    if columns != [] {
      NonNullBound(columns[..|columns| - 1]);
    }
  }

  // ---- Conservation ----------------------------------------------------------------------

  /** The values of the fact that have a country row. */
  function Values(fact: seq<FactRow>, countries: set<string>): nat {
    if fact == [] then 0
    else
      var x := fact[|fact| - 1];
      Values(fact[..|fact| - 1], countries)
      + if x.key.ObservationKey? && x.key.country in countries && ValueOf(x).Some? then 1 else 0
  }

  /** The feature_count values of these groups' rows, summed. */
  function SumCounts(fact: seq<FactRow>, countries: set<string>, groups: seq<Group>): nat {
    if groups == [] then 0
    else
      var g := groups[|groups| - 1];
      SumCounts(fact, countries, groups[..|groups| - 1]) + if g.country in countries then CountValues(fact, g) else 0
  }

  function SumOfRows(rows: seq<FeatureRow>): nat {
    if rows == [] then 0 else SumOfRows(rows[..|rows| - 1]) + rows[|rows| - 1].count
  }

  lemma {:induction false} RowsSum(fact: seq<FactRow>, features: seq<string>, countries: set<string>, groups: seq<Group>)
    ensures SumOfRows(Pivot(fact, features, countries, groups)) == SumCounts(fact, countries, groups)
  {
    if groups != [] {
      var n := |groups| - 1;
      RowsSum(fact, features, countries, groups[..n]);
      var some := Pivot(fact, features, countries, groups[..n]);
      if groups[n].country in countries {
        assert (some + [FeatureRowOf(fact, features, groups[n])])[..|some|] == some;
      } else {
        assert some + [] == some;
      }
    }
  }

  /** One more fact row adds its value to its own group and to no other. */
  lemma {:induction false} SumGrows(fact: seq<FactRow>, countries: set<string>, groups: seq<Group>)
    requires fact != [] && DistinctGroups(groups)
    ensures var x := fact[|fact| - 1];
            SumCounts(fact, countries, groups) == SumCounts(fact[..|fact| - 1], countries, groups)
              + if x.key.ObservationKey? && Group(x.key.country, x.key.year) in groups && x.key.country in countries && ValueOf(x).Some?
                then 1 else 0
  {
    if groups != [] {
      var n := |groups| - 1;
      SumGrows(fact, countries, groups[..n]);
      assert forall g :: g in groups <==> g in groups[..n] || g == groups[n];
    }
  }

  lemma {:induction false} NoValuesOutside(fact: seq<FactRow>, g: Group)
    requires forall x :: x in fact ==> !InGroup(x, g)
    ensures CountValues(fact, g) == 0
  {
    if fact != [] {
      assert forall x :: x in fact[..|fact| - 1] ==> x in fact;
      NoValuesOutside(fact[..|fact| - 1], g);
    }
  }

  lemma {:induction false} GroupsCountEverything(fact: seq<FactRow>, countries: set<string>)
    ensures SumCounts(fact, countries, Groups(fact)) == Values(fact, countries)
  {
    if fact != [] {
      var n := |fact| - 1;
      GroupsCountEverything(fact[..n], countries);
      GroupsAre(fact);
      SumGrows(fact, countries, Groups(fact));
      NewGroupIsEmpty(fact, countries);
    }
  }

  lemma NewGroupIsEmpty(fact: seq<FactRow>, countries: set<string>)
    requires fact != []
    ensures var x, earlier := fact[|fact| - 1], fact[..|fact| - 1];
            && SumCounts(earlier, countries, Groups(fact)) == SumCounts(earlier, countries, Groups(earlier))
            && (x.key.ObservationKey? ==> Group(x.key.country, x.key.year) in Groups(fact))
  {
    var x, earlier := fact[|fact| - 1], fact[..|fact| - 1];
    if x.key.ObservationKey? && Group(x.key.country, x.key.year) !in Groups(earlier) {
      var g := Group(x.key.country, x.key.year);
      GroupsAre(earlier);
      assert !HasRows(earlier, g);
      NoValuesOutside(earlier, g);
      assert Groups(fact)[..|Groups(fact)| - 1] == Groups(earlier);
    }
  }

  /** Conservation: the feature counts sum to the values of the fact that have a country row;
      nothing is counted twice or lost by the grouping. */
  lemma FeatureCountsConserve(fact: seq<FactRow>, features: seq<string>, countries: set<string>)
    ensures SumOfRows(FeatureTable(fact, features, countries)) == Values(fact, countries)
  {
    RowsSum(fact, features, countries, Groups(fact));
    GroupsCountEverything(fact, countries);
  }
}
