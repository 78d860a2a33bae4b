/** The stages put together: what the loader committed is what the warehouse shows. */
module EndToEnd {
  import opened Model
  import opened Landing
  import opened Warehouse
  import Cdc
  import Pipeline
  import Loader
  import Ingest
  import Features

  /** The last step of the run finishes the build that began at b. It read a landing table that
      had caught up with the database, and dimensions that hold every reference. */
  ghost predicate BuiltAfterDraining(db: Loader.Db, lag: nat, run: seq<Pipeline.State>, b: nat) {
    && lag <= LOOKBACK && Pipeline.IsRun(lag, run) && Pipeline.TimelyRun(run) && b < |run| - 2
    && Pipeline.Begins(run[b], run[b + 1]) && Pipeline.Finishes(run[|run| - 2], run[|run| - 1])
    && (forall i :: b < i < |run| - 1 ==> UnderWay(run, i))
    && run[b].cdc.log == db.observation.log && Cdc.Drained(run[b].cdc)
    && forall k :: k in db.observation.rows ==> Joins(k, run[b + 1].build.dims)
  }

  predicate UnderWay(run: seq<Pipeline.State>, i: nat)
    requires i < |run|
  {
    !run[i].build.Idle?
  }

  lemma StaysUnderWay(lag: nat, run: seq<Pipeline.State>, i: nat)
    requires Pipeline.IsRun(lag, run) && i < |run| - 1 && UnderWay(run, i) && UnderWay(run, i + 1)
    ensures Pipeline.After(run[i + 1]) == Pipeline.After(run[i])
  {
    assert Pipeline.FollowsAt(lag, run, i);
    Pipeline.WasUnderWay(lag, run[i], run[i + 1]);
  }

  lemma {:induction false} UnderWaySince(lag: nat, run: seq<Pipeline.State>, b: nat, i: nat)
    requires Pipeline.IsRun(lag, run) && b < i < |run|
    requires forall j :: b < j <= i ==> UnderWay(run, j)
    ensures Pipeline.After(run[i]) == Pipeline.After(run[b + 1])
  {
    if i > b + 1 {
      UnderWaySince(lag, run, b, i - 1);
      StaysUnderWay(lag, run, i - 1);
    }
  }

  /** The fact shows exactly these rows, each once, on their columns. */
  ghost predicate FactIs(fact: seq<FactRow>, rows: map<Key, Image>) {
    UniqueKeys(fact) && forall k, cols :: Shows(fact, k, cols) <==> k in rows && rows[k].cols == cols
  }

  /** A build that reads a whole log of complete keys without deletes, and joins them all, shows
      the table. */
  lemma WholeLogIsShown(s: Pipeline.State, s': Pipeline.State, p: nat, e: nat, rows: map<Key, Image>)
    requires Pipeline.Inv(s, p, e) && Pipeline.Begins(s, s') && Cdc.Drained(s.cdc)
    requires rows == SourceAt(s.cdc.log, |s.cdc.log|)
    requires forall k :: k in rows ==> Complete(k) && Joins(k, s'.build.dims)
    requires forall i :: 0 <= i < |s.cdc.log| ==> !s.cdc.log[i].kind.Delete?
    ensures FactIs(Rows(Pipeline.After(s')), rows)
  {
    assert p == |s.cdc.log|;
    Cdc.VisibleIsAll(rows);
    Pipeline.BuildMeansThat(s, s', p, e);
    Pipeline.NoDeletesNoStrays(s, p, e);
    ShownRows(s, s', p, rows);
  }

  lemma ShownRows(s: Pipeline.State, s': Pipeline.State, p: nat, rows: map<Key, Image>)
    requires Pipeline.BuildMeans(s, s', p) && Cdc.Visible(SourceAt(s.cdc.log, p)) == rows
    requires forall k :: k in rows ==> Joins(k, s'.build.dims)
    requires KeysOf(Rows(s.fact)) <= rows.Keys
    ensures FactIs(Rows(Pipeline.After(s')), rows)
  {
    var after := Rows(Pipeline.After(s'));
    forall k, cols ensures Shows(after, k, cols) <==> k in rows && rows[k].cols == cols {
      if k !in rows {
        assert SameOn(after, Rows(s.fact), k);
        HasKey(Rows(s.fact), k);
      }
    }
  }

  /** The log of the loader's observation table is as the pipeline needs it. */
  lemma LoaderLogIs(db: Loader.Db, base: nat)
    requires Loader.DbInv(db, base) && Ingest.Referential(db)
    ensures var log, rows := db.observation.log, db.observation.rows;
            && rows == SourceAt(log, |log|)
            && (forall k :: k in rows ==> Complete(k))
            && (forall i :: 0 <= i < |log| ==> !log[i].kind.Delete?)
  {
    assert Loader.Sound(db, Observation, base);
  }

  /** A build that begins over a drained landing table will show the database. */
  lemma DrainedBuildShows(db: Loader.Db, base: nat, s: Pipeline.State, s': Pipeline.State, p: nat, e: nat)
    requires Loader.DbInv(db, base) && Ingest.Referential(db)
    requires Pipeline.Inv(s, p, e) && Pipeline.Begins(s, s') && Cdc.Drained(s.cdc) && s.cdc.log == db.observation.log
    requires forall k :: k in db.observation.rows ==> Joins(k, s'.build.dims)
    ensures FactIs(Rows(Pipeline.After(s')), db.observation.rows)
  {
    LoaderLogIs(db, base);
    WholeLogIsShown(s, s', p, e, db.observation.rows);
  }

  lemma BuildWillShow(db: Loader.Db, base: nat, lag: nat, run: seq<Pipeline.State>, b: nat)
    requires Loader.DbInv(db, base) && Ingest.Referential(db) && BuiltAfterDraining(db, lag, run, b)
    ensures FactIs(Rows(Pipeline.After(run[b + 1])), db.observation.rows)
  {
    var p, e := Pipeline.InvAt(lag, run, b);
    DrainedBuildShows(db, base, run[b], run[b + 1], p, e);
  }

  /** From the loader to the fact: whatever was loaded, in whatever way the changes travelled and
      whatever earlier builds did, the fact shows every committed observation row, once, with
      its columns, and nothing else. */
  lemma FactShowsDatabase(db: Loader.Db, base: nat, lag: nat, run: seq<Pipeline.State>, b: nat)
    requires Loader.DbInv(db, base) && Ingest.Referential(db) && BuiltAfterDraining(db, lag, run, b)
    ensures FactIs(Rows(run[|run| - 1].fact), db.observation.rows)
  {
    BuildWillShow(db, base, lag, run, b);
    UnderWaySince(lag, run, b, |run| - 2);
    assert run[|run| - 1].fact == Pipeline.After(run[|run| - 2]);
  }

  /** From the loader to the feature table: the column of a configured indicator on a country
      and year holds a value exactly when a committed observation does. */
  lemma FeaturesShowDatabase(db: Loader.Db, base: nat, lag: nat, run: seq<Pipeline.State>, b: nat, features: seq<string>, countries: set<string>,
                             country: string, year: int, i: nat, v: Float)
    requires Loader.DbInv(db, base) && Ingest.Referential(db) && BuiltAfterDraining(db, lag, run, b)
    requires i < |features| && country in countries
    ensures (exists r :: r in Features.FeatureTable(Rows(run[|run| - 1].fact), features, countries)
                      && r.country == country && r.year == year
                      && |r.columns| == |features| && r.columns[i] == Some(v))
       <==> var k := ObservationKey(country, features[i], year);
            k in db.observation.rows && db.observation.rows[k].cols.value == Some(v)
  {
    var fact, k := Rows(run[|run| - 1].fact), ObservationKey(country, features[i], year);
    FactShowsDatabase(db, base, lag, run, b);
    Features.PivotIsLossless(fact, features, countries, country, year, i, v);
    if k in db.observation.rows && db.observation.rows[k].cols.value == Some(v) {
      assert Shows(fact, k, db.observation.rows[k].cols);
    }
    if x :| x in fact && x.key == k && Features.ValueOf(x) == Some(v) {
      assert Shows(fact, k, x.cols);
    }
  }

  /** Nothing the loader writes is quarantined: every change of every table, rendered as a
      message, passes the filter of its typed view. */
  lemma LoaderMessagesAreTyped(db: Loader.Db, base: nat, t: Table, i: nat)
    requires Loader.DbInv(db, base) && Ingest.Referential(db) && i < |db.At(t).log|
    ensures PassesFilter(t, Render(t, db.At(t).log[i])) && !Quarantined(Render(t, db.At(t).log[i]))
  {
    var log := db.At(t).log;
    assert Loader.Sound(db, t, base) && LegalAt(t, log, i);
    assert Pipeline.Touched(log, |log|, log[i].key);
    Pipeline.TouchedIsThere(log, |log|, log[i].key);
    RenderThenType(t, log[i], 0);
  }

  /** One of the three tables, copied to the end of its log. */
  ghost predicate DrainedCopy(t: Table, lag: nat, db: Loader.Db, run: seq<Cdc.State>) {
    && Cdc.IsRun(t, lag, run)
    && run[|run| - 1].log == db.At(t).log && Cdc.Drained(run[|run| - 1])
  }

  /** The dimension tables, which are rebuilt from the current state of their landing tables. */
  function DimensionsOf(countries: map<Key, Image>, indicators: map<Key, Image>): Dimensions {
    Dimensions(map k | k in countries && k.CountryKey? :: k.id := countries[k].cols,
               map k | k in indicators && k.IndicatorKey? :: k.id := indicators[k].cols)
  }

  /** The dimensions hold each committed country and indicator, with its columns, and no other. */
  ghost predicate DimensionsAre(dims: Dimensions, db: Loader.Db) {
    && (forall id :: id in dims.countries <==> CountryKey(id) in db.country.rows)
    && (forall id :: id in dims.countries ==> dims.countries[id] == db.country.rows[CountryKey(id)].cols)
    && (forall id :: id in dims.indicators <==> IndicatorKey(id) in db.indicator.rows)
    && (forall id :: id in dims.indicators ==> dims.indicators[id] == db.indicator.rows[IndicatorKey(id)].cols)
  }

  /** A drained dimension reads as the dimension table of the database. */
  lemma DimensionIsRead(t: Table, lag: nat, db: Loader.Db, base: nat, run: seq<Cdc.State>, f: map<Key, Row>)
    requires Loader.DbInv(db, base) && Ingest.Referential(db) && !t.Observation?
    requires DrainedCopy(t, lag, db, run) && IsFinal(run[|run| - 1].typed, f)
    ensures CurrentState(f) == db.At(t).rows
  {
    assert Loader.Sound(db, t, base);
    Cdc.DrainedReadIsSource(t, lag, run, f);
  }

  /** A drained observation table stages only keys of the database. */
  lemma StagedAreCommitted(lag: nat, db: Loader.Db, base: nat, run: seq<Cdc.State>, staging: seq<Row>)
    requires Loader.DbInv(db, base) && DrainedCopy(Observation, lag, db, run)
    requires IsStaging(run[|run| - 1].typed, staging)
    ensures StagedKeys(staging) <= db.observation.rows.Keys
  {
    var ps, es := Cdc.RunKeeps(Observation, lag, run, |run| - 1);
    var s, p, e := run[|run| - 1], ps[|run| - 1], es[|run| - 1];
    assert Loader.Sound(db, Observation, base) && Cdc.Inv(Observation, s, p, e);
    assert p == |s.log|;
    Pipeline.StagedAreSource(s, p, e, staging);
  }

  /** The inner joins of the fact drop nothing: once all three tables are drained, the
      dimensions hold both references of every staged observation. */
  lemma DrainedDimensionsCover(db: Loader.Db, base: nat, lag: nat, countries: seq<Cdc.State>, fc: map<Key, Row>,
                               indicators: seq<Cdc.State>, fi: map<Key, Row>, observations: seq<Cdc.State>, staging: seq<Row>)
    requires Loader.DbInv(db, base) && Ingest.Referential(db)
    requires DrainedCopy(Country, lag, db, countries) && IsFinal(countries[|countries| - 1].typed, fc)
    requires DrainedCopy(Indicator, lag, db, indicators) && IsFinal(indicators[|indicators| - 1].typed, fi)
    requires DrainedCopy(Observation, lag, db, observations) && IsStaging(observations[|observations| - 1].typed, staging)
    ensures Covered(staging, DimensionsOf(CurrentState(fc), CurrentState(fi)))
    ensures forall k :: k in db.observation.rows ==> Joins(k, DimensionsOf(CurrentState(fc), CurrentState(fi)))
    ensures DimensionsAre(DimensionsOf(CurrentState(fc), CurrentState(fi)), db)
  {
    DimensionIsRead(Country, lag, db, base, countries, fc);
    DimensionIsRead(Indicator, lag, db, base, indicators, fi);
    DimensionsHoldAll(db);
    StagedAreCommitted(lag, db, base, observations, staging);
    forall k | k in db.observation.rows ensures Joins(k, DimensionsOf(db.country.rows, db.indicator.rows)) {
      ReferencesAreDimensions(db, k);
    }
    forall r | r in staging ensures r.key in db.observation.rows {
      assert r.key in StagedKeys(staging);
    }
  }

  lemma DimensionsHoldAll(db: Loader.Db)
    requires Ingest.Referential(db)
    ensures DimensionsAre(DimensionsOf(db.country.rows, db.indicator.rows), db)
  {
  }

  lemma ReferencesAreDimensions(db: Loader.Db, k: Key)
    requires Ingest.Referential(db) && k in db.observation.rows
    ensures Joins(k, DimensionsOf(db.country.rows, db.indicator.rows))
  {
    assert Ingest.GoodObservation(k, db.observation.rows[k], Loader.RefsOf(db));
    assert CountryKey(k.country) in db.country.rows && IndicatorKey(k.indicator) in db.indicator.rows;
  }
}
