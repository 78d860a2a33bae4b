/** The ingestion driver: fetch, gate, batch assertions and load, stream by stream. */
module Ingest {
  import opened Model
  import opened Gate
  import opened Loader

  /** indicators.yml: the configured countries and indicators. */
  datatype Catalogue = Catalogue(countries: set<string>, indicators: set<string>)

  /** What draining the client gives for a stream: all its rows, or the exception that ended
      it: a SourceContractError, which main catches, or any other. */
  datatype Fetched = Rows(items: seq<Item>) | ContractError | OtherError

  /** How a handler ends: loaded, stopped by a gate or contract failure, or with an exception
      that main does not catch. */
  datatype Ending = Ingested(stats: LoadStats) | Stopped | Raised

  const OBSERVATION_FLOOR := 1000

  // ---- What every committed state satisfies -----------------------------------------------

  /** An observation row has both dimension rows, a complete key, a year in range and a null
      or finite value. */
  predicate GoodObservation(k: Key, image: Image, refs: Refs) {
    && k.ObservationKey? && k.country in refs.countries && k.indicator in refs.indicators
    && k.country != "" && k.indicator != "" && MIN_OBS_YEAR <= k.year <= MAX_OBS_YEAR
    && image.cols.ObservationCols? && (image.cols.value.Some? ==> image.cols.value.value.Finite?)
  }

  ghost predicate Referential(db: Db) {
    && (forall k :: k in db.country.rows ==> k.CountryKey? && k.id != "")
    && (forall k :: k in db.indicator.rows ==> k.IndicatorKey? && k.id != "")
    && (forall k :: k in db.observation.rows ==> GoodObservation(k, db.observation.rows[k], RefsOf(db)))
  }

  /** What the gate checks a stream against. */
  function AllowedFor(t: Table, catalogue: Catalogue, db: Db): Allowed {
    if t.Observation? then RefsOf(db) else Allowed(catalogue.countries, catalogue.indicators)
  }

  /** A gated batch cannot break a foreign key or the year CHECK. The only statement error left
      is a decimal count outside smallint, which the gate does not look at. */
  lemma GatedBatchFits(t: Table, items: seq<Item>, catalogue: Catalogue, db: Db)
    ensures var records := Accepted(t, items, AllowedFor(t, catalogue, db), |items|);
            && DistinctRecords(records) && OfTable(t, records)
            && (Fits(records, RefsOf(db)) <==>
                  forall i :: 0 <= i < |records| ==>
                    records[i].cols.ObservationCols? && records[i].cols.decimals.Some? ==> -32768 <= records[i].cols.decimals.value <= 32767)
            && forall i :: 0 <= i < |records| ==> RowError(records[i]) in {None, Some(SmallintRange)} && (t.Observation? ==> Referenced(records[i].key, RefsOf(db)))
  {
    var allowed := AllowedFor(t, catalogue, db);
    var records := Accepted(t, items, allowed, |items|);
    GatePartition(t, items, allowed, |items|);
    forall i | 0 <= i < |records| ensures Admitted(t, records[i], allowed) {
      assert records[i] in records;
      AcceptedAreAdmitted(t, items, allowed, records[i]);
    }
  }

  /** The row-at-a-time specification never drops a key. */
  lemma KeysStay(table: TableState, records: seq<Record>, now: nat, base: nat)
    requires DistinctRecords(records)
    ensures table.rows.Keys <= ApplyAll(table, records, |records|, now, base).rows.Keys
  {
    ApplyMerges(table, records, |records|, now, base);
    var after := ApplyAll(table, records, |records|, now, base).rows;
    forall k | k in table.rows ensures k in after {
      if forall i :: 0 <= i < |records| ==> records[i].key != k {
        assert SameAt(table.rows, after, k);
      } else {
        var i :| 0 <= i < |records| && records[i].key == k;
        assert AppliedTo(table.rows, records[i], now, after);
      }
    }
  }

  /** Where a row of the table after the load comes from. */
  lemma RowOrigin(table: TableState, records: seq<Record>, now: nat, base: nat, k: Key)
    requires DistinctRecords(records) && k in ApplyAll(table, records, |records|, now, base).rows
    ensures var after := ApplyAll(table, records, |records|, now, base).rows;
            || (k in table.rows && after[k] == table.rows[k])
            || exists i :: 0 <= i < |records| && records[i].key == k && after[k].cols == records[i].cols
  {
    var after := ApplyAll(table, records, |records|, now, base).rows;
    ApplyMerges(table, records, |records|, now, base);
    if forall i :: 0 <= i < |records| ==> records[i].key != k {
      assert SameAt(table.rows, after, k);
    } else {
      var i :| 0 <= i < |records| && records[i].key == k;
      assert AppliedTo(table.rows, records[i], now, after);
    }
  }

  /** Loading an admitted batch keeps the referential and domain invariant. */
  lemma LoadKeepsReferential(before: Db, after: Db, t: Table, records: seq<Record>, allowed: Allowed, now: nat, base: nat)
    requires Referential(before) && DistinctRecords(records)
    requires forall i :: 0 <= i < |records| ==> Admitted(t, records[i], allowed)
    requires t.Observation? ==> allowed == RefsOf(before)
    requires OthersStay(before, t, after)
    requires after.At(t) == ApplyAll(before.At(t), records, |records|, now, base)
    ensures Referential(after)
  {
    KeysStay(before.At(t), records, now, base);
    forall k | k in after.At(t).rows
      ensures match t
              case Country => k.CountryKey? && k.id != ""
              case Indicator => k.IndicatorKey? && k.id != ""
              case Observation => GoodObservation(k, after.observation.rows[k], RefsOf(before))
    {
      RowOrigin(before.At(t), records, now, base, k);
    }
    assert RefsOf(before).countries <= RefsOf(after).countries;
    assert RefsOf(before).indicators <= RefsOf(after).indicators;
  }

  // ---- Batch admission ------------------------------------------------------------------

  /** The id a dimension record brings, or the indicator an observation belongs to. */
  function IdOf(k: Key): string {
    match k
    case CountryKey(id) => id
    case IndicatorKey(id) => id
    case ObservationKey(_, indicator, _) => indicator
  }

  function Ids(records: seq<Record>): set<string> {
    set i | 0 <= i < |records| :: IdOf(records[i].key)
  }

  /** The record is the country or the indicator of this id, or an observation of the indicator. */
  predicate Contributes(r: Record, id: string) {
    r.key == CountryKey(id) || r.key == IndicatorKey(id) || (r.key.ObservationKey? && r.key.indicator == id)
  }

  /** How many records contribute to an id. */
  function CountFor(records: seq<Record>, n: nat, id: string): nat
    requires n <= |records|
  {
    if n == 0 then 0 else CountFor(records, n - 1, id) + if Contributes(records[n - 1], id) then 1 else 0
  }

  /** The ids are those that some record contributes to. */
  lemma IdsAre(records: seq<Record>, id: string)
    ensures id in Ids(records) <==> exists i :: 0 <= i < |records| && Contributes(records[i], id)
  {
    forall i | 0 <= i < |records| ensures IdOf(records[i].key) == id <==> Contributes(records[i], id) {
    }
  }

  lemma {:induction false} CountForPositive(records: seq<Record>, n: nat, id: string)
    requires n <= |records|
    ensures CountFor(records, n, id) > 0 <==> exists i :: 0 <= i < n && Contributes(records[i], id)
  {
    if n > 0 {
      CountForPositive(records, n - 1, id);
    }
  }

  /** The per_indicator dictionary. */
  method PerIndicator(records: seq<Record>) returns (counts: map<string, nat>)
    ensures counts.Keys == Ids(records)
    ensures forall id :: id in counts <==> exists i :: 0 <= i < |records| && Contributes(records[i], id)
    ensures forall id :: id in counts ==> counts[id] == CountFor(records, |records|, id) > 0
  {
    counts := map[];
    for i := 0 to |records|
      invariant forall id :: id in counts <==> CountFor(records, i, id) > 0
      invariant forall id :: id in counts ==> counts[id] == CountFor(records, i, id)
    {
      var id := IdOf(records[i].key);
      counts := counts[id := (if id in counts then counts[id] else 0) + 1];
    }
    forall id ensures id in counts <==> id in Ids(records)
              ensures id in counts <==> exists i :: 0 <= i < |records| && Contributes(records[i], id) {
      CountForPositive(records, |records|, id);
      IdsAre(records, id);
    }
  }

  /** What a successful ingest of stream t admitted: exactly the configured dimension rows,
      each once; or at least 950 observations with every configured indicator among them. */
  ghost predicate Admits(t: Table, catalogue: Catalogue, accepted: seq<Record>) {
    match t
    case Country =>
      && |accepted| == |catalogue.countries|
      && forall id :: id in catalogue.countries <==> exists i :: 0 <= i < |accepted| && accepted[i].key == CountryKey(id)
    case Indicator =>
      && |accepted| == |catalogue.indicators|
      && forall id :: id in catalogue.indicators <==> exists i :: 0 <= i < |accepted| && accepted[i].key == IndicatorKey(id)
    case Observation =>
      && |accepted| >= 950
      && forall id :: id in catalogue.indicators ==>
           exists i :: 0 <= i < |accepted| && accepted[i].key.ObservationKey? && accepted[i].key.indicator == id
  }

  lemma IdsUnfold(records: seq<Record>)
    requires records != []
    ensures Ids(records) == Ids(records[..|records| - 1]) + {IdOf(records[|records| - 1].key)}
  {
    var n := |records| - 1;
    forall i | 0 <= i < n ensures IdOf(records[i].key) in Ids(records[..n]) {
      assert records[..n][i] == records[i];
    }
    forall i | 0 <= i < n ensures IdOf(records[..n][i].key) in Ids(records) {
      assert records[..n][i] == records[i];
    }
  }

  /** Distinct dimension keys have distinct ids. */
  lemma {:induction false} EachOnce(t: Table, records: seq<Record>)
    requires DistinctRecords(records) && OfTable(t, records) && !t.Observation?
    ensures |Ids(records)| == |records|
  {
    if records != [] {
      var n := |records| - 1;
      EachOnce(t, records[..n]);
      IdsUnfold(records);
      assert IdOf(records[n].key) !in Ids(records[..n]);
    }
  }

  lemma DimensionIds(t: Table, items: seq<Item>, catalogue: Catalogue, db: Db)
    requires !t.Observation?
    ensures Ids(Accepted(t, items, AllowedFor(t, catalogue, db), |items|))
            <= if t.Country? then catalogue.countries else catalogue.indicators
  {
    var allowed := AllowedFor(t, catalogue, db);
    var records := Accepted(t, items, allowed, |items|);
    forall i | 0 <= i < |records| ensures Admitted(t, records[i], allowed) {
      AcceptedAreAdmitted(t, items, allowed, records[i]);
    }
  }

  function Floor(t: Table, catalogue: Catalogue): nat {
    match t
    case Country => |catalogue.countries|
    case Indicator => |catalogue.indicators|
    case Observation => OBSERVATION_FLOOR
  }

  /** The configured ids a batch must contain. */
  function Required(t: Table, catalogue: Catalogue): set<string> {
    if t.Country? then catalogue.countries else catalogue.indicators
  }

  /** A batch that passes both assertions is admitted. */
  lemma PassedIsAdmitted(t: Table, items: seq<Item>, catalogue: Catalogue, db: Db, result: GateResult)
    requires result.accepted == Accepted(t, items, AllowedFor(t, catalogue, db), |items|)
    requires Acceptable(result, Floor(t, catalogue)) && Required(t, catalogue) <= Ids(result.accepted)
    ensures Admits(t, catalogue, result.accepted)
  {
    GatedBatchFits(t, items, catalogue, db);
    IdsByTable(t, result.accepted);
    if t.Observation? {
      AcceptableKeeps(result, OBSERVATION_FLOOR);
      AdmitsObservations(catalogue, result.accepted);
    } else {
      DimensionIds(t, items, catalogue, db);
      EachOnce(t, result.accepted);
      AdmitsDimension(t, catalogue, result.accepted);
    }
  }

  lemma AdmitsObservations(catalogue: Catalogue, accepted: seq<Record>)
    requires catalogue.indicators <= Ids(accepted) && |accepted| >= 950
    requires forall id :: id in Ids(accepted) <==> HasIdAmong(Observation, accepted, id)
    ensures Admits(Observation, catalogue, accepted)
  {
    forall id | id in catalogue.indicators
      ensures exists i :: 0 <= i < |accepted| && accepted[i].key.ObservationKey? && accepted[i].key.indicator == id
    {
      assert HasIdAmong(Observation, accepted, id);
      var i :| 0 <= i < |accepted| && HasId(Observation, accepted[i], id);
    }
  }

  lemma AdmitsDimension(t: Table, catalogue: Catalogue, accepted: seq<Record>)
    requires !t.Observation? && Ids(accepted) == Required(t, catalogue) && |accepted| == |Ids(accepted)|
    requires forall id :: id in Ids(accepted) <==> HasIdAmong(t, accepted, id)
    ensures Admits(t, catalogue, accepted)
  {
    forall id ensures HasIdAmong(t, accepted, id) <==>
                        exists i :: 0 <= i < |accepted| && accepted[i].key == if t.Country? then CountryKey(id) else IndicatorKey(id) {
    }
  }

  /** Some record brings the id. */
  ghost predicate HasIdAmong(t: Table, records: seq<Record>, id: string) {
    exists i :: 0 <= i < |records| && HasId(t, records[i], id)
  }

  lemma IdsByTable(t: Table, records: seq<Record>)
    requires OfTable(t, records)
    ensures forall id :: id in Ids(records) <==> HasIdAmong(t, records, id)
  {
    forall id ensures id in Ids(records) <==> HasIdAmong(t, records, id) {
      IdsAre(records, id);
      IdsOfTable(t, records, id);
    }
  }

  /** The record of stream t that brings this id, or is of this indicator. */
  predicate HasId(t: Table, r: Record, id: string) {
    match t
    case Country => r.key == CountryKey(id)
    case Indicator => r.key == IndicatorKey(id)
    case Observation => r.key.ObservationKey? && r.key.indicator == id
  }

  lemma IdsOfTable(t: Table, records: seq<Record>, id: string)
    requires OfTable(t, records)
    ensures (exists i :: 0 <= i < |records| && Contributes(records[i], id)) <==> HasIdAmong(t, records, id)
  {
    forall i | 0 <= i < |records| ensures Contributes(records[i], id) <==> HasId(t, records[i], id) {
    }
  }

  // ---- What makes a batch load ------------------------------------------------------------

  /** The gate's result on all rows of a stream. */
  ghost function Batch(t: Table, items: seq<Item>, allowed: Allowed): GateResult {
    GateResult(Accepted(t, items, allowed, |items|), Rejected(t, items, allowed, |items|))
  }

  /** An exception that main does not catch, before anything is loaded. */
  ghost predicate Aborts(t: Table, fetched: Fetched, allowed: Allowed) {
    fetched.OtherError? || (fetched.Rows? && exists i :: 0 <= i < |fetched.items| && Judge(t, fetched.items[i], allowed).Aborts?)
  }

  /** Which depends on the rows alone. */
  lemma AbortsByRows(t: Table, fetched: Fetched, allowed: Allowed)
    ensures Aborts(t, fetched, allowed) <==>
              fetched.OtherError? || (fetched.Rows? && exists i :: 0 <= i < |fetched.items| && EndsGate(t, fetched.items[i].raw))
  {
    if fetched.Rows? {
      GateAborts(t, fetched.items, allowed);
    }
  }

  /** Every row can be judged and both batch assertions hold. */
  ghost predicate Ready(t: Table, catalogue: Catalogue, fetched: Fetched, allowed: Allowed) {
    && fetched.Rows? && !Aborts(t, fetched, allowed)
    && Acceptable(Batch(t, fetched.items, allowed), Floor(t, catalogue))
    && Required(t, catalogue) <= Ids(Batch(t, fetched.items, allowed).accepted)
  }

  /** The rows a batch needs. */
  predicate IsFloor(t: Table, catalogue: Catalogue, n: nat) {
    match t
    case Country => n == |catalogue.countries|
    case Indicator => n == |catalogue.indicators|
    case Observation => n == 1000
  }

  /** Every configured id has an accepted record: its own row, or an observation of it. */
  ghost predicate EachConfigured(t: Table, catalogue: Catalogue, records: seq<Record>) {
    forall id :: Configured(t, catalogue, id) ==> HasIdAmong(t, records, id)
  }

  predicate Configured(t: Table, catalogue: Catalogue, id: string) {
    (t.Country? && id in catalogue.countries) || (!t.Country? && id in catalogue.indicators)
  }

  /** A fetched stream is ready exactly when none of its rows ends the gate, there are as many rows
      as its floor asks for, at most five percent of them are rejected, and every configured id
      has an accepted record. */
  lemma ReadyExactly(t: Table, catalogue: Catalogue, items: seq<Item>, allowed: Allowed, floor: nat)
    requires IsFloor(t, catalogue, floor)
    ensures Ready(t, catalogue, Rows(items), allowed) <==>
              && (forall i :: 0 <= i < |items| ==> !EndsGate(t, items[i].raw))
              && |items| >= floor && |Rejected(t, items, allowed, |items|)| as real <= 0.05 * |items| as real
              && EachConfigured(t, catalogue, Accepted(t, items, allowed, |items|))
  {
    var batch := Batch(t, items, allowed);
    AbortsByRows(t, Rows(items), allowed);
    GatePartition(t, items, allowed, |items|);
    AcceptableExactly(batch, floor);
    AcceptedOfTable(t, items, allowed);
    IdsByTable(t, batch.accepted);
    forall id ensures Configured(t, catalogue, id) <==> id in Required(t, catalogue) {
    }
  }

  lemma AcceptedOfTable(t: Table, items: seq<Item>, allowed: Allowed)
    ensures OfTable(t, Accepted(t, items, allowed, |items|))
  {
    var records := Accepted(t, items, allowed, |items|);
    forall i | 0 <= i < |records| ensures TableOf(records[i].key) == t {
      assert records[i] in records;
      AcceptedAreAdmitted(t, items, allowed, records[i]);
    }
  }

  /** And nothing in it is refused by PostgreSQL: decimal counts fit a smallint and rejected
      payloads are valid jsonb. */
  ghost predicate Loadable(t: Table, catalogue: Catalogue, fetched: Fetched, allowed: Allowed) {
    && Ready(t, catalogue, fetched, allowed)
    && var batch := Batch(t, fetched.items, allowed);
    && (forall i :: 0 <= i < |batch.accepted| ==> RowError(batch.accepted[i]).None?)
    && (forall r :: r in batch.rejected ==> JsonSafe(r.payload))
  }

  /** No statement that loading these rows can need is lost. */
  ghost predicate NoFaults(fetched: Fetched, fails: nat -> bool) {
    fetched.Rows? && !Faulty(fails, |fetched.items| + 4)
  }

  // ---- The driver -----------------------------------------------------------------------

  /** The committed state is untouched, but for at most one failure row. */
  ghost predicate NothingLoaded(before: Db, after: Db, t: Table, now: nat) {
    after == before || exists id :: after == before.(runs := before.runs + [FailedRun(id, t, now)])
  }

  /** The outcome of everything before the load. */
  datatype Screening = Fit(result: GateResult) | Unfit(ending: Ending)

  /** Gate, reject ratio and completeness. */
  method Screen(t: Table, catalogue: Catalogue, fetched: Fetched, db: Db) returns (screening: Screening)
    ensures var allowed := AllowedFor(t, catalogue, db);
            screening == if Aborts(t, fetched, allowed) then Unfit(Raised)
                         else if Ready(t, catalogue, fetched, allowed) then Fit(Batch(t, fetched.items, allowed))
                         else Unfit(Stopped)
  {
    if !fetched.Rows? {
      return Unfit(if fetched.ContractError? then Stopped else Raised);
    }
    var gated := GateRows(t, fetched.items, AllowedFor(t, catalogue, db));
    if gated.None? {
      return Unfit(Raised);
    }
    var result := gated.value;
    assert result == Batch(t, fetched.items, AllowedFor(t, catalogue, db));
    if !Acceptable(result, Floor(t, catalogue)) {
      return Unfit(Stopped);
    }
    var counts := PerIndicator(result.accepted);
    if !(Required(t, catalogue) <= counts.Keys) {
      return Unfit(Stopped);
    }
    return Fit(result);
  }

  /** The table is the row-at-a-time merge of the gated batch, and the batch is complete. */
  ghost predicate Holds(t: Table, catalogue: Catalogue, fetched: Fetched, allowed: Allowed, before: TableState, after: TableState,
                        now: nat, base: nat)
  {
    && Loadable(t, catalogue, fetched, allowed)
    && var records := Batch(t, fetched.items, allowed).accepted;
    Admits(t, catalogue, records) && after == ApplyAll(before, records, |records|, now, base)
  }

  /** A gated batch that is ready can be loaded exactly when it fits the tables and its rejected
      payloads are valid jsonb. */
  lemma FitsIsLoadable(t: Table, catalogue: Catalogue, fetched: Fetched, db: Db)
    requires Ready(t, catalogue, fetched, AllowedFor(t, catalogue, db))
    ensures var allowed := AllowedFor(t, catalogue, db);
            var batch := Batch(t, fetched.items, allowed);
            && DistinctRecords(batch.accepted) && OfTable(t, batch.accepted) && batch.Seen() == |fetched.items|
            && (Fits(batch.accepted, RefsOf(db)) <==> forall i :: 0 <= i < |batch.accepted| ==> RowError(batch.accepted[i]).None?)
            && (Loadable(t, catalogue, fetched, allowed) <==>
                  Fits(batch.accepted, RefsOf(db)) && forall r :: r in batch.rejected ==> JsonSafe(r.payload))
  {
    GatedBatchFits(t, fetched.items, catalogue, db);
    GatePartition(t, fetched.items, AllowedFor(t, catalogue, db), |fetched.items|);
    var records := Batch(t, fetched.items, AllowedFor(t, catalogue, db)).accepted;
    forall i | 0 <= i < |records| ensures Referenced(records[i].key, RefsOf(db)) {
    }
  }

  lemma CommittedHolds(t: Table, catalogue: Catalogue, fetched: Fetched, before: Db, after: Db, stats: LoadStats, now: nat, base: nat)
    requires var allowed := AllowedFor(t, catalogue, before);
             && Loadable(t, catalogue, fetched, allowed)
             && var records := Batch(t, fetched.items, allowed).accepted;
             AsSpecified(before.At(t), after.At(t), records, |records|, stats.inserted, stats.updated, now, base)
    ensures Holds(t, catalogue, fetched, AllowedFor(t, catalogue, before), before.At(t), after.At(t), now, base)
  {
    PassedIsAdmitted(t, fetched.items, catalogue, before, Batch(t, fetched.items, AllowedFor(t, catalogue, before)));
  }

  /** ingest_countries, ingest_indicators and ingest_observations. */
  method IngestStream(t: Table, catalogue: Catalogue, fetched: Fetched, loader: PostgresLoader, now: nat, fails: nat -> bool)
    returns (ending: Ending, result: GateResult)
    requires loader.Valid()
    modifies loader
    ensures loader.Valid()
    ensures Referential(old(loader.committed)) ==> Referential(loader.committed)
    ensures var allowed := AllowedFor(t, catalogue, old(loader.committed));
            && (ending.Stopped? <==> !Aborts(t, fetched, allowed) && !Ready(t, catalogue, fetched, allowed))
            && (ending.Ingested? ==>
                  && Holds(t, catalogue, fetched, allowed, old(loader.committed).At(t), loader.committed.At(t), now, old(loader.base))
                  && result == Batch(t, fetched.items, allowed) && loader.base == old(loader.base))
            && (NoFaults(fetched, fails) ==> (ending.Ingested? <==> Loadable(t, catalogue, fetched, allowed)))
            && (Aborts(t, fetched, allowed) ==> loader.committed == old(loader.committed))
    ensures ending.Ingested? ==> AllOrNothing(old(loader.committed), loader.committed, t, result, None, now, Committed(ending.stats))
    ensures !ending.Ingested? ==> NothingLoaded(old(loader.committed), loader.committed, t, now)
    ensures ending.Stopped? ==> loader.committed == old(loader.committed)
  {
    ghost var before, allowed := loader.committed, AllowedFor(t, catalogue, loader.committed);
    var screening := Screen(t, catalogue, fetched, loader.committed);
    if screening.Unfit? {
      return screening.ending, GateResult([], []);
    }
    result := screening.result;
    ending := LoadScreened(t, catalogue, fetched, result, loader, now, fails);
  }

  /** The load of a batch that passed the screening. */
  method LoadScreened(t: Table, catalogue: Catalogue, fetched: Fetched, result: GateResult, loader: PostgresLoader, now: nat,
                      fails: nat -> bool)
    returns (ending: Ending)
    requires loader.Valid() && Ready(t, catalogue, fetched, AllowedFor(t, catalogue, loader.committed))
    requires result == Batch(t, fetched.items, AllowedFor(t, catalogue, loader.committed))
    modifies loader
    ensures loader.Valid() && (Referential(old(loader.committed)) ==> Referential(loader.committed))
    ensures ending.Ingested? || ending.Raised?
    ensures ending.Ingested? ==>
              && Holds(t, catalogue, fetched, AllowedFor(t, catalogue, old(loader.committed)), old(loader.committed).At(t),
                       loader.committed.At(t), now, old(loader.base))
              && loader.base == old(loader.base)
              && AllOrNothing(old(loader.committed), loader.committed, t, result, None, now, Committed(ending.stats))
    ensures !ending.Ingested? ==> NothingLoaded(old(loader.committed), loader.committed, t, now)
    ensures NoFaults(fetched, fails) ==>
              (ending.Ingested? <==> Loadable(t, catalogue, fetched, AllowedFor(t, catalogue, old(loader.committed))))
  {
    ghost var before := loader.committed;
    FitsIsLoadable(t, catalogue, fetched, before);
    var outcome := loader.Load(t, result, None, now, fails);
    if outcome.Committed? {
      CommittedHolds(t, catalogue, fetched, before, loader.committed, outcome.stats, now, old(loader.base));
      LoadedIsReferential(before, loader.committed, t, fetched.items, catalogue, result, now, old(loader.base));
      return Ingested(outcome.stats);
    }
    return Raised;
  }

  lemma LoadedIsReferential(before: Db, after: Db, t: Table, items: seq<Item>, catalogue: Catalogue, result: GateResult, now: nat, base: nat)
    requires result.accepted == Accepted(t, items, AllowedFor(t, catalogue, before), |items|)
    requires OthersStay(before, t, after)
    requires after.At(t) == ApplyAll(before.At(t), result.accepted, |result.accepted|, now, base)
    ensures Referential(before) ==> Referential(after)
  {
    GatedBatchFits(t, items, catalogue, before);
    if Referential(before) {
      var allowed := AllowedFor(t, catalogue, before);
      forall i | 0 <= i < |result.accepted| ensures Admitted(t, result.accepted[i], allowed) {
        AcceptedAreAdmitted(t, items, allowed, result.accepted[i]);
      }
      LoadKeepsReferential(before, after, t, result.accepted, allowed, now, base);
    }
  }

  /** The gate's verdict depends only on the rows, the configuration and, for observations,
      the dimension keys; so ingesting the same rows of a stream again writes nothing. */
  lemma ReingestIsQuiet(t: Table, catalogue: Catalogue, items: seq<Item>, before: Db, once: Db, twice: Db,
                        s: LoadStats, now: nat, base: nat, s': LoadStats, later: nat, base': nat)
    requires OthersStay(before, t, once)
    requires var records := Accepted(t, items, AllowedFor(t, catalogue, before), |items|);
             AsSpecified(before.At(t), once.At(t), records, |records|, s.inserted, s.updated, now, base)
    requires var records := Accepted(t, items, AllowedFor(t, catalogue, once), |items|);
             AsSpecified(once.At(t), twice.At(t), records, |records|, s'.inserted, s'.updated, later, base')
    ensures twice.At(t) == once.At(t) && s'.inserted == 0 && s'.updated == 0
  {
    var records := Accepted(t, items, AllowedFor(t, catalogue, before), |items|);
    assert AllowedFor(t, catalogue, once) == AllowedFor(t, catalogue, before);
    GatePartition(t, items, AllowedFor(t, catalogue, before), |items|);
    SecondLoadIsQuiet(before.At(t), once.At(t), twice.At(t), records, s.inserted, s.updated, now, base,
                      s'.inserted, s'.updated, later, base');
  }

  // ---- main ---------------------------------------------------------------------------------

  datatype Exit = Code(code: nat) | Traceback

  /** The exit of a handler decides whether main goes on. */
  function ExitOf(ending: Ending): Exit {
    match ending
    case Ingested(_) => Code(0)
    case Stopped => Code(2)
    case Raised => Traceback
  }

  function Rank(t: Table): nat {
    match t
    case Country => 0
    case Indicator => 1
    case Observation => 2
  }

  const STREAMS := [Country, Indicator, Observation]

  /** The selected streams of rank below n, in dependency order. */
  function StreamsBelow(selected: set<Table>, n: nat): seq<Table>
    requires n <= |STREAMS|
  {
    if n == 0 then []
    else StreamsBelow(selected, n - 1) + if STREAMS[n - 1] in selected then [STREAMS[n - 1]] else []
  }

  function Streams(selected: set<Table>): seq<Table> {
    StreamsBelow(selected, |STREAMS|)
  }

  lemma {:induction false} StreamsGrow(selected: set<Table>, m: nat, n: nat)
    requires m <= n <= |STREAMS|
    ensures StreamsBelow(selected, m) <= StreamsBelow(selected, n)
  {
    if m < n {
      StreamsGrow(selected, m, n - 1);
    }
  }

  lemma {:induction false} StreamsAre(selected: set<Table>, n: nat)
    requires n <= |STREAMS|
    ensures forall t :: t in StreamsBelow(selected, n) <==> t in selected && Rank(t) < n
  {
    if n > 0 {
      StreamsAre(selected, n - 1);
      assert forall t :: Rank(t) == n - 1 <==> t == STREAMS[n - 1];
    }
  }

  lemma NextStream(selected: set<Table>, i: nat)
    requires i < |STREAMS|
    ensures var t, before := STREAMS[i], StreamsBelow(selected, i);
            && Rank(t) == i && (forall q :: q in before ==> Rank(q) < Rank(t))
            && before <= Streams(selected) && StreamsBelow(selected, i + 1) <= Streams(selected)
            && StreamsBelow(selected, i + 1) == (if t in selected then before + [t] else before)
  {
    StreamsAre(selected, i);
    StreamsGrow(selected, i, |STREAMS|);
    StreamsGrow(selected, i + 1, |STREAMS|);
  }

  /** Stream t is in the database: its batch could be loaded, and its table is the merge of the
      batch into what was there. */
  ghost predicate StreamHolds(t: Table, catalogue: Catalogue, fetched: Fetched, first: Db, db: Db, now: nat, base: nat) {
    && Holds(t, catalogue, fetched, AllowedFor(t, catalogue, db), first.At(t), db.At(t), now, base)
    && (t.Country? ==> catalogue.countries <= RefsOf(db).countries)
    && (t.Indicator? ==> catalogue.indicators <= RefsOf(db).indicators)
  }

  /** What loading some streams has done to the tables. */
  ghost predicate Progressed(first: Db, db: Db, catalogue: Catalogue, fetched: Table -> Fetched, loaded: seq<Table>, now: nat, base: nat) {
    && (Referential(first) ==> Referential(db))
    && (forall t :: t !in loaded ==> db.At(t) == first.At(t))
    && (forall t :: t in loaded ==> StreamHolds(t, catalogue, fetched(t), first, db, now, base))
  }

  /** A success row of stream t that saw every row fetched. */
  predicate Tells(r: Run, t: Table, fetched: Fetched) {
    r.stream == t && r.status == Success && fetched.Rows? && r.seen == |fetched.items|
  }

  /** The audit rows since: one success row for each loaded stream, in order, then at most one
      failure row, of the stream that stopped the run. */
  ghost predicate Booked(first: seq<Run>, runs: seq<Run>, fetched: Table -> Fetched, loaded: seq<Table>, failing: Option<Table>) {
    var n := |first| + |loaded|;
    && n <= |runs| <= n + 1 && runs[..|first|] == first
    && (forall i :: 0 <= i < |loaded| ==> Tells(runs[|first| + i], loaded[i], fetched(loaded[i])))
    && (|runs| == n + 1 ==> failing.Some? && runs[n].stream == failing.value && runs[n].status == Failed)
  }

  /** Why stream t stopped the run: exit code 2 is a contract error or a failed assertion, and
      without faults of the connection every other failure comes from a batch that cannot be
      loaded. */
  ghost predicate StoppedBy(t: Table, exit: Exit, catalogue: Catalogue, fetched: Fetched, db: Db, fails: nat -> bool) {
    var allowed := AllowedFor(t, catalogue, db);
    && exit in {Code(2), Traceback}
    && (exit == Code(2) <==> !Aborts(t, fetched, allowed) && !Ready(t, catalogue, fetched, allowed))
    && (NoFaults(fetched, fails) ==> !Loadable(t, catalogue, fetched, allowed))
  }

  /** A dimension stream that loads brings every configured id, and no stream takes one away. */
  lemma DimensionsArrive(t: Table, catalogue: Catalogue, items: seq<Item>, before: Db, after: Db, now: nat, base: nat)
    requires OthersStay(before, t, after)
    requires Holds(t, catalogue, Rows(items), AllowedFor(t, catalogue, before), before.At(t), after.At(t), now, base)
    ensures RefsOf(before).countries <= RefsOf(after).countries
    ensures RefsOf(before).indicators <= RefsOf(after).indicators
    ensures t.Country? ==> catalogue.countries <= RefsOf(after).countries
    ensures t.Indicator? ==> catalogue.indicators <= RefsOf(after).indicators
  {
    var records := Batch(t, items, AllowedFor(t, catalogue, before)).accepted;
    GatedBatchFits(t, items, catalogue, before);
    KeysStay(before.At(t), records, now, base);
    ApplyMerges(before.At(t), records, |records|, now, base);
    forall i | 0 <= i < |records| ensures records[i].key in after.At(t).rows {
      assert AppliedTo(before.At(t).rows, records[i], now, after.At(t).rows);
    }
    if !t.Observation? {
      forall id | id in Required(t, catalogue) ensures DimensionIn(t, after, id) {
        var i :| 0 <= i < |records| && HasId(t, records[i], id);
      }
    }
  }

  predicate DimensionIn(t: Table, db: Db, id: string) {
    match t
    case Country => CountryKey(id) in db.country.rows
    case Indicator => IndicatorKey(id) in db.indicator.rows
    case Observation => false
  }

  lemma LoadTouchesOne(before: Db, after: Db, t: Table, result: GateResult, cursor: Option<string>, now: nat, stats: LoadStats)
    requires AllOrNothing(before, after, t, result, cursor, now, Committed(stats))
    ensures OthersStay(before, t, after) && |after.runs| == |before.runs| + 1 && after.runs[..|before.runs|] == before.runs
    ensures var r := after.runs[|before.runs|]; r.stream == t && r.status == Success && r.seen == result.Seen()
  {
  }

  /** A stream that is in stays in while one of higher rank is loaded. */
  lemma EarlierStays(t: Table, u: Table, catalogue: Catalogue, fetched: Fetched, first: Db, before: Db, after: Db, now: nat, base: nat)
    requires Rank(t) < Rank(u) && OthersStay(before, u, after)
    requires StreamHolds(t, catalogue, fetched, first, before, now, base)
    ensures StreamHolds(t, catalogue, fetched, first, after, now, base)
  {
  }

  lemma LoadProgresses(t: Table, catalogue: Catalogue, fetched: Table -> Fetched, first: Db, before: Db, after: Db,
                       loaded: seq<Table>, now: nat, base: nat)
    requires Progressed(first, before, catalogue, fetched, loaded, now, base)
    requires forall q :: q in loaded ==> Rank(q) < Rank(t)
    requires OthersStay(before, t, after) && fetched(t).Rows?
    requires Holds(t, catalogue, fetched(t), AllowedFor(t, catalogue, before), before.At(t), after.At(t), now, base)
    requires Referential(before) ==> Referential(after)
    ensures Progressed(first, after, catalogue, fetched, loaded + [t], now, base)
  {
    DimensionsArrive(t, catalogue, fetched(t).items, before, after, now, base);
    assert AllowedFor(t, catalogue, after) == AllowedFor(t, catalogue, before);
    forall q | q in loaded + [t] ensures StreamHolds(q, catalogue, fetched(q), first, after, now, base) {
      if q in loaded {
        EarlierStays(q, t, catalogue, fetched(q), first, before, after, now, base);
      }
    }
  }

  lemma LoadIsBooked(t: Table, items: seq<Item>, allowed: Allowed, first: seq<Run>, before: seq<Run>, after: seq<Run>,
                     fetched: Table -> Fetched, loaded: seq<Table>)
    requires Booked(first, before, fetched, loaded, None) && fetched(t) == Rows(items)
    requires |after| == |before| + 1 && after[..|before|] == before
    requires var r := after[|before|]; r.stream == t && r.status == Success && r.seen == Batch(t, items, allowed).Seen()
    ensures Booked(first, after, fetched, loaded + [t], None)
  {
    GatePartition(t, items, allowed, |items|);
    assert after[..|first|] == before[..|first|];
    forall i | 0 <= i < |loaded| ensures Tells(after[|first| + i], loaded[i], fetched(loaded[i])) {
      assert after[..|before|][|first| + i] == before[|first| + i];
    }
  }

  lemma FailureIsBooked(t: Table, first: seq<Run>, before: seq<Run>, after: seq<Run>, fetched: Table -> Fetched, loaded: seq<Table>, r: Run)
    requires Booked(first, before, fetched, loaded, None)
    requires after == before || (after == before + [r] && r.stream == t && r.status == Failed)
    ensures Booked(first, after, fetched, loaded, Some(t))
  {
    assert after[..|first|] == before[..|first|];
  }

  lemma FailureProgresses(t: Table, catalogue: Catalogue, fetched: Table -> Fetched, first: Db, before: Db, after: Db,
                          loaded: seq<Table>, now: nat, base: nat)
    requires Progressed(first, before, catalogue, fetched, loaded, now, base) && NothingLoaded(before, after, t, now)
    ensures Progressed(first, after, catalogue, fetched, loaded, now, base)
    ensures AllowedFor(t, catalogue, after) == AllowedFor(t, catalogue, before)
  {
    assert RefsOf(after) == RefsOf(before);
  }

  /** One handler of main, after the streams already loaded. */
  method RunHandler(t: Table, catalogue: Catalogue, fetched: Table -> Fetched, loader: PostgresLoader, now: nat, fails: nat -> bool,
                    ghost first: Db, ghost loaded: seq<Table>)
    returns (exit: Exit)
    requires loader.Valid() && Progressed(first, loader.committed, catalogue, fetched, loaded, now, loader.base)
    requires Booked(first.runs, loader.committed.runs, fetched, loaded, None)
    requires forall q :: q in loaded ==> Rank(q) < Rank(t)
    modifies loader
    ensures loader.Valid()
    ensures exit == Code(0) ==>
              && Progressed(first, loader.committed, catalogue, fetched, loaded + [t], now, old(loader.base)) && loader.base == old(loader.base)
              && Booked(first.runs, loader.committed.runs, fetched, loaded + [t], None)
    ensures exit != Code(0) ==>
              && Progressed(first, loader.committed, catalogue, fetched, loaded, now, old(loader.base))
              && Booked(first.runs, loader.committed.runs, fetched, loaded, Some(t))
              && StoppedBy(t, exit, catalogue, fetched(t), loader.committed, fails)
              && (exit == Code(2) ==> loader.committed == old(loader.committed))
  {
    ghost var before, base := loader.committed, loader.base;
    var ending, result := IngestStream(t, catalogue, fetched(t), loader, now, fails);
    exit := ExitOf(ending);
    if ending.Ingested? {
      LoadTouchesOne(before, loader.committed, t, result, None, now, ending.stats);
      LoadProgresses(t, catalogue, fetched, first, before, loader.committed, loaded, now, base);
      LoadIsBooked(t, fetched(t).items, AllowedFor(t, catalogue, before), first.runs, before.runs, loader.committed.runs, fetched, loaded);
    } else {
      FailureProgresses(t, catalogue, fetched, first, before, loader.committed, loaded, now, base);
      ghost var id :| loader.committed == before || loader.committed == before.(runs := before.runs + [FailedRun(id, t, now)]);
      FailureIsBooked(t, first.runs, before.runs, loader.committed.runs, fetched, loaded, FailedRun(id, t, now));
    }
  }

  /** main: the selected streams in dependency order, stopping at the first that does not load.
      `loaded` is a prefix of them; their tables hold their batches, the other tables are as they
      were, and the exit tells the cause. */
  method IngestAll(selected: set<Table>, catalogue: Catalogue, fetched: Table -> Fetched, loader: PostgresLoader,
                   now: nat, fails: Table -> nat -> bool)
    returns (exit: Exit, loaded: seq<Table>)
    requires loader.Valid()
    modifies loader
    ensures loader.Valid()
    ensures loaded <= Streams(selected)
    ensures exit == Code(0) <==> loaded == Streams(selected)
    ensures Progressed(old(loader.committed), loader.committed, catalogue, fetched, loaded, now, old(loader.base))
    ensures exit == Code(0) ==> Booked(old(loader.committed).runs, loader.committed.runs, fetched, loaded, None)
    ensures exit != Code(0) ==>
              && |loaded| < |Streams(selected)|
              && var t := Streams(selected)[|loaded|];
              && StoppedBy(t, exit, catalogue, fetched(t), loader.committed, fails(t))
              && Booked(old(loader.committed).runs, loader.committed.runs, fetched, loaded, Some(t))
  {
    ghost var first, base := loader.committed, loader.base;
    loaded, exit := [], Code(0);
    for i := 0 to |STREAMS|
      invariant loader.Valid() && exit == Code(0) && loader.base == base
      invariant loaded == StreamsBelow(selected, i)
      invariant Progressed(first, loader.committed, catalogue, fetched, loaded, now, base)
      invariant Booked(first.runs, loader.committed.runs, fetched, loaded, None)
    {
      var t := STREAMS[i];
      NextStream(selected, i);
      if t in selected {
        exit := RunHandler(t, catalogue, fetched, loader, now, fails(t), first, loaded);
        if exit != Code(0) {
          return;
        }
        loaded := loaded + [t];
      }
    }
  }
}
