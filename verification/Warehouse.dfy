/** The incremental fact model: delete+insert on the natural key, over the staged rows that
    arrived inside a lookback window, joined to both dimensions. */
module Warehouse {
  import opened Model
  import opened Landing

  /** 48 hours in the milliseconds of the arrival stamp. */
  const LOOKBACK: nat := 48 * 3600 * 1000

  /** One row of the fact: the observation columns, the two joined dimensions, the stamp. */
  datatype FactRow = FactRow(key: Key, cols: Cols, country: Cols, indicator: Cols, synced: nat)

  datatype Dimensions = Dimensions(countries: map<string, Cols>, indicators: map<string, Cols>)

  predicate Joins(k: Key, dims: Dimensions) {
    k.ObservationKey? && k.country in dims.countries && k.indicator in dims.indicators
  }

  function Enrich(r: Row, dims: Dimensions): FactRow
    requires Joins(r.key, dims)
  {
    FactRow(r.key, r.image.cols, dims.countries[r.key.country], dims.indicators[r.key.indicator], r.synced)
  }

  function MaxSynced(fact: seq<FactRow>): nat {
    if fact == [] then 0
    else
      var last, rest := fact[|fact| - 1].synced, MaxSynced(fact[..|fact| - 1]);
      if last > rest then last else rest
  }

  /** The first build of the model reads everything; later builds read the window. */
  predicate InWindow(r: Row, fact: Option<seq<FactRow>>) {
    fact.Some? ==> r.synced >= MaxSynced(fact.value) - LOOKBACK
  }

  /** The model's SELECT: window filter, then inner joins. */
  function Select(staging: seq<Row>, fact: Option<seq<FactRow>>, dims: Dimensions): seq<FactRow> {
    if staging == [] then []
    else
      var r := staging[|staging| - 1];
      Select(staging[..|staging| - 1], fact, dims)
      + if InWindow(r, fact) && Joins(r.key, dims) then [Enrich(r, dims)] else []
  }

  function KeysOf(fact: seq<FactRow>): set<Key> {
    set i | 0 <= i < |fact| :: fact[i].key
  }

  /** The DELETE: rows whose key is not among the given ones. */
  function Without(fact: seq<FactRow>, keys: set<Key>): seq<FactRow> {
    if fact == [] then []
    else
      var x := fact[|fact| - 1];
      Without(fact[..|fact| - 1], keys) + if x.key in keys then [] else [x]
  }

  function Rows(fact: Option<seq<FactRow>>): seq<FactRow> {
    if fact.Some? then fact.value else []
  }

  /** The fact between the two statements of a build: the selected keys deleted and not yet
      inserted. The first build has no table to delete from. */
  function Halved(fact: Option<seq<FactRow>>, picked: seq<FactRow>): Option<seq<FactRow>> {
    if fact.None? then None else Some(Without(fact.value, KeysOf(picked)))
  }

  /** The fact after one build. */
  function Built(fact: Option<seq<FactRow>>, staging: seq<Row>, dims: Dimensions): seq<FactRow> {
    var picked := Select(staging, fact, dims);
    Rows(Halved(fact, picked)) + picked
  }

  /** The materialised table. */
  class FactTable {
    var rows: Option<seq<FactRow>>

    constructor ()
      ensures rows == None
    {
      rows := None;
    }

    /** DELETE of the keys in the temporary relation. */
    method Delete(picked: seq<FactRow>)
      modifies this
      ensures rows == Halved(old(rows), picked)
    {
      if rows.None? {
        return;
      }
      var kept: seq<FactRow>, before := [], rows.value;
      for i := 0 to |before|
        invariant kept == Without(before[..i], KeysOf(picked))
      {
        assert before[..i + 1][..i] == before[..i];
        if before[i].key !in KeysOf(picked) {
          kept := kept + [before[i]];
        }
      }
      assert before[..|before|] == before;
      rows := Some(kept);
    }

    /** One `dbt build` of the model: select into a temporary relation, delete, insert. It may
        die between the two statements. */
    method Build(staging: seq<Row>, dims: Dimensions, dies: bool) returns (done: bool)
      modifies this
      ensures done == !dies
      ensures rows == if dies then Halved(old(rows), Select(staging, old(rows), dims))
                      else Some(Built(old(rows), staging, dims))
      ensures forall x :: x in Rows(rows) ==> x in Rows(old(rows)) || (!dies && IsJoinOf(x, staging, dims))
    {
      BuildJoins(rows, staging, dims);
      var picked := Select(staging, rows, dims);
      Delete(picked);
      if dies {
        return false;
      }
      rows := Some(Rows(rows) + picked);
      return true;
    }
  }

  // ---- What the queries contain ---------------------------------------------------------

  ghost predicate UniqueKeys(fact: seq<FactRow>) {
    forall i, j :: 0 <= i < j < |fact| ==> fact[i].key != fact[j].key
  }

  ghost predicate DistinctKeys(staging: seq<Row>) {
    forall i, j :: 0 <= i < j < |staging| ==> staging[i].key != staging[j].key
  }

  ghost function StagedKeys(staging: seq<Row>): set<Key> {
    set i | 0 <= i < |staging| :: staging[i].key
  }

  /** The fact shows these observation columns for the key. */
  ghost predicate Shows(fact: seq<FactRow>, k: Key, cols: Cols) {
    exists x :: x in fact && x.key == k && x.cols == cols
  }

  /** x carries key, observation columns and stamp of a staged row, and under `country` and
      `indicator` the columns that the dimensions hold for its two references. */
  ghost predicate IsJoinOf(x: FactRow, staging: seq<Row>, dims: Dimensions) {
    exists r :: r in staging && JoinsTo(r, x, dims)
  }

  ghost predicate JoinsTo(r: Row, x: FactRow, dims: Dimensions) {
    && r.key.ObservationKey? && r.key.country in dims.countries && r.key.indicator in dims.indicators
    && x.key == r.key && x.cols == r.image.cols && x.synced == r.synced
    && x.country == dims.countries[r.key.country]
    && x.indicator == dims.indicators[r.key.indicator]
  }

  /** The SELECT returns a row for each staged row of the window whose references the dimensions
      hold, and no other. */
  lemma {:induction false} SelectJoins(staging: seq<Row>, fact: Option<seq<FactRow>>, dims: Dimensions)
    ensures forall x :: x in Select(staging, fact, dims) ==> exists r :: r in staging && InWindow(r, fact) && JoinsTo(r, x, dims)
    ensures forall r :: r in staging && InWindow(r, fact) && Joins(r.key, dims) ==>
              exists x :: x in Select(staging, fact, dims) && JoinsTo(r, x, dims)
  {
    if staging != [] {
      var n := |staging| - 1;
      var rest, last := staging[..n], staging[n];
      SelectJoins(rest, fact, dims);
      assert forall q :: q in staging <==> q in rest || q == last;
      var some, all := Select(rest, fact, dims), Select(staging, fact, dims);
      assert forall x :: x in some ==> x in all;
      if InWindow(last, fact) && Joins(last.key, dims) {
        assert JoinsTo(last, Enrich(last, dims), dims) && all[|all| - 1] == Enrich(last, dims);
      }
    }
  }

  /** So every row of the fact after a build was there before, or joins a staged row to its
      dimensions. */
  lemma BuildJoins(fact: Option<seq<FactRow>>, staging: seq<Row>, dims: Dimensions)
    ensures forall x :: x in Built(fact, staging, dims) ==> x in Rows(fact) || IsJoinOf(x, staging, dims)
    ensures forall x :: x in Rows(Halved(fact, Select(staging, fact, dims))) ==> x in Rows(fact)
  {
    var picked := Select(staging, fact, dims);
    SelectJoins(staging, fact, dims);
    WithoutIs(Rows(fact), KeysOf(picked));
    forall x | x in picked ensures IsJoinOf(x, staging, dims) {
      var q :| q in staging && InWindow(q, fact) && JoinsTo(q, x, dims);
    }
  }

  /** And every staged row of the window that joins is there, joined. */
  lemma BuildJoinsAll(fact: Option<seq<FactRow>>, staging: seq<Row>, dims: Dimensions, r: Row) returns (x: FactRow)
    requires r in staging && InWindow(r, fact) && Joins(r.key, dims)
    ensures x in Built(fact, staging, dims) && JoinsTo(r, x, dims)
  {
    SelectJoins(staging, fact, dims);
    x :| x in Select(staging, fact, dims) && JoinsTo(r, x, dims);
  }

  /** The SELECT returns the staged rows that pass, one row for each. */
  lemma {:induction false} SelectIs(staging: seq<Row>, fact: Option<seq<FactRow>>, dims: Dimensions)
    requires DistinctKeys(staging)
    ensures forall x :: x in Select(staging, fact, dims) ==>
              exists r :: r in staging && InWindow(r, fact) && Joins(r.key, dims) && x == Enrich(r, dims)
    ensures forall r :: r in staging && InWindow(r, fact) && Joins(r.key, dims) ==>
              Enrich(r, dims) in Select(staging, fact, dims)
    ensures UniqueKeys(Select(staging, fact, dims))
  {
    if staging != [] {
      var n := |staging| - 1;
      var rest, r := staging[..n], staging[n];
      SelectIs(rest, fact, dims);
      assert forall q :: q in staging <==> q in rest || q == r;
      var some := Select(rest, fact, dims);
      forall i | 0 <= i < |some| ensures some[i].key != r.key {
        assert some[i] in some;
        var q :| q in rest && InWindow(q, fact) && Joins(q.key, dims) && some[i] == Enrich(q, dims);
      }
    }
  }

  /** The DELETE keeps exactly the rows of other keys. */
  lemma {:induction false} WithoutIs(fact: seq<FactRow>, keys: set<Key>)
    ensures forall x :: x in Without(fact, keys) <==> x in fact && x.key !in keys
    ensures UniqueKeys(fact) ==> UniqueKeys(Without(fact, keys))
  {
    if fact != [] {
      var n := |fact| - 1;
      WithoutIs(fact[..n], keys);
      assert forall q :: q in fact <==> q in fact[..n] || q == fact[n];
      if UniqueKeys(fact) {
        assert UniqueKeys(fact[..n]);
        forall i | 0 <= i < |Without(fact[..n], keys)| ensures Without(fact[..n], keys)[i].key != fact[n].key {
          assert Without(fact[..n], keys)[i] in fact[..n];
        }
      }
    }
  }

  lemma UniqueConcat(a: seq<FactRow>, b: seq<FactRow>)
    requires UniqueKeys(a) && UniqueKeys(b) && KeysOf(a) !! KeysOf(b)
    ensures UniqueKeys(a + b)
  {
    forall i, j | 0 <= i < |a| && 0 <= j < |b| ensures a[i].key != b[j].key {
      assert a[i].key in KeysOf(a) && b[j].key in KeysOf(b);
    }
  }

  /** A build replaces the selected keys and leaves every other row as it was. */
  lemma BuiltIs(fact: Option<seq<FactRow>>, staging: seq<Row>, dims: Dimensions, x: FactRow)
    requires DistinctKeys(staging)
    ensures var picked := Select(staging, fact, dims);
            x in Built(fact, staging, dims) <==> x in picked || (x in Rows(fact) && x.key !in KeysOf(picked))
  {
    WithoutIs(Rows(fact), KeysOf(Select(staging, fact, dims)));
  }

  /** Neither the DELETE alone nor the whole build duplicates a key. */
  lemma BuildKeepsGrain(fact: Option<seq<FactRow>>, staging: seq<Row>, dims: Dimensions)
    requires DistinctKeys(staging) && UniqueKeys(Rows(fact))
    ensures UniqueKeys(Rows(Halved(fact, Select(staging, fact, dims))))
    ensures UniqueKeys(Built(fact, staging, dims))
  {
    var picked := Select(staging, fact, dims);
    var kept := Without(Rows(fact), KeysOf(picked));
    SelectIs(staging, fact, dims);
    WithoutIs(Rows(fact), KeysOf(picked));
    forall k | k in KeysOf(kept) ensures k !in KeysOf(picked) {
      var i :| 0 <= i < |kept| && kept[i].key == k;
      assert kept[i] in kept;
    }
    UniqueConcat(kept, picked);
  }

  /** What the fact shows for a key that was not selected stays. */
  lemma NotSelectedStays(fact: Option<seq<FactRow>>, staging: seq<Row>, dims: Dimensions, k: Key)
    requires DistinctKeys(staging) && k !in KeysOf(Select(staging, fact, dims))
    ensures SameOn(Built(fact, staging, dims), Rows(fact), k)
  {
    var after, picked := Built(fact, staging, dims), Select(staging, fact, dims);
    forall i | 0 <= i < |picked| ensures picked[i].key != k {
      assert picked[i].key in KeysOf(picked);
    }
    forall x: FactRow | x.key == k ensures x in after <==> x in Rows(fact) {
      BuiltIs(fact, staging, dims, x);
    }
    ShowsSame(after, Rows(fact), k);
  }

  /** Both facts show the same observation columns for the key. */
  ghost predicate SameOn(a: seq<FactRow>, b: seq<FactRow>, k: Key) {
    forall cols :: Shows(a, k, cols) <==> Shows(b, k, cols)
  }

  lemma ShowsSame(a: seq<FactRow>, b: seq<FactRow>, k: Key)
    requires forall x: FactRow :: x.key == k ==> (x in a <==> x in b)
    ensures SameOn(a, b, k)
  {
    forall cols ensures Shows(a, k, cols) <==> Shows(b, k, cols) {
      if Shows(a, k, cols) {
        var x :| x in a && x.key == k && x.cols == cols;
        assert x in b;
      }
      if Shows(b, k, cols) {
        var x :| x in b && x.key == k && x.cols == cols;
        assert x in a;
      }
    }
  }

  /** Keys are selected exactly from the staged rows that pass. */
  lemma SelectedKey(staging: seq<Row>, fact: Option<seq<FactRow>>, dims: Dimensions, r: Row)
    requires DistinctKeys(staging) && r in staging
    ensures r.key in KeysOf(Select(staging, fact, dims)) <==> InWindow(r, fact) && Joins(r.key, dims)
  {
    var picked := Select(staging, fact, dims);
    SelectIs(staging, fact, dims);
    if InWindow(r, fact) && Joins(r.key, dims) {
      var i :| 0 <= i < |picked| && picked[i] == Enrich(r, dims);
      assert picked[i].key in KeysOf(picked);
    } else {
      forall i | 0 <= i < |picked| ensures picked[i].key != r.key {
        assert picked[i] in picked;
        var q :| q in staging && InWindow(q, fact) && Joins(q.key, dims) && picked[i] == Enrich(q, dims);
      }
    }
  }

  lemma UnstagedIsNotSelected(staging: seq<Row>, fact: Option<seq<FactRow>>, dims: Dimensions, k: Key)
    requires DistinctKeys(staging) && k !in JoinedKeys(staging, dims)
    ensures k !in KeysOf(Select(staging, fact, dims))
  {
    var picked := Select(staging, fact, dims);
    SelectIs(staging, fact, dims);
    forall i | 0 <= i < |picked| ensures picked[i].key != k {
      assert picked[i] in picked;
      var q :| q in staging && InWindow(q, fact) && Joins(q.key, dims) && picked[i] == Enrich(q, dims);
    }
  }

  // ---- Arrivals and merges ---------------------------------------------------------------

  /** The staging view: one newest row of each key whose newest row is not a tombstone. */
  ghost predicate IsStaging(rows: multiset<Row>, staging: seq<Row>) {
    && DistinctKeys(staging)
    && (forall r :: r in staging ==> Newest(rows, r) && !r.isDeleted)
    && (forall r :: Newest(rows, r) && !r.isDeleted ==> IsStaged(staging, r.key))
  }

  ghost predicate IsStaged(staging: seq<Row>, k: Key) {
    exists r :: r in staging && r.key == k
  }

  /** The dimensions hold both references of every staged row. */
  ghost predicate Covered(staging: seq<Row>, dims: Dimensions) {
    forall r :: r in staging ==> Joins(r.key, dims)
  }

  /** The staged keys that the inner joins keep. */
  ghost function JoinedKeys(staging: seq<Row>, dims: Dimensions): set<Key> {
    set k | k in StagedKeys(staging) && Joins(k, dims)
  }

  /** Copies of one version agree on everything but their arrival stamp. */
  ghost predicate Functional(rows: multiset<Row>) {
    forall r, q :: r in rows && q in rows && r.key == q.key && r.version == q.version ==>
      r.isDeleted == q.isDeleted && r.image == q.image
  }

  /** r is what the key currently is. Redelivered copies of it differ in their stamp. */
  ghost predicate Live(rows: multiset<Row>, r: Row) {
    Newest(rows, r) && !r.isDeleted
  }

  /** Whatever is older than the window of some loaded row has been loaded. */
  ghost predicate Settled(rows: multiset<Row>, fact: seq<FactRow>) {
    forall r, x :: Live(rows, r) && x in fact && r.synced + LOOKBACK < x.synced ==> Shows(fact, r.key, r.image.cols)
  }

  ghost predicate Maintained(rows: multiset<Row>, fact: Option<seq<FactRow>>, now: nat) {
    && Functional(rows) && (forall r :: r in rows ==> r.synced <= now)
    && UniqueKeys(Rows(fact)) && (forall x :: x in Rows(fact) ==> x.synced <= now)
    && Settled(rows, Rows(fact))
  }

  /** Rows that become visible within the window of their stamp cannot be missed later. */
  lemma ArrivalKeeps(rows: multiset<Row>, block: multiset<Row>, fact: Option<seq<FactRow>>, now: nat)
    requires Maintained(rows, fact, now) && Functional(rows + block)
    requires forall r :: r in block ==> r.synced <= now <= r.synced + LOOKBACK
    ensures Maintained(rows + block, fact, now)
  {
    forall r, x | Live(rows + block, r) && x in Rows(fact) && r.synced + LOOKBACK < x.synced
      ensures Shows(Rows(fact), r.key, r.image.cols)
    {
      assert r in rows;
      assert Live(rows, r);
    }
  }

  lemma MergeKeeps(rows: multiset<Row>, after: multiset<Row>, fact: Option<seq<FactRow>>, now: nat)
    requires Maintained(rows, fact, now) && Merged(rows, after)
    ensures Maintained(after, fact, now)
  {
    forall r | Live(after, r) ensures Live(rows, r) {
      forall q | q in rows && q.key == r.key ensures q.version <= r.version {
        assert Covers(after, q.key, q.version);
      }
    }
  }

  lemma {:induction false} MaxSyncedIs(fact: seq<FactRow>)
    ensures forall x :: x in fact ==> x.synced <= MaxSynced(fact)
    ensures fact != [] ==> exists x :: x in fact && x.synced == MaxSynced(fact)
  {
    if fact != [] {
      var n := |fact| - 1;
      MaxSyncedIs(fact[..n]);
      assert forall q :: q in fact <==> q in fact[..n] || q == fact[n];
      assert fact[n] in fact;
      if n > 0 && MaxSynced(fact) != fact[n].synced {
        var x :| x in fact[..n] && x.synced == MaxSynced(fact[..n]);
        assert x in fact;
      }
    }
  }

  // ---- What a build shows ----------------------------------------------------------------

  lemma ShowsOne(fact: seq<FactRow>, k: Key, a: Cols, b: Cols)
    requires UniqueKeys(fact) && Shows(fact, k, b)
    ensures Shows(fact, k, a) <==> a == b
  {
    if Shows(fact, k, a) {
      var x :| x in fact && x.key == k && x.cols == a;
      var y :| y in fact && y.key == k && y.cols == b;
    }
  }

  /** A staged row that joins is in the fact after the build: because the build selected it, or
      because it lies behind the window and was loaded before. */
  lemma BuildShows(rows: multiset<Row>, fact: Option<seq<FactRow>>, staging: seq<Row>, dims: Dimensions, r: Row)
    requires Settled(rows, Rows(fact)) && IsStaging(rows, staging) && r in staging && Joins(r.key, dims)
    ensures Shows(Built(fact, staging, dims), r.key, r.image.cols)
  {
    SelectIs(staging, fact, dims);
    if InWindow(r, fact) {
      BuiltIs(fact, staging, dims, Enrich(r, dims));
    } else {
      MaxSyncedIs(fact.value);
      var x :| x in fact.value && x.synced == MaxSynced(fact.value);
      assert Live(rows, r);
      SelectedKey(staging, fact, dims, r);
      NotSelectedStays(fact, staging, dims, r.key);
    }
  }

  /** What a build shows for a key that joins is decided by any live row of the key. */
  lemma BuildShowsStaged(rows: multiset<Row>, fact: Option<seq<FactRow>>, staging: seq<Row>, dims: Dimensions,
                         q: Row, cols: Cols)
    requires Settled(rows, Rows(fact)) && UniqueKeys(Rows(fact)) && Functional(rows) && IsStaging(rows, staging)
    requires Live(rows, q) && Joins(q.key, dims)
    ensures Shows(Built(fact, staging, dims), q.key, cols) <==> cols == q.image.cols
  {
    assert IsStaged(staging, q.key);
    var r :| r in staging && r.key == q.key;
    assert Newest(rows, r);
    BuildKeepsGrain(fact, staging, dims);
    BuildShows(rows, fact, staging, dims, r);
    ShowsOne(Built(fact, staging, dims), q.key, cols, q.image.cols);
  }

  /** A build does not touch keys that are not staged, or that lack a dimension row. */
  lemma UnstagedStays(fact: Option<seq<FactRow>>, staging: seq<Row>, dims: Dimensions, k: Key)
    requires DistinctKeys(staging) && k !in JoinedKeys(staging, dims)
    ensures SameOn(Built(fact, staging, dims), Rows(fact), k)
  {
    UnstagedIsNotSelected(staging, fact, dims, k);
    NotSelectedStays(fact, staging, dims, k);
  }

  /** Behind the window the build is blind: what the fact shows for such a key stays. */
  lemma BehindWindowIsIgnored(fact: Option<seq<FactRow>>, staging: seq<Row>, dims: Dimensions, r: Row)
    requires DistinctKeys(staging) && r in staging && !InWindow(r, fact)
    ensures SameOn(Built(fact, staging, dims), Rows(fact), r.key)
  {
    SelectedKey(staging, fact, dims, r);
    NotSelectedStays(fact, staging, dims, r.key);
  }

  lemma HasKey(fact: seq<FactRow>, k: Key)
    ensures k in KeysOf(fact) <==> exists cols :: Shows(fact, k, cols)
  {
    if k in KeysOf(fact) {
      var i :| 0 <= i < |fact| && fact[i].key == k;
      assert Shows(fact, k, fact[i].cols);
    }
    if cols :| Shows(fact, k, cols) {
      var x :| x in fact && x.key == k && x.cols == cols;
      var i :| 0 <= i < |fact| && fact[i] == x;
      assert fact[i].key == k;
    }
  }

  lemma SameKey(a: seq<FactRow>, b: seq<FactRow>, k: Key)
    requires SameOn(a, b, k)
    ensures k in KeysOf(a) <==> k in KeysOf(b)
  {
    HasKey(a, k);
    HasKey(b, k);
  }

  /** After a build the fact's keys are the ones it had and the staged ones that join: a build
      never removes a key. */
  lemma KeysAfterBuild(rows: multiset<Row>, fact: Option<seq<FactRow>>, staging: seq<Row>, dims: Dimensions)
    requires Settled(rows, Rows(fact)) && IsStaging(rows, staging)
    ensures KeysOf(Built(fact, staging, dims)) == KeysOf(Rows(fact)) + JoinedKeys(staging, dims)
  {
    var after := Built(fact, staging, dims);
    forall k ensures k in KeysOf(after) <==> k in KeysOf(Rows(fact)) + JoinedKeys(staging, dims) {
      if k in JoinedKeys(staging, dims) {
        var i :| 0 <= i < |staging| && staging[i].key == k;
        assert staging[i] in staging;
        BuildShows(rows, fact, staging, dims, staging[i]);
        HasKey(after, k);
      } else {
        UnstagedStays(fact, staging, dims, k);
        SameKey(after, Rows(fact), k);
      }
    }
  }

  lemma NothingIsSettled(rows: multiset<Row>)
    ensures Settled(rows, [])
  {
  }

  /** Incremental equals rebuild. A build and a full rebuild show the same observation columns
      for a key that joins and is staged, and for a key that is neither staged and joined nor
      in the fact before; they differ for every other key. */
  lemma BuildAgrees(rows: multiset<Row>, fact: Option<seq<FactRow>>, staging: seq<Row>, dims: Dimensions, k: Key)
    requires Settled(rows, Rows(fact)) && UniqueKeys(Rows(fact)) && Functional(rows) && IsStaging(rows, staging)
    ensures UniqueKeys(Built(fact, staging, dims))
    ensures SameOn(Built(fact, staging, dims), Built(None, staging, dims), k)
            <==> k in JoinedKeys(staging, dims) || k !in KeysOf(Rows(fact))
  {
    var after, rebuilt := Built(fact, staging, dims), Built(None, staging, dims);
    BuildKeepsGrain(fact, staging, dims);
    NothingIsSettled(rows);
    if k in JoinedKeys(staging, dims) {
      var i :| 0 <= i < |staging| && staging[i].key == k;
      var r := staging[i];
      assert r in staging && Live(rows, r);
      forall cols ensures Shows(after, k, cols) <==> Shows(rebuilt, k, cols) {
        BuildShowsStaged(rows, fact, staging, dims, r, cols);
        BuildShowsStaged(rows, None, staging, dims, r, cols);
      }
    } else {
      UnstagedStays(fact, staging, dims, k);
      UnstagedStays(None, staging, dims, k);
      HasKey(Rows(fact), k);
      HasKey(rebuilt, k);
      HasKey([], k);
    }
  }

  /** So an incremental build equals the rebuild altogether exactly when every key the fact held
      is still staged and joins. */
  lemma BuildIsRebuild(rows: multiset<Row>, fact: Option<seq<FactRow>>, staging: seq<Row>, dims: Dimensions)
    requires Settled(rows, Rows(fact)) && UniqueKeys(Rows(fact)) && Functional(rows) && IsStaging(rows, staging)
    ensures (forall k :: SameOn(Built(fact, staging, dims), Built(None, staging, dims), k))
            <==> KeysOf(Rows(fact)) <= JoinedKeys(staging, dims)
  {
    forall k ensures SameOn(Built(fact, staging, dims), Built(None, staging, dims), k)
                     <==> k in JoinedKeys(staging, dims) || k !in KeysOf(Rows(fact)) {
      BuildAgrees(rows, fact, staging, dims, k);
    }
  }

  /** Repeating the build at once changes no observation column, whichever copies FINAL picks,
      if the dimensions still hold the same ids. */
  lemma SecondBuildChangesNothing(rows: multiset<Row>, fact: Option<seq<FactRow>>,
                                  staging: seq<Row>, dims: Dimensions, staging': seq<Row>, dims': Dimensions, k: Key)
    requires Settled(rows, Rows(fact)) && UniqueKeys(Rows(fact)) && Functional(rows)
    requires IsStaging(rows, staging) && IsStaging(rows, staging')
    requires Joins(k, dims) <==> Joins(k, dims')
    ensures SameOn(Built(Some(Built(fact, staging, dims)), staging', dims'), Built(fact, staging, dims), k)
  {
    var once := Built(fact, staging, dims);
    var twice := Built(Some(once), staging', dims');
    if k in JoinedKeys(staging', dims') {
      var i :| 0 <= i < |staging'| && staging'[i].key == k;
      var q := staging'[i];
      assert q in staging' && Live(rows, q);
      forall cols ensures Shows(once, k, cols) <==> cols == q.image.cols {
        BuildShowsStaged(rows, fact, staging, dims, q, cols);
      }
      if InWindow(q, Some(once)) {
        RebuiltShows(fact, staging, dims, staging', dims', q);
      } else {
        BehindWindowIsIgnored(Some(once), staging', dims', q);
      }
    } else {
      UnstagedStays(Some(once), staging', dims', k);
    }
  }

  lemma RebuiltShows(fact: Option<seq<FactRow>>, staging: seq<Row>, dims: Dimensions, staging': seq<Row>, dims': Dimensions, q: Row)
    requires DistinctKeys(staging) && DistinctKeys(staging') && UniqueKeys(Rows(fact))
    requires q in staging' && Joins(q.key, dims') && InWindow(q, Some(Built(fact, staging, dims)))
    ensures forall cols :: Shows(Built(Some(Built(fact, staging, dims)), staging', dims'), q.key, cols) <==> cols == q.image.cols
  {
    var once := Some(Built(fact, staging, dims));
    BuildKeepsGrain(fact, staging, dims);
    BuildKeepsGrain(once, staging', dims');
    SelectIs(staging', once, dims');
    BuiltIs(once, staging', dims', Enrich(q, dims'));
    forall cols ensures Shows(Built(once, staging', dims'), q.key, cols) <==> cols == q.image.cols {
      ShowsOne(Built(once, staging', dims'), q.key, cols, q.image.cols);
    }
  }

  // ---- What keeps the fact maintainable ---------------------------------------------------

  /** Every live row without its dimension rows is at most this old; None tolerates no such
      row. */
  ghost predicate TimelyWithin(rows: multiset<Row>, dims: Dimensions, now: nat, tolerance: Option<nat>) {
    forall r :: Live(rows, r) ==> Joins(r.key, dims) || (tolerance.Some? && now <= r.synced + tolerance.value)
  }

  ghost predicate Timely(rows: multiset<Row>, dims: Dimensions, now: nat) {
    TimelyWithin(rows, dims, now, Some(LOOKBACK))
  }

  /** x is selected, or in the fact under a key that is not. */
  ghost predicate SelectedOrKept(x: FactRow, fact: seq<FactRow>, picked: seq<FactRow>) {
    x in picked || (x in fact && x.key !in KeysOf(picked))
  }

  /** A live row that a build could not join is still in the window of what is selected and kept,
      or was loaded with the columns it has. */
  ghost predicate NoneLeftBehind(rows: multiset<Row>, fact: seq<FactRow>, picked: seq<FactRow>, dims: Dimensions) {
    forall r, x :: Live(rows, r) && !Joins(r.key, dims) && SelectedOrKept(x, fact, picked) && r.synced + LOOKBACK < x.synced ==>
      Shows(fact, r.key, r.image.cols)
  }

  /** What a build does to the invariant, exactly: it keeps it if and only if no row that lacks
      a dimension falls behind the window of the rows loaded. */
  lemma BuildSettles(rows: multiset<Row>, fact: Option<seq<FactRow>>, staging: seq<Row>, dims: Dimensions)
    requires Settled(rows, Rows(fact)) && UniqueKeys(Rows(fact)) && Functional(rows) && IsStaging(rows, staging)
    ensures Settled(rows, Built(fact, staging, dims)) <==> NoneLeftBehind(rows, Rows(fact), Select(staging, fact, dims), dims)
  {
    var after, picked := Built(fact, staging, dims), Select(staging, fact, dims);
    forall x ensures x in after <==> SelectedOrKept(x, Rows(fact), picked) {
      BuiltIs(fact, staging, dims, x);
    }
    forall r | Live(rows, r)
      ensures Shows(after, r.key, r.image.cols) <==> Joins(r.key, dims) || Shows(Rows(fact), r.key, r.image.cols)
    {
      if Joins(r.key, dims) {
        BuildShowsStaged(rows, fact, staging, dims, r, r.image.cols);
      } else {
        UnstagedStays(fact, staging, dims, r.key);
      }
    }
  }

  lemma BuildKeepsStamps(rows: multiset<Row>, fact: Option<seq<FactRow>>, now: nat, staging: seq<Row>, dims: Dimensions)
    requires (forall r :: r in rows ==> r.synced <= now) && (forall x :: x in Rows(fact) ==> x.synced <= now)
    requires IsStaging(rows, staging)
    ensures forall x :: x in Built(fact, staging, dims) ==> x.synced <= now
  {
    SelectIs(staging, fact, dims);
    forall x | x in Built(fact, staging, dims) ensures x.synced <= now {
      BuiltIs(fact, staging, dims, x);
      if x in Select(staging, fact, dims) {
        var r :| r in staging && InWindow(r, fact) && Joins(r.key, dims) && x == Enrich(r, dims);
        assert Newest(rows, r);
      }
    }
  }

  /** A timely build keeps the invariant. */
  lemma BuildKeeps(rows: multiset<Row>, fact: Option<seq<FactRow>>, now: nat, staging: seq<Row>, dims: Dimensions)
    requires Maintained(rows, fact, now) && IsStaging(rows, staging) && Timely(rows, dims, now)
    ensures Maintained(rows, Some(Built(fact, staging, dims)), now)
  {
    BuildKeepsGrain(fact, staging, dims);
    BuildKeepsStamps(rows, fact, now, staging, dims);
    BuildSettles(rows, fact, staging, dims);
  }

  /** No live row of a deleted key is more than the window older than a row the DELETE left. */
  ghost predicate DeletedAreRecent(rows: multiset<Row>, half: seq<FactRow>, picked: seq<FactRow>) {
    forall r, x :: Live(rows, r) && r.key in KeysOf(picked) && x in half ==> x.synced <= r.synced + LOOKBACK
  }

  /** What a build that dies after its DELETE does to the invariant that the whole build would
      have kept, exactly. */
  lemma HalfSettles(rows: multiset<Row>, half: seq<FactRow>, picked: seq<FactRow>)
    requires Settled(rows, half + picked) && KeysOf(half) !! KeysOf(picked)
    ensures Settled(rows, half) <==> DeletedAreRecent(rows, half, picked)
  {
    forall r | Live(rows, r)
      ensures r.key in KeysOf(picked) ==> !Shows(half, r.key, r.image.cols)
      ensures r.key !in KeysOf(picked) && Shows(half + picked, r.key, r.image.cols) ==> Shows(half, r.key, r.image.cols)
    {
      HasKey(half, r.key);
      if r.key !in KeysOf(picked) && Shows(half + picked, r.key, r.image.cols) {
        var x :| x in half + picked && x.key == r.key && x.cols == r.image.cols;
        HasKey(picked, r.key);
        assert x in picked ==> Shows(picked, r.key, x.cols);
      }
    }
  }

  lemma HalfIsDisjoint(fact: Option<seq<FactRow>>, picked: seq<FactRow>)
    ensures KeysOf(Rows(Halved(fact, picked))) !! KeysOf(picked)
  {
    var half := Rows(Halved(fact, picked));
    WithoutIs(Rows(fact), KeysOf(picked));
    forall k | k in KeysOf(half) ensures k !in KeysOf(picked) {
      var i :| 0 <= i < |half| && half[i].key == k;
      assert half[i] in half;
    }
  }

  lemma FewerHaveLess(fact: seq<FactRow>, keys: set<Key>)
    ensures MaxSynced(Without(fact, keys)) <= MaxSynced(fact)
  {
    MaxSyncedIs(fact);
    MaxSyncedIs(Without(fact, keys));
    WithoutIs(fact, keys);
  }

  /** A build that died after its DELETE and is retried at once over the same staging view
      shows every staged row that joins. */
  lemma RetryOverSameView(rows: multiset<Row>, fact: Option<seq<FactRow>>, staging: seq<Row>, dims: Dimensions, r: Row)
    requires Settled(rows, Rows(fact)) && IsStaging(rows, staging) && r in staging && Joins(r.key, dims)
    ensures var half := Halved(fact, Select(staging, fact, dims));
            Shows(Built(half, staging, dims), r.key, r.image.cols)
  {
    var picked := Select(staging, fact, dims);
    var half := Halved(fact, picked);
    FewerHaveLess(Rows(fact), KeysOf(picked));
    SelectIs(staging, half, dims);
    SelectedKey(staging, fact, dims, r);
    if InWindow(r, half) {
      BuiltIs(half, staging, dims, Enrich(r, dims));
    } else {
      BehindWindowIsIgnored(half, staging, dims, r);
      BuildShows(rows, fact, staging, dims, r);
      NotSelectedStays(fact, staging, dims, r.key);
      HalfShows(fact, picked, r.key, r.image.cols);
    }
  }

  lemma HalfShows(fact: Option<seq<FactRow>>, picked: seq<FactRow>, k: Key, cols: Cols)
    requires Shows(Rows(fact), k, cols) && k !in KeysOf(picked)
    ensures Shows(Rows(Halved(fact, picked)), k, cols)
  {
    var x :| x in Rows(fact) && x.key == k && x.cols == cols;
    WithoutIs(Rows(fact), KeysOf(picked));
    assert x in Rows(Halved(fact, picked));
  }

  // ---- The invariant is exact -------------------------------------------------------------

  /** Whatever copies FINAL picks and whatever the dimensions hold, the next build shows every
      staged row that joins. */
  ghost predicate NextBuildIsComplete(rows: multiset<Row>, fact: seq<FactRow>) {
    forall staging, dims, r: Row :: IsStaging(rows, staging) && r in staging && Joins(r.key, dims) ==>
      Shows(Built(Some(fact), staging, dims), r.key, r.image.cols)
  }

  /** A staging view for a choice that FINAL may make. */
  lemma {:induction false} StagingOf(rows: multiset<Row>, f: map<Key, Row>, keys: set<Key>) returns (staging: seq<Row>)
    requires IsFinal(rows, f) && keys <= f.Keys
    ensures DistinctKeys(staging)
    ensures forall r :: r in staging <==> r.key in keys && f[r.key] == r && !r.isDeleted
  {
    staging := [];
    if keys != {} {
      var k :| k in keys;
      staging := StagingOf(rows, f, keys - {k});
      if !f[k].isDeleted {
        staging := staging + [f[k]];
      }
    }
  }

  /** FINAL may pick any live row. */
  lemma StagingWith(rows: multiset<Row>, r: Row) returns (staging: seq<Row>)
    requires Functional(rows) && Live(rows, r)
    ensures IsStaging(rows, staging) && r in staging
  {
    var f := FinalExists(rows);
    f := f[r.key := r];
    staging := StagingOf(rows, f, f.Keys);
    forall q | Live(rows, q) ensures IsStaged(staging, q.key) {
      assert Newest(rows, f[q.key]);
      assert f[q.key] in staging;
    }
  }

  /** A row behind the window that the fact does not show is lost to the next build, if FINAL
      picks that copy. */
  lemma LostBehindWindow(rows: multiset<Row>, fact: seq<FactRow>, r: Row, x: FactRow)
    requires Functional(rows) && Live(rows, r) && r.key.ObservationKey?
    requires x in fact && r.synced + LOOKBACK < x.synced && NextBuildIsComplete(rows, fact)
    ensures Shows(fact, r.key, r.image.cols)
  {
    var staging := StagingWith(rows, r);
    var dims := DimensionsFor({r.key});
    MaxSyncedIs(fact);
    assert Shows(Built(Some(fact), staging, dims), r.key, r.image.cols);
    BehindWindowIsIgnored(Some(fact), staging, dims, r);
  }

  /** The invariant is exactly what the next build needs: it holds if and only if no choice of
      FINAL can lose a row. */
  lemma SettledIsExact(rows: multiset<Row>, fact: seq<FactRow>)
    requires Functional(rows) && forall r :: r in rows ==> r.key.ObservationKey?
    ensures Settled(rows, fact) <==> NextBuildIsComplete(rows, fact)
  {
    if Settled(rows, fact) {
      forall staging, dims, r: Row | IsStaging(rows, staging) && r in staging && Joins(r.key, dims)
        ensures Shows(Built(Some(fact), staging, dims), r.key, r.image.cols)
      {
        BuildShows(rows, Some(fact), staging, dims, r);
      }
    }
    if NextBuildIsComplete(rows, fact) {
      forall r, x | Live(rows, r) && x in fact && r.synced + LOOKBACK < x.synced ensures Shows(fact, r.key, r.image.cols) {
        LostBehindWindow(rows, fact, r, x);
      }
    }
  }

  /** Dimensions that hold the references of some keys. */
  ghost function DimensionsFor(keys: set<Key>): (dims: Dimensions)
    ensures forall k :: k in keys && k.ObservationKey? ==> Joins(k, dims)
    ensures forall c :: c in dims.countries ==> exists k :: k in keys && k.ObservationKey? && k.country == c
  {
    var countries := set k | k in keys && k.ObservationKey? :: k.country;
    var indicators := set k | k in keys && k.ObservationKey? :: k.indicator;
    Dimensions(map c | c in countries :: CountryCols("", [], None, None), map i | i in indicators :: IndicatorCols("", []))
  }

  /** The retry of a build that died after its DELETE is complete, whatever copies FINAL picks
      then, if and only if no live row of a deleted key is more than 48 hours older than a row
      the DELETE left. */
  lemma RetryIsSafe(rows: multiset<Row>, fact: Option<seq<FactRow>>, now: nat, staging: seq<Row>, dims: Dimensions)
    requires Maintained(rows, fact, now) && IsStaging(rows, staging) && Timely(rows, dims, now)
    requires forall r :: r in rows ==> r.key.ObservationKey?
    ensures var picked := Select(staging, fact, dims);
            var half := Rows(Halved(fact, picked));
            NextBuildIsComplete(rows, half) <==> DeletedAreRecent(rows, half, picked)
  {
    var picked := Select(staging, fact, dims);
    var half := Rows(Halved(fact, picked));
    BuildKeeps(rows, fact, now, staging, dims);
    HalfIsDisjoint(fact, picked);
    HalfSettles(rows, half, picked);
    SettledIsExact(rows, half);
  }

  /** The key is not in the fact, all its live copies are stamped w or earlier, and some row of the
      fact, with every live copy of its own key, is stamped beyond their window. */
  ghost predicate Lost(rows: multiset<Row>, fact: seq<FactRow>, k: Key, w: nat) {
    && k !in KeysOf(fact) && (forall r :: Live(rows, r) && r.key == k ==> r.synced <= w)
    && exists x :: x in fact && Shuts(rows, x, w)
  }

  ghost predicate Shuts(rows: multiset<Row>, x: FactRow, w: nat) {
    x.synced > w + LOOKBACK && forall r :: Live(rows, r) && r.key == x.key ==> r.synced > w + LOOKBACK
  }

  /** Such a key stays out of the fact under every build, whatever FINAL picks and whatever the
      dimensions hold, until new rows arrive. */
  lemma LostStays(rows: multiset<Row>, fact: seq<FactRow>, staging: seq<Row>, dims: Dimensions, k: Key, w: nat)
    requires Lost(rows, fact, k, w) && IsStaging(rows, staging)
    ensures Lost(rows, Built(Some(fact), staging, dims), k, w)
  {
    var x :| x in fact && Shuts(rows, x, w);
    ShutStays(rows, fact, staging, dims, x, w);
    MaxSyncedIs(fact);
    if k in StagedKeys(staging) {
      var i :| 0 <= i < |staging| && staging[i].key == k;
      assert staging[i] in staging && Live(rows, staging[i]);
      BehindWindowIsIgnored(Some(fact), staging, dims, staging[i]);
    } else {
      UnstagedStays(Some(fact), staging, dims, k);
    }
    SameKey(Built(Some(fact), staging, dims), fact, k);
  }

  lemma ShutStays(rows: multiset<Row>, fact: seq<FactRow>, staging: seq<Row>, dims: Dimensions, x: FactRow, w: nat)
    requires IsStaging(rows, staging) && x in fact && Shuts(rows, x, w)
    ensures exists y :: y in Built(Some(fact), staging, dims) && Shuts(rows, y, w)
  {
    var picked := Select(staging, Some(fact), dims);
    if x.key in KeysOf(picked) {
      var i :| 0 <= i < |picked| && picked[i].key == x.key;
      SelectIs(staging, Some(fact), dims);
      assert picked[i] in picked;
      var q :| q in staging && InWindow(q, Some(fact)) && Joins(q.key, dims) && picked[i] == Enrich(q, dims);
      assert Live(rows, q);
      BuiltIs(Some(fact), staging, dims, picked[i]);
    } else {
      BuiltIs(Some(fact), staging, dims, x);
    }
  }

  // ---- Deleted keys ------------------------------------------------------------------------

  /** A key that is loaded and then deleted at the source stays in the fact. */
  lemma DeletedKeySurvives(fact: Option<seq<FactRow>>, staging: seq<Row>, dims: Dimensions, k: Key)
    requires DistinctKeys(staging) && k in KeysOf(Rows(fact)) && k !in StagedKeys(staging)
    ensures k in KeysOf(Built(fact, staging, dims)) && k !in KeysOf(Built(None, staging, dims))
    ensures SameOn(Built(fact, staging, dims), Rows(fact), k)
  {
    UnstagedStays(fact, staging, dims, k);
    UnstagedStays(None, staging, dims, k);
    SameKey(Built(fact, staging, dims), Rows(fact), k);
    SameKey(Built(None, staging, dims), [], k);
  }
}
