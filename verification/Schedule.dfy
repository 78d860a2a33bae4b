/** Runs that do happen: how to drive the pipeline to a chosen state, and what it can lose
    there. */
module Schedule {
  import opened Model
  import opened Landing
  import opened Warehouse
  import Cdc
  import Pipeline

  // ---- Driving the change-data capture --------------------------------------------------

  lemma JoinPaths(t: Table, lag: nat, a: seq<Cdc.State>, b: seq<Cdc.State>)
    requires Cdc.IsPath(t, lag, a) && Cdc.IsPath(t, lag, b) && a[|a| - 1] == b[0]
    ensures Cdc.IsPath(t, lag, a + b[1..])
    ensures (a + b[1..])[|a + b[1..]| - 1] == b[|b| - 1]
  {
    var path := a + b[1..];
    forall i | 0 <= i < |path| - 1 ensures Cdc.FollowsAt(t, lag, path, i) {
      if i < |a| - 1 {
        assert Cdc.FollowsAt(t, lag, a, i);
      } else {
        assert Cdc.FollowsAt(t, lag, b, i - |a| + 1);
      }
    }
  }

  /** Everything written has been delivered, no block is open, and the connector has recorded no
      position yet. */
  predicate Quiet(s: Cdc.State) {
    Cdc.WellFormed(s) && Cdc.Drained(s) && s.block.Idle? && s.acked == 0
  }

  /** The state after one more change has been written and delivered, stamped `at`. */
  function Delivered(t: Table, s: Cdc.State, c: Change, at: nat): Cdc.State {
    s.(log := s.log + [c], sent := |s.log| + 1, topic := s.topic + [|s.log|], committed := |s.topic| + 1,
       events := s.events + multiset{Cdc.LogRow(|s.topic|, Render(t, c), at)}, typed := s.typed + Delivery(t, c, at))
  }

  lemma Takes(t: Table, lag: nat, s: Cdc.State, step: Cdc.Step)
    requires Cdc.WellFormed(s) && Cdc.Enabled(t, lag, s, step)
    ensures Cdc.Follows(t, lag, s, Cdc.Do(t, lag, s, step))
  {
  }

  lemma CanSend(t: Table, lag: nat, s: Cdc.State, c: Change) returns (path: seq<Cdc.State>)
    requires Quiet(s) && MayAppend(t, s.log, c)
    ensures Cdc.IsPath(t, lag, path) && path[0] == s
    ensures path[|path| - 1] == s.(log := s.log + [c], topic := s.topic + [|s.log|], sent := |s.log| + 1)
  {
    var written := s.(log := s.log + [c]);
    Takes(t, lag, s, Cdc.Write(c));
    Takes(t, lag, written, Cdc.Send);
    path := [s, written, written.(topic := s.topic + [|s.log|], sent := |s.log| + 1)];
  }

  lemma OneMessage(t: Table, s: Cdc.State, c: Change, at: nat)
    requires Cdc.WellFormed(s) && |s.topic| > 0 && s.log[s.topic[|s.topic| - 1]] == c
    ensures Cdc.EventRows(t, s, |s.topic| - 1, |s.topic|, at) == multiset{Cdc.LogRow(|s.topic| - 1, Render(t, c), at)}
    ensures Cdc.TypedRows(t, s, |s.topic| - 1, |s.topic|, at) == Delivery(t, c, at)
  {
    var n := |s.topic|;
    assert Cdc.EventRows(t, s, n - 1, n - 1, at) == multiset{} && Cdc.TypedRows(t, s, n - 1, n - 1, at) == multiset{};
  }

  /** The topic holds one message beyond the committed offset, and it carries this change. */
  predicate OneAhead(s: Cdc.State, c: Change) {
    && Cdc.WellFormed(s) && |s.topic| > 0 && s.committed == |s.topic| - 1
    && s.log[s.topic[|s.topic| - 1]] == c
  }

  lemma FlushesEvents(t: Table, lag: nat, s: Cdc.State, c: Change, at: nat)
    requires OneAhead(s, c) && s.block == Cdc.Held(|s.topic|, false, false) && at <= s.now
    ensures Cdc.Follows(t, lag, s, s.(events := s.events + multiset{Cdc.LogRow(|s.topic| - 1, Render(t, c), at)},
                                      block := Cdc.Held(|s.topic|, true, false)))
  {
    OneMessage(t, s, c, at);
    Takes(t, lag, s, Cdc.FlushEvents(at));
  }

  lemma FlushesTyped(t: Table, lag: nat, s: Cdc.State, c: Change, at: nat)
    requires OneAhead(s, c) && s.block == Cdc.Held(|s.topic|, true, false) && at <= s.now <= at + lag
    ensures Cdc.Follows(t, lag, s, s.(typed := s.typed + Delivery(t, c, at), block := Cdc.Held(|s.topic|, true, true)))
  {
    OneMessage(t, s, c, at);
    Takes(t, lag, s, Cdc.FlushTyped(at));
  }

  lemma CanLog(t: Table, lag: nat, s: Cdc.State, c: Change, at: nat) returns (path: seq<Cdc.State>)
    requires OneAhead(s, c) && s.block.Idle? && at <= s.now
    ensures Cdc.IsPath(t, lag, path) && path[0] == s
    ensures path[|path| - 1] == s.(events := s.events + multiset{Cdc.LogRow(|s.topic| - 1, Render(t, c), at)},
                                   block := Cdc.Held(|s.topic|, true, false))
  {
    var polled := s.(block := Cdc.Held(|s.topic|, false, false));
    Takes(t, lag, s, Cdc.Poll(|s.topic|));
    FlushesEvents(t, lag, polled, c, at);
    path := [s, polled, polled.(events := s.events + multiset{Cdc.LogRow(|s.topic| - 1, Render(t, c), at)},
                                block := Cdc.Held(|s.topic|, true, false))];
  }

  lemma CanLand(t: Table, lag: nat, s: Cdc.State, c: Change, at: nat) returns (path: seq<Cdc.State>)
    requires OneAhead(s, c) && s.block == Cdc.Held(|s.topic|, true, false) && at <= s.now <= at + lag
    ensures Cdc.IsPath(t, lag, path) && path[0] == s
    ensures path[|path| - 1] == s.(committed := |s.topic|, typed := s.typed + Delivery(t, c, at), block := Cdc.Idle)
  {
    var landed := s.(typed := s.typed + Delivery(t, c, at), block := Cdc.Held(|s.topic|, true, true));
    FlushesTyped(t, lag, s, c, at);
    Takes(t, lag, landed, Cdc.Commit);
    path := [s, landed, landed.(committed := |s.topic|, block := Cdc.Idle)];
  }

  lemma CanDeliver(t: Table, lag: nat, s: Cdc.State, c: Change, at: nat) returns (path: seq<Cdc.State>)
    requires Quiet(s) && MayAppend(t, s.log, c) && at <= s.now <= at + lag
    ensures Cdc.IsPath(t, lag, path) && path[0] == s && path[|path| - 1] == Delivered(t, s, c, at)
    ensures Quiet(Delivered(t, s, c, at))
  {
    path := CanSend(t, lag, s, c);
    var more := CanLog(t, lag, path[|path| - 1], c, at);
    JoinPaths(t, lag, path, more);
    path := path + more[1..];
    more := CanLand(t, lag, path[|path| - 1], c, at);
    JoinPaths(t, lag, path, more);
    path := path + more[1..];
  }

  /** The next change of a valid log may be appended to what is before it. */
  lemma NextMayAppend(t: Table, log: seq<Change>, n: nat)
    requires ValidLog(t, log) && n < |log|
    ensures MayAppend(t, log[..n], log[n]) && log[..n] + [log[n]] == log[..n + 1]
  {
    assert LegalAt(t, log, n);
    SourceAtPrefix(log[..n], log, n);
  }

  /** From a quiet state that has seen part of a log, deliver more of it. */
  lemma {:induction false} CanDeliverTo(t: Table, lag: nat, s: Cdc.State, log: seq<Change>, n: nat, m: nat)
    returns (path: seq<Cdc.State>)
    requires ValidLog(t, log) && n <= m <= |log| && Quiet(s) && s.log == log[..n]
    ensures Cdc.IsPath(t, lag, path) && path[0] == s
    ensures Quiet(path[|path| - 1]) && path[|path| - 1].log == log[..m] && path[|path| - 1].now == s.now
  {
    if n == m {
      path := [s];
    } else {
      path := CanDeliverTo(t, lag, s, log, n, m - 1);
      var last := path[|path| - 1];
      NextMayAppend(t, log, m - 1);
      var more := CanDeliver(t, lag, last, log[m - 1], last.now);
      JoinPaths(t, lag, path, more);
      path := path + more[1..];
    }
  }

  /** From any state that has seen part of a log, write more of it and deliver nothing. */
  lemma {:induction false} CanWriteTo(t: Table, lag: nat, s: Cdc.State, log: seq<Change>, n: nat, m: nat)
    returns (path: seq<Cdc.State>)
    requires ValidLog(t, log) && n <= m <= |log| && Cdc.WellFormed(s) && s.log == log[..n]
    ensures Cdc.IsPath(t, lag, path) && path[0] == s
    ensures path[|path| - 1] == s.(log := log[..m])
  {
    if n == m {
      path := [s];
    } else {
      path := CanWriteTo(t, lag, s, log, n, m - 1);
      var last := path[|path| - 1];
      NextMayAppend(t, log, m - 1);
      Takes(t, lag, last, Cdc.Write(log[m - 1]));
      var more := [last, s.(log := log[..m])];
      JoinPaths(t, lag, path, more);
      path := path + more[1..];
    }
  }

  /** For any two positions of a log there is a run that samples the source at the one and then
      reads the landing table at the other. */
  lemma CanReadAt(t: Table, lag: nat, log: seq<Change>, q: nat, p: nat) returns (run: seq<Cdc.State>, i: nat)
    requires ValidLog(t, log) && q <= |log| && p <= |log|
    ensures Cdc.IsRun(t, lag, run) && i < |run| && run[i].log == log[..q] && run[|run| - 1].log <= log
    ensures forall f :: IsFinal(run[|run| - 1].typed, f) ==> CurrentState(f) == Cdc.Visible(SourceAt(log, p))
  {
    var first := if p <= q then p else q;
    run := CanDeliverTo(t, lag, Cdc.INITIAL, log, 0, first);
    i := |run| - 1;
    if p <= q {
      QuietReads(t, lag, run, log, p);
      var more := CanWriteTo(t, lag, run[i], log, p, q);
      JoinPaths(t, lag, run, more);
      run := run + more[1..];
      i := |run| - 1;
    } else {
      var more := CanDeliverTo(t, lag, run[i], log, q, p);
      JoinPaths(t, lag, run, more);
      run := run + more[1..];
      QuietReads(t, lag, run, log, p);
    }
  }

  lemma QuietReads(t: Table, lag: nat, run: seq<Cdc.State>, log: seq<Change>, p: nat)
    requires Cdc.IsRun(t, lag, run) && p <= |log| && Quiet(run[|run| - 1]) && run[|run| - 1].log == log[..p]
    ensures forall f :: IsFinal(run[|run| - 1].typed, f) ==> CurrentState(f) == Cdc.Visible(SourceAt(log, p))
  {
    SourceAtPrefix(log[..p], log, p);
    forall f | IsFinal(run[|run| - 1].typed, f) ensures CurrentState(f) == Cdc.Visible(SourceAt(log, p)) {
      Cdc.DrainedReadIsSource(t, lag, run, f);
    }
  }

  // ---- Driving the pipeline ----------------------------------------------------------------

  lemma JoinPipelines(lag: nat, a: seq<Pipeline.State>, b: seq<Pipeline.State>)
    requires Pipeline.IsPath(lag, a) && Pipeline.IsPath(lag, b) && a[|a| - 1] == b[0]
    ensures Pipeline.IsPath(lag, a + b[1..])
    ensures (a + b[1..])[|a + b[1..]| - 1] == b[|b| - 1]
  {
    var path := a + b[1..];
    forall i | 0 <= i < |path| - 1 ensures Pipeline.FollowsAt(lag, path, i) {
      if i < |a| - 1 {
        assert Pipeline.FollowsAt(lag, a, i);
      } else {
        assert Pipeline.FollowsAt(lag, b, i - |a| + 1);
      }
    }
  }

  /** Capture while no build is under way. */
  function Lifted(path: seq<Cdc.State>, fact: Option<seq<FactRow>>): (lifted: seq<Pipeline.State>) {
    seq(|path|, i requires 0 <= i < |path| => Pipeline.State(path[i], fact, Pipeline.Idle))
  }

  lemma LiftedIsPath(lag: nat, path: seq<Cdc.State>, fact: Option<seq<FactRow>>, tolerance: Option<nat>)
    requires Cdc.IsPath(Observation, lag, path)
    ensures Pipeline.IsPath(lag, Lifted(path, fact)) && Undisturbed(Lifted(path, fact), tolerance)
  {
    var lifted := Lifted(path, fact);
    forall i | 0 <= i < |lifted| - 1 ensures Pipeline.FollowsAt(lag, lifted, i) {
      assert Cdc.FollowsAt(Observation, lag, path, i);
    }
  }

  /** Every build of the path finds the dimensions of every live row, or of every one older than
      the tolerance, and none is killed after its DELETE. */
  ghost predicate Undisturbed(path: seq<Pipeline.State>, tolerance: Option<nat>) {
    forall i :: 0 <= i < |path| - 1 ==> UndisturbedAt(path, i, tolerance)
  }

  ghost predicate UndisturbedAt(path: seq<Pipeline.State>, i: nat, tolerance: Option<nat>)
    requires i < |path| - 1
  {
    UndisturbedStep(path[i], path[i + 1], tolerance)
  }

  ghost predicate UndisturbedStep(s: Pipeline.State, s': Pipeline.State, tolerance: Option<nat>) {
    && (Pipeline.Begins(s, s') ==> TimelyWithin(s.cdc.typed, s'.build.dims, s.cdc.now, tolerance))
    && (Pipeline.Dies(s, s') && s.build.Deleted? ==> Pipeline.Finishes(s, s'))
  }

  lemma JoinUndisturbed(a: seq<Pipeline.State>, b: seq<Pipeline.State>, tolerance: Option<nat>)
    requires |a| > 0 && |b| > 0 && a[|a| - 1] == b[0] && Undisturbed(a, tolerance) && Undisturbed(b, tolerance)
    ensures Undisturbed(a + b[1..], tolerance)
  {
    var path := a + b[1..];
    forall i | 0 <= i < |path| - 1 ensures UndisturbedAt(path, i, tolerance) {
      if i < |a| - 1 {
        assert UndisturbedAt(a, i, tolerance);
      } else {
        assert UndisturbedAt(b, i - |a| + 1, tolerance);
      }
    }
  }

  lemma UndisturbedIsTimely(run: seq<Pipeline.State>, tolerance: Option<nat>)
    requires Undisturbed(run, tolerance) && (tolerance.Some? ==> tolerance.value <= LOOKBACK)
    ensures Pipeline.TimelyRun(run)
  {
    forall i | 0 <= i < |run| - 1 ensures Pipeline.TimelyAt(run, i) {
      assert UndisturbedAt(run, i, tolerance);
    }
  }

  lemma OneStepIsUndisturbed(s: Pipeline.State, s': Pipeline.State, tolerance: Option<nat>)
    requires Pipeline.Deletes(s, s') || Pipeline.Finishes(s, s')
    ensures UndisturbedStep(s, s', tolerance)
  {
  }

  /** A build without anything in between. */
  lemma CanBuild(lag: nat, s: Pipeline.State, staging: seq<Row>, dims: Dimensions, tolerance: Option<nat>) returns (path: seq<Pipeline.State>)
    requires s.build.Idle? && IsStaging(s.cdc.typed, staging) && TimelyWithin(s.cdc.typed, dims, s.cdc.now, tolerance)
    ensures Pipeline.IsPath(lag, path) && Undisturbed(path, tolerance) && path[0] == s
    ensures path[|path| - 1] == s.(fact := Some(Built(s.fact, staging, dims)))
  {
    var picked := Select(staging, s.fact, dims);
    var begun := s.(build := Pipeline.Selected(picked, dims));
    var half := s.(fact := Halved(s.fact, picked), build := Pipeline.Deleted(picked, dims));
    var done := s.(fact := Some(Built(s.fact, staging, dims)));
    assert Pipeline.BeginsWith(s, begun, staging);
    assert Pipeline.Begins(s, begun) && Pipeline.Deletes(begun, half) && Pipeline.Finishes(half, done);
    path := [s, begun, half, done];
    OneStepIsUndisturbed(begun, half, tolerance);
    OneStepIsUndisturbed(half, done, tolerance);
    forall i | 0 <= i < 3 ensures Pipeline.FollowsAt(lag, path, i) && UndisturbedAt(path, i, tolerance) {
    }
  }

  /** Extend a run by capture, or by a build. */
  lemma ThenCapture(lag: nat, run: seq<Pipeline.State>, path: seq<Cdc.State>, tolerance: Option<nat>) returns (longer: seq<Pipeline.State>)
    requires Pipeline.IsRun(lag, run) && Undisturbed(run, tolerance) && run[|run| - 1].build.Idle?
    requires Cdc.IsPath(Observation, lag, path) && path[0] == run[|run| - 1].cdc
    ensures Pipeline.IsRun(lag, longer) && Undisturbed(longer, tolerance)
    ensures longer[|longer| - 1] == run[|run| - 1].(cdc := path[|path| - 1])
  {
    var more := Lifted(path, run[|run| - 1].fact);
    LiftedIsPath(lag, path, run[|run| - 1].fact, tolerance);
    JoinPipelines(lag, run, more);
    JoinUndisturbed(run, more, tolerance);
    longer := run + more[1..];
  }

  lemma ThenBuild(lag: nat, run: seq<Pipeline.State>, staging: seq<Row>, dims: Dimensions, tolerance: Option<nat>)
    returns (longer: seq<Pipeline.State>)
    requires Pipeline.IsRun(lag, run) && Undisturbed(run, tolerance)
    requires var s := run[|run| - 1];
             s.build.Idle? && IsStaging(s.cdc.typed, staging) && TimelyWithin(s.cdc.typed, dims, s.cdc.now, tolerance)
    ensures Pipeline.IsRun(lag, longer) && Undisturbed(longer, tolerance)
    ensures longer[|longer| - 1] == run[|run| - 1].(fact := Some(Built(run[|run| - 1].fact, staging, dims)))
  {
    var more := CanBuild(lag, run[|run| - 1], staging, dims, tolerance);
    JoinPipelines(lag, run, more);
    JoinUndisturbed(run, more, tolerance);
    longer := run + more[1..];
  }

  lemma Begun(lag: nat, tolerance: Option<nat>) returns (run: seq<Pipeline.State>)
    ensures run == [Pipeline.INITIAL] && Pipeline.IsRun(lag, run) && Undisturbed(run, tolerance)
  {
    run := [Pipeline.INITIAL];
  }

  /** A staging view always exists. */
  lemma CanStage(rows: multiset<Row>) returns (staging: seq<Row>)
    requires Functional(rows)
    ensures IsStaging(rows, staging)
  {
    var f := FinalExists(rows);
    staging := StagingOf(rows, f, f.Keys);
    forall q | Live(rows, q) ensures IsStaged(staging, q.key) {
      assert Newest(rows, f[q.key]);
      assert f[q.key] in staging;
    }
  }

  ghost function JoinedOf(keys: set<Key>, dims: Dimensions): set<Key> {
    set k | k in keys && Joins(k, dims)
  }

  /** A run that builds the fact at one position of a log, with some dimensions, and delivers up to
      another; all at time zero. */
  ghost predicate BuiltThenDelivered(run: seq<Pipeline.State>, log: seq<Change>, p: nat, q: nat, dims: Dimensions)
    requires p <= |log| && q <= |log|
  {
    && |run| > 0
    && var s := run[|run| - 1];
    && s.build.Idle? && Quiet(s.cdc) && s.cdc.log == log[..q] && s.cdc.now == 0
    && s.fact.Some? && UniqueKeys(s.fact.value) && KeysOf(s.fact.value) == JoinedOf(Cdc.VisibleKeys(log, p), dims)
  }

  lemma CanBuildThenDeliver(lag: nat, log: seq<Change>, p: nat, q: nat, dims: Dimensions, tolerance: Option<nat>)
    returns (run: seq<Pipeline.State>)
    requires ValidLog(Observation, log) && p <= q <= |log|
    requires tolerance.Some? || forall k :: k in Cdc.VisibleKeys(log, p) ==> Joins(k, dims)
    ensures Pipeline.IsRun(lag, run) && Undisturbed(run, tolerance) && BuiltThenDelivered(run, log, p, q, dims)
  {
    run := Begun(lag, tolerance);
    var path := CanDeliverTo(Observation, lag, Cdc.INITIAL, log, 0, p);
    run := ThenCapture(lag, run, path, tolerance);
    var s := run[|run| - 1];
    var early := StageQuiet(lag, run, log, p);
    StagedJoin(s.cdc.typed, early, dims, tolerance);
    run := ThenBuild(lag, run, early, dims, tolerance);
    FirstKeys(s.cdc.typed, early, dims);
    path := CanDeliverTo(Observation, lag, s.cdc, log, p, q);
    run := ThenCapture(lag, run, path, tolerance);
  }

  lemma StagedJoin(rows: multiset<Row>, staging: seq<Row>, dims: Dimensions, tolerance: Option<nat>)
    requires IsStaging(rows, staging)
    requires tolerance.Some? || forall k :: k in StagedKeys(staging) ==> Joins(k, dims)
    ensures TimelyWithin(rows, dims, 0, tolerance)
  {
    forall r | Live(rows, r) ensures r.key in StagedKeys(staging) {
      assert IsStaged(staging, r.key);
    }
  }

  lemma FirstKeys(rows: multiset<Row>, staging: seq<Row>, dims: Dimensions)
    requires IsStaging(rows, staging)
    ensures UniqueKeys(Built(None, staging, dims))
    ensures KeysOf(Built(None, staging, dims)) == JoinedOf(StagedKeys(staging), dims)
  {
    NothingIsSettled(rows);
    KeysAfterBuild(rows, None, staging, dims);
    BuildKeepsGrain(None, staging, dims);
    assert KeysOf([]) == {};
  }

  /** For any two positions of a log there is a run that builds the fact at the one and reads
      staging at the other. */
  lemma CanBuildThenStage(lag: nat, log: seq<Change>, p: nat, q: nat, dims: Dimensions, tolerance: Option<nat>)
    returns (run: seq<Pipeline.State>, staging: seq<Row>)
    requires ValidLog(Observation, log) && p <= q <= |log|
    requires tolerance.Some? || forall k :: k in Cdc.VisibleKeys(log, p) ==> Joins(k, dims)
    ensures Pipeline.IsRun(lag, run) && Undisturbed(run, tolerance) && BuiltThenDelivered(run, log, p, q, dims)
    ensures IsStaging(run[|run| - 1].cdc.typed, staging) && StagedKeys(staging) == Cdc.VisibleKeys(log, q)
  {
    run := CanBuildThenDeliver(lag, log, p, q, dims, tolerance);
    staging := StageQuiet(lag, run, log, q);
  }

  /** Dimensions that hold every reference at a position. */
  ghost function AllDimensions(log: seq<Change>, p: nat): Dimensions
    requires p <= |log|
  {
    DimensionsFor(Cdc.VisibleKeys(log, p))
  }

  lemma AllJoin(log: seq<Change>, p: nat)
    requires ValidLog(Observation, log) && p <= |log|
    ensures forall k :: k in Cdc.VisibleKeys(log, p) ==> k.ObservationKey? && Joins(k, AllDimensions(log, p))
    ensures JoinedOf(Cdc.VisibleKeys(log, p), AllDimensions(log, p)) == Cdc.VisibleKeys(log, p)
  {
    SourceKeysAreSchemaKeys(Observation, log, p);
  }

  lemma StageQuiet(lag: nat, run: seq<Pipeline.State>, log: seq<Change>, p: nat) returns (staging: seq<Row>)
    requires Pipeline.IsRun(lag, run) && p <= |log| && Quiet(run[|run| - 1].cdc) && run[|run| - 1].cdc.log == log[..p]
    ensures IsStaging(run[|run| - 1].cdc.typed, staging)
    ensures StagedKeys(staging) == Cdc.Visible(SourceAt(log, p)).Keys
    ensures forall k :: k in StagedKeys(staging) ==> k.ObservationKey?
  {
    var c := run[|run| - 1].cdc;
    var at, e := Pipeline.RunGrounded(lag, run, |run| - 1);
    Pipeline.LandedFunctional(c, at, e);
    staging := CanStage(c.typed);
    Pipeline.StagedAreSource(c, at, e, staging);
    SourceAtPrefix(log[..p], log, p);
    assert at == p;
    SourceKeysAreSchemaKeys(Observation, c.log, p);
  }

  lemma {:induction false} SourceKeysAreSchemaKeys(t: Table, log: seq<Change>, p: nat)
    requires ValidLog(t, log) && p <= |log|
    ensures forall k :: k in SourceAt(log, p) ==> SchemaKey(t, k)
  {
    if p > 0 {
      SourceKeysAreSchemaKeys(t, log, p - 1);
      assert LegalAt(t, log, p - 1);
    }
  }

  /** A run is a run under any longer visibility delay. */
  lemma LagGrows(lag: nat, lag': nat, run: seq<Pipeline.State>)
    requires lag <= lag' && Pipeline.IsRun(lag, run)
    ensures Pipeline.IsRun(lag', run)
  {
    forall i | 0 <= i < |run| - 1 ensures Pipeline.FollowsAt(lag', run, i) {
      assert Pipeline.FollowsAt(lag, run, i);
      if Pipeline.Captures(lag, run[i], run[i + 1]) {
        LagFollows(lag, lag', run[i].cdc, run[i + 1].cdc);
      }
    }
  }

  lemma LagFollows(lag: nat, lag': nat, s: Cdc.State, s': Cdc.State)
    requires lag <= lag' && Cdc.Follows(Observation, lag, s, s')
    ensures Cdc.Follows(Observation, lag', s, s')
  {
    var step :| Cdc.Enabled(Observation, lag, s, step) && s' == Cdc.Do(Observation, lag, s, step);
    assert Cdc.Enabled(Observation, lag', s, step) && s' == Cdc.Do(Observation, lag', s, step);
  }

  // ---- Rows that are lost ------------------------------------------------------------------

  const FIRST: Key := ObservationKey("A", "I", 2000)
  const SECOND: Key := ObservationKey("B", "I", 2000)

  /** Dimensions that hold the references of the first key, and of both. */
  const FIRST_ONLY := Dimensions(map["A" := CountryCols("", [], None, None)], map["I" := IndicatorCols("", [])])
  const BOTH := Dimensions(map["A" := CountryCols("", [], None, None), "B" := CountryCols("", [], None, None)],
                           map["I" := IndicatorCols("", [])])

  lemma WhoJoins()
    ensures Joins(FIRST, FIRST_ONLY) && !Joins(SECOND, FIRST_ONLY) && Joins(FIRST, BOTH) && Joins(SECOND, BOTH)
    ensures FIRST != SECOND
  {
  }

  /** A single insert of a key, numbered lsn. */
  function InsertOf(k: Key, lsn: nat): Change {
    Change(k, Insert(Image(ObservationCols(None, None, None), OtherText(""), 0)), lsn)
  }

  function RowOf(k: Key, lsn: nat, synced: nat): Row {
    Row(k, lsn, false, InsertOf(k, lsn).kind.image, synced)
  }

  /** Capture has delivered these rows, at this time. */
  ghost predicate HasLanded(s: Pipeline.State, log: seq<Change>, typed: multiset<Row>, now: nat) {
    s.build.Idle? && Quiet(s.cdc) && s.cdc.log == log && s.cdc.typed == typed && s.cdc.now == now
  }

  /** A staged row that joins is not loaded, by the next build or any later one, until new rows
      arrive. */
  ghost predicate Loses(s: Pipeline.State, staging: seq<Row>, dims: Dimensions, r: Row) {
    && s.build.Idle? && IsStaging(s.cdc.typed, staging) && Covered(staging, dims) && r in staging
    && s.fact.Some? && Lost(s.cdc.typed, s.fact.value, r.key, r.synced)
    && forall cols :: !Shows(Built(s.fact, staging, dims), r.key, cols)
  }

  lemma StagesBoth(first: Row, second: Row, dims: Dimensions)
    requires first.key != second.key && !first.isDeleted && !second.isDeleted
    ensures IsStaging(multiset{first, second}, [first, second])
    ensures Joins(first.key, dims) && Joins(second.key, dims) ==> Covered([first, second], dims)
  {
    var staging := [first, second];
    assert first in staging && second in staging;
    assert IsStaged(staging, first.key) && IsStaged(staging, second.key);
  }

  lemma StagesOne(first: Row)
    requires !first.isDeleted
    ensures IsStaging(multiset{first}, [first])
  {
    assert IsStaged([first], first.key);
  }

  lemma BehindOnlyRow(x: FactRow, staging: seq<Row>, dims: Dimensions, waiting: Row)
    requires DistinctKeys(staging) && waiting in staging && waiting.key != x.key && waiting.synced + LOOKBACK < x.synced
    ensures forall cols :: !Shows(Built(Some([x]), staging, dims), waiting.key, cols)
  {
    MaxSyncedIs([x]);
    assert x in [x];
    BehindWindowIsIgnored(Some([x]), staging, dims, waiting);
    HasKey([x], waiting.key);
  }

  lemma LostBehind(first: Row, waiting: Row, x: FactRow)
    requires first.key == x.key && waiting.key != first.key && waiting.synced + LOOKBACK < x.synced == first.synced
    ensures Lost(multiset{first, waiting}, [x], waiting.key, waiting.synced)
  {
    assert x in [x] && Shuts(multiset{first, waiting}, x, waiting.synced);
  }

  /** A row that waits behind the window of the only loaded row is lost. */
  lemma WaitingIsLost(s: Pipeline.State, first: Row, waiting: Row, x: FactRow, dims: Dimensions)
    requires s.build.Idle? && s.cdc.typed == multiset{first, waiting} && s.fact == Some([x])
    requires first.key == x.key && waiting.key != first.key && !first.isDeleted && !waiting.isDeleted
    requires waiting.synced + LOOKBACK < x.synced == first.synced && Joins(first.key, dims) && Joins(waiting.key, dims)
    ensures Loses(s, [first, waiting], dims, waiting)
  {
    StagesBoth(first, waiting, dims);
    assert waiting == [first, waiting][1];
    BehindOnlyRow(x, [first, waiting], dims, waiting);
    LostBehind(first, waiting, x);
  }

  lemma MayInsert(log: seq<Change>, k: Key, lsn: nat)
    requires k in {FIRST, SECOND} && (log == [] || (|log| == 1 && log[0].key != k))
    ensures MayAppend(Observation, log, InsertOf(k, lsn))
  {
    assert SourceAt(log, 0) == map[];
    assert |log| == 1 ==> SourceAt(log, 1) == Apply(map[], log[0]);
  }

  lemma ThenInsert(lag: nat, run: seq<Pipeline.State>, typed: multiset<Row>, k: Key, lsn: nat, at: nat, tolerance: Option<nat>)
    returns (longer: seq<Pipeline.State>)
    requires Pipeline.IsRun(lag, run) && Undisturbed(run, tolerance) && k in {FIRST, SECOND}
    requires var s := run[|run| - 1];
             && HasLanded(s, s.cdc.log, typed, s.cdc.now) && at <= s.cdc.now <= at + lag
             && (s.cdc.log == [] || (|s.cdc.log| == 1 && s.cdc.log[0].key != k))
    ensures Pipeline.IsRun(lag, longer) && Undisturbed(longer, tolerance)
    ensures var s, s' := run[|run| - 1], longer[|longer| - 1];
            && HasLanded(s', s.cdc.log + [InsertOf(k, lsn)], typed + multiset{RowOf(k, lsn, at)}, s.cdc.now)
            && s'.fact == s.fact
  {
    var c := run[|run| - 1].cdc;
    MayInsert(c.log, k, lsn);
    RenderThenType(Observation, InsertOf(k, lsn), at);
    assert Delivery(Observation, InsertOf(k, lsn), at) == multiset{RowOf(k, lsn, at)};
    var path := CanDeliver(Observation, lag, c, InsertOf(k, lsn), at);
    longer := ThenCapture(lag, run, path, tolerance);
  }

  lemma ThenWait(lag: nat, run: seq<Pipeline.State>, time: nat, tolerance: Option<nat>) returns (longer: seq<Pipeline.State>)
    requires Pipeline.IsRun(lag, run) && Undisturbed(run, tolerance) && run[|run| - 1].build.Idle?
    requires Cdc.WellFormed(run[|run| - 1].cdc)
    ensures Pipeline.IsRun(lag, longer) && Undisturbed(longer, tolerance)
    ensures var s := run[|run| - 1]; longer[|longer| - 1] == s.(cdc := s.cdc.(now := s.cdc.now + time))
  {
    var c := run[|run| - 1].cdc;
    Takes(Observation, lag, c, Cdc.Tick(time));
    longer := ThenCapture(lag, run, [c, c.(now := c.now + time)], tolerance);
  }

  /** The first build over staging rows of which only the first joins. */
  lemma FirstBuild(first: Row, rest: seq<Row>, dims: Dimensions)
    requires Joins(first.key, dims) && |rest| <= 1 && forall r :: r in rest ==> !Joins(r.key, dims)
    ensures Built(None, [first] + rest, dims) == [Enrich(first, dims)]
  {
    assert [first][..0] == [];
    assert Select([first], None, dims) == [Enrich(first, dims)];
    if |rest| == 1 {
      var staging := [first] + rest;
      assert staging[..1] == [first] && staging[1] in rest;
      assert Select(staging, None, dims) == Select([first], None, dims) + [];
    } else {
      assert [first] + rest == [first];
    }
  }

  /** Load a table of which only one row joins. */
  lemma ThenLoad(lag: nat, run: seq<Pipeline.State>, log: seq<Change>, typed: multiset<Row>, now: nat,
                 first: Row, rest: seq<Row>, dims: Dimensions, tolerance: Option<nat>)
    returns (longer: seq<Pipeline.State>)
    requires Pipeline.IsRun(lag, run) && Undisturbed(run, tolerance)
    requires HasLanded(run[|run| - 1], log, typed, now) && run[|run| - 1].fact.None?
    requires IsStaging(typed, [first] + rest) && TimelyWithin(typed, dims, now, tolerance)
    requires Joins(first.key, dims) && |rest| <= 1 && forall r :: r in rest ==> !Joins(r.key, dims)
    ensures Pipeline.IsRun(lag, longer) && Undisturbed(longer, tolerance)
    ensures HasLanded(longer[|longer| - 1], log, typed, now) && longer[|longer| - 1].fact == Some([Enrich(first, dims)])
  {
    longer := ThenBuild(lag, run, [first] + rest, dims, tolerance);
    FirstBuild(first, rest, dims);
  }

  lemma FirstIsLoaded(lag: nat, time: nat, dims: Dimensions) returns (run: seq<Pipeline.State>)
    requires Joins(FIRST, dims)
    ensures Pipeline.IsRun(lag, run) && Undisturbed(run, None)
    ensures HasLanded(run[|run| - 1], [InsertOf(FIRST, 1)], multiset{RowOf(FIRST, 1, time)}, time)
    ensures run[|run| - 1].fact == Some([Enrich(RowOf(FIRST, 1, time), dims)])
  {
    var first := RowOf(FIRST, 1, time);
    run := Begun(lag, None);
    run := ThenWait(lag, run, time, None);
    run := ThenInsert(lag, run, multiset{}, FIRST, 1, time, None);
    assert multiset{} + multiset{first} == multiset{first} && [] + [InsertOf(FIRST, 1)] == [InsertOf(FIRST, 1)];
    StagesOne(first);
    assert [first] + [] == [first];
    run := ThenLoad(lag, run, [InsertOf(FIRST, 1)], multiset{first}, time, first, [], dims, None);
  }

  /** The 48 hours are tight for arrivals: if rows may become visible any later than that after
      their stamp, there is a run after which a staged row that joins is not loaded. */
  lemma LookbackIsTight(lag: nat)
    returns (run: seq<Pipeline.State>, staging: seq<Row>, dims: Dimensions, late: Row)
    requires lag > 172_800_000
    ensures Pipeline.IsRun(lag, run) && Undisturbed(run, None)
    ensures Loses(run[|run| - 1], staging, dims, late)
  {
    var time := LOOKBACK + 1;
    var first := RowOf(FIRST, 1, time);
    late, dims := RowOf(SECOND, 2, 0), BOTH;
    staging := [first, late];
    WhoJoins();
    run := FirstIsLoaded(lag, time, dims);
    run := ThenInsert(lag, run, multiset{first}, SECOND, 2, 0, None);
    assert multiset{first} + multiset{late} == multiset{first, late};
    WaitingIsLost(run[|run| - 1], first, late, Enrich(first, dims), dims);
  }

  lemma BothHaveLanded(delay: nat) returns (run: seq<Pipeline.State>)
    ensures Pipeline.IsRun(0, run) && Undisturbed(run, Some(delay)) && run[|run| - 1].fact.None?
    ensures HasLanded(run[|run| - 1], [InsertOf(SECOND, 2), InsertOf(FIRST, 1)],
                      multiset{RowOf(FIRST, 1, delay), RowOf(SECOND, 2, 0)}, delay)
  {
    var first, waiting := RowOf(FIRST, 1, delay), RowOf(SECOND, 2, 0);
    run := Begun(0, Some(delay));
    run := ThenInsert(0, run, multiset{}, SECOND, 2, 0, Some(delay));
    assert multiset{} + multiset{waiting} == multiset{waiting} && [] + [InsertOf(SECOND, 2)] == [InsertOf(SECOND, 2)];
    run := ThenWait(0, run, delay, Some(delay));
    run := ThenInsert(0, run, multiset{waiting}, FIRST, 1, delay, Some(delay));
    assert multiset{waiting} + multiset{first} == multiset{first, waiting};
  }

  /** They are tight for dimensions as well: if a dimension row may come any later than that after
      the stamp of a row that refers to it, there is a run, with no delay of the rows themselves,
      after which that row is not loaded although it is staged and now joins. */
  lemma LateDimensionIsTight(delay: nat)
    returns (run: seq<Pipeline.State>, staging: seq<Row>, dims: Dimensions, waiting: Row)
    requires delay > 172_800_000
    ensures Pipeline.IsRun(0, run) && Undisturbed(run, Some(delay))
    ensures Loses(run[|run| - 1], staging, dims, waiting)
  {
    var first := RowOf(FIRST, 1, delay);
    waiting, dims := RowOf(SECOND, 2, 0), BOTH;
    staging := [first, waiting];
    WhoJoins();
    run := BothHaveLanded(delay);
    assert [first] + [waiting] == staging;
    StagesBoth(first, waiting, FIRST_ONLY);
    run := ThenLoad(0, run, [InsertOf(SECOND, 2), InsertOf(FIRST, 1)], multiset{first, waiting}, delay,
                    first, [waiting], FIRST_ONLY, Some(delay));
    WaitingIsLost(run[|run| - 1], first, waiting, Enrich(first, FIRST_ONLY), dims);
  }

  /** A build over this view leaves the key in the fact. */
  ghost predicate KeepsKey(s: Pipeline.State, staging: seq<Row>, dims: Dimensions, k: Key) {
    k in KeysOf(Built(s.fact, staging, dims))
  }

  /** Whatever is in the source when a build runs and deleted when the next one does is still in
      the fact after both, whatever the dimensions. */
  lemma DeleteStaysInFact(lag: nat, log: seq<Change>, p: nat, q: nat, k: Key)
    returns (run: seq<Pipeline.State>, s: Pipeline.State, staging: seq<Row>)
    requires ValidLog(Observation, log) && p <= q <= |log|
    requires k in Cdc.Visible(SourceAt(log, p)) && k !in Cdc.Visible(SourceAt(log, q))
    ensures Pipeline.IsRun(lag, run) && Undisturbed(run, None) && s == run[|run| - 1] && s.build.Idle?
    ensures IsStaging(s.cdc.typed, staging) && k !in StagedKeys(staging)
    ensures forall dims :: KeepsKey(s, staging, dims, k)
  {
    AllJoin(log, p);
    run, staging := CanBuildThenStage(lag, log, p, q, AllDimensions(log, p), None);
    s := run[|run| - 1];
    forall dims ensures KeepsKey(s, staging, dims, k) {
      DeletedKeySurvives(s.fact, staging, dims, k);
    }
  }

  // ---- Redelivery -----------------------------------------------------------------------------

  /** Caught up with the topic, with the connector at some position. */
  predicate CaughtUp(s: Cdc.State) {
    Cdc.WellFormed(s) && s.committed == |s.topic| && s.block.Idle? && s.acked == 0
  }

  /** The state after the connector has sent its next change again, and the consumer landed it. */
  function Resent(t: Table, s: Cdc.State): Cdc.State
    requires s.sent < |s.log|
  {
    var c := s.log[s.sent];
    s.(topic := s.topic + [s.sent], sent := s.sent + 1, committed := |s.topic| + 1,
       events := s.events + multiset{Cdc.LogRow(|s.topic|, Render(t, c), s.now)}, typed := s.typed + Delivery(t, c, s.now))
  }

  lemma CanResend(t: Table, lag: nat, s: Cdc.State) returns (path: seq<Cdc.State>)
    requires CaughtUp(s) && s.sent < |s.log|
    ensures Cdc.IsPath(t, lag, path) && path[0] == s && path[|path| - 1] == Resent(t, s) && CaughtUp(Resent(t, s))
  {
    var c := s.log[s.sent];
    var sent := s.(topic := s.topic + [s.sent], sent := s.sent + 1);
    Takes(t, lag, s, Cdc.Send);
    path := [s, sent];
    var more := CanLog(t, lag, sent, c, s.now);
    JoinPaths(t, lag, path, more);
    path := path + more[1..];
    more := CanLand(t, lag, path[|path| - 1], c, s.now);
    JoinPaths(t, lag, path, more);
    path := path + more[1..];
  }

  /** The first n changes of s have landed again in s', stamped now. */
  ghost predicate LandedAgain(t: Table, s: Cdc.State, s': Cdc.State, n: nat) {
    && n <= |s.log| && CaughtUp(s') && s'.log == s.log && s'.now == s.now && s'.sent == n
    && s.typed <= s'.typed
    && forall j :: 0 <= j < n ==> LandedIn(t, s, s'.typed, j)
  }

  ghost predicate LandedIn(t: Table, s: Cdc.State, typed: multiset<Row>, j: nat)
    requires j < |s.log|
  {
    Delivery(t, s.log[j], s.now) <= typed
  }

  lemma LandsMore(t: Table, s: Cdc.State, last: Cdc.State, n: nat)
    requires LandedAgain(t, s, last, n) && n < |s.log|
    ensures CaughtUp(Resent(t, last)) ==> LandedAgain(t, s, Resent(t, last), n + 1)
  {
    forall j | 0 <= j < n + 1 ensures LandedIn(t, s, Resent(t, last).typed, j) {
      assert j < n ==> LandedIn(t, s, last.typed, j);
    }
  }

  /** After a restart from the beginning everything is delivered a second time. */
  lemma {:induction false} CanRedeliver(t: Table, lag: nat, s: Cdc.State, n: nat) returns (path: seq<Cdc.State>)
    requires Quiet(s) && n <= |s.log|
    ensures Cdc.IsPath(t, lag, path) && path[0] == s && LandedAgain(t, s, path[|path| - 1], n)
  {
    if n == 0 {
      Takes(t, lag, s, Cdc.Restart);
      path := [s, s.(sent := 0)];
    } else {
      path := CanRedeliver(t, lag, s, n - 1);
      var last := path[|path| - 1];
      LandsMore(t, s, last, n - 1);
      var more := CanResend(t, lag, last);
      JoinPaths(t, lag, path, more);
      path := path + more[1..];
    }
  }

  // ---- Two copies of every row -------------------------------------------------------------

  /** FINAL over a table stays FINAL over the same table with more copies. */
  lemma FinalOfMore(t: Table, rows: multiset<Row>, rows': multiset<Row>, changes: set<Change>, f: map<Key, Row>)
    requires Distinguished(changes) && Represents(t, rows, changes) && Represents(t, rows', changes)
    requires rows <= rows' && IsFinal(rows, f)
    ensures IsFinal(rows', f)
  {
    var f' := FinalExists(rows');
    ReadsAlike(t, changes, rows', f', rows, f);
    forall k | k in f ensures f[k].key == k && Newest(rows', f[k]) {
      assert Newest(rows, f[k]);
      NewestOfMore(t, rows, rows', changes, f, k);
    }
    forall r | r in rows' ensures r.key in f {
      assert r.key in f';
    }
  }

  lemma NewestOfMore(t: Table, rows: multiset<Row>, rows': multiset<Row>, changes: set<Change>, f: map<Key, Row>, k: Key)
    requires Represents(t, rows, changes) && Represents(t, rows', changes) && rows <= rows' && IsFinal(rows, f) && k in f
    ensures Newest(rows', f[k])
  {
    var c := FinalWinner(t, rows, changes, f, k);
    assert Newest(rows, f[k]);
    forall r | r in rows' && r.key == k ensures r.version <= f[k].version {
      assert Stems(t, r, changes);
      var d :| d in changes && Carries(t, r, d);
    }
  }

  /** The row that the last change of a key put into the table is a live row. */
  lemma WinnerIsLive(t: Table, rows: multiset<Row>, changes: set<Change>, c: Change, r: Row)
    requires Represents(t, rows, changes) && Wins(changes, c) && !c.kind.Delete?
    requires r in rows && Carries(t, r, c)
    ensures Live(rows, r)
  {
    forall q | q in rows && q.key == r.key ensures q.version <= r.version {
      assert Stems(t, q, changes);
      var d :| d in changes && Carries(t, q, d);
    }
  }

  /** A staging view with the fresh copy of one key and old copies of all others. */
  ghost predicate OneFresh(staging: seq<Row>, k: Key, time: nat) {
    forall r :: r in staging ==> r.synced == if r.key == k then time else 0
  }

  /** Every row of `early` is stamped zero and has a second copy in `rows`, stamped `time`. */
  ghost predicate Doubled(early: multiset<Row>, rows: multiset<Row>, log: seq<Change>, time: nat) {
    && Ordered(log) && early <= rows && (forall r :: r in early ==> r.synced == 0)
    && Represents(Observation, early, Cdc.ChangesTo(log, |log|)) && Represents(Observation, rows, Cdc.ChangesTo(log, |log|))
    && forall i :: 0 <= i < |log| ==> LandsAt(rows, log, i, time)
  }

  ghost predicate LandsAt(rows: multiset<Row>, log: seq<Change>, i: nat, time: nat)
    requires i < |log|
  {
    SchemaKey(Observation, log[i].key) && Delivery(Observation, log[i], time) <= rows
  }

  lemma FreshCopy(early: multiset<Row>, rows: multiset<Row>, log: seq<Change>, time: nat, k: Key) returns (r: Row)
    requires Doubled(early, rows, log, time) && k in Cdc.VisibleKeys(log, |log|)
    ensures r.key == k && r.synced == time && Live(rows, r)
  {
    var changes := Cdc.ChangesTo(log, |log|);
    var c := Cdc.SourceHasWinner(log, |log|, k);
    Cdc.WinnerIsSource(log, |log|, c);
    var i :| 0 <= i < |log| && c == log[i];
    assert LandsAt(rows, log, i, time);
    RenderThenType(Observation, c, time);
    r := TypedRow(Observation, Render(Observation, c), time);
    assert r in Delivery(Observation, c, time);
    WinnerIsLive(Observation, rows, changes, c, r);
  }

  lemma OldCopy(early: multiset<Row>, rows: multiset<Row>, log: seq<Change>, time: nat, k: Key) returns (r: Row)
    requires Doubled(early, rows, log, time) && k in Cdc.VisibleKeys(log, |log|)
    ensures r.key == k && r.synced == 0 && Live(rows, r)
  {
    var changes := Cdc.ChangesTo(log, |log|);
    var f := FinalExists(early);
    Cdc.RepresentingReads(Observation, log, early, |log|, f);
    assert k in CurrentState(f);
    NewestOfMore(Observation, early, rows, changes, f, k);
    r := f[k];
    assert Newest(early, r);
  }

  /** FINAL may pick the fresh copy of one key and old copies of the others. */
  lemma CanPickRows(early: multiset<Row>, rows: multiset<Row>, log: seq<Change>, time: nat, k: Key) returns (f: map<Key, Row>)
    requires Doubled(early, rows, log, time) && k in Cdc.VisibleKeys(log, |log|)
    ensures IsFinal(rows, f) && forall q :: q in f ==> f[q].key == q && f[q].synced == if q == k then time else 0
  {
    Cdc.OrderedDistinguishes(log, |log|);
    var r := FreshCopy(early, rows, log, time, k);
    f := FinalExists(early);
    FinalOfMore(Observation, early, rows, Cdc.ChangesTo(log, |log|), f);
    FinalWith(rows, f, r);
    forall q | q in f ensures f[q].key == q && f[q].synced == 0 {
      assert Newest(early, f[q]);
    }
    f := f[k := r];
  }

  lemma CanPickOne(early: multiset<Row>, rows: multiset<Row>, log: seq<Change>, time: nat, k: Key) returns (staging: seq<Row>)
    requires Doubled(early, rows, log, time) && k in Cdc.VisibleKeys(log, |log|)
    ensures IsStaging(rows, staging) && StagedKeys(staging) == Cdc.VisibleKeys(log, |log|) && OneFresh(staging, k, time)
  {
    Cdc.OrderedDistinguishes(log, |log|);
    Pipeline.RepresentsFunctional(Observation, rows, Cdc.ChangesTo(log, |log|));
    var f := CanPickRows(early, rows, log, time, k);
    staging := StagingOf(rows, f, f.Keys);
    StagingOfFinal(rows, f, staging);
    Cdc.RepresentingReads(Observation, log, rows, |log|, f);
    Pipeline.StagedAreRead(rows, staging, f);
  }

  lemma FinalWith(rows: multiset<Row>, f: map<Key, Row>, r: Row)
    requires IsFinal(rows, f) && Newest(rows, r)
    ensures IsFinal(rows, f[r.key := r])
  {
  }

  lemma StagingOfFinal(rows: multiset<Row>, f: map<Key, Row>, staging: seq<Row>)
    requires Functional(rows) && IsFinal(rows, f) && DistinctKeys(staging)
    requires forall r :: r in staging <==> r.key in f && f[r.key] == r && !r.isDeleted
    ensures IsStaging(rows, staging)
  {
    forall r | r in staging ensures Newest(rows, r) {
      assert Newest(rows, f[r.key]);
    }
    forall q | Live(rows, q) ensures IsStaged(staging, q.key) {
      assert Newest(rows, f[q.key]);
      assert f[q.key] in staging;
    }
  }

  /** After a build at time zero, wait longer than the window and deliver everything again. */
  lemma CanDouble(run: seq<Pipeline.State>, log: seq<Change>, p: nat, q: nat, dims: Dimensions)
    returns (longer: seq<Pipeline.State>, early: multiset<Row>)
    requires Pipeline.IsRun(0, run) && Undisturbed(run, None) && ValidLog(Observation, log) && p <= q <= |log|
    requires BuiltThenDelivered(run, log, p, q, dims)
    ensures Pipeline.IsRun(0, longer) && Undisturbed(longer, None)
    ensures IsDoubled(longer[|longer| - 1], early, log[..q]) && longer[|longer| - 1].fact == run[|run| - 1].fact
  {
    var s := run[|run| - 1];
    longer := ThenWait(0, run, LOOKBACK + 1, None);
    var c := longer[|longer| - 1].cdc;
    var path := CanRedeliver(Observation, 0, c, |c.log|);
    longer := ThenCapture(0, longer, path, None);
    early := s.cdc.typed;
    QuietRepresents(run);
    RedeliveredRepresents(longer);
    var rows, part, time := longer[|longer| - 1].cdc.typed, log[..q], LOOKBACK + 1;
    forall i | 0 <= i < |part| ensures LandsAt(rows, part, i, time) {
      assert LandedIn(Observation, c, rows, i);
      assert LegalAt(Observation, log, i);
    }
  }

  /** No build is under way, everything has landed twice, and the fact is from the first time. */
  ghost predicate IsDoubled(s: Pipeline.State, early: multiset<Row>, log: seq<Change>) {
    && s.build.Idle? && s.cdc.log == log && s.cdc.now == LOOKBACK + 1
    && Doubled(early, s.cdc.typed, log, LOOKBACK + 1)
    && s.fact.Some? && UniqueKeys(s.fact.value) && forall x :: x in s.fact.value ==> x.synced == 0
  }

  lemma QuietRepresents(run: seq<Pipeline.State>)
    requires Pipeline.IsRun(0, run) && Undisturbed(run, None)
    requires var s := run[|run| - 1]; s.build.Idle? && Quiet(s.cdc) && s.cdc.now == 0
    ensures var s := run[|run| - 1];
            && Ordered(s.cdc.log) && Represents(Observation, s.cdc.typed, Cdc.ChangesTo(s.cdc.log, |s.cdc.log|))
            && (forall r :: r in s.cdc.typed ==> r.synced == 0) && (forall x :: x in Rows(s.fact) ==> x.synced == 0)
  {
    UndisturbedIsTimely(run, None);
    var p, e := Pipeline.InvAt(0, run, |run| - 1);
    assert p == |run[|run| - 1].cdc.log|;
  }

  lemma RedeliveredRepresents(run: seq<Pipeline.State>)
    requires Pipeline.IsRun(0, run) && Cdc.Drained(run[|run| - 1].cdc)
    ensures var c := run[|run| - 1].cdc; Represents(Observation, c.typed, Cdc.ChangesTo(c.log, |c.log|))
  {
    var p, e := Pipeline.RunGrounded(0, run, |run| - 1);
    assert p == |run[|run| - 1].cdc.log|;
  }

  // ---- Killed builds -------------------------------------------------------------------------

  /** All rows are stamped zero, except that of one key. */
  ghost predicate StampedOnly(fact: seq<FactRow>, k: Key, time: nat) {
    forall x :: x in fact ==> x.synced == if x.key == k then time else 0
  }

  /** A build over a fact stamped zero throughout takes every staged row. */
  lemma BuildsAll(fact: seq<FactRow>, staging: seq<Row>, dims: Dimensions, d: Key, time: nat)
    requires DistinctKeys(staging) && Covered(staging, dims) && OneFresh(staging, d, time) && d in StagedKeys(staging)
    requires (forall x :: x in fact ==> x.synced == 0) && UniqueKeys(fact)
    ensures var after := Built(Some(fact), staging, dims);
            KeysOf(after) == KeysOf(fact) + StagedKeys(staging) && StampedOnly(after, d, time) && UniqueKeys(after)
  {
    var after := Built(Some(fact), staging, dims);
    MaxSyncedIs(fact);
    SelectIs(staging, Some(fact), dims);
    BuildKeepsGrain(Some(fact), staging, dims);
    forall r | r in staging ensures r.key in KeysOf(Select(staging, Some(fact), dims)) && r.key in KeysOf(after) {
      SelectedKey(staging, Some(fact), dims, r);
      BuiltIs(Some(fact), staging, dims, Enrich(r, dims));
      HasKey(after, r.key);
      assert Shows(after, r.key, r.image.cols);
    }
    forall k ensures k in KeysOf(after) <==> k in KeysOf(fact) + StagedKeys(staging) {
      if k in StagedKeys(staging) {
        var i :| 0 <= i < |staging| && staging[i].key == k;
        assert staging[i] in staging;
      } else {
        UnstagedIsNotSelected(staging, Some(fact), dims, k);
        NotSelectedStays(Some(fact), staging, dims, k);
        SameKey(after, fact, k);
      }
    }
    forall x | x in after ensures x.synced == if x.key == d then time else 0 {
      BuiltIs(Some(fact), staging, dims, x);
      if x !in Select(staging, Some(fact), dims) {
        assert x.key !in StagedKeys(staging);
      }
    }
  }

  /** A build over the fact that one fresh row has shut takes only the fresh row it is offered. */
  lemma TakesOne(fact: seq<FactRow>, staging: seq<Row>, dims: Dimensions, d: Key, c: Key, time: nat)
    requires DistinctKeys(staging) && Covered(staging, dims) && OneFresh(staging, c, time) && c in StagedKeys(staging)
    requires StampedOnly(fact, d, time) && d in KeysOf(fact) && time > LOOKBACK
    ensures KeysOf(Select(staging, Some(fact), dims)) == {c}
  {
    var picked := Select(staging, Some(fact), dims);
    MaxSyncedIs(fact);
    var i :| 0 <= i < |fact| && fact[i].key == d;
    assert fact[i] in fact;
    forall k ensures k in KeysOf(picked) <==> k == c {
      if k in StagedKeys(staging) {
        var j :| 0 <= j < |staging| && staging[j].key == k;
        assert staging[j] in staging;
        SelectedKey(staging, Some(fact), dims, staging[j]);
      } else {
        UnstagedIsNotSelected(staging, Some(fact), dims, k);
      }
    }
  }

  /** The run ends with a build that is killed after its DELETE; every step before that is timely. */
  ghost predicate EndsInKill(run: seq<Pipeline.State>) {
    && |run| > 1 && Pipeline.TimelyRun(run[..|run| - 1])
    && Pipeline.Dies(run[|run| - 2], run[|run| - 1]) && run[|run| - 2].build.Deleted?
  }

  lemma TimelyAppend(run: seq<Pipeline.State>, s: Pipeline.State)
    requires |run| > 0 && Pipeline.TimelyRun(run) && Pipeline.TimelyStep(run[|run| - 1], s)
    ensures Pipeline.TimelyRun(run + [s])
  {
    var longer := run + [s];
    forall i | 0 <= i < |longer| - 1 ensures Pipeline.TimelyAt(longer, i) {
      assert i < |run| - 1 ==> Pipeline.TimelyAt(run, i);
    }
  }

  lemma RunAppend(lag: nat, run: seq<Pipeline.State>, s: Pipeline.State)
    requires Pipeline.IsRun(lag, run) && Pipeline.Follows(lag, run[|run| - 1], s)
    ensures Pipeline.IsRun(lag, run + [s])
  {
    var longer := run + [s];
    forall i | 0 <= i < |longer| - 1 ensures Pipeline.FollowsAt(lag, longer, i) {
      assert i < |run| - 1 ==> Pipeline.FollowsAt(lag, run, i);
    }
  }

  lemma ThenKill(lag: nat, run: seq<Pipeline.State>, staging: seq<Row>, dims: Dimensions) returns (longer: seq<Pipeline.State>)
    requires Pipeline.IsRun(lag, run) && Pipeline.TimelyRun(run)
    requires var s := run[|run| - 1];
             s.build.Idle? && IsStaging(s.cdc.typed, staging) && Timely(s.cdc.typed, dims, s.cdc.now)
    ensures Pipeline.IsRun(lag, longer) && EndsInKill(longer)
    ensures var s, s' := run[|run| - 1], longer[|longer| - 1];
            && s' == s.(fact := Halved(s.fact, Select(staging, s.fact, dims)))
            && (Settled(s'.cdc.typed, Rows(s'.fact)) ==> Pipeline.TimelyRun(longer))
  {
    var s := run[|run| - 1];
    var picked := Select(staging, s.fact, dims);
    var begun := s.(build := Pipeline.Selected(picked, dims));
    var half := s.(fact := Halved(s.fact, picked), build := Pipeline.Deleted(picked, dims));
    var dead := half.(build := Pipeline.Idle);
    assert Pipeline.BeginsWith(s, begun, staging);
    assert Pipeline.Begins(s, begun) && Pipeline.Deletes(begun, half) && Pipeline.Dies(half, dead);
    RunAppend(lag, run, begun);
    TimelyAppend(run, begun);
    RunAppend(lag, run + [begun], half);
    TimelyAppend(run + [begun], half);
    RunAppend(lag, run + [begun] + [half], dead);
    longer := run + [begun] + [half] + [dead];
    assert longer[..|longer| - 1] == run + [begun] + [half];
    if Settled(dead.cdc.typed, Rows(dead.fact)) {
      TimelyAppend(run + [begun] + [half], dead);
    }
  }

  /** A kill that takes key c out of the fact, with row d of it stamped fresh and all others old. */
  ghost predicate LostToKill(s: Pipeline.State, early: multiset<Row>, log: seq<Change>, keys: set<Key>, d: Key, c: Key) {
    && s.build.Idle? && s.cdc.log == log && s.fact.Some?
    && Doubled(early, s.cdc.typed, log, LOOKBACK + 1)
    && KeysOf(s.fact.value) == keys + Cdc.VisibleKeys(log, |log|) - {c}
    && StampedOnly(s.fact.value, d, LOOKBACK + 1)
  }

  lemma WithoutKey(fact: seq<FactRow>, picked: seq<FactRow>, d: Key, c: Key, time: nat)
    requires KeysOf(picked) == {c} && StampedOnly(fact, d, time)
    ensures var half := Rows(Halved(Some(fact), picked)); KeysOf(half) == KeysOf(fact) - {c} && StampedOnly(half, d, time)
  {
    var half := Rows(Halved(Some(fact), picked));
    WithoutIs(fact, KeysOf(picked));
    forall k ensures k in KeysOf(half) <==> k in KeysOf(fact) - {c} {
      HasKey(half, k);
      HasKey(fact, k);
      if cols :| Shows(fact, k, cols) {
        var x :| x in fact && x.key == k && x.cols == cols;
        assert k != c ==> x in half && Shows(half, k, cols);
      }
      if cols :| Shows(half, k, cols) {
        var x :| x in half && x.key == k && x.cols == cols;
        assert x in fact && Shows(fact, k, cols);
      }
    }
  }

  /** The fact holds these keys and all live ones, and only key d is stamped fresh. */
  ghost predicate IsFilled(s: Pipeline.State, early: multiset<Row>, log: seq<Change>, keys: set<Key>, d: Key) {
    && s.build.Idle? && s.cdc.log == log && Doubled(early, s.cdc.typed, log, LOOKBACK + 1)
    && s.fact.Some? && KeysOf(s.fact.value) == keys + Cdc.VisibleKeys(log, |log|)
    && StampedOnly(s.fact.value, d, LOOKBACK + 1) && d in Cdc.VisibleKeys(log, |log|)
  }

  /** A staging view with one fresh key, and dimensions that hold all its references. */
  lemma CanOffer(s: Pipeline.State, early: multiset<Row>, log: seq<Change>, k: Key) returns (staging: seq<Row>)
    requires ValidLog(Observation, log) && Doubled(early, s.cdc.typed, log, LOOKBACK + 1) && k in Cdc.VisibleKeys(log, |log|)
    ensures IsStaging(s.cdc.typed, staging) && StagedKeys(staging) == Cdc.VisibleKeys(log, |log|)
    ensures OneFresh(staging, k, LOOKBACK + 1) && Covered(staging, AllDimensions(log, |log|))
    ensures TimelyWithin(s.cdc.typed, AllDimensions(log, |log|), s.cdc.now, None)
    ensures Timely(s.cdc.typed, AllDimensions(log, |log|), s.cdc.now)
  {
    AllJoin(log, |log|);
    staging := CanPickOne(early, s.cdc.typed, log, LOOKBACK + 1, k);
    StagedCover(s.cdc.typed, staging, AllDimensions(log, |log|), s.cdc.now);
  }

  lemma FillBuilds(s: Pipeline.State, early: multiset<Row>, log: seq<Change>, staging: seq<Row>, dims: Dimensions, d: Key)
    requires IsDoubled(s, early, log) && IsStaging(s.cdc.typed, staging) && StagedKeys(staging) == Cdc.VisibleKeys(log, |log|)
    requires d in Cdc.VisibleKeys(log, |log|) && OneFresh(staging, d, LOOKBACK + 1) && Covered(staging, dims)
    ensures IsFilled(s.(fact := Some(Built(s.fact, staging, dims))), early, log, KeysOf(s.fact.value), d)
  {
    BuildsAll(s.fact.value, staging, dims, d, LOOKBACK + 1);
  }

  lemma CanFill(run: seq<Pipeline.State>, early: multiset<Row>, log: seq<Change>, d: Key) returns (longer: seq<Pipeline.State>)
    requires Pipeline.IsRun(0, run) && Undisturbed(run, None) && ValidLog(Observation, log)
    requires IsDoubled(run[|run| - 1], early, log) && d in Cdc.VisibleKeys(log, |log|)
    ensures Pipeline.IsRun(0, longer) && Pipeline.TimelyRun(longer)
    ensures IsFilled(longer[|longer| - 1], early, log, KeysOf(run[|run| - 1].fact.value), d)
  {
    var s, dims := run[|run| - 1], AllDimensions(log, |log|);
    var staging := CanOffer(s, early, log, d);
    longer := ThenBuild(0, run, staging, dims, None);
    FillBuilds(s, early, log, staging, dims, d);
    UndisturbedIsTimely(longer, None);
  }

  lemma TakeOutLoses(s: Pipeline.State, early: multiset<Row>, log: seq<Change>, keys: set<Key>, staging: seq<Row>, dims: Dimensions,
                     d: Key, c: Key)
    requires IsFilled(s, early, log, keys, d) && IsStaging(s.cdc.typed, staging) && StagedKeys(staging) == Cdc.VisibleKeys(log, |log|)
    requires c in Cdc.VisibleKeys(log, |log|) && OneFresh(staging, c, LOOKBACK + 1) && Covered(staging, dims)
    ensures LostToKill(s.(fact := Halved(s.fact, Select(staging, s.fact, dims))), early, log, keys, d, c)
  {
    TakesOne(s.fact.value, staging, dims, d, c, LOOKBACK + 1);
    WithoutKey(s.fact.value, Select(staging, s.fact, dims), d, c, LOOKBACK + 1);
  }

  lemma CanTakeOut(run: seq<Pipeline.State>, early: multiset<Row>, log: seq<Change>, keys: set<Key>, d: Key, c: Key)
    returns (longer: seq<Pipeline.State>)
    requires Pipeline.IsRun(0, run) && Pipeline.TimelyRun(run) && ValidLog(Observation, log)
    requires IsFilled(run[|run| - 1], early, log, keys, d) && c in Cdc.VisibleKeys(log, |log|)
    ensures Pipeline.IsRun(0, longer) && EndsInKill(longer)
    ensures LostToKill(longer[|longer| - 1], early, log, keys, d, c)
    ensures var s := longer[|longer| - 1]; Settled(s.cdc.typed, Rows(s.fact)) ==> Pipeline.TimelyRun(longer)
  {
    var s, dims := run[|run| - 1], AllDimensions(log, |log|);
    var staging := CanOffer(s, early, log, c);
    longer := ThenKill(0, run, staging, dims);
    TakeOutLoses(s, early, log, keys, staging, dims, d, c);
  }

  /** Build at position p, deliver up to q, deliver everything again, build with key d fresh, and
      kill the next build after it has deleted key c alone. */
  lemma CanKillOne(log: seq<Change>, p: nat, q: nat, d: Key, c: Key) returns (run: seq<Pipeline.State>, early: multiset<Row>)
    requires ValidLog(Observation, log) && p <= q <= |log| && d in Cdc.VisibleKeys(log, q) && c in Cdc.VisibleKeys(log, q)
    ensures Pipeline.IsRun(0, run) && EndsInKill(run)
    ensures ValidLog(Observation, log[..q]) && Cdc.VisibleKeys(log[..q], q) == Cdc.VisibleKeys(log, q)
    ensures LostToKill(run[|run| - 1], early, log[..q], Cdc.VisibleKeys(log, p), d, c)
    ensures var s := run[|run| - 1]; Settled(s.cdc.typed, Rows(s.fact)) ==> Pipeline.TimelyRun(run)
  {
    SourceAtPrefix(log[..q], log, q);
    PrefixIsValid(Observation, log, q);
    run, early := CanDoubleAll(log, p, q);
    run := CanFill(run, early, log[..q], d);
    run := CanTakeOut(run, early, log[..q], Cdc.VisibleKeys(log, p), d, c);
  }

  lemma CanDoubleAll(log: seq<Change>, p: nat, q: nat) returns (run: seq<Pipeline.State>, early: multiset<Row>)
    requires ValidLog(Observation, log) && p <= q <= |log|
    ensures Pipeline.IsRun(0, run) && Undisturbed(run, None)
    ensures IsDoubled(run[|run| - 1], early, log[..q]) && KeysOf(run[|run| - 1].fact.value) == Cdc.VisibleKeys(log, p)
  {
    AllJoin(log, p);
    run := CanBuildThenDeliver(0, log, p, q, AllDimensions(log, p), None);
    run, early := CanDouble(run, log, p, q, AllDimensions(log, p));
  }

  lemma StagedCover(rows: multiset<Row>, staging: seq<Row>, dims: Dimensions, now: nat)
    requires IsStaging(rows, staging) && forall k :: k in StagedKeys(staging) ==> Joins(k, dims)
    ensures Covered(staging, dims) && TimelyWithin(rows, dims, now, None) && Timely(rows, dims, now)
  {
    forall r | r in staging ensures r.key in StagedKeys(staging) {
    }
    forall r | Live(rows, r) ensures r.key in StagedKeys(staging) {
      assert IsStaged(staging, r.key);
    }
  }

  /** The premise on kills is needed: in every history with two live keys there is a run, timely in
      every step but the kill it ends with, after which some copy that FINAL may pick is lost to
      the retry. */
  lemma KilledBuildCanLose(log: seq<Change>, p: nat, d: Key, c: Key) returns (run: seq<Pipeline.State>)
    requires ValidLog(Observation, log) && p <= |log| && c != d
    requires d in Cdc.VisibleKeys(log, p) && c in Cdc.VisibleKeys(log, p)
    ensures Pipeline.IsRun(0, run) && EndsInKill(run) && run[|run| - 1].cdc.log == log[..p]
    ensures var s := run[|run| - 1]; s.fact.Some? && !NextBuildIsComplete(s.cdc.typed, s.fact.value)
  {
    var early;
    run, early := CanKillOne(log, p, p, d, c);
    LosesOldCopy(run[|run| - 1], early, log[..p], Cdc.VisibleKeys(log, p), d, c);
  }

  lemma LosesOldCopy(s: Pipeline.State, early: multiset<Row>, log: seq<Change>, keys: set<Key>, d: Key, c: Key)
    requires LostToKill(s, early, log, keys, d, c) && d != c && ValidLog(Observation, log)
    requires d in Cdc.VisibleKeys(log, |log|) && c in Cdc.VisibleKeys(log, |log|)
    ensures !NextBuildIsComplete(s.cdc.typed, s.fact.value)
  {
    var r := OldCopy(early, s.cdc.typed, log, LOOKBACK + 1, c);
    assert d in KeysOf(s.fact.value);
    var i :| 0 <= i < |s.fact.value| && s.fact.value[i].key == d;
    var x := s.fact.value[i];
    assert x in s.fact.value;
    HasKey(s.fact.value, c);
    assert !Shows(s.fact.value, c, r.image.cols);
    assert !Settled(s.cdc.typed, s.fact.value);
    LandedAreObservations(s.cdc.typed, log);
    Cdc.OrderedDistinguishes(log, |log|);
    Pipeline.RepresentsFunctional(Observation, s.cdc.typed, Cdc.ChangesTo(log, |log|));
    SettledIsExact(s.cdc.typed, s.fact.value);
  }

  lemma LandedAreObservations(rows: multiset<Row>, log: seq<Change>)
    requires ValidLog(Observation, log) && Represents(Observation, rows, Cdc.ChangesTo(log, |log|))
    ensures forall r :: r in rows ==> r.key.ObservationKey?
  {
    forall r | r in rows ensures r.key.ObservationKey? {
      assert Stems(Observation, r, Cdc.ChangesTo(log, |log|));
      var c :| c in Cdc.ChangesTo(log, |log|) && Carries(Observation, r, c);
      var i :| 0 <= i < |log| && log[i] == c;
      assert LegalAt(Observation, log, i);
    }
  }

  lemma PrefixIsValid(t: Table, log: seq<Change>, p: nat)
    requires ValidLog(t, log) && p <= |log|
    ensures ValidLog(t, log[..p])
  {
    forall i | 0 <= i < p ensures LegalAt(t, log[..p], i) {
      assert LegalAt(t, log, i);
      SourceAtPrefix(log[..p], log, i);
    }
  }
}
