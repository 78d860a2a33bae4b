/** The whole change-data path for observations: the source, both at-least-once copies, the
    merges, and the builds of the fact, interleaved in any way. */
module Pipeline {
  import opened Model
  import opened Landing
  import opened Warehouse
  import Cdc

  /** A build between its statements, with its temporary relation and the dimensions it read. */
  datatype Build =
    | Idle
    | Selected(picked: seq<FactRow>, dims: Dimensions)
    | Deleted(picked: seq<FactRow>, dims: Dimensions)

  datatype State = State(cdc: Cdc.State, fact: Option<seq<FactRow>>, build: Build)

  const INITIAL := State(Cdc.INITIAL, None, Idle)

  ghost predicate Captures(lag: nat, s: State, s': State) {
    Cdc.Follows(Observation, lag, s.cdc, s'.cdc) && s' == s.(cdc := s'.cdc)
  }

  /** A build reads the landing table as it stands. The dimensions may hold anything. */
  ghost predicate Begins(s: State, s': State) {
    && s.build.Idle? && s'.build.Selected?
    && exists staging :: BeginsWith(s, s', staging)
  }

  ghost predicate BeginsWith(s: State, s': State, staging: seq<Row>)
    requires s'.build.Selected?
  {
    && IsStaging(s.cdc.typed, staging)
    && s' == s.(build := Selected(Select(staging, s.fact, s'.build.dims), s'.build.dims))
  }

  predicate Deletes(s: State, s': State) {
    && s.build.Selected?
    && s' == s.(fact := Halved(s.fact, s.build.picked), build := Deleted(s.build.picked, s.build.dims))
  }

  predicate Finishes(s: State, s': State) {
    s.build.Deleted? && s' == s.(fact := Some(Rows(s.fact) + s.build.picked), build := Idle)
  }

  /** The build is killed between two statements. */
  predicate Dies(s: State, s': State) {
    !s.build.Idle? && s' == s.(build := Idle)
  }

  ghost predicate Follows(lag: nat, s: State, s': State) {
    Captures(lag, s, s') || Begins(s, s') || Deletes(s, s') || Finishes(s, s') || Dies(s, s')
  }

  /** Every state of the path follows from the one before it. */
  ghost predicate IsPath(lag: nat, path: seq<State>) {
    |path| > 0 && forall i :: 0 <= i < |path| - 1 ==> FollowsAt(lag, path, i)
  }

  ghost predicate FollowsAt(lag: nat, path: seq<State>, i: nat)
    requires i < |path| - 1
  {
    Follows(lag, path[i], path[i + 1])
  }

  ghost predicate IsRun(lag: nat, run: seq<State>) {
    IsPath(lag, run) && run[0] == INITIAL
  }

  /** The fact once the build under way, if any, is done. */
  function After(s: State): Option<seq<FactRow>> {
    match s.build
    case Idle => s.fact
    case Selected(picked, _) => Some(Rows(Halved(s.fact, picked)) + picked)
    case Deleted(picked, _) => Some(Rows(s.fact) + picked)
  }

  // ---- What holds in every run -----------------------------------------------------------

  /** Every loaded key has been changed before position p. */
  ghost predicate Known(log: seq<Change>, p: nat, fact: seq<FactRow>)
    requires p <= |log|
  {
    forall x :: x in fact ==> Complete(x.key) && Touched(log, p, x.key)
  }

  ghost predicate Touched(log: seq<Change>, p: nat, k: Key)
    requires p <= |log|
  {
    exists i :: 0 <= i < p && log[i].key == k
  }

  /** The fact has unique keys and holds only keys of the source's history, now and when the
      build under way is done. */
  ghost predicate Grounded(s: State, p: nat, e: nat) {
    && Cdc.Inv(Observation, s.cdc, p, e)
    && UniqueKeys(Rows(s.fact)) && UniqueKeys(Rows(After(s)))
    && Known(s.cdc.log, p, Rows(s.fact)) && Known(s.cdc.log, p, Rows(After(s)))
  }

  /** What copies of a table represent is a function of key and version. */
  lemma RepresentsFunctional(t: Table, rows: multiset<Row>, changes: set<Change>)
    requires Represents(t, rows, changes) && Distinguished(changes)
    ensures Functional(rows)
  {
    forall r, q | r in rows && q in rows && r.key == q.key && r.version == q.version
      ensures r.isDeleted == q.isDeleted && r.image == q.image
    {
      assert Stems(t, r, changes) && Stems(t, q, changes);
      var c :| c in changes && Carries(t, r, c);
      var d :| d in changes && Carries(t, q, d);
    }
  }

  lemma LandedFunctional(c: Cdc.State, p: nat, e: nat)
    requires Cdc.Inv(Observation, c, p, e)
    ensures Functional(c.typed)
  {
    Cdc.OrderedDistinguishes(c.log, p);
    RepresentsFunctional(Observation, c.typed, Cdc.ChangesTo(c.log, p));
  }

  lemma KnownGrows(log: seq<Change>, p: nat, fact: seq<FactRow>, log': seq<Change>, p': nat)
    requires p <= |log| && p <= p' <= |log'| && log <= log' && Known(log, p, fact)
    ensures Known(log', p', fact)
  {
    forall x | x in fact ensures Touched(log', p', x.key) {
      assert Touched(log, p, x.key);
      var i :| 0 <= i < p && log[i].key == x.key;
      assert log'[i] == log[i];
    }
  }

  lemma CaptureGrounded(lag: nat, s: State, s': State, p: nat, e: nat) returns (p': nat, e': nat)
    requires Grounded(s, p, e) && Captures(lag, s, s')
    ensures p' >= p && Grounded(s', p', e')
  {
    p', e' := Cdc.NextPosition(Observation, lag, s.cdc, s'.cdc, p, e);
    KnownGrows(s.cdc.log, p, Rows(s.fact), s'.cdc.log, p');
    KnownGrows(s.cdc.log, p, Rows(After(s)), s'.cdc.log, p');
  }

  lemma BuildKnows(c: Cdc.State, fact: Option<seq<FactRow>>, p: nat, e: nat, staging: seq<Row>, dims: Dimensions)
    requires Cdc.Inv(Observation, c, p, e) && Known(c.log, p, Rows(fact)) && IsStaging(c.typed, staging)
    ensures Known(c.log, p, Built(fact, staging, dims))
  {
    SelectIs(staging, fact, dims);
    forall x | x in Built(fact, staging, dims) ensures Complete(x.key) && Touched(c.log, p, x.key) {
      BuiltIs(fact, staging, dims, x);
      if x in Select(staging, fact, dims) {
        var r :| r in staging && InWindow(r, fact) && Joins(r.key, dims) && x == Enrich(r, dims);
        LandedIsTouched(c, p, e, r);
      }
    }
  }

  lemma LandedIsTouched(c: Cdc.State, p: nat, e: nat, r: Row)
    requires Cdc.Inv(Observation, c, p, e) && r in c.typed
    ensures Complete(r.key) && Touched(c.log, p, r.key)
  {
    assert Stems(Observation, r, Cdc.ChangesTo(c.log, p));
    var d :| d in Cdc.ChangesTo(c.log, p) && Carries(Observation, r, d);
  }

  /** What a build under way will leave does not depend on how far it has come. */
  lemma BeginsAfter(s: State, s': State, staging: seq<Row>)
    requires s.build.Idle? && s'.build.Selected? && BeginsWith(s, s', staging)
    ensures After(s') == Some(Built(s.fact, staging, s'.build.dims))
  {
  }

  lemma BuildStepGrounded(s: State, s': State, p: nat, e: nat)
    requires Grounded(s, p, e) && (Begins(s, s') || Deletes(s, s') || Finishes(s, s') || Dies(s, s'))
    ensures Grounded(s', p, e)
  {
    if Begins(s, s') {
      var staging :| BeginsWith(s, s', staging);
      BeginsAfter(s, s', staging);
      BuildKeepsGrain(s.fact, staging, s'.build.dims);
      BuildKnows(s.cdc, s.fact, p, e, staging, s'.build.dims);
    } else if Deletes(s, s') {
      WithoutIs(Rows(s.fact), KeysOf(s.build.picked));
    }
  }

  lemma NextGrounded(lag: nat, s: State, s': State, p: nat, e: nat) returns (p': nat, e': nat)
    requires Grounded(s, p, e) && Follows(lag, s, s')
    ensures p' >= p && Grounded(s', p', e')
  {
    p', e' := p, e;
    if Captures(lag, s, s') {
      p', e' := CaptureGrounded(lag, s, s', p, e);
    } else {
      BuildStepGrounded(s, s', p, e);
    }
  }

  lemma InitialGrounded()
    ensures Grounded(INITIAL, 0, 0)
  {
    Cdc.InitialInv(Observation);
  }

  /** In every run whatsoever, late rows, late dimensions and killed builds included. */
  lemma {:induction false} RunGrounded(lag: nat, run: seq<State>, i: nat) returns (p: nat, e: nat)
    requires IsRun(lag, run) && i < |run|
    ensures Grounded(run[i], p, e)
  {
    if i == 0 {
      p, e := 0, 0;
      InitialGrounded();
    } else {
      p, e := RunGrounded(lag, run, i - 1);
      assert FollowsAt(lag, run, i - 1);
      p, e := NextGrounded(lag, run[i - 1], run[i], p, e);
    }
  }

  // ---- What holds in timely runs ---------------------------------------------------------

  ghost predicate Inv(s: State, p: nat, e: nat) {
    && Grounded(s, p, e)
    && Maintained(s.cdc.typed, After(s), s.cdc.now)
    && (s.build.Selected? ==> Maintained(s.cdc.typed, s.fact, s.cdc.now))
  }

  /** A build misses a dimension only for rows that are at most 48 hours old. A build is killed
      after its DELETE only if the rows left satisfy what the next build needs. */
  ghost predicate TimelyStep(s: State, s': State) {
    && (Begins(s, s') ==> Timely(s.cdc.typed, s'.build.dims, s.cdc.now))
    && (Dies(s, s') && s.build.Deleted? && !Finishes(s, s') ==> Settled(s.cdc.typed, Rows(s.fact)))
  }

  ghost predicate TimelyAt(run: seq<State>, i: nat)
    requires i < |run| - 1
  {
    TimelyStep(run[i], run[i + 1])
  }

  ghost predicate TimelyRun(run: seq<State>) {
    forall i :: 0 <= i < |run| - 1 ==> TimelyAt(run, i)
  }

  /** The condition on a kill, in terms of the rows: no live row of a deleted key is more than
      48 hours older than a row the DELETE left. */
  lemma KillIsTimely(s: State, p: nat, e: nat)
    requires Inv(s, p, e) && s.build.Deleted?
    ensures Settled(s.cdc.typed, Rows(s.fact)) <==> DeletedAreRecent(s.cdc.typed, Rows(s.fact), s.build.picked)
  {
    UniqueParts(Rows(s.fact), s.build.picked);
    HalfSettles(s.cdc.typed, Rows(s.fact), s.build.picked);
  }

  lemma UniqueParts(a: seq<FactRow>, b: seq<FactRow>)
    requires UniqueKeys(a + b)
    ensures KeysOf(a) !! KeysOf(b)
  {
    forall k | k in KeysOf(a) ensures k !in KeysOf(b) {
      var i :| 0 <= i < |a| && a[i].key == k;
      forall j | 0 <= j < |b| ensures b[j].key != k {
        assert (a + b)[i] == a[i] && (a + b)[|a| + j] == b[j];
      }
    }
  }

  lemma TypedRowsStamped(s: Cdc.State, lo: nat, hi: nat, at: nat)
    requires Cdc.WellFormed(s) && lo <= hi <= |s.topic|
    ensures forall r :: r in Cdc.TypedRows(Observation, s, lo, hi, at) ==> r.synced == at
  {
    forall r | r in Cdc.TypedRows(Observation, s, lo, hi, at) ensures r.synced == at {
      var i := Cdc.SumFrom(Cdc.Deliveries(Observation, s, at), lo, hi, r);
    }
  }

  /** Every step of the change-data capture leaves a fact maintainable. */
  lemma CdcStepMaintains(lag: nat, c: Cdc.State, step: Cdc.Step, fact: Option<seq<FactRow>>, p: nat, e: nat, p': nat, e': nat)
    requires lag <= LOOKBACK && Cdc.Inv(Observation, c, p, e) && Cdc.Enabled(Observation, lag, c, step)
    requires Cdc.Inv(Observation, Cdc.Do(Observation, lag, c, step), p', e')
    requires Maintained(c.typed, fact, c.now)
    ensures var c' := Cdc.Do(Observation, lag, c, step); Maintained(c'.typed, fact, c'.now)
  {
    var c' := Cdc.Do(Observation, lag, c, step);
    match step
    case FlushTyped(at) =>
      TypedRowsStamped(c, c.committed, c.block.hi, at);
      LandedFunctional(c', p', e');
      ArrivalKeeps(c.typed, Cdc.TypedRows(Observation, c, c.committed, c.block.hi, at), fact, c.now);
    case MergeTyped(after) => MergeKeeps(c.typed, after, fact, c.now);
    case _ =>
  }

  lemma CaptureKeeps(lag: nat, s: State, s': State, p: nat, e: nat) returns (p': nat, e': nat)
    requires lag <= LOOKBACK && Inv(s, p, e) && Captures(lag, s, s')
    ensures p' >= p && Inv(s', p', e')
  {
    p', e' := CaptureGrounded(lag, s, s', p, e);
    var step :| Cdc.Enabled(Observation, lag, s.cdc, step) && s'.cdc == Cdc.Do(Observation, lag, s.cdc, step);
    CdcStepMaintains(lag, s.cdc, step, After(s), p, e, p', e');
    if s.build.Selected? {
      CdcStepMaintains(lag, s.cdc, step, s.fact, p, e, p', e');
    }
  }

  lemma BeginKeeps(s: State, s': State, p: nat, e: nat)
    requires Inv(s, p, e) && Begins(s, s') && Timely(s.cdc.typed, s'.build.dims, s.cdc.now)
    ensures Inv(s', p, e)
  {
    BuildStepGrounded(s, s', p, e);
    var staging :| BeginsWith(s, s', staging);
    BeginsAfter(s, s', staging);
    BuildKeeps(s.cdc.typed, s.fact, s.cdc.now, staging, s'.build.dims);
  }

  lemma BuildStepKeeps(s: State, s': State, p: nat, e: nat)
    requires Inv(s, p, e) && TimelyStep(s, s') && (Deletes(s, s') || Finishes(s, s') || Dies(s, s'))
    ensures Inv(s', p, e)
  {
    BuildStepGrounded(s, s', p, e);
    if Dies(s, s') && s.build.Deleted? && !Finishes(s, s') {
      forall x | x in Rows(s.fact) ensures x.synced <= s.cdc.now {
        assert x in Rows(After(s));
      }
    }
  }

  lemma NextPosition(lag: nat, s: State, s': State, p: nat, e: nat) returns (p': nat, e': nat)
    requires lag <= LOOKBACK && Inv(s, p, e) && Follows(lag, s, s') && TimelyStep(s, s')
    ensures p' >= p && Inv(s', p', e')
  {
    p', e' := p, e;
    if Captures(lag, s, s') {
      p', e' := CaptureKeeps(lag, s, s', p, e);
    } else if Begins(s, s') {
      BeginKeeps(s, s', p, e);
    } else {
      BuildStepKeeps(s, s', p, e);
    }
  }

  lemma InitialInv()
    ensures Inv(INITIAL, 0, 0)
  {
    InitialGrounded();
  }

  /** Positions that witness the invariant in the first n states of a run. */
  ghost predicate Tracks(run: seq<State>, n: nat, ps: seq<nat>, es: seq<nat>) {
    |ps| == |es| == n <= |run| && forall i :: 0 <= i < n ==> Inv(run[i], ps[i], es[i])
  }

  lemma TracksMore(run: seq<State>, n: nat, ps: seq<nat>, es: seq<nat>, p: nat, e: nat)
    requires n < |run| && Tracks(run, n, ps, es) && Inv(run[n], p, e)
    ensures Tracks(run, n + 1, ps + [p], es + [e])
  {
  }

  lemma TrackedAt(run: seq<State>, n: nat, ps: seq<nat>, es: seq<nat>, i: nat)
    requires Tracks(run, n, ps, es) && i < n
    ensures Inv(run[i], ps[i], es[i])
  {
  }

  lemma NextInRun(lag: nat, run: seq<State>, i: nat, p: nat, e: nat) returns (p': nat, e': nat)
    requires lag <= LOOKBACK && IsRun(lag, run) && TimelyRun(run) && i < |run| - 1 && Inv(run[i], p, e)
    ensures p' >= p && Inv(run[i + 1], p', e')
  {
    assert FollowsAt(lag, run, i) && TimelyAt(run, i);
    p', e' := NextPosition(lag, run[i], run[i + 1], p, e);
  }

  lemma RunStep(lag: nat, run: seq<State>, i: nat, ps: seq<nat>, es: seq<nat>) returns (ps': seq<nat>, es': seq<nat>)
    requires lag <= LOOKBACK && IsRun(lag, run) && TimelyRun(run) && i < |run| - 1 && Tracks(run, i + 1, ps, es)
    ensures Tracks(run, i + 2, ps', es') && Cdc.Extended(ps, ps')
  {
    TrackedAt(run, i + 1, ps, es, i);
    var p, e := NextInRun(lag, run, i, ps[i], es[i]);
    TracksMore(run, i + 1, ps, es, p, e);
    Cdc.ExtendedBy(ps, p);
    ps', es' := ps + [p], es + [e];
  }

  lemma TracksFirst(lag: nat, run: seq<State>)
    requires IsRun(lag, run)
    ensures Tracks(run, 1, [0], [0])
  {
    InitialInv();
  }

  lemma {:induction false} RunKeeps(lag: nat, run: seq<State>, i: nat) returns (ps: seq<nat>, es: seq<nat>)
    requires lag <= LOOKBACK && IsRun(lag, run) && TimelyRun(run) && i < |run|
    ensures Tracks(run, i + 1, ps, es) && Cdc.Monotone(ps)
  {
    if i == 0 {
      ps, es := [0], [0];
      TracksFirst(lag, run);
    } else {
      ps, es := RunKeeps(lag, run, i - 1);
      ps, es := RunStep(lag, run, i - 1, ps, es);
    }
  }

  lemma InvAt(lag: nat, run: seq<State>, i: nat) returns (p: nat, e: nat)
    requires lag <= LOOKBACK && IsRun(lag, run) && TimelyRun(run) && i < |run|
    ensures Inv(run[i], p, e)
  {
    var ps, es := RunKeeps(lag, run, i);
    TrackedAt(run, i + 1, ps, es, i);
    p, e := ps[i], es[i];
  }

  // ---- What a build means -------------------------------------------------------------------

  /** The staging view has the keys of the source as of the position. */
  lemma StagedAreSource(c: Cdc.State, p: nat, e: nat, staging: seq<Row>)
    requires Cdc.Inv(Observation, c, p, e) && IsStaging(c.typed, staging)
    ensures StagedKeys(staging) == Cdc.Visible(SourceAt(c.log, p)).Keys
  {
    var f := FinalExists(c.typed);
    Cdc.ReadIsSource(Observation, c, p, e, f);
    LandedFunctional(c, p, e);
    StagedAreRead(c.typed, staging, f);
  }

  lemma StagedAreRead(rows: multiset<Row>, staging: seq<Row>, f: map<Key, Row>)
    requires Functional(rows) && IsStaging(rows, staging) && IsFinal(rows, f)
    ensures StagedKeys(staging) == CurrentState(f).Keys
  {
    forall k | k in StagedKeys(staging) ensures k in CurrentState(f) {
      var i :| 0 <= i < |staging| && staging[i].key == k;
      var r := staging[i];
      assert r in staging && Newest(rows, r);
      assert Newest(rows, f[k]);
    }
    forall k | k in CurrentState(f) ensures k in StagedKeys(staging) {
      assert Live(rows, f[k]) && IsStaged(staging, f[k].key);
    }
  }

  /** What a build that begins between s and s' makes of the fact: for a source key that joins,
      the source's columns as of position p; for any other key, what the fact showed before. */
  ghost predicate BuildMeans(s: State, s': State, p: nat) {
    && s'.build.Selected? && Cdc.ReadsAsOf(s.cdc, p)
    && var source, before, after := Cdc.Visible(SourceAt(s.cdc.log, p)), Rows(s.fact), Rows(After(s'));
    && UniqueKeys(after)
    && (forall k, cols :: k in source && Joins(k, s'.build.dims) ==> (Shows(after, k, cols) <==> cols == source[k].cols))
    && (forall k :: k !in source || !Joins(k, s'.build.dims) ==> SameOn(after, before, k))
  }

  lemma BuildShowsSource(c: Cdc.State, fact: Option<seq<FactRow>>, p: nat, e: nat, staging: seq<Row>, dims: Dimensions, k: Key)
    requires Cdc.Inv(Observation, c, p, e) && Settled(c.typed, Rows(fact)) && UniqueKeys(Rows(fact))
    requires IsStaging(c.typed, staging)
    ensures var source := Cdc.Visible(SourceAt(c.log, p));
            if k in source && Joins(k, dims)
            then forall cols :: Shows(Built(fact, staging, dims), k, cols) <==> cols == source[k].cols
            else SameOn(Built(fact, staging, dims), Rows(fact), k)
  {
    var source := Cdc.Visible(SourceAt(c.log, p));
    StagedAreSource(c, p, e, staging);
    if k in source && Joins(k, dims) {
      var f := FinalExists(c.typed);
      Cdc.ReadIsSource(Observation, c, p, e, f);
      LandedFunctional(c, p, e);
      assert k in CurrentState(f) && Live(c.typed, f[k]);
      forall cols ensures Shows(Built(fact, staging, dims), k, cols) <==> cols == source[k].cols {
        BuildShowsStaged(c.typed, fact, staging, dims, f[k], cols);
      }
    } else {
      UnstagedStays(fact, staging, dims, k);
    }
  }

  lemma BuildMeansThat(s: State, s': State, p: nat, e: nat)
    requires Inv(s, p, e) && Begins(s, s')
    ensures BuildMeans(s, s', p)
  {
    var staging :| BeginsWith(s, s', staging);
    var dims, source := s'.build.dims, Cdc.Visible(SourceAt(s.cdc.log, p));
    BeginsAfter(s, s', staging);
    BuildKeepsGrain(s.fact, staging, dims);
    Cdc.InvReads(Observation, s.cdc, p, e);
    forall k, cols | k in source && Joins(k, dims)
      ensures Shows(Built(s.fact, staging, dims), k, cols) <==> cols == source[k].cols
    {
      BuildShowsSource(s.cdc, s.fact, p, e, staging, dims, k);
    }
    forall k | k !in source || !Joins(k, dims) ensures SameOn(Built(s.fact, staging, dims), Rows(s.fact), k) {
      BuildShowsSource(s.cdc, s.fact, p, e, staging, dims, k);
    }
  }

  /** The fact's keys after such a build. */
  lemma BuildMeansKeys(s: State, s': State, p: nat)
    requires BuildMeans(s, s', p)
    ensures var source := Cdc.Visible(SourceAt(s.cdc.log, p));
            KeysOf(Rows(After(s'))) == KeysOf(Rows(s.fact)) + set k | k in source && Joins(k, s'.build.dims)
  {
    var source, before, after := Cdc.Visible(SourceAt(s.cdc.log, p)), Rows(s.fact), Rows(After(s'));
    forall k ensures k in KeysOf(after) <==> k in KeysOf(before) || (k in source && Joins(k, s'.build.dims)) {
      if k in source && Joins(k, s'.build.dims) {
        assert Shows(after, k, source[k].cols);
        HasKey(after, k);
      } else {
        SameKey(after, before, k);
      }
    }
  }

  /** So it leaves a fact with source keys only exactly when every key it found in the fact is
      still in the source: deletes of keys it had not loaded are followed, others are not. */
  lemma BuildIsExact(s: State, s': State, p: nat)
    requires BuildMeans(s, s', p)
    ensures var keys := Cdc.Visible(SourceAt(s.cdc.log, p)).Keys;
            KeysOf(Rows(After(s'))) <= keys <==> KeysOf(Rows(s.fact)) <= keys
  {
    BuildMeansKeys(s, s', p);
  }

  lemma WasUnderWay(lag: nat, s: State, s': State)
    requires Follows(lag, s, s') && !s'.build.Idle?
    ensures Begins(s, s') || (!s.build.Idle? && After(s') == After(s))
  {
  }

  /** A build under way has begun, and what it will leave is settled since. */
  lemma {:induction false} BuildStart(lag: nat, run: seq<State>, i: nat) returns (b: nat)
    requires IsRun(lag, run) && i < |run| && !run[i].build.Idle?
    ensures b < i && Begins(run[b], run[b + 1]) && After(run[b + 1]) == After(run[i])
  {
    assert FollowsAt(lag, run, i - 1);
    WasUnderWay(lag, run[i - 1], run[i]);
    if Begins(run[i - 1], run[i]) {
      b := i - 1;
    } else {
      b := BuildStart(lag, run, i - 1);
    }
  }

  ghost predicate FinishesAt(run: seq<State>, i: nat)
    requires i < |run| - 1
  {
    Finishes(run[i], run[i + 1])
  }

  /** The build that finishes between i and i + 1 began at b and left what it began to build. */
  ghost predicate Completed(run: seq<State>, ps: seq<nat>, b: nat, i: nat)
    requires b < i < |run| - 1 && |ps| == |run|
  {
    Begins(run[b], run[b + 1]) && BuildMeans(run[b], run[b + 1], ps[b]) && run[i + 1].fact == After(run[b + 1])
  }

  /** End to end. In every interleaving of source writes, sends, restarts, redeliveries,
      crashes, merges, builds, and builds that die and are retried, there are log positions
      that never move back such that every finished build agrees with the source as of the
      position it read at, which is at least what the consumer had committed then. */
  lemma EveryBuildAgrees(lag: nat, run: seq<State>) returns (ps: seq<nat>)
    requires lag <= 172_800_000 && IsRun(lag, run) && TimelyRun(run)
    ensures |ps| == |run| && Cdc.Monotone(ps)
    ensures forall i :: 0 <= i < |run| - 1 && FinishesAt(run, i) ==> exists b :: 0 <= b < i && Completed(run, ps, b, i)
  {
    var es;
    ps, es := RunKeeps(lag, run, |run| - 1);
    forall i | 0 <= i < |run| - 1 && FinishesAt(run, i) ensures exists b :: 0 <= b < i && Completed(run, ps, b, i) {
      var b := BuildStart(lag, run, i);
      BuildMeansThat(run[b], run[b + 1], ps[b], es[b]);
      assert Completed(run, ps, b, i);
    }
  }

  // ---- Histories without deletes ------------------------------------------------------------

  lemma {:induction false} TouchedIsThere(log: seq<Change>, p: nat, k: Key)
    requires p <= |log| && Touched(log, p, k)
    requires forall i :: 0 <= i < p ==> !log[i].kind.Delete?
    ensures k in SourceAt(log, p)
  {
    if log[p - 1].key != k {
      var i :| 0 <= i < p && log[i].key == k;
      TouchedIsThere(log, p - 1, k);
    }
  }

  /** If the source deleted nothing, the fact holds source keys only, in every state of every
      run. */
  lemma NoDeletesNoStrays(s: State, p: nat, e: nat)
    requires Grounded(s, p, e) && forall i :: 0 <= i < p ==> !s.cdc.log[i].kind.Delete?
    ensures KeysOf(Rows(s.fact)) <= Cdc.Visible(SourceAt(s.cdc.log, p)).Keys
  {
    forall k | k in KeysOf(Rows(s.fact)) ensures k in Cdc.Visible(SourceAt(s.cdc.log, p)) {
      var i :| 0 <= i < |Rows(s.fact)| && Rows(s.fact)[i].key == k;
      assert Rows(s.fact)[i] in Rows(s.fact);
      TouchedIsThere(s.cdc.log, p, k);
    }
  }
}
