/** The warehouse gates: CDC parity and marts reconciliation, both of which compare counts. */
module Reconcile {
  import opened Model
  import opened Landing
  import opened Warehouse
  import Cdc
  import Pipeline
  import Schedule

  // ---- Marts reconciliation -----------------------------------------------------------

  lemma {:induction false} UniqueCount(fact: seq<FactRow>)
    requires UniqueKeys(fact)
    ensures |KeysOf(fact)| == |fact|
  {
    if fact != [] {
      var n := |fact| - 1;
      UniqueCount(fact[..n]);
      forall k ensures k in KeysOf(fact) <==> k in KeysOf(fact[..n]) + {fact[n].key} {
        if k in KeysOf(fact[..n]) {
          var i :| 0 <= i < n && fact[..n][i].key == k;
          assert fact[i].key == k;
        }
        if k in KeysOf(fact) {
          var i :| 0 <= i < |fact| && fact[i].key == k;
          assert i < n ==> fact[..n][i].key == k;
        }
      }
      assert KeysOf(fact) == KeysOf(fact[..n]) + {fact[n].key};
    }
  }

  lemma {:induction false} StagedCount(staging: seq<Row>)
    requires DistinctKeys(staging)
    ensures |StagedKeys(staging)| == |staging|
  {
    if staging != [] {
      var n := |staging| - 1;
      StagedCount(staging[..n]);
      forall k ensures k in StagedKeys(staging) <==> k in StagedKeys(staging[..n]) + {staging[n].key} {
        if k in StagedKeys(staging[..n]) {
          var i :| 0 <= i < n && staging[..n][i].key == k;
          assert staging[i].key == k;
        }
        if k in StagedKeys(staging) {
          var i :| 0 <= i < |staging| && staging[i].key == k;
          assert i < n ==> staging[..n][i].key == k;
        }
      }
      assert StagedKeys(staging) == StagedKeys(staging[..n]) + {staging[n].key};
    }
  }

  lemma SubsetOfSameSize(a: set<Key>, b: set<Key>)
    requires a <= b && |a| == |b|
    ensures a == b
  {
    assert |b - a| == 0;
  }

  /** gate_marts_reconcile on the grain of the fact. */
  predicate FactReconciles(staging: nat, fact: nat) {
    fact == staging
  }

  /** The keys of the fact that a build over this view does not refresh, and the staged keys that
      its joins drop. */
  ghost function Strays(fact: Option<seq<FactRow>>, staging: seq<Row>, dims: Dimensions): set<Key> {
    KeysOf(Rows(fact)) - JoinedKeys(staging, dims)
  }

  ghost function Dropped(staging: seq<Row>, dims: Dimensions): set<Key> {
    StagedKeys(staging) - JoinedKeys(staging, dims)
  }

  /** Against the staging view the build read, the count gate passes exactly when as many fact keys
      were left unrefreshed as staged keys were dropped. The key sets are equal exactly when these
      are the same keys, and the fact shows what a full rebuild shows exactly when none was left
      unrefreshed. */
  lemma CountGateIsExact(rows: multiset<Row>, fact: Option<seq<FactRow>>, staging: seq<Row>, dims: Dimensions)
    requires Settled(rows, Rows(fact)) && UniqueKeys(Rows(fact)) && Functional(rows) && IsStaging(rows, staging)
    ensures var after, strays, dropped := Built(fact, staging, dims), Strays(fact, staging, dims), Dropped(staging, dims);
            && (FactReconciles(|staging|, |after|) <==> |strays| == |dropped|)
            && (KeysOf(after) == StagedKeys(staging) <==> strays == dropped)
            && ((forall k :: SameOn(after, Built(None, staging, dims), k)) <==> strays == {})
  {
    BuildKeepsGrain(fact, staging, dims);
    KeysAfterBuild(rows, fact, staging, dims);
    BuildIsRebuild(rows, fact, staging, dims);
    UniqueCount(Built(fact, staging, dims));
    StagedCount(staging);
    CompareCounts(KeysOf(Rows(fact)), StagedKeys(staging), JoinedKeys(staging, dims));
  }

  lemma CompareCounts(held: set<Key>, staged: set<Key>, joined: set<Key>)
    requires joined <= staged
    ensures |held + joined| == |staged| <==> |held - joined| == |staged - joined|
    ensures held + joined == staged <==> held - joined == staged - joined
    ensures held <= joined <==> held - joined == {}
  {
    assert held + joined == (held - joined) + joined;
    assert staged == (staged - joined) + joined;
    if held - joined == staged - joined {
      assert held + joined == staged;
    }
    if held + joined == staged {
      assert held - joined == staged - joined;
    }
    if held <= joined {
      assert held - joined == {};
    }
    forall k | held - joined == {} && k in held ensures k in joined {
      assert k !in held - joined;
    }
  }

  /** So a build that drops no staged row passes exactly when it equals the rebuild. */
  lemma CountGateWhenCovered(rows: multiset<Row>, fact: Option<seq<FactRow>>, staging: seq<Row>, dims: Dimensions)
    requires Settled(rows, Rows(fact)) && UniqueKeys(Rows(fact)) && Functional(rows)
    requires IsStaging(rows, staging) && Covered(staging, dims)
    ensures var after := Built(fact, staging, dims);
            && (FactReconciles(|staging|, |after|) <==> KeysOf(after) == StagedKeys(staging))
            && (FactReconciles(|staging|, |after|) <==> forall k :: SameOn(after, Built(None, staging, dims), k))
  {
    CountGateIsExact(rows, fact, staging, dims);
    assert Dropped(staging, dims) == {};
    assert |Strays(fact, staging, dims)| == 0 <==> Strays(fact, staging, dims) == {};
  }

  // ---- CDC parity ---------------------------------------------------------------------

  /** gate_cdc_parity: polls until the landed count reaches the expected one or the polls
      before the deadline are used up. */
  method GateCdcParity(expected: nat, polls: seq<nat>) returns (reached: Option<nat>)
    ensures reached.None? <==> expected == 0 || forall i :: 0 <= i < |polls| ==> polls[i] < expected
    ensures reached.Some? ==> exists i :: 0 <= i < |polls| && reached.value == polls[i] >= expected
                                       && forall j :: 0 <= j < i ==> polls[j] < expected
  {
    if expected == 0 {
      return None;
    }
    var landed := 0;
    for i := 0 to |polls|
      invariant forall j :: 0 <= j < i ==> polls[j] < expected
    {
      landed := polls[i];
      if landed >= expected {
        return Some(landed);
      }
    }
    return None;
  }

  // ---- Histories that counts can follow -----------------------------------------------------

  /** All keys of the source table, or those that the typed view admits. */
  datatype View = Stored | Landed

  function KeysAt(v: View, log: seq<Change>, p: nat): set<Key>
    requires p <= |log|
  {
    if v.Stored? then LiveKeys(log, p) else Cdc.VisibleKeys(log, p)
  }

  function LiveKeys(log: seq<Change>, p: nat): set<Key>
    requires p <= |log|
  {
    SourceAt(log, p).Keys
  }

  /** Positions with equally many landed keys have the same landed keys. */
  ghost predicate CountsIdentify(log: seq<Change>) {
    forall p, q :: 0 <= p <= |log| && 0 <= q <= |log| && |Cdc.VisibleKeys(log, p)| == |Cdc.VisibleKeys(log, q)| ==>
      Cdc.VisibleKeys(log, p) == Cdc.VisibleKeys(log, q)
  }

  /** A position with as many landed keys as another has keys at all has just these. */
  ghost predicate SamplesIdentify(log: seq<Change>) {
    forall p, q :: 0 <= p <= |log| && 0 <= q <= |log| && |Cdc.VisibleKeys(log, p)| == |LiveKeys(log, q)| ==>
      Cdc.VisibleKeys(log, p) == LiveKeys(log, q)
  }

  /** A key alive before is alive still, unless no key is. */
  ghost predicate NoneOutlived(log: seq<Change>) {
    forall p, q :: 0 <= p <= q <= |log| ==> Cdc.VisibleKeys(log, p) <= Cdc.VisibleKeys(log, q) || Cdc.VisibleKeys(log, q) == {}
  }

  /** Two key sets that differ by at most one key. */
  predicate OneApart(a: set<Key>, b: set<Key>) {
    && |a| >= |b| - 1 && |b| >= |a| - 1
    && (|b| < |a| ==> b <= a) && (|a| < |b| ==> a <= b)
  }

  lemma ChangeOne(a: set<Key>, b: set<Key>, k: Key)
    requires b == a + {k} || b == a - {k}
    ensures OneApart(a, b) && OneApart(b, a)
  {
    if b == a + {k} {
      assert k in a ==> b == a;
    } else {
      assert k !in a ==> b == a;
    }
  }

  /** One change adds or removes at most one key. */
  lemma ChangeMovesOne(v: View, log: seq<Change>, i: nat)
    requires i < |log|
    ensures var before, after, k := KeysAt(v, log, i), KeysAt(v, log, i + 1), log[i].key;
            after == before + {k} || after == before - {k}
  {
  }

  predicate Adjacent(p: nat, q: nat) {
    p == q + 1 || q == p + 1
  }

  lemma AdjacentCounts(v: View, log: seq<Change>, p: nat, q: nat)
    requires p <= |log| && q <= |log| && Adjacent(p, q)
    ensures OneApart(KeysAt(v, log, p), KeysAt(v, log, q))
  {
    var i := if p < q then p else q;
    ChangeMovesOne(v, log, i);
    var before, after := KeysAt(v, log, i), KeysAt(v, log, i + 1);
    ChangeOne(before, after, log[i].key);
  }

  /** On the way from a position with at least n keys to one with fewer, there is a step from n
      keys to a subset of them. */
  lemma {:induction false} StepsDown(v: View, log: seq<Change>, p: nat, q: nat, n: nat) returns (a: nat, b: nat)
    requires p <= |log| && q <= |log| && |KeysAt(v, log, p)| >= n > |KeysAt(v, log, q)|
    ensures a <= |log| && b <= |log| && |KeysAt(v, log, a)| == n && |KeysAt(v, log, b)| == n - 1
    ensures KeysAt(v, log, b) <= KeysAt(v, log, a)
    decreases if p < q then q - p else p - q
  {
    var next := if p < q then p + 1 else p - 1;
    if |KeysAt(v, log, next)| >= n {
      a, b := StepsDown(v, log, next, q, n);
    } else {
      LastStep(v, log, p, next, n);
      a, b := p, next;
    }
  }

  lemma LastStep(v: View, log: seq<Change>, p: nat, next: nat, n: nat)
    requires p <= |log| && next <= |log| && Adjacent(p, next) && |KeysAt(v, log, p)| >= n > |KeysAt(v, log, next)|
    ensures |KeysAt(v, log, p)| == n && |KeysAt(v, log, next)| == n - 1 && KeysAt(v, log, next) <= KeysAt(v, log, p)
  {
    AdjacentCounts(v, log, p, next);
  }

  /** If counts identify the landed keys, more of them means all of them. */
  lemma {:induction false} MoreIsAll(log: seq<Change>, p: nat, q: nat)
    requires CountsIdentify(log) && p <= |log| && q <= |log| && |Cdc.VisibleKeys(log, p)| >= |Cdc.VisibleKeys(log, q)|
    ensures Cdc.VisibleKeys(log, q) <= Cdc.VisibleKeys(log, p)
    decreases |Cdc.VisibleKeys(log, p)| - |Cdc.VisibleKeys(log, q)|
  {
    if |Cdc.VisibleKeys(log, p)| > |Cdc.VisibleKeys(log, q)| {
      var a, b := StepsDown(Landed, log, p, q, |Cdc.VisibleKeys(log, p)|);
      assert Cdc.VisibleKeys(log, a) == Cdc.VisibleKeys(log, p);
      MoreIsAll(log, b, q);
    }
  }

  lemma FewerLanded(log: seq<Change>, p: nat)
    requires p <= |log|
    ensures Cdc.VisibleKeys(log, p) <= LiveKeys(log, p) && |Cdc.VisibleKeys(log, p)| <= |LiveKeys(log, p)|
  {
    FewerThan(Cdc.VisibleKeys(log, p), LiveKeys(log, p));
  }

  /** If samples identify them, at least as many landed keys as sampled ones means all of those. */
  lemma {:induction false} SampleIsAll(log: seq<Change>, p: nat, q: nat)
    requires SamplesIdentify(log) && p <= |log| && q <= |log| && |Cdc.VisibleKeys(log, p)| >= |LiveKeys(log, q)|
    ensures LiveKeys(log, q) <= Cdc.VisibleKeys(log, p)
    decreases |Cdc.VisibleKeys(log, p)| - |LiveKeys(log, q)|
  {
    var n := |Cdc.VisibleKeys(log, p)|;
    if n > |LiveKeys(log, q)| {
      FewerLanded(log, p);
      FewerLanded(log, q);
      var a, b := StepsDown(Landed, log, p, q, n);
      var c, _ := StepsDown(Stored, log, p, q, n);
      assert Cdc.VisibleKeys(log, a) == LiveKeys(log, c) == Cdc.VisibleKeys(log, p);
      SampleIsAll(log, b, q);
    }
  }

  /** Without deletes in between, keys only grow. */
  lemma {:induction false} KeysGrow(log: seq<Change>, p: nat, q: nat)
    requires p <= q <= |log|
    requires forall i :: p <= i < q ==> !log[i].kind.Delete?
    ensures LiveKeys(log, p) <= LiveKeys(log, q) && Cdc.VisibleKeys(log, p) <= Cdc.VisibleKeys(log, q)
  {
    if p < q {
      KeysGrow(log, p, q - 1);
    }
  }

  /** A history without deletes outlives no key. */
  lemma NoDeletesNoneOutlived(log: seq<Change>)
    requires forall i :: 0 <= i < |log| ==> !log[i].kind.Delete?
    ensures NoneOutlived(log)
  {
    forall p, q | 0 <= p <= q <= |log| ensures Cdc.VisibleKeys(log, p) <= Cdc.VisibleKeys(log, q) {
      KeysGrow(log, p, q);
    }
  }

  /** Where no key is outlived, counts identify the landed keys. */
  lemma NoneOutlivedIdentifies(log: seq<Change>)
    requires NoneOutlived(log)
    ensures CountsIdentify(log)
  {
    forall p, q | 0 <= p <= |log| && 0 <= q <= |log| && |Cdc.VisibleKeys(log, p)| == |Cdc.VisibleKeys(log, q)|
      ensures Cdc.VisibleKeys(log, p) == Cdc.VisibleKeys(log, q)
    {
      var a, b := if p <= q then p else q, if p <= q then q else p;
      assert Cdc.VisibleKeys(log, a) <= Cdc.VisibleKeys(log, b) || Cdc.VisibleKeys(log, b) == {};
      if Cdc.VisibleKeys(log, a) <= Cdc.VisibleKeys(log, b) {
        SubsetOfSameSize(Cdc.VisibleKeys(log, a), Cdc.VisibleKeys(log, b));
      }
    }
  }

  lemma NoDeletesIdentify(log: seq<Change>)
    requires forall i :: 0 <= i < |log| ==> !log[i].kind.Delete?
    ensures CountsIdentify(log)
  {
    NoDeletesNoneOutlived(log);
    NoneOutlivedIdentifies(log);
  }

  ghost predicate AllComplete(log: seq<Change>) {
    forall i :: 0 <= i < |log| ==> Complete(log[i].key)
  }

  lemma {:induction false} KeysComplete(log: seq<Change>, p: nat)
    requires p <= |log| && AllComplete(log)
    ensures Cdc.VisibleKeys(log, p) == LiveKeys(log, p)
  {
    if p > 0 {
      KeysComplete(log, p - 1);
      forall k | k in SourceAt(log, p - 1) ensures Complete(k) {
        assert k in Cdc.VisibleKeys(log, p - 1);
      }
    }
    Cdc.VisibleIsAll(SourceAt(log, p));
  }

  /** Where all keys are complete, the two conditions are one. */
  lemma CompleteIdentify(log: seq<Change>)
    requires AllComplete(log)
    ensures SamplesIdentify(log) <==> CountsIdentify(log)
  {
    forall p | 0 <= p <= |log| ensures Cdc.VisibleKeys(log, p) == LiveKeys(log, p) {
      KeysComplete(log, p);
    }
  }

  /** A change that is no insert adds no key. */
  lemma NoInsertAddsNone(t: Table, log: seq<Change>, i: nat)
    requires i < |log| && LegalAt(t, log, i) && !log[i].kind.Insert?
    ensures LiveKeys(log, i + 1) <= LiveKeys(log, i)
  {
  }

  lemma {:induction false} BetweenInsertsShrinks(t: Table, log: seq<Change>, i: nat, j: nat)
    requires ValidLog(t, log) && i <= j <= |log| && forall n :: i <= n < j ==> !log[n].kind.Insert?
    ensures LiveKeys(log, j) <= LiveKeys(log, i)
  {
    if i < j {
      BetweenInsertsShrinks(t, log, i, j - 1);
      NoInsertAddsNone(t, log, j - 1);
    }
  }

  // ---- Parity, over runs ---------------------------------------------------------------------

  /** A run only appends to the source log. */
  lemma {:induction false} LogGrows(t: Table, lag: nat, run: seq<Cdc.State>, i: nat, j: nat)
    requires Cdc.IsRun(t, lag, run) && i <= j < |run|
    ensures run[i].log <= run[j].log
  {
    if i < j {
      LogGrows(t, lag, run, i, j - 1);
      assert Cdc.FollowsAt(t, lag, run, j - 1);
    }
  }

  /** At least as many visible keys at p as there are keys at q: then none of the visible keys at
      q is missing at p, if no delete lies between. */
  lemma ParityBetween(log: seq<Change>, p: nat, q: nat)
    requires p <= |log| && q <= |log| && |Cdc.Visible(SourceAt(log, p))| >= |LiveKeys(log, q)|
    requires forall i :: (p <= i < q || q <= i < p) ==> !log[i].kind.Delete?
    ensures Cdc.Visible(SourceAt(log, q)).Keys <= Cdc.Visible(SourceAt(log, p)).Keys
  {
    if p <= q {
      KeysGrow(log, p, q);
      var read := Cdc.Visible(SourceAt(log, p)).Keys;
      assert |read| == |Cdc.Visible(SourceAt(log, p))|;
      NoSmallerSubset(read, LiveKeys(log, q));
    } else {
      KeysGrow(log, q, p);
    }
  }

  lemma NoSmallerSubset(a: set<Key>, b: set<Key>)
    requires a <= b && |a| >= |b|
    ensures a == b
  {
    assert b == a + (b - a);
  }

  /** Parity gate soundness. The expected count is taken in one state of a run, the landed count
      from a read in a later one. The read is the source as of a log position not before what
      the consumer had committed, and if no delete lies between that position and the sample, a
      landed count that reaches the expected one means every key with a complete value that was
      in PostgreSQL at the sample is in the landing table. */
  lemma ParityGateIsSound(t: Table, lag: nat, run: seq<Cdc.State>, i: nat, j: nat, f: map<Key, Row>) returns (p: nat)
    requires Cdc.IsRun(t, lag, run) && i <= j < |run| && IsFinal(run[j].typed, f)
    ensures Cdc.WellFormed(run[j]) && Cdc.Reach(run[j].topic, run[j].committed) <= p <= |run[j].log|
    ensures CurrentState(f) == Cdc.Visible(SourceAt(run[j].log, p))
    ensures var q := |run[i].log|;
            && q <= |run[j].log|
            && ((forall n :: (p <= n < q || q <= n < p) ==> !run[j].log[n].kind.Delete?)
                && |CurrentState(f)| >= |SourceAt(run[i].log, q)| ==>
                  Cdc.Visible(SourceAt(run[i].log, q)).Keys <= CurrentState(f).Keys)
  {
    var ps := Cdc.PrefixConsistency(t, lag, run);
    p := ps[j];
    assert Cdc.ReadsAsOf(run[j], p);
    var log, q := run[j].log, |run[i].log|;
    LogGrows(t, lag, run, i, j);
    SourceAtPrefix(run[i].log, log, q);
    if (forall n :: (p <= n < q || q <= n < p) ==> !log[n].kind.Delete?) && |CurrentState(f)| >= |LiveKeys(log, q)| {
      ParityBetween(log, p, q);
    }
  }

  /** Whenever the gate passes, in any run over the log, every sampled key has landed. */
  ghost predicate ParityIsSound(t: Table, lag: nat, log: seq<Change>) {
    forall run: seq<Cdc.State>, i: nat, f :: Cdc.IsRun(t, lag, run) && i < |run| && run[|run| - 1].log <= log ==>
      SampleLands(run, i, f)
  }

  /** Sampled in state i, read at the end. */
  ghost predicate SampleLands(run: seq<Cdc.State>, i: nat, f: map<Key, Row>)
    requires i < |run|
  {
    var sample := SourceAt(run[i].log, |run[i].log|);
    IsFinal(run[|run| - 1].typed, f) && |CurrentState(f)| >= |sample| ==> sample.Keys <= CurrentState(f).Keys
  }

  lemma ReadFromLog(t: Table, lag: nat, log: seq<Change>, run: seq<Cdc.State>, j: nat, f: map<Key, Row>) returns (p: nat)
    requires Cdc.IsRun(t, lag, run) && j < |run| && run[|run| - 1].log <= log && IsFinal(run[j].typed, f)
    ensures p <= |log| && CurrentState(f).Keys == Cdc.VisibleKeys(log, p)
  {
    p := ParityGateIsSound(t, lag, run, j, j, f);
    LogGrows(t, lag, run, j, |run| - 1);
    SourceAtPrefix(run[j].log, log, p);
  }

  lemma SampleFromLog(t: Table, lag: nat, log: seq<Change>, run: seq<Cdc.State>, i: nat)
    requires Cdc.IsRun(t, lag, run) && i < |run| && run[|run| - 1].log <= log
    ensures run[i].log <= log && SourceAt(run[i].log, |run[i].log|).Keys == LiveKeys(log, |run[i].log|)
  {
    LogGrows(t, lag, run, i, |run| - 1);
    SourceAtPrefix(run[i].log, log, |run[i].log|);
  }

  lemma LandsAll(log: seq<Change>, p: nat, q: nat, sample: map<Key, Image>, read: map<Key, Image>)
    requires SamplesIdentify(log) && p <= |log| && q <= |log|
    requires sample.Keys == LiveKeys(log, q) && read.Keys == Cdc.VisibleKeys(log, p) && |read| >= |sample|
    ensures sample.Keys <= read.Keys
  {
    assert |sample| == |sample.Keys| && |read| == |read.Keys|;
    SampleIsAll(log, p, q);
  }

  lemma ParityHolds(t: Table, lag: nat, log: seq<Change>, run: seq<Cdc.State>, i: nat, f: map<Key, Row>)
    requires SamplesIdentify(log)
    requires Cdc.IsRun(t, lag, run) && i < |run| && run[|run| - 1].log <= log
    ensures SampleLands(run, i, f)
  {
    if IsFinal(run[|run| - 1].typed, f) && |CurrentState(f)| >= |SourceAt(run[i].log, |run[i].log|)| {
      PollLands(t, lag, log, run, i, |run| - 1, f);
    }
  }

  /** For any two positions with the sample's count reached by the read's, there is a run in which
      the gate passes on just these positions. */
  lemma ParityPasses(t: Table, lag: nat, log: seq<Change>, q: nat, p: nat) returns (run: seq<Cdc.State>, i: nat, f: map<Key, Row>)
    requires ValidLog(t, log) && p <= |log| && q <= |log|
    requires |Cdc.VisibleKeys(log, p)| >= |LiveKeys(log, q)|
    ensures Cdc.IsRun(t, lag, run) && i < |run| && run[|run| - 1].log <= log && IsFinal(run[|run| - 1].typed, f)
    ensures var sample := SourceAt(run[i].log, |run[i].log|);
            && sample.Keys == LiveKeys(log, q) && CurrentState(f).Keys == Cdc.VisibleKeys(log, p)
            && |CurrentState(f)| >= |sample|
  {
    run, i := Schedule.CanReadAt(t, lag, log, q, p);
    f := FinalExists(run[|run| - 1].typed);
    SourceAtPrefix(log[..q], log, q);
    assert |CurrentState(f).Keys| == |CurrentState(f)| && |SourceAt(log, q).Keys| == |SourceAt(log, q)|;
  }

  /** The parity gate is sound over a history if and only if samples identify its landed keys. */
  lemma ParityIsExact(t: Table, lag: nat, log: seq<Change>)
    requires ValidLog(t, log)
    ensures ParityIsSound(t, lag, log) <==> SamplesIdentify(log)
  {
    if SamplesIdentify(log) {
      forall run: seq<Cdc.State>, i: nat, f | Cdc.IsRun(t, lag, run) && i < |run| && run[|run| - 1].log <= log
        ensures SampleLands(run, i, f)
      {
        ParityHolds(t, lag, log, run, i, f);
      }
    }
    if ParityIsSound(t, lag, log) {
      forall p, q | 0 <= p <= |log| && 0 <= q <= |log| && |Cdc.VisibleKeys(log, p)| == |LiveKeys(log, q)|
        ensures Cdc.VisibleKeys(log, p) == LiveKeys(log, q)
      {
        var run, i, f := ParityPasses(t, lag, log, q, p);
        assert SampleLands(run, i, f);
        SubsetOfSameSize(LiveKeys(log, q), Cdc.VisibleKeys(log, p));
      }
    }
  }

  /** Poll number n reads in state js[n] of the run, not before the sample is taken in state i. */
  ghost predicate PollReads(run: seq<Cdc.State>, i: nat, js: seq<nat>, fs: seq<map<Key, Row>>, polls: seq<nat>, n: nat)
    requires |js| == |fs| == |polls| && n < |polls|
  {
    i <= js[n] < |run| && IsFinal(run[js[n]].typed, fs[n]) && polls[n] == |CurrentState(fs[n])|
  }

  /** The gate as it polls along a run: over a history whose samples identify its landed keys, it
      passes only after a poll that found every sampled key. */
  method PollForParity(ghost t: Table, ghost lag: nat, ghost log: seq<Change>, ghost run: seq<Cdc.State>, ghost i: nat,
                       ghost js: seq<nat>, ghost fs: seq<map<Key, Row>>, expected: nat, polls: seq<nat>)
    returns (reached: Option<nat>)
    requires SamplesIdentify(log) && Cdc.IsRun(t, lag, run) && i < |run| && run[|run| - 1].log <= log
    requires expected == |SourceAt(run[i].log, |run[i].log|)| && |js| == |fs| == |polls|
    requires forall n :: 0 <= n < |polls| ==> PollReads(run, i, js, fs, polls, n)
    ensures reached.Some? ==> exists n :: 0 <= n < |polls| && reached.value == polls[n]
                                         && SourceAt(run[i].log, |run[i].log|).Keys <= CurrentState(fs[n]).Keys
  {
    reached := GateCdcParity(expected, polls);
    if reached.Some? {
      ghost var n :| 0 <= n < |polls| && reached.value == polls[n] >= expected;
      assert PollReads(run, i, js, fs, polls, n);
      PollLands(t, lag, log, run, i, js[n], fs[n]);
    }
  }

  lemma PollLands(t: Table, lag: nat, log: seq<Change>, run: seq<Cdc.State>, i: nat, j: nat, f: map<Key, Row>)
    requires SamplesIdentify(log) && Cdc.IsRun(t, lag, run) && i <= j < |run| && run[|run| - 1].log <= log
    requires IsFinal(run[j].typed, f) && |CurrentState(f)| >= |SourceAt(run[i].log, |run[i].log|)|
    ensures SourceAt(run[i].log, |run[i].log|).Keys <= CurrentState(f).Keys
  {
    var p := ReadFromLog(t, lag, log, run, j, f);
    SampleFromLog(t, lag, log, run, i);
    LandsAll(log, p, |run[i].log|, SourceAt(run[i].log, |run[i].log|), CurrentState(f));
  }

  /** The gate passes in this run, and key k of the sample has not landed. */
  ghost predicate Fooled(t: Table, lag: nat, run: seq<Cdc.State>, n: nat, f: map<Key, Row>, k: Key) {
    && Cdc.IsRun(t, lag, run) && n < |run| && IsFinal(run[|run| - 1].typed, f)
    && var sample := SourceAt(run[n].log, |run[n].log|);
    |CurrentState(f)| >= |sample| && k in sample && k !in CurrentState(f)
  }

  /** Two positions whose counts do not follow their keys fool the gate. */
  lemma ParityIsFooled(t: Table, lag: nat, log: seq<Change>, p: nat, q: nat, k: Key)
    returns (run: seq<Cdc.State>, n: nat, f: map<Key, Row>)
    requires ValidLog(t, log) && p <= |log| && q <= |log|
    requires |Cdc.VisibleKeys(log, p)| >= |LiveKeys(log, q)| && k in LiveKeys(log, q) && k !in Cdc.VisibleKeys(log, p)
    ensures Fooled(t, lag, run, n, f, k)
  {
    run, n, f := ParityPasses(t, lag, log, q, p);
  }

  /** Whenever a key is deleted while all keys are complete, and the next insert is of a key not
      alive before the delete, there is a run in which the gate passes and that key has not
      landed. */
  lemma ParityFooledByDelete(t: Table, lag: nat, log: seq<Change>, i: nat, j: nat)
    returns (run: seq<Cdc.State>, n: nat, f: map<Key, Row>)
    requires ValidLog(t, log) && i < j < |log| && CompleteAt(log, i)
    requires log[i].kind.Delete? && log[j].kind.Insert? && log[j].key !in SourceAt(log, i)
    requires forall m :: i < m < j ==> !log[m].kind.Insert?
    ensures Fooled(t, lag, run, n, f, log[j].key)
  {
    var q, k := SampleIsReached(t, log, i, j);
    run, n, f := ParityIsFooled(t, lag, log, i, q, k);
  }

  /** All keys alive at the position are complete. */
  ghost predicate CompleteAt(log: seq<Change>, p: nat)
    requires p <= |log|
  {
    forall k :: k in LiveKeys(log, p) ==> Complete(k)
  }

  lemma CompleteIsVisible(log: seq<Change>, p: nat)
    requires p <= |log| && CompleteAt(log, p)
    ensures |Cdc.VisibleKeys(log, p)| == |LiveKeys(log, p)| && Cdc.VisibleKeys(log, p) <= LiveKeys(log, p)
  {
    assert Cdc.VisibleKeys(log, p) == LiveKeys(log, p);
  }

  lemma SampleIsReached(t: Table, log: seq<Change>, i: nat, j: nat) returns (q: nat, k: Key)
    requires ValidLog(t, log) && i < j < |log| && CompleteAt(log, i)
    requires log[i].kind.Delete? && log[j].kind.Insert? && log[j].key !in SourceAt(log, i)
    requires forall m :: i < m < j ==> !log[m].kind.Insert?
    ensures q <= |log| && k == log[j].key && |Cdc.VisibleKeys(log, i)| >= |LiveKeys(log, q)|
    ensures k in LiveKeys(log, q) && k !in Cdc.VisibleKeys(log, i)
  {
    NoMoreAfter(t, log, i, j);
    CompleteIsVisible(log, i);
    q, k := j + 1, log[j].key;
  }

  /** After a delete and the next insert there are no more keys than before, and the inserted one
      is among them. */
  lemma NoMoreAfter(t: Table, log: seq<Change>, i: nat, j: nat)
    requires ValidLog(t, log) && i < j < |log| && log[i].kind.Delete? && log[j].kind.Insert?
    requires forall m :: i < m < j ==> !log[m].kind.Insert?
    ensures |LiveKeys(log, i)| >= |LiveKeys(log, j + 1)| && log[j].key in LiveKeys(log, j + 1)
  {
    BetweenInsertsShrinks(t, log, i + 1, j);
    DeleteDrops(t, log, i);
    InsertAdds(t, log, j);
    FewerThan(LiveKeys(log, j), LiveKeys(log, i + 1));
  }

  lemma DeleteDrops(t: Table, log: seq<Change>, i: nat)
    requires ValidLog(t, log) && i < |log| && log[i].kind.Delete?
    ensures |LiveKeys(log, i + 1)| == |LiveKeys(log, i)| - 1
  {
    assert LegalAt(t, log, i);
    assert LiveKeys(log, i + 1) == LiveKeys(log, i) - {log[i].key};
  }

  lemma InsertAdds(t: Table, log: seq<Change>, i: nat)
    requires ValidLog(t, log) && i < |log| && log[i].kind.Insert?
    ensures LiveKeys(log, i + 1) == LiveKeys(log, i) + {log[i].key}
    ensures |LiveKeys(log, i + 1)| == |LiveKeys(log, i)| + 1
  {
    assert LegalAt(t, log, i);
  }

  lemma FewerThan(a: set<Key>, b: set<Key>)
    requires a <= b
    ensures |a| <= |b|
  {
    assert b == a + (b - a);
  }

  // ---- Reconciliation, against any later view -------------------------------------------------

  /** If the source deletes nothing, the count gate is the comparison of key sets in every state of
      every run: against any staging view, under late dimensions and killed builds alike. */
  lemma CountGateWithoutDeletes(lag: nat, run: seq<Pipeline.State>, j: nat, staging: seq<Row>)
    requires Pipeline.IsRun(lag, run) && j < |run| && IsStaging(run[j].cdc.typed, staging)
    requires forall n :: 0 <= n < |run[j].cdc.log| ==> !run[j].cdc.log[n].kind.Delete?
    ensures FactReconciles(|staging|, |Rows(run[j].fact)|) <==> KeysOf(Rows(run[j].fact)) == StagedKeys(staging)
  {
    var s := run[j];
    var p, e := Pipeline.RunGrounded(lag, run, j);
    Pipeline.NoDeletesNoStrays(s, p, e);
    Pipeline.StagedAreSource(s.cdc, p, e, staging);
    UniqueCount(Rows(s.fact));
    StagedCount(staging);
    if |Rows(s.fact)| == |staging| {
      SubsetOfSameSize(KeysOf(Rows(s.fact)), StagedKeys(staging));
    }
  }

  /** Whatever the fact holds was alive at an earlier position. */
  lemma TouchedWasLive(t: Table, log: seq<Change>, p: nat, k: Key) returns (a: nat)
    requires ValidLog(t, log) && p <= |log| && Pipeline.Touched(log, p, k) && Complete(k)
    ensures a <= p && k in Cdc.VisibleKeys(log, a)
  {
    var i :| 0 <= i < p && log[i].key == k;
    assert LegalAt(t, log, i);
    a := if log[i].kind.Delete? then i else i + 1;
  }

  /** If no key is outlived, the fact holds keys alive now, unless none is. */
  lemma FactKeysLive(s: Pipeline.State, p: nat, e: nat, log: seq<Change>)
    requires NoneOutlived(log) && Pipeline.Grounded(s, p, e) && s.cdc.log <= log && Cdc.VisibleKeys(log, p) != {}
    ensures KeysOf(Rows(s.fact)) <= Cdc.VisibleKeys(log, p)
  {
    forall k | k in KeysOf(Rows(s.fact)) ensures k in Cdc.VisibleKeys(log, p) {
      var i :| 0 <= i < |Rows(s.fact)| && Rows(s.fact)[i].key == k;
      assert Rows(s.fact)[i] in Rows(s.fact);
      var a := TouchedWasLive(Observation, s.cdc.log, p, k);
      SourceAtPrefix(s.cdc.log, log, a);
      assert Cdc.VisibleKeys(log, a) <= Cdc.VisibleKeys(log, p);
    }
  }

  lemma CountsAreKeys(fact: seq<FactRow>, staging: seq<Row>)
    requires UniqueKeys(fact) && DistinctKeys(staging)
    requires StagedKeys(staging) != {} ==> KeysOf(fact) <= StagedKeys(staging)
    ensures FactReconciles(|staging|, |fact|) <==> KeysOf(fact) == StagedKeys(staging)
  {
    UniqueCount(fact);
    StagedCount(staging);
    if |fact| == |staging| && StagedKeys(staging) != {} {
      SubsetOfSameSize(KeysOf(fact), StagedKeys(staging));
    }
  }

  /** If no key is outlived, the count gate is the comparison of key sets in every state of every
      run: against any staging view, under late rows, late dimensions and killed builds alike. */
  lemma CountGateHoldsEverywhere(lag: nat, log: seq<Change>, run: seq<Pipeline.State>, j: nat, staging: seq<Row>)
    requires NoneOutlived(log) && Pipeline.IsRun(lag, run) && j < |run| && run[j].cdc.log <= log
    requires IsStaging(run[j].cdc.typed, staging)
    ensures FactReconciles(|staging|, |Rows(run[j].fact)|) <==> KeysOf(Rows(run[j].fact)) == StagedKeys(staging)
  {
    var s := run[j];
    var p, e := Pipeline.RunGrounded(lag, run, j);
    Pipeline.StagedAreSource(s.cdc, p, e, staging);
    SourceAtPrefix(s.cdc.log, log, p);
    assert StagedKeys(staging) == Cdc.VisibleKeys(log, p);
    if Cdc.VisibleKeys(log, p) != {} {
      FactKeysLive(s, p, e, log);
    }
    CountsAreKeys(Rows(s.fact), staging);
  }

  ghost predicate EndTells(run: seq<Pipeline.State>, staging: seq<Row>)
    requires |run| > 0
  {
    CountsTell(run[|run| - 1], staging)
  }

  ghost predicate CountsTell(s: Pipeline.State, staging: seq<Row>) {
    s.build.Idle? && IsStaging(s.cdc.typed, staging) && FactReconciles(|staging|, |Rows(s.fact)|) ==>
      KeysOf(Rows(s.fact)) == StagedKeys(staging)
  }

  /** Whenever the gate passes with no build under way, at the end of any run over the log, the key
      sets agree. */
  ghost predicate CountGateIsSound(lag: nat, log: seq<Change>) {
    forall run: seq<Pipeline.State>, staging :: Pipeline.IsRun(lag, run) && run[|run| - 1].cdc.log <= log ==>
      EndTells(run, staging)
  }

  /** The same for timely runs alone. */
  ghost predicate CountGateIsSoundIfTimely(lag: nat, log: seq<Change>) {
    forall run: seq<Pipeline.State>, staging ::
      Pipeline.IsRun(lag, run) && Pipeline.TimelyRun(run) && run[|run| - 1].cdc.log <= log ==> EndTells(run, staging)
  }

  /** A key that is outlived is, at some positions, the only one deleted between them. */
  lemma {:induction false} OneIsOutlived(log: seq<Change>, p: nat, q: nat, k: Key) returns (a: nat, b: nat, f: Key)
    requires p <= q <= |log| && k in Cdc.VisibleKeys(log, p) && k !in Cdc.VisibleKeys(log, q) && Cdc.VisibleKeys(log, q) != {}
    ensures a <= b <= |log| && f in Cdc.VisibleKeys(log, a) && f !in Cdc.VisibleKeys(log, b) && Cdc.VisibleKeys(log, b) != {}
    ensures Cdc.VisibleKeys(log, a) <= Cdc.VisibleKeys(log, b) + {f}
    decreases q - p
  {
    ChangeMovesOne(Landed, log, p);
    if k in Cdc.VisibleKeys(log, p + 1) {
      a, b, f := OneIsOutlived(log, p + 1, q, k);
    } else if Cdc.VisibleKeys(log, p + 1) != {} {
      a, b, f := p, p + 1, k;
    } else {
      a, b, f := p, q, k;
    }
  }

  /** The counts of a fact that has lost one live key and kept one dead key. */
  lemma OneForOne(fact: seq<FactRow>, staging: seq<Row>, keys: set<Key>, f: Key, c: Key)
    requires UniqueKeys(fact) && DistinctKeys(staging) && f !in StagedKeys(staging) && c in StagedKeys(staging)
    requires f in keys && keys <= StagedKeys(staging) + {f} && KeysOf(fact) == keys + StagedKeys(staging) - {c}
    ensures |fact| == |staging| && KeysOf(fact) != StagedKeys(staging)
  {
    UniqueCount(fact);
    StagedCount(staging);
    assert KeysOf(fact) == StagedKeys(staging) - {c} + {f};
  }

  /** Whenever a key is outlived there is a timely run that fools the gate: its last build is killed
      after it has deleted one live key, and the outlived key makes up for it. */
  lemma KillFools(lag: nat, log: seq<Change>, a: nat, b: nat, f: Key) returns (run: seq<Pipeline.State>, staging: seq<Row>)
    requires ValidLog(Observation, log) && a <= b <= |log| && f in Cdc.VisibleKeys(log, a) && f !in Cdc.VisibleKeys(log, b)
    requires Cdc.VisibleKeys(log, b) != {} && Cdc.VisibleKeys(log, a) <= Cdc.VisibleKeys(log, b) + {f}
    ensures Pipeline.IsRun(lag, run) && Pipeline.TimelyRun(run) && run[|run| - 1].cdc.log <= log
    ensures !EndTells(run, staging)
  {
    var c :| c in Cdc.VisibleKeys(log, b);
    var early;
    run, early := Schedule.CanKillOne(log, a, b, c, c);
    var s, part := run[|run| - 1], log[..b];
    staging := Schedule.CanPickOne(early, s.cdc.typed, part, LOOKBACK + 1, c);
    FactIsUnique(0, run, |run| - 1);
    OneForOne(s.fact.value, staging, Cdc.VisibleKeys(log, a), f, c);
    KillSettles(s, early, part, Cdc.VisibleKeys(log, a), c);
    Schedule.LagGrows(0, lag, run);
  }

  /** The kill leaves no fresh row behind, so it is timely. */
  lemma KillSettles(s: Pipeline.State, early: multiset<Row>, log: seq<Change>, keys: set<Key>, c: Key)
    requires Schedule.LostToKill(s, early, log, keys, c, c)
    ensures Settled(s.cdc.typed, Rows(s.fact))
  {
    forall x | x in Rows(s.fact) ensures x.synced == 0 {
      var i :| 0 <= i < |s.fact.value| && s.fact.value[i] == x;
      assert s.fact.value[i].key in KeysOf(s.fact.value);
    }
  }

  /** The count gate is sound over a history, in all runs or in the timely ones alone, against every
      later view, if and only if no key is outlived. */
  lemma CountGateIsExactOverRuns(lag: nat, log: seq<Change>)
    requires ValidLog(Observation, log)
    ensures CountGateIsSound(lag, log) <==> NoneOutlived(log)
    ensures CountGateIsSoundIfTimely(lag, log) <==> NoneOutlived(log)
  {
    if NoneOutlived(log) {
      forall run: seq<Pipeline.State>, staging | Pipeline.IsRun(lag, run) && run[|run| - 1].cdc.log <= log
        ensures EndTells(run, staging)
      {
        if IsStaging(run[|run| - 1].cdc.typed, staging) {
          CountGateHoldsEverywhere(lag, log, run, |run| - 1, staging);
        }
      }
    }
    if CountGateIsSoundIfTimely(lag, log) {
      forall p, q | 0 <= p <= q <= |log|
        ensures Cdc.VisibleKeys(log, p) <= Cdc.VisibleKeys(log, q) || Cdc.VisibleKeys(log, q) == {}
      {
        SoundOutlivesNone(lag, log, p, q);
      }
    }
  }

  lemma SoundOutlivesNone(lag: nat, log: seq<Change>, p: nat, q: nat)
    requires ValidLog(Observation, log) && CountGateIsSoundIfTimely(lag, log) && p <= q <= |log|
    ensures Cdc.VisibleKeys(log, p) <= Cdc.VisibleKeys(log, q) || Cdc.VisibleKeys(log, q) == {}
  {
    if k :| k in Cdc.VisibleKeys(log, p) && k !in Cdc.VisibleKeys(log, q) && Cdc.VisibleKeys(log, q) != {} {
      var a, b, f := OneIsOutlived(log, p, q, k);
      var run, staging := KillFools(lag, log, a, b, f);
      assert false;
    }
  }

  // ---- Reconciliation when no build is disturbed --------------------------------------------

  /** The same for runs whose builds find every dimension and are not killed after a DELETE. */
  ghost predicate CountGateIsSoundUndisturbed(lag: nat, log: seq<Change>) {
    forall run: seq<Pipeline.State>, staging ::
      Pipeline.IsRun(lag, run) && Schedule.Undisturbed(run, None) && run[|run| - 1].cdc.log <= log ==>
        EndTells(run, staging)
  }

  /** The fact, now and once the build under way is done, has the keys of the source at some
      position. */
  ghost predicate HasKeysOf(fact: seq<FactRow>, log: seq<Change>) {
    exists a :: 0 <= a <= |log| && KeysOf(fact) == Cdc.VisibleKeys(log, a)
  }

  ghost predicate KeysFromLog(s: Pipeline.State, log: seq<Change>) {
    && HasKeysOf(Rows(Pipeline.After(s)), log)
    && (!s.build.Deleted? ==> HasKeysOf(Rows(s.fact), log))
  }

  /** Of two key sets of such a history, one contains the other. */
  lemma OneContains(log: seq<Change>, a: nat, b: nat) returns (c: nat)
    requires CountsIdentify(log) && a <= |log| && b <= |log|
    ensures c <= |log| && Cdc.VisibleKeys(log, c) == Cdc.VisibleKeys(log, a) + Cdc.VisibleKeys(log, b)
  {
    if |Cdc.VisibleKeys(log, a)| >= |Cdc.VisibleKeys(log, b)| {
      MoreIsAll(log, a, b);
      c := a;
    } else {
      MoreIsAll(log, b, a);
      c := b;
    }
  }

  /** A build that finds every dimension adds the keys of the source. */
  lemma BeginAddsKeys(s: Pipeline.State, s': Pipeline.State, p: nat, e: nat, log: seq<Change>)
    requires s.cdc.log <= log
    requires Pipeline.Inv(s, p, e) && Pipeline.Begins(s, s') && Schedule.UndisturbedStep(s, s', None)
    ensures KeysOf(Rows(Pipeline.After(s'))) == KeysOf(Rows(s.fact)) + Cdc.VisibleKeys(log, p)
  {
    Pipeline.BuildMeansThat(s, s', p, e);
    Pipeline.BuildMeansKeys(s, s', p);
    SourceAtPrefix(s.cdc.log, log, p);
    SourceJoins(s, s', p, e);
  }

  lemma BeginKeepsKeys(s: Pipeline.State, s': Pipeline.State, p: nat, e: nat, log: seq<Change>)
    requires CountsIdentify(log) && s.cdc.log <= log && KeysFromLog(s, log)
    requires Pipeline.Inv(s, p, e) && Pipeline.Begins(s, s') && Schedule.UndisturbedStep(s, s', None)
    ensures KeysFromLog(s', log)
  {
    var a :| 0 <= a <= |log| && KeysOf(Rows(s.fact)) == Cdc.VisibleKeys(log, a);
    BeginAddsKeys(s, s', p, e, log);
    var c := OneContains(log, a, p);
    assert HasKeysOf(Rows(Pipeline.After(s')), log);
  }

  lemma SourceJoins(s: Pipeline.State, s': Pipeline.State, p: nat, e: nat)
    requires Pipeline.Inv(s, p, e) && Pipeline.Begins(s, s') && Schedule.UndisturbedStep(s, s', None)
    ensures forall k :: k in Cdc.Visible(SourceAt(s.cdc.log, p)) ==> Joins(k, s'.build.dims)
  {
    var f := FinalExists(s.cdc.typed);
    Cdc.ReadIsSource(Observation, s.cdc, p, e, f);
    forall k | k in CurrentState(f) ensures Joins(k, s'.build.dims) {
      assert Live(s.cdc.typed, f[k]);
    }
  }

  lemma StepKeepsKeys(lag: nat, s: Pipeline.State, s': Pipeline.State, p: nat, e: nat, log: seq<Change>)
    requires CountsIdentify(log) && s.cdc.log <= log && KeysFromLog(s, log)
    requires Pipeline.Inv(s, p, e) && Pipeline.Follows(lag, s, s') && Schedule.UndisturbedStep(s, s', None)
    ensures KeysFromLog(s', log)
  {
    if Pipeline.Begins(s, s') {
      BeginKeepsKeys(s, s', p, e, log);
    }
  }

  lemma {:induction false} RunKeepsKeys(lag: nat, run: seq<Pipeline.State>, i: nat, log: seq<Change>)
    requires lag <= LOOKBACK && CountsIdentify(log)
    requires Pipeline.IsRun(lag, run) && Schedule.Undisturbed(run, None) && i < |run| && run[i].cdc.log <= log
    ensures KeysFromLog(run[i], log)
  {
    if i == 0 {
      assert KeysOf([]) == Cdc.VisibleKeys(log, 0);
    } else {
      assert Pipeline.FollowsAt(lag, run, i - 1);
      assert Schedule.UndisturbedAt(run, i - 1, None);
      assert run[i - 1].cdc.log <= run[i].cdc.log;
      RunKeepsKeys(lag, run, i - 1, log);
      Schedule.UndisturbedIsTimely(run, None);
      var ps, es := Pipeline.RunKeeps(lag, run, i - 1);
      StepKeepsKeys(lag, run[i - 1], run[i], ps[i - 1], es[i - 1], log);
    }
  }

  lemma StagedFromLog(lag: nat, run: seq<Pipeline.State>, log: seq<Change>, staging: seq<Row>) returns (p: nat)
    requires Pipeline.IsRun(lag, run) && run[|run| - 1].cdc.log <= log
    requires IsStaging(run[|run| - 1].cdc.typed, staging)
    ensures p <= |log| && StagedKeys(staging) == Cdc.VisibleKeys(log, p)
  {
    var c := run[|run| - 1].cdc;
    var e;
    p, e := Pipeline.RunGrounded(lag, run, |run| - 1);
    Pipeline.StagedAreSource(c, p, e, staging);
    SourceAtPrefix(c.log, log, p);
  }

  lemma LogKeysTell(log: seq<Change>, fact: seq<FactRow>, staging: seq<Row>, p: nat)
    requires CountsIdentify(log) && HasKeysOf(fact, log) && UniqueKeys(fact) && DistinctKeys(staging)
    requires p <= |log| && StagedKeys(staging) == Cdc.VisibleKeys(log, p) && |fact| == |staging|
    ensures KeysOf(fact) == StagedKeys(staging)
  {
    var a :| 0 <= a <= |log| && KeysOf(fact) == Cdc.VisibleKeys(log, a);
    UniqueCount(fact);
    StagedCount(staging);
  }

  lemma FactIsUnique(lag: nat, run: seq<Pipeline.State>, i: nat)
    requires Pipeline.IsRun(lag, run) && i < |run|
    ensures UniqueKeys(Rows(run[i].fact))
  {
    var p, e := Pipeline.RunGrounded(lag, run, i);
  }

  lemma CountGateHolds(lag: nat, log: seq<Change>, run: seq<Pipeline.State>, staging: seq<Row>)
    requires lag <= LOOKBACK && CountsIdentify(log)
    requires Pipeline.IsRun(lag, run) && Schedule.Undisturbed(run, None) && run[|run| - 1].cdc.log <= log
    ensures EndTells(run, staging)
  {
    var s := run[|run| - 1];
    if s.build.Idle? && IsStaging(s.cdc.typed, staging) && |staging| == |Rows(s.fact)| {
      RunKeepsKeys(lag, run, |run| - 1, log);
      FactIsUnique(lag, run, |run| - 1);
      var p := StagedFromLog(lag, run, log, staging);
      LogKeysTell(log, Rows(s.fact), staging, p);
    }
  }

  /** The gate reads this many staged rows and this many fact rows, with these keys. */
  ghost predicate Compares(run: seq<Pipeline.State>, staging: seq<Row>, loaded: set<Key>, staged: set<Key>) {
    && |run| > 0
    && var s := run[|run| - 1];
    && s.build.Idle? && IsStaging(s.cdc.typed, staging)
    && KeysOf(Rows(s.fact)) == loaded && |Rows(s.fact)| == |loaded|
    && StagedKeys(staging) == staged && |staging| == |staged|
  }

  /** Build at one position, with some dimensions, and stage at the other. */
  lemma CanCompare(lag: nat, log: seq<Change>, p: nat, q: nat, dims: Dimensions, tolerance: Option<nat>)
    returns (run: seq<Pipeline.State>, staging: seq<Row>)
    requires ValidLog(Observation, log) && p <= q <= |log|
    requires tolerance.Some? || forall k :: k in Cdc.VisibleKeys(log, p) ==> Joins(k, dims)
    ensures Pipeline.IsRun(lag, run) && Schedule.Undisturbed(run, tolerance) && run[|run| - 1].cdc.log <= log
    ensures Compares(run, staging, Schedule.JoinedOf(Cdc.VisibleKeys(log, p), dims), Cdc.VisibleKeys(log, q))
  {
    run, staging := Schedule.CanBuildThenStage(lag, log, p, q, dims, tolerance);
    UniqueCount(Rows(run[|run| - 1].fact));
    StagedCount(staging);
  }

  lemma CanCompareAll(lag: nat, log: seq<Change>, p: nat, q: nat) returns (run: seq<Pipeline.State>, staging: seq<Row>)
    requires ValidLog(Observation, log) && p <= q <= |log|
    ensures Pipeline.IsRun(lag, run) && Schedule.Undisturbed(run, None) && run[|run| - 1].cdc.log <= log
    ensures Compares(run, staging, Cdc.VisibleKeys(log, p), Cdc.VisibleKeys(log, q))
  {
    Schedule.AllJoin(log, p);
    run, staging := CanCompare(lag, log, p, q, Schedule.AllDimensions(log, p), None);
  }

  /** Equal counts tell equal keys apart from others only if they are equal. */
  lemma ComparesTells(run: seq<Pipeline.State>, staging: seq<Row>, loaded: set<Key>, staged: set<Key>)
    requires Compares(run, staging, loaded, staged)
    ensures EndTells(run, staging) <==> (|loaded| == |staged| ==> loaded == staged)
  {
  }

  /** Two positions with equal counts and different keys fool the gate: build at the one, stage at
      the other. */
  lemma CountsCanCancel(lag: nat, log: seq<Change>, p: nat, q: nat) returns (run: seq<Pipeline.State>, staging: seq<Row>)
    requires ValidLog(Observation, log) && p <= q <= |log|
    requires |Cdc.VisibleKeys(log, p)| == |Cdc.VisibleKeys(log, q)| && Cdc.VisibleKeys(log, p) != Cdc.VisibleKeys(log, q)
    ensures Pipeline.IsRun(lag, run) && Schedule.Undisturbed(run, None) && run[|run| - 1].cdc.log <= log
    ensures !EndTells(run, staging)
  {
    run, staging := CanCompareAll(lag, log, p, q);
    ComparesTells(run, staging, Cdc.VisibleKeys(log, p), Cdc.VisibleKeys(log, q));
  }

  /** Nor does it take a kill to fool the gate where counts do identify the key sets: a build that
      misses the dimensions of fresh rows does as well, whenever it loads as many keys as are
      staged later and not the same ones. */
  lemma MissingDimensionsFool(lag: nat, log: seq<Change>, p: nat, q: nat, dims: Dimensions)
    returns (run: seq<Pipeline.State>, staging: seq<Row>)
    requires ValidLog(Observation, log) && p <= q <= |log|
    requires var loaded := Schedule.JoinedOf(Cdc.VisibleKeys(log, p), dims);
             |loaded| == |Cdc.VisibleKeys(log, q)| && loaded != Cdc.VisibleKeys(log, q)
    ensures Pipeline.IsRun(lag, run) && Schedule.Undisturbed(run, Some(0)) && Pipeline.TimelyRun(run)
    ensures run[|run| - 1].cdc.log <= log && !EndTells(run, staging)
  {
    run, staging := CanCompare(lag, log, p, q, dims, Some(0));
    ComparesTells(run, staging, Schedule.JoinedOf(Cdc.VisibleKeys(log, p), dims), Cdc.VisibleKeys(log, q));
    Schedule.UndisturbedIsTimely(run, Some(0));
  }

  lemma CountsTellKeys(lag: nat, log: seq<Change>, p: nat, q: nat)
    requires ValidLog(Observation, log) && p <= q <= |log|
    requires CountGateIsSoundUndisturbed(lag, log) && |Cdc.VisibleKeys(log, p)| == |Cdc.VisibleKeys(log, q)|
    ensures Cdc.VisibleKeys(log, p) == Cdc.VisibleKeys(log, q)
  {
    var run, staging := CanCompareAll(lag, log, p, q);
    ComparesTells(run, staging, Cdc.VisibleKeys(log, p), Cdc.VisibleKeys(log, q));
    assert EndTells(run, staging);
  }

  /** As long as every build finds every dimension and none is killed after its DELETE, the count
      gate is sound over a history, against every later view, if and only if counts identify its
      landed keys. */
  lemma CountGateUndisturbed(lag: nat, log: seq<Change>)
    requires lag <= LOOKBACK && ValidLog(Observation, log)
    ensures CountGateIsSoundUndisturbed(lag, log) <==> CountsIdentify(log)
  {
    if CountsIdentify(log) {
      forall run: seq<Pipeline.State>, staging |
        Pipeline.IsRun(lag, run) && Schedule.Undisturbed(run, None) && run[|run| - 1].cdc.log <= log
        ensures EndTells(run, staging)
      {
        CountGateHolds(lag, log, run, staging);
      }
    }
    if CountGateIsSoundUndisturbed(lag, log) {
      forall p, q | 0 <= p <= |log| && 0 <= q <= |log| && |Cdc.VisibleKeys(log, p)| == |Cdc.VisibleKeys(log, q)|
        ensures Cdc.VisibleKeys(log, p) == Cdc.VisibleKeys(log, q)
      {
        if p <= q {
          CountsTellKeys(lag, log, p, q);
        } else {
          CountsTellKeys(lag, log, q, p);
        }
      }
    }
  }

  /** The shortest history of that kind: insert one key, delete it, insert another. */
  lemma OneForAnother(a: Key, b: Key, image: Image) returns (log: seq<Change>)
    requires a != b && SchemaKey(Observation, a) && SchemaKey(Observation, b) && Complete(a) && Complete(b)
    ensures ValidLog(Observation, log) && |log| == 3
    ensures Cdc.VisibleKeys(log, 1) == {a} && Cdc.VisibleKeys(log, 3) == LiveKeys(log, 3) == {b}
  {
    log := [Change(a, Insert(image), 1), Change(a, Delete, 2), Change(b, Insert(image), 3)];
    assert SourceAt(log, 0) == map[];
    assert SourceAt(log, 1) == map[a := image];
    assert SourceAt(log, 2) == map[];
    assert SourceAt(log, 3) == map[b := image];
    assert LegalAt(Observation, log, 0) && LegalAt(Observation, log, 1) && LegalAt(Observation, log, 2);
  }

  /** It fools both gates: build, delete the one, insert the other, and reconcile; or sample at the
      end and read at the beginning. */
  lemma OneForAnotherFools(lag: nat, a: Key, b: Key, image: Image)
    returns (run: seq<Pipeline.State>, staging: seq<Row>, capture: seq<Cdc.State>, n: nat, f: map<Key, Row>)
    requires a != b && SchemaKey(Observation, a) && SchemaKey(Observation, b) && Complete(a) && Complete(b)
    ensures Pipeline.IsRun(lag, run) && Schedule.Undisturbed(run, None) && !EndTells(run, staging)
    ensures Fooled(Observation, lag, capture, n, f, b)
  {
    var log := OneForAnother(a, b, image);
    run, staging := CountsCanCancel(lag, log, 1, 3);
    capture, n, f := ParityIsFooled(Observation, lag, log, 1, 3, b);
  }

  /** Insert two keys and delete the second. */
  lemma OneGone(kept: Key, gone: Key, image: Image) returns (log: seq<Change>)
    requires kept != gone && SchemaKey(Observation, kept) && SchemaKey(Observation, gone) && Complete(kept) && Complete(gone)
    ensures ValidLog(Observation, log) && |log| == 3 && Cdc.VisibleKeys(log, 0) == {}
    ensures Cdc.VisibleKeys(log, 1) == {kept} && Cdc.VisibleKeys(log, 2) == {kept, gone} && Cdc.VisibleKeys(log, 3) == {kept}
  {
    log := [Change(kept, Insert(image), 1), Change(gone, Insert(image), 2), Change(gone, Delete, 3)];
    assert SourceAt(log, 0) == map[];
    assert SourceAt(log, 1) == map[kept := image];
    assert SourceAt(log, 2) == map[kept := image, gone := image];
    assert SourceAt(log, 3) == map[kept := image];
    assert LegalAt(Observation, log, 0) && LegalAt(Observation, log, 1) && LegalAt(Observation, log, 2);
  }

  lemma OneGoneIdentifies(log: seq<Change>, kept: Key, gone: Key)
    requires kept != gone && |log| == 3 && Cdc.VisibleKeys(log, 0) == {}
    requires Cdc.VisibleKeys(log, 1) == {kept} && Cdc.VisibleKeys(log, 2) == {kept, gone} && Cdc.VisibleKeys(log, 3) == {kept}
    ensures CountsIdentify(log)
  {
    forall p, q | 0 <= p <= 3 && 0 <= q <= 3 && |Cdc.VisibleKeys(log, p)| == |Cdc.VisibleKeys(log, q)|
      ensures Cdc.VisibleKeys(log, p) == Cdc.VisibleKeys(log, q)
    {
      assert p == 0 || p == 1 || p == 2 || p == 3;
      assert q == 0 || q == 1 || q == 2 || q == 3;
    }
  }

  /** That counts identify the key sets is not enough once a dimension may be missing: for any two
      keys that some dimensions tell apart, the gate passes over this history although the fact
      holds the deleted key and lacks the live one. */
  lemma IdentifyingIsNotEnough(lag: nat, kept: Key, gone: Key, image: Image, dims: Dimensions)
    returns (log: seq<Change>, run: seq<Pipeline.State>, staging: seq<Row>)
    requires kept != gone && SchemaKey(Observation, kept) && SchemaKey(Observation, gone) && Complete(kept) && Complete(gone)
    requires Joins(gone, dims) && !Joins(kept, dims)
    ensures ValidLog(Observation, log) && CountsIdentify(log)
    ensures Pipeline.IsRun(lag, run) && Schedule.Undisturbed(run, Some(0)) && Pipeline.TimelyRun(run)
    ensures run[|run| - 1].cdc.log <= log && !EndTells(run, staging)
  {
    log := OneGone(kept, gone, image);
    OneGoneIdentifies(log, kept, gone);
    assert Schedule.JoinedOf(Cdc.VisibleKeys(log, 2), dims) == {gone};
    run, staging := MissingDimensionsFool(lag, log, 2, 3, dims);
  }
}
