/** Change data capture for one table, as a state machine: the source writes its log, the
    connector copies the log into a topic, and the ClickHouse consumer copies the topic
    into the event log and the typed table. Both copies are at-least-once. */
module Cdc {
  import opened Model
  import opened Landing

  /** One row of raw.cdc_event_log. Topic and partition are fixed, so the offset is its key. */
  datatype LogRow = LogRow(offset: nat, payload: Payload, consumedAt: nat)

  /** The block a consumer holds between polling it and committing its offsets. */
  datatype Block = Idle | Held(hi: nat, logged: bool, landed: bool)

  datatype State = State(
    now: nat,
    log: seq<Change>,           // committed changes of the source table
    acked: nat, sent: nat,      // connector: recorded and current log position
    topic: seq<nat>,            // message i carries log[topic[i]]
    committed: nat,             // consumer group offset
    block: Block,
    events: multiset<LogRow>,   // raw.cdc_event_log
    typed: multiset<Row>)       // raw.<table>

  const INITIAL := State(0, [], 0, 0, [], 0, Idle, multiset{}, multiset{})

  datatype Step =
    | Tick(later: nat)
    | Write(change: Change)                     // the source commits a change
    | Send | Ack(position: nat) | Restart       // connector: emit, record position, resume from it
    | Poll(hi: nat)                             // consumer takes messages committed..hi
    | FlushEvents(at: nat) | FlushTyped(at: nat) // one target of the block becomes visible
    | Commit | Crash                            // offsets recorded, or lost with the server
    | MergeEvents(eventsAfter: multiset<LogRow>) | MergeTyped(typedAfter: multiset<Row>)

  /** Merges of the event log keep a row of every offset. Merges confined to one month
      partition are among these. */
  ghost predicate LogMerged(before: multiset<LogRow>, after: multiset<LogRow>) {
    && after <= before
    && forall r :: r in before ==> Recorded(after, r.offset)
  }

  ghost predicate Recorded(events: multiset<LogRow>, offset: nat) {
    exists r :: r in events && r.offset == offset
  }

  /** When a step may happen. A block's rows become visible at most `lag` after the arrival
      stamp they carry. */
  ghost predicate Enabled(t: Table, lag: nat, s: State, step: Step) {
    match step
    case Tick(later) => true
    case Write(c) => MayAppend(t, s.log, c)
    case Send => s.sent < |s.log|
    case Ack(position) => s.acked <= position <= s.sent
    case Restart => true
    case Poll(hi) => s.block.Idle? && s.committed < hi <= |s.topic|
    case FlushEvents(at) => s.block.Held? && !s.block.logged && at <= s.now
    case FlushTyped(at) => s.block.Held? && !s.block.landed && at <= s.now <= at + lag
    case Commit => s.block.Held? && s.block.logged && s.block.landed
    case Crash => true
    case MergeEvents(after) => LogMerged(s.events, after)
    case MergeTyped(after) => Merged(s.typed, after)
  }

  predicate WellFormed(s: State) {
    && s.committed <= |s.topic|
    && (s.block.Held? ==> s.committed <= s.block.hi <= |s.topic|)
    && s.acked <= s.sent <= |s.log|
    && forall i :: 0 <= i < |s.topic| ==> s.topic[i] < |s.log|
  }

  function EventRows(t: Table, s: State, lo: nat, hi: nat, at: nat): multiset<LogRow>
    requires WellFormed(s) && lo <= hi <= |s.topic|
  {
    if lo == hi then multiset{}
    else EventRows(t, s, lo, hi - 1, at) + multiset{LogRow(hi - 1, Render(t, s.log[s.topic[hi - 1]]), at)}
  }

  /** The rows that each message of a block inserts into the typed table. */
  function Deliveries(t: Table, s: State, at: nat): nat -> multiset<Row> {
    (i: nat) => if i < |s.topic| && s.topic[i] < |s.log| then Delivery(t, s.log[s.topic[i]], at) else multiset{}
  }

  function Sum(f: nat -> multiset<Row>, lo: nat, hi: nat): multiset<Row>
    requires lo <= hi
  {
    if lo == hi then multiset{} else Sum(f, lo, hi - 1) + f(hi - 1)
  }

  function TypedRows(t: Table, s: State, lo: nat, hi: nat, at: nat): multiset<Row>
    requires lo <= hi <= |s.topic|
  {
    Sum(Deliveries(t, s, at), lo, hi)
  }

  ghost function Do(t: Table, lag: nat, s: State, step: Step): State
    requires WellFormed(s) && Enabled(t, lag, s, step)
  {
    match step
    case Tick(later) => s.(now := s.now + later)
    case Write(c) => s.(log := s.log + [c])
    case Send => s.(topic := s.topic + [s.sent], sent := s.sent + 1)
    case Ack(position) => s.(acked := position)
    case Restart => s.(sent := s.acked)
    case Poll(hi) => s.(block := Held(hi, false, false))
    case FlushEvents(at) =>
      s.(events := s.events + EventRows(t, s, s.committed, s.block.hi, at), block := s.block.(logged := true))
    case FlushTyped(at) =>
      s.(typed := s.typed + TypedRows(t, s, s.committed, s.block.hi, at), block := s.block.(landed := true))
    case Commit => s.(committed := s.block.hi, block := Idle)
    case Crash => s.(block := Idle)
    case MergeEvents(after) => s.(events := after)
    case MergeTyped(after) => s.(typed := after)
  }

  // ---- How far the copies reach --------------------------------------------------------

  /** The log position covered by the first n messages. */
  function Reach(topic: seq<nat>, n: nat): nat
    requires n <= |topic|
  {
    if n == 0 then 0
    else if topic[n - 1] + 1 > Reach(topic, n - 1) then topic[n - 1] + 1 else Reach(topic, n - 1)
  }

  /** Message i is not ahead of what the messages before it cover. */
  ghost predicate NotAhead(topic: seq<nat>, i: nat)
    requires i < |topic|
  {
    topic[i] <= Reach(topic, i)
  }

  ghost predicate Gapless(topic: seq<nat>) {
    forall i :: 0 <= i < |topic| ==> NotAhead(topic, i)
  }

  lemma {:induction false} ReachMonotone(topic: seq<nat>, m: nat, n: nat)
    requires m <= n <= |topic|
    ensures Reach(topic, m) <= Reach(topic, n)
    ensures forall i :: m <= i < n ==> topic[i] < Reach(topic, n)
  {
    if m < n {
      ReachMonotone(topic, m, n - 1);
    }
  }

  lemma {:induction false} ReachAppend(topic: seq<nat>, x: nat, n: nat)
    requires n <= |topic|
    ensures Reach(topic + [x], n) == Reach(topic, n)
  {
    if n > 0 {
      ReachAppend(topic, x, n - 1);
    }
  }

  lemma GaplessAppend(topic: seq<nat>, x: nat)
    requires Gapless(topic) && x <= Reach(topic, |topic|)
    ensures Gapless(topic + [x])
    ensures Reach(topic + [x], |topic| + 1) == if x < Reach(topic, |topic|) then Reach(topic, |topic|) else x + 1
  {
    var topic' := topic + [x];
    ReachAppend(topic, x, |topic|);
    forall i | 0 <= i < |topic'| ensures NotAhead(topic', i) {
      ReachAppend(topic, x, i);
      assert i < |topic| ==> NotAhead(topic, i);
    }
  }

  /** In a gapless topic, whatever lies between two reaches is carried by a message between
      them. */
  lemma {:induction false} CarriedBetween(topic: seq<nat>, m: nat, n: nat, x: nat) returns (i: nat)
    requires Gapless(topic) && m <= n <= |topic|
    requires Reach(topic, m) <= x < Reach(topic, n)
    ensures m <= i < n && topic[i] == x
  {
    if x < Reach(topic, n - 1) {
      ReachMonotone(topic, m, n - 1);
      i := CarriedBetween(topic, m, n - 1, x);
    } else {
      i := n - 1;
      assert NotAhead(topic, i);
    }
  }

  ghost function ChangesTo(log: seq<Change>, p: nat): set<Change>
    requires p <= |log|
  {
    set i | 0 <= i < p :: log[i]
  }

  // ---- The invariant ------------------------------------------------------------------

  /** The typed table represents the changes up to position p, the event log holds exactly
      the first e messages, and both are at least as far as the committed offset. */
  ghost predicate Inv(t: Table, s: State, p: nat, e: nat) {
    && WellFormed(s) && ValidLog(t, s.log) && Gapless(s.topic)
    && s.sent <= Reach(s.topic, |s.topic|)
    && p <= Reach(s.topic, |s.topic|) <= |s.log|
    && Represents(t, s.typed, ChangesTo(s.log, p))
    && Reach(s.topic, s.committed) <= p
    && (s.block.Held? && s.block.landed ==> Reach(s.topic, s.block.hi) <= p)
    && s.committed <= e <= |s.topic|
    && (s.block.Held? && s.block.logged ==> s.block.hi <= e)
    && HoldsMessages(t, s, e)
  }

  ghost predicate HoldsMessages(t: Table, s: State, e: nat)
    requires WellFormed(s)
  {
    && e <= |s.topic|
    && (forall r :: r in s.events ==> r.offset < e && r.payload == Render(t, s.log[s.topic[r.offset]]))
    && (forall o :: 0 <= o < e ==> Recorded(s.events, o))
  }

  /** The changes that messages lo..hi carry. */
  ghost function MessageChanges(s: State, lo: nat, hi: nat): set<Change>
    requires WellFormed(s) && lo <= hi <= |s.topic|
  {
    if lo == hi then {} else MessageChanges(s, lo, hi - 1) + {s.log[s.topic[hi - 1]]}
  }

  lemma {:induction false} ReachBounded(s: State, n: nat)
    requires WellFormed(s) && n <= |s.topic|
    ensures Reach(s.topic, n) <= |s.log|
  {
    if n > 0 {
      ReachBounded(s, n - 1);
    }
  }

  lemma {:induction false} MessageChangesAre(s: State, lo: nat, hi: nat)
    requires WellFormed(s) && lo <= hi <= |s.topic| && Reach(s.topic, hi) <= |s.log|
    ensures forall i :: lo <= i < hi ==> s.log[s.topic[i]] in MessageChanges(s, lo, hi)
    ensures MessageChanges(s, lo, hi) <= ChangesTo(s.log, Reach(s.topic, hi))
  {
    if lo < hi {
      MessageChangesAre(s, lo, hi - 1);
    }
  }

  /** Every row of a sum comes from one of its terms, and every row of a term is in the sum. */
  lemma {:induction false} SumFrom(f: nat -> multiset<Row>, lo: nat, hi: nat, r: Row) returns (i: nat)
    requires lo <= hi && r in Sum(f, lo, hi)
    ensures lo <= i < hi && r in f(i)
  {
    if r in f(hi - 1) {
      i := hi - 1;
    } else {
      i := SumFrom(f, lo, hi - 1, r);
    }
  }

  lemma {:induction false} SumIn(f: nat -> multiset<Row>, lo: nat, hi: nat, i: nat, r: Row)
    requires lo <= i < hi && r in f(i)
    ensures r in Sum(f, lo, hi)
  {
    if i < hi - 1 {
      SumIn(f, lo, hi - 1, i, r);
    }
  }

  lemma {:induction false} MessageChangesFrom(s: State, lo: nat, hi: nat, c: Change)
    requires WellFormed(s) && lo <= hi <= |s.topic|
    ensures c in MessageChanges(s, lo, hi) <==> exists i :: lo <= i < hi && c == s.log[s.topic[i]]
  {
    if lo < hi {
      MessageChangesFrom(s, lo, hi - 1, c);
    }
  }

  lemma TypedRowStems(t: Table, s: State, changes: set<Change>, lo: nat, hi: nat, at: nat, r: Row)
    requires WellFormed(s) && lo <= hi <= |s.topic| && r in TypedRows(t, s, lo, hi, at)
    requires forall i {:trigger s.log[i]} :: 0 <= i < |s.log| ==> SchemaKey(t, s.log[i].key)
    ensures Complete(r.key) && Stems(t, r, changes + MessageChanges(s, lo, hi))
  {
    var i := SumFrom(Deliveries(t, s, at), lo, hi, r);
    var c := s.log[s.topic[i]];
    RenderThenType(t, c, at);
    MessageChangesFrom(s, lo, hi, c);
    assert Carries(t, r, c);
  }

  lemma MessageIsTyped(t: Table, s: State, lo: nat, hi: nat, at: nat, c: Change)
    requires WellFormed(s) && lo <= hi <= |s.topic| && c in MessageChanges(s, lo, hi) && Complete(c.key)
    requires forall i {:trigger s.log[i]} :: 0 <= i < |s.log| ==> SchemaKey(t, s.log[i].key)
    ensures Covers(TypedRows(t, s, lo, hi, at), c.key, c.lsn)
  {
    MessageChangesFrom(s, lo, hi, c);
    var i :| lo <= i < hi && c == s.log[s.topic[i]];
    RenderThenType(t, c, at);
    SumIn(Deliveries(t, s, at), lo, hi, i, TypedRow(t, Render(t, c), at));
  }

  lemma CoversMore(rows: multiset<Row>, more: multiset<Row>, k: Key, v: nat)
    requires Covers(rows, k, v) || Covers(more, k, v)
    ensures Covers(rows + more, k, v)
  {
    if Covers(rows, k, v) {
      var r :| r in rows && r.key == k && r.version >= v;
      assert r in rows + more;
    } else {
      var r :| r in more && r.key == k && r.version >= v;
      assert r in rows + more;
    }
  }

  /** Flushing a block of messages adds their changes, and only them. */
  lemma BlockAddsChanges(t: Table, s: State, rows: multiset<Row>, changes: set<Change>, lo: nat, hi: nat, at: nat)
    requires WellFormed(s) && lo <= hi <= |s.topic| && Represents(t, rows, changes)
    requires forall i {:trigger s.log[i]} :: 0 <= i < |s.log| ==> SchemaKey(t, s.log[i].key)
    ensures Represents(t, rows + TypedRows(t, s, lo, hi, at), changes + MessageChanges(s, lo, hi))
  {
    var block, known := TypedRows(t, s, lo, hi, at), changes + MessageChanges(s, lo, hi);
    forall r | r in rows + block ensures Complete(r.key) && Stems(t, r, known) {
      if r in rows {
        assert Stems(t, r, changes);
        var c :| c in changes && Carries(t, r, c);
        assert c in known;
      } else {
        TypedRowStems(t, s, changes, lo, hi, at, r);
      }
    }
    forall c | c in known && Complete(c.key) ensures Covers(rows + block, c.key, c.lsn) {
      if c !in changes {
        MessageIsTyped(t, s, lo, hi, at, c);
      }
      CoversMore(rows, block, c.key, c.lsn);
    }
  }

  /** The visible position moves to what the block reaches, never back. */
  lemma FlushTypedKeeps(t: Table, lag: nat, s: State, at: nat, p: nat, e: nat) returns (p': nat)
    requires Inv(t, s, p, e) && Enabled(t, lag, s, FlushTyped(at))
    ensures p' >= p && Inv(t, Do(t, lag, s, FlushTyped(at)), p', e)
  {
    var lo, hi := s.committed, s.block.hi;
    p' := if Reach(s.topic, hi) > p then Reach(s.topic, hi) else p;
    ReachMonotone(s.topic, hi, |s.topic|);
    forall i | 0 <= i < |s.log| ensures SchemaKey(t, s.log[i].key) {
      assert LegalAt(t, s.log, i);
    }
    BlockAddsChanges(t, s, s.typed, ChangesTo(s.log, p), lo, hi, at);
    BlockReaches(t, s, lo, hi, p, p');
  }

  lemma BlockReaches(t: Table, s: State, lo: nat, hi: nat, p: nat, p': nat)
    requires WellFormed(s) && Gapless(s.topic) && lo <= hi <= |s.topic|
    requires Reach(s.topic, lo) <= p <= p' <= |s.log|
    requires p' == if Reach(s.topic, hi) > p then Reach(s.topic, hi) else p
    ensures ChangesTo(s.log, p) + MessageChanges(s, lo, hi) == ChangesTo(s.log, p')
  {
    ReachMonotone(s.topic, lo, hi);
    MessageChangesAre(s, lo, hi);
    forall c | c in ChangesTo(s.log, p') ensures c in ChangesTo(s.log, p) + MessageChanges(s, lo, hi) {
      var j :| 0 <= j < p' && c == s.log[j];
      if p <= j {
        var i := CarriedBetween(s.topic, lo, hi, j);
        assert s.log[s.topic[i]] in MessageChanges(s, lo, hi);
      }
    }
  }

  // ---- Every step keeps the invariant ------------------------------------------------

  lemma WriteKeeps(t: Table, lag: nat, s: State, c: Change, p: nat, e: nat)
    requires Inv(t, s, p, e) && Enabled(t, lag, s, Write(c))
    ensures Inv(t, Do(t, lag, s, Write(c)), p, e)
  {
    ValidAppend(t, s.log, c);
    ChangesAppend(s.log, c, p);
  }

  lemma ChangesAppend(log: seq<Change>, c: Change, p: nat)
    requires p <= |log|
    ensures ChangesTo(log + [c], p) == ChangesTo(log, p)
  {
    forall i | 0 <= i < p ensures log[i] in ChangesTo(log + [c], p) {
      assert (log + [c])[i] == log[i];
    }
    forall i | 0 <= i < p ensures (log + [c])[i] in ChangesTo(log, p) {
      assert (log + [c])[i] == log[i];
    }
  }

  lemma SendKeeps(t: Table, lag: nat, s: State, p: nat, e: nat)
    requires Inv(t, s, p, e) && Enabled(t, lag, s, Send)
    ensures Inv(t, Do(t, lag, s, Send), p, e)
  {
    GaplessAppend(s.topic, s.sent);
    ReachAppend(s.topic, s.sent, s.committed);
    if s.block.Held? {
      ReachAppend(s.topic, s.sent, s.block.hi);
    }
  }

  lemma {:induction false} EventRowsAre(t: Table, s: State, lo: nat, hi: nat, at: nat)
    requires WellFormed(s) && lo <= hi <= |s.topic|
    ensures forall r :: r in EventRows(t, s, lo, hi, at) <==>
                        lo <= r.offset < hi && r == LogRow(r.offset, Render(t, s.log[s.topic[r.offset]]), at)
  {
    if lo < hi {
      EventRowsAre(t, s, lo, hi - 1, at);
    }
  }

  lemma FlushEventsKeeps(t: Table, lag: nat, s: State, at: nat, p: nat, e: nat) returns (e': nat)
    requires Inv(t, s, p, e) && Enabled(t, lag, s, FlushEvents(at))
    ensures e' >= e && Inv(t, Do(t, lag, s, FlushEvents(at)), p, e')
  {
    var lo, hi, s' := s.committed, s.block.hi, Do(t, lag, s, FlushEvents(at));
    e' := if hi > e then hi else e;
    EventRowsAre(t, s, lo, hi, at);
    forall o | 0 <= o < e' ensures Recorded(s'.events, o) {
      if o < e {
        assert Recorded(s.events, o);
        var r :| r in s.events && r.offset == o;
        assert r in s'.events;
      } else {
        assert LogRow(o, Render(t, s.log[s.topic[o]]), at) in s'.events;
      }
    }
  }

  lemma MergeEventsKeeps(t: Table, lag: nat, s: State, after: multiset<LogRow>, p: nat, e: nat)
    requires Inv(t, s, p, e) && Enabled(t, lag, s, MergeEvents(after))
    ensures Inv(t, Do(t, lag, s, MergeEvents(after)), p, e)
  {
    forall o | 0 <= o < e ensures Recorded(after, o) {
      assert Recorded(s.events, o);
    }
  }

  /** Positions only move forward, whatever happens. */
  lemma StepKeeps(t: Table, lag: nat, s: State, step: Step, p: nat, e: nat) returns (p': nat, e': nat)
    requires Inv(t, s, p, e) && Enabled(t, lag, s, step)
    ensures p' >= p && e' >= e && Inv(t, Do(t, lag, s, step), p', e')
  {
    p', e' := p, e;
    match step
    case Write(c) => WriteKeeps(t, lag, s, c, p, e);
    case Send => SendKeeps(t, lag, s, p, e);
    case FlushEvents(at) => e' := FlushEventsKeeps(t, lag, s, at, p, e);
    case FlushTyped(at) => p' := FlushTypedKeeps(t, lag, s, at, p, e);
    case MergeEvents(after) => MergeEventsKeeps(t, lag, s, after, p, e);
    case MergeTyped(after) => MergeKeepsMeaning(t, s.typed, after, ChangesTo(s.log, p));
    case _ =>
  }

  // ---- What a read sees ----------------------------------------------------------------

  lemma OrderedDistinguishes(log: seq<Change>, p: nat)
    requires Ordered(log) && p <= |log|
    ensures Distinguished(ChangesTo(log, p))
  {
    forall c, d | c in ChangesTo(log, p) && d in ChangesTo(log, p) && c.key == d.key && c.lsn == d.lsn ensures c == d {
      var i :| 0 <= i < p && c == log[i];
      var j :| 0 <= j < p && d == log[j];
    }
  }

  /** The last change of a key decides what the source table holds for it. */
  lemma {:induction false} WinnerIsSource(log: seq<Change>, p: nat, c: Change)
    requires Ordered(log) && p <= |log| && Wins(ChangesTo(log, p), c)
    ensures c.key in SourceAt(log, p) <==> !c.kind.Delete?
    ensures !c.kind.Delete? ==> SourceAt(log, p)[c.key] == c.kind.image
  {
    var i :| 0 <= i < p && c == log[i];
    if i < p - 1 {
      var last := log[p - 1];
      assert last in ChangesTo(log, p);
      assert last.key != c.key;
      assert ChangesTo(log, p - 1) <= ChangesTo(log, p);
      WinnerIsSource(log, p - 1, c);
    }
  }

  lemma {:induction false} SourceHasWinner(log: seq<Change>, p: nat, k: Key) returns (c: Change)
    requires Ordered(log) && p <= |log| && k in SourceAt(log, p)
    ensures Wins(ChangesTo(log, p), c) && c.key == k
  {
    var last := log[p - 1];
    assert last in ChangesTo(log, p);
    if last.key == k {
      c := last;
    } else {
      c := SourceHasWinner(log, p - 1, k);
      assert ChangesTo(log, p) == ChangesTo(log, p - 1) + {last};
    }
  }

  /** The rows whose key the typed view admits. */
  function Visible(rows: map<Key, Image>): map<Key, Image> {
    map k | k in rows && Complete(k) :: rows[k]
  }

  /** The keys at a position that the typed view admits. */
  function VisibleKeys(log: seq<Change>, p: nat): set<Key>
    requires p <= |log|
  {
    Visible(SourceAt(log, p)).Keys
  }

  /** What FINAL holds for a key is what the source holds for it. */
  lemma ReadKeyIsSource(t: Table, log: seq<Change>, rows: multiset<Row>, p: nat, f: map<Key, Row>, k: Key)
    requires Ordered(log) && p <= |log| && Represents(t, rows, ChangesTo(log, p)) && IsFinal(rows, f) && k in f
    ensures Complete(k) && (f[k].isDeleted <==> k !in SourceAt(log, p))
    ensures k in SourceAt(log, p) ==> f[k].image == SourceAt(log, p)[k]
  {
    var c := FinalWinner(t, rows, ChangesTo(log, p), f, k);
    WinnerIsSource(log, p, c);
  }

  /** Every row of the source with a complete key is found by FINAL. */
  lemma SourceKeyIsRead(t: Table, log: seq<Change>, rows: multiset<Row>, p: nat, f: map<Key, Row>, k: Key)
    requires Ordered(log) && p <= |log| && Represents(t, rows, ChangesTo(log, p)) && IsFinal(rows, f)
    requires k in SourceAt(log, p) && Complete(k)
    ensures k in f
  {
    var c := SourceHasWinner(log, p, k);
    OrderedDistinguishes(log, p);
    FinalIsLatest(t, rows, ChangesTo(log, p), f, c);
  }

  /** The current-state read of a table that represents the changes up to a position is the
      source table as of that position. */
  lemma RepresentingReads(t: Table, log: seq<Change>, rows: multiset<Row>, p: nat, f: map<Key, Row>)
    requires Ordered(log) && p <= |log| && Represents(t, rows, ChangesTo(log, p)) && IsFinal(rows, f)
    ensures CurrentState(f) == Visible(SourceAt(log, p))
  {
    var source := SourceAt(log, p);
    forall k | k in f ensures f[k].isDeleted <==> k !in source
                      ensures Complete(k) && (k in source ==> f[k].image == source[k]) {
      ReadKeyIsSource(t, log, rows, p, f, k);
    }
    forall k | k in source && Complete(k) ensures k in f {
      SourceKeyIsRead(t, log, rows, p, f, k);
    }
  }

  lemma ReadIsSource(t: Table, s: State, p: nat, e: nat, f: map<Key, Row>)
    requires Inv(t, s, p, e) && IsFinal(s.typed, f)
    ensures CurrentState(f) == Visible(SourceAt(s.log, p))
  {
    RepresentingReads(t, s.log, s.typed, p, f);
  }

  // ---- Runs ----------------------------------------------------------------------------

  /** Every state of the path follows from the one before it. */
  ghost predicate IsPath(t: Table, lag: nat, path: seq<State>) {
    |path| > 0 && forall i :: 0 <= i < |path| - 1 ==> FollowsAt(t, lag, path, i)
  }

  ghost predicate FollowsAt(t: Table, lag: nat, path: seq<State>, i: nat)
    requires i < |path| - 1
  {
    Follows(t, lag, path[i], path[i + 1])
  }

  ghost predicate IsRun(t: Table, lag: nat, run: seq<State>) {
    IsPath(t, lag, run) && run[0] == INITIAL
  }

  ghost predicate Follows(t: Table, lag: nat, s: State, s': State) {
    WellFormed(s) && exists step :: Enabled(t, lag, s, step) && s' == Do(t, lag, s, step)
  }

  /** Positions that witness the invariant in the first n states of a run. */
  ghost predicate Tracks(t: Table, run: seq<State>, n: nat, ps: seq<nat>, es: seq<nat>) {
    && |ps| == |es| == n <= |run|
    && forall i :: 0 <= i < n ==> Inv(t, run[i], ps[i], es[i])
  }

  ghost predicate Monotone(ps: seq<nat>) {
    forall i, j :: 0 <= i <= j < |ps| ==> ps[i] <= ps[j]
  }

  lemma NextPosition(t: Table, lag: nat, s: State, s': State, p: nat, e: nat) returns (p': nat, e': nat)
    requires Inv(t, s, p, e) && Follows(t, lag, s, s')
    ensures p' >= p && e' >= e && Inv(t, s', p', e')
  {
    var step :| Enabled(t, lag, s, step) && s' == Do(t, lag, s, step);
    p', e' := StepKeeps(t, lag, s, step, p, e);
  }

  lemma NextInRun(t: Table, lag: nat, run: seq<State>, i: nat, p: nat, e: nat) returns (p': nat, e': nat)
    requires IsRun(t, lag, run) && i < |run| - 1 && Inv(t, run[i], p, e)
    ensures p' >= p && e' >= e && Inv(t, run[i + 1], p', e')
  {
    assert FollowsAt(t, lag, run, i);
    p', e' := NextPosition(t, lag, run[i], run[i + 1], p, e);
  }

  lemma TracksMore(t: Table, run: seq<State>, n: nat, ps: seq<nat>, es: seq<nat>, p: nat, e: nat)
    requires n < |run| && Tracks(t, run, n, ps, es) && Inv(t, run[n], p, e)
    ensures Tracks(t, run, n + 1, ps + [p], es + [e])
  {
  }

  lemma TrackedAt(t: Table, run: seq<State>, n: nat, ps: seq<nat>, es: seq<nat>, i: nat)
    requires Tracks(t, run, n, ps, es) && i < n
    ensures Inv(t, run[i], ps[i], es[i])
  {
  }

  /** The positions so far are extended by those of the next state. */
  ghost predicate Extended(ps: seq<nat>, ps': seq<nat>) {
    |ps'| == |ps| + 1 && (Monotone(ps) ==> Monotone(ps'))
  }

  lemma ExtendedBy(ps: seq<nat>, p: nat)
    requires |ps| > 0 && ps[|ps| - 1] <= p
    ensures Extended(ps, ps + [p])
  {
  }

  lemma RunStep(t: Table, lag: nat, run: seq<State>, i: nat, ps: seq<nat>, es: seq<nat>) returns (ps': seq<nat>, es': seq<nat>)
    requires IsRun(t, lag, run) && i < |run| - 1 && Tracks(t, run, i + 1, ps, es)
    ensures Tracks(t, run, i + 2, ps', es') && Extended(ps, ps') && Extended(es, es')
  {
    TrackedAt(t, run, i + 1, ps, es, i);
    var p, e := NextInRun(t, lag, run, i, ps[i], es[i]);
    TracksMore(t, run, i + 1, ps, es, p, e);
    ExtendedBy(ps, p);
    ExtendedBy(es, e);
    ps', es' := ps + [p], es + [e];
  }

  lemma TracksFirst(t: Table, lag: nat, run: seq<State>)
    requires IsRun(t, lag, run)
    ensures Tracks(t, run, 1, [0], [0])
  {
    InitialInv(t);
  }

  lemma {:induction false} RunKeeps(t: Table, lag: nat, run: seq<State>, i: nat) returns (ps: seq<nat>, es: seq<nat>)
    requires IsRun(t, lag, run) && i < |run|
    ensures Tracks(t, run, i + 1, ps, es) && Monotone(ps) && Monotone(es)
  {
    if i == 0 {
      ps, es := [0], [0];
      TracksFirst(t, lag, run);
    } else {
      ps, es := RunKeeps(t, lag, run, i - 1);
      ps, es := RunStep(t, lag, run, i - 1, ps, es);
    }
  }

  lemma InitialInv(t: Table)
    ensures Inv(t, INITIAL, 0, 0)
  {
  }

  /** Any current-state read in s returns the source table as of position p, which covers at
      least what the consumer has committed. */
  ghost predicate ReadsAsOf(s: State, p: nat) {
    && WellFormed(s) && Reach(s.topic, s.committed) <= p <= |s.log|
    && forall f :: IsFinal(s.typed, f) ==> CurrentState(f) == Visible(SourceAt(s.log, p))
  }

  lemma InvReads(t: Table, s: State, p: nat, e: nat)
    requires Inv(t, s, p, e)
    ensures ReadsAsOf(s, p)
  {
    forall f | IsFinal(s.typed, f) ensures CurrentState(f) == Visible(SourceAt(s.log, p)) {
      ReadIsSource(t, s, p, e, f);
    }
  }

  /** Monotone prefix consistency. In every run there is a log position for each state such
      that any current-state read in that state returns the source table as of that position,
      positions never move back, and a position covers at least what the consumer committed. */
  lemma PrefixConsistency(t: Table, lag: nat, run: seq<State>) returns (ps: seq<nat>)
    requires IsRun(t, lag, run)
    ensures |ps| == |run| && Monotone(ps)
    ensures forall i :: 0 <= i < |run| ==> ReadsAsOf(run[i], ps[i])
  {
    var es;
    ps, es := RunKeeps(t, lag, run, |run| - 1);
    forall i | 0 <= i < |run| ensures ReadsAsOf(run[i], ps[i]) {
      InvReads(t, run[i], ps[i], es[i]);
    }
  }

  /** Everything written has been sent, and everything sent has been committed. */
  predicate Drained(s: State) {
    s.sent == |s.log| && s.committed == |s.topic|
  }

  lemma DrainedPosition(t: Table, s: State, p: nat, e: nat, f: map<Key, Row>)
    requires Inv(t, s, p, e) && Drained(s) && IsFinal(s.typed, f)
    ensures CurrentState(f) == Visible(SourceAt(s.log, |s.log|))
  {
    ReadIsSource(t, s, p, e, f);
  }

  /** Convergence: a drained pipeline reads as the source table itself; exactly that table
      when every key in it is complete. */
  lemma DrainedReadIsSource(t: Table, lag: nat, run: seq<State>, f: map<Key, Row>)
    requires IsRun(t, lag, run)
    requires Drained(run[|run| - 1]) && IsFinal(run[|run| - 1].typed, f)
    ensures var log := run[|run| - 1].log;
            && CurrentState(f) == Visible(SourceAt(log, |log|))
            && ((forall k :: k in SourceAt(log, |log|) ==> Complete(k)) ==> CurrentState(f) == SourceAt(log, |log|))
  {
    var n := |run| - 1;
    var ps, es := RunKeeps(t, lag, run, |run| - 1);
    DrainedPosition(t, run[n], ps[n], es[n], f);
    VisibleIsAll(SourceAt(run[n].log, |run[n].log|));
  }

  lemma VisibleIsAll(rows: map<Key, Image>)
    ensures (forall k :: k in rows ==> Complete(k)) ==> Visible(rows) == rows
  {
  }

  // ---- The event log --------------------------------------------------------------------

  /** What FINAL may return over the event log: one row for each offset in it. */
  ghost predicate IsFinalLog(events: multiset<LogRow>, f: map<nat, LogRow>) {
    && (forall o :: o in f ==> f[o].offset == o && f[o] in events)
    && (forall r :: r in events ==> r.offset in f)
  }

  lemma {:induction false} Upto(n: nat) returns (offsets: set<nat>)
    ensures |offsets| == n
    ensures forall o: nat :: o in offsets <==> o < n
  {
    offsets := {};
    if n > 0 {
      offsets := Upto(n - 1);
      offsets := offsets + {n - 1};
    }
  }

  /** A committed message is typed, or superseded by a later version, or shown by quarantine
      with a reason. */
  ghost predicate NotLost(t: Table, s: State, o: nat)
    requires WellFormed(s) && o < |s.topic|
  {
    var c := s.log[s.topic[o]];
    if Quarantined(Render(t, c)) then QuarantineReason(Render(t, c)) == IncompleteKey
    else Covers(s.typed, c.key, c.lsn)
  }

  lemma CommittedIsNotLost(t: Table, s: State, p: nat, e: nat, o: nat)
    requires Inv(t, s, p, e) && o < s.committed
    ensures NotLost(t, s, o)
  {
    var c := s.log[s.topic[o]];
    ReachMonotone(s.topic, o, s.committed);
    assert c in ChangesTo(s.log, p) && LegalAt(t, s.log, s.topic[o]);
    RenderThenType(t, c, 0);
    assert Complete(c.key) ==> Covers(s.typed, c.key, c.lsn);
  }

  lemma FinalLogIs(t: Table, s: State, p: nat, e: nat, f: map<nat, LogRow>)
    requires Inv(t, s, p, e) && IsFinalLog(s.events, f)
    ensures |f| == e
    ensures forall o :: o in f <==> 0 <= o < e
  {
    forall o | 0 <= o < e ensures o in f {
      assert Recorded(s.events, o);
    }
    var offsets := Upto(e);
    assert f.Keys == offsets;
  }

  /** Redelivery is harmless: a FINAL read of the event log holds a gapless prefix of the
      topic, each message once, at least up to the committed offset, and nothing that was
      committed is lost between the typed table and quarantine. */
  lemma EventLogIsTopicPrefix(t: Table, lag: nat, run: seq<State>, i: nat, f: map<nat, LogRow>) returns (e: nat)
    requires IsRun(t, lag, run) && i < |run| && IsFinalLog(run[i].events, f)
    ensures WellFormed(run[i]) && run[i].committed <= e <= |run[i].topic|
    ensures |f| == e && forall o :: o in f <==> 0 <= o < e
    ensures forall o :: o in f ==> f[o].payload == Render(t, run[i].log[run[i].topic[o]])
    ensures forall o :: 0 <= o < run[i].committed ==> NotLost(t, run[i], o)
  {
    var ps, es := RunKeeps(t, lag, run, |run| - 1);
    e := es[i];
    assert Inv(t, run[i], ps[i], e);
    FinalLogIs(t, run[i], ps[i], e, f);
    forall o | 0 <= o < run[i].committed ensures NotLost(t, run[i], o) {
      CommittedIsNotLost(t, run[i], ps[i], e, o);
    }
  }
}
