/** The ClickHouse landing layer: the materialized views that type each message, the
    ReplacingMergeTree tables they feed, and the current-state read over them. */
module Landing {
  import opened Model

  /** What JSONExtract finds in one flattened Debezium message. */
  datatype Payload = Payload(
    srcTable: string, op: string, deleted: string, lsn: nat,
    country: string, indicator: string, year: int, image: Image)

  /** One row version of a typed landing table. */
  datatype Row = Row(key: Key, version: nat, isDeleted: bool, image: Image, synced: nat)

  function TableName(t: Table): string {
    match t
    case Country => "country"
    case Indicator => "indicator"
    case Observation => "observation"
  }

  /** A delete event carries only the key; every other column is a schema default. */
  function BlankImage(t: Table): Image {
    var cols := match t
      case Country => CountryCols("", [], None, None)
      case Indicator => IndicatorCols("", [])
      case Observation => ObservationCols(None, None, None);
    Image(cols, OtherText(""), 0)
  }

  /** The message Debezium emits for a change of table t. */
  function Render(t: Table, c: Change): Payload {
    var (op, deleted, image) := match c.kind
      case Insert(im) => ("c", "false", im)
      case Update(im) => ("u", "false", im)
      case Delete => ("d", "true", BlankImage(t));
    match c.key
    case CountryKey(id) => Payload(TableName(t), op, deleted, c.lsn, id, "", 0, image)
    case IndicatorKey(id) => Payload(TableName(t), op, deleted, c.lsn, "", id, 0, image)
    case ObservationKey(country, indicator, year) =>
      Payload(TableName(t), op, deleted, c.lsn, country, indicator, year, image)
  }

  /** The WHERE clause of the typed view of table t. */
  predicate PassesFilter(t: Table, m: Payload) {
    match t
    case Country => m.country != ""
    case Indicator => m.indicator != ""
    case Observation => m.country != "" && m.indicator != "" && m.year != 0
  }

  /** Writing an Int64 into an Int16 column keeps the low sixteen bits. */
  function ToInt16(n: int): int {
    (n + 32768) % 65536 - 32768
  }

  /** The result fits the column and differs from the number by a multiple of 65536. */
  lemma Int16Wraps(n: int)
    ensures -32768 <= ToInt16(n) <= 32767 && (n - ToInt16(n)) % 65536 == 0
    ensures -32768 <= n <= 32767 ==> ToInt16(n) == n
  {
  }

  /** The row the typed view of table t writes for a message. */
  function TypedRow(t: Table, m: Payload, synced: nat): Row {
    var key := match t
      case Country => CountryKey(m.country)
      case Indicator => IndicatorKey(m.indicator)
      case Observation => ObservationKey(m.country, m.indicator, ToInt16(m.year));
    Row(key, m.lsn, m.deleted == "true", m.image, synced)
  }

  /** A key whose text parts are not empty. */
  predicate Complete(k: Key) {
    match k
    case CountryKey(id) => id != ""
    case IndicatorKey(id) => id != ""
    case ObservationKey(country, indicator, year) => country != "" && indicator != "" && year != 0
  }

  /** A typed row carries exactly the change it was rendered from. */
  predicate Carries(t: Table, r: Row, c: Change) {
    && r.key == c.key && r.version == c.lsn && r.isDeleted == c.kind.Delete?
    && r.image == if c.kind.Delete? then BlankImage(t) else c.kind.image
  }

  /** Typing a rendered change loses nothing: the filter admits it exactly when its key is
      complete, and the row carries key, version, deletion mark and columns. */
  lemma RenderThenType(t: Table, c: Change, synced: nat)
    requires SchemaKey(t, c.key)
    ensures PassesFilter(t, Render(t, c)) <==> Complete(c.key)
    ensures Carries(t, TypedRow(t, Render(t, c), synced), c)
    ensures TypedRow(t, Render(t, c), synced).synced == synced
  {
  }

  /** The operation of a message tells the kind of its change, and a snapshot message, which has
      operation r, is typed as the insert of the same row. */
  lemma OperationTells(t: Table, c: Change, synced: nat)
    ensures var m := Render(t, c);
            && m.srcTable == (match t case Country => "country" case Indicator => "indicator" case Observation => "observation")
            && (m.op == "c" <==> c.kind.Insert?) && (m.op == "u" <==> c.kind.Update?) && (m.op == "d" <==> c.kind.Delete?)
            && (m.deleted == "true" <==> c.kind.Delete?)
            && TypedRow(t, m.(op := "r"), synced) == TypedRow(t, m, synced)
            && (PassesFilter(t, m.(op := "r")) <==> PassesFilter(t, m))
            && !(PassesFilter(t, m) && Quarantined(m.(op := "r")))
  {
  }

  // ---- Merges and FINAL -------------------------------------------------------------

  /** Some row of the key is at least as new as version v. */
  ghost predicate Covers(rows: multiset<Row>, k: Key, v: nat) {
    exists r :: r in rows && r.key == k && r.version >= v
  }

  /** Any number of background merges: rows only disappear, and a row disappears only if a
      row of the same key that is at least as new stays. */
  ghost predicate Merged(before: multiset<Row>, after: multiset<Row>) {
    && after <= before
    && forall r {:trigger Covers(after, r.key, r.version)} :: r in before ==> Covers(after, r.key, r.version)
  }

  /** r holds the highest version of its key. Copies made by redelivery tie. */
  ghost predicate Newest(rows: multiset<Row>, r: Row) {
    && r in rows
    && forall r' :: r' in rows && r'.key == r.key ==> r'.version <= r.version
  }

  /** What FINAL may return: one newest row for each key, ties resolved in any way. */
  ghost predicate IsFinal(rows: multiset<Row>, f: map<Key, Row>) {
    && (forall k :: k in f ==> f[k].key == k && Newest(rows, f[k]))
    && (forall r :: r in rows ==> r.key in f)
  }

  /** `ch_current_state`: FINAL, then the tombstone filter, on the source columns. */
  function CurrentState(f: map<Key, Row>): map<Key, Image> {
    map k | k in f && !f[k].isDeleted :: f[k].image
  }

  /** FINAL is always defined. */
  lemma {:induction false} FinalExists(rows: multiset<Row>) returns (f: map<Key, Row>)
    ensures IsFinal(rows, f)
  {
    if rows == multiset{} {
      f := map[];
    } else {
      var r :| r in rows;
      f := FinalExists(rows - multiset{r});
      f := FinalOfOneMore(rows, r, f);
    }
  }

  lemma FinalOfOneMore(rows: multiset<Row>, r: Row, f: map<Key, Row>) returns (f': map<Key, Row>)
    requires r in rows && IsFinal(rows - multiset{r}, f)
    ensures IsFinal(rows, f')
  {
    var rest := rows - multiset{r};
    f' := if r.key !in f || f[r.key].version <= r.version then f[r.key := r] else f;
    forall k | k in f' ensures f'[k].key == k && Newest(rows, f'[k]) {
      assert k != r.key ==> Newest(rest, f[k]);
      forall x | x in rows && x.key == k ensures x.version <= f'[k].version {
        assert x == r || x in rest;
      }
    }
    forall x | x in rows ensures x.key in f' {
      assert x == r || x in rest;
    }
  }

  // ---- What a table represents -------------------------------------------------------

  /** The row carries one of the changes. */
  ghost predicate Stems(t: Table, r: Row, changes: set<Change>) {
    exists c :: c in changes && Carries(t, r, c)
  }

  /** The table holds a set of changes: every row carries one of them, and every change
      with a complete key is there or has been superseded. */
  ghost predicate Represents(t: Table, rows: multiset<Row>, changes: set<Change>) {
    && (forall r :: r in rows ==> Complete(r.key) && Stems(t, r, changes))
    && (forall c {:trigger Covers(rows, c.key, c.lsn)} :: c in changes && Complete(c.key) ==> Covers(rows, c.key, c.lsn))
  }

  /** Log sequence numbers tell the changes of one key apart. */
  ghost predicate Distinguished(changes: set<Change>) {
    forall c, d :: c in changes && d in changes && c.key == d.key && c.lsn == d.lsn ==> c == d
  }

  /** c is the last change of its key. */
  ghost predicate Wins(changes: set<Change>, c: Change) {
    && c in changes
    && forall d :: d in changes && d.key == c.key ==> d.lsn <= c.lsn
  }

  /** Merges never change what a table represents. */
  lemma MergeKeepsMeaning(t: Table, before: multiset<Row>, after: multiset<Row>, changes: set<Change>)
    requires Represents(t, before, changes) && Merged(before, after)
    ensures Represents(t, after, changes)
  {
    forall c | c in changes && Complete(c.key) ensures Covers(after, c.key, c.lsn) {
      assert Covers(before, c.key, c.lsn);
      var r :| r in before && r.key == c.key && r.version >= c.lsn;
      assert Covers(after, r.key, r.version);
    }
  }

  /** FINAL finds, for each complete key, a row carrying the last change of that key. */
  lemma FinalIsLatest(t: Table, rows: multiset<Row>, changes: set<Change>, f: map<Key, Row>, c: Change)
    requires Represents(t, rows, changes) && Distinguished(changes) && IsFinal(rows, f)
    requires Wins(changes, c) && Complete(c.key)
    ensures c.key in f && Carries(t, f[c.key], c)
  {
    assert Covers(rows, c.key, c.lsn);
    var r :| r in rows && r.key == c.key && r.version >= c.lsn;
    var w := f[c.key];
    assert Newest(rows, w) && Stems(t, w, changes);
    var d :| d in changes && Carries(t, w, d);
    assert d.lsn <= c.lsn && r.version <= w.version;
  }

  /** Conversely, whatever FINAL finds carries the last change of its key. */
  lemma FinalWinner(t: Table, rows: multiset<Row>, changes: set<Change>, f: map<Key, Row>, k: Key) returns (c: Change)
    requires Represents(t, rows, changes) && IsFinal(rows, f) && k in f
    ensures c.key == k && Complete(k) && Wins(changes, c) && Carries(t, f[k], c)
  {
    assert Newest(rows, f[k]) && Stems(t, f[k], changes);
    c :| c in changes && Carries(t, f[k], c);
    forall d | d in changes && d.key == k ensures d.lsn <= c.lsn {
      assert Covers(rows, k, d.lsn);
    }
  }

  /** What one read finds, another read of the same changes finds as well. */
  lemma ReadsTheSame(t: Table, changes: set<Change>,
                     rows: multiset<Row>, f: map<Key, Row>, rows': multiset<Row>, f': map<Key, Row>, k: Key)
    requires Distinguished(changes)
    requires Represents(t, rows, changes) && IsFinal(rows, f) && k in f
    requires Represents(t, rows', changes) && IsFinal(rows', f')
    ensures k in f' && f[k].isDeleted == f'[k].isDeleted && f[k].image == f'[k].image
  {
    var c := FinalWinner(t, rows, changes, f, k);
    FinalIsLatest(t, rows', changes, f', c);
  }

  /** Whatever f finds, f' finds alike. */
  ghost predicate FoundAlike(f: map<Key, Row>, f': map<Key, Row>) {
    forall k :: k in f ==> k in f' && f[k].isDeleted == f'[k].isDeleted && f[k].image == f'[k].image
  }

  lemma AlikeReadsTheSame(f: map<Key, Row>, f': map<Key, Row>)
    requires FoundAlike(f, f') && FoundAlike(f', f)
    ensures CurrentState(f) == CurrentState(f')
  {
  }

  lemma ReadsAlike(t: Table, changes: set<Change>,
                   rows: multiset<Row>, f: map<Key, Row>, rows': multiset<Row>, f': map<Key, Row>)
    requires Distinguished(changes)
    requires Represents(t, rows, changes) && IsFinal(rows, f)
    requires Represents(t, rows', changes) && IsFinal(rows', f')
    ensures FoundAlike(f, f')
  {
    forall k | k in f ensures k in f' && f[k].isDeleted == f'[k].isDeleted && f[k].image == f'[k].image {
      ReadsTheSame(t, changes, rows, f, rows', f', k);
    }
  }

  /** Two tables that represent the same changes read the same, whatever copies and merge
      states they hold and however FINAL resolves ties. */
  lemma SameChangesSameRead(t: Table, changes: set<Change>,
                            rows: multiset<Row>, f: map<Key, Row>, rows': multiset<Row>, f': map<Key, Row>)
    requires Distinguished(changes)
    requires Represents(t, rows, changes) && IsFinal(rows, f)
    requires Represents(t, rows', changes) && IsFinal(rows', f')
    ensures CurrentState(f) == CurrentState(f')
  {
    ReadsAlike(t, changes, rows, f, rows', f');
    ReadsAlike(t, changes, rows', f', rows, f);
    AlikeReadsTheSame(f, f');
  }

  // ---- Order-free convergence ---------------------------------------------------------

  /** One thing that happens to a landing table. */
  datatype Happening = Deliver(change: Change, synced: nat) | Merge

  /** The rows a delivery inserts: none if the view filters the message out. */
  function Delivery(t: Table, c: Change, synced: nat): multiset<Row> {
    if PassesFilter(t, Render(t, c)) then multiset{TypedRow(t, Render(t, c), synced)} else multiset{}
  }

  ghost predicate Happens(t: Table, before: multiset<Row>, h: Happening, after: multiset<Row>) {
    if h.Deliver? then after == before + Delivery(t, h.change, h.synced) else Merged(before, after)
  }

  ghost predicate ReachesBy(t: Table, past: seq<Happening>, h: Happening, rows: multiset<Row>)
    decreases |past|, 1
  {
    exists before :: Reaches(t, past, before) && Happens(t, before, h, rows)
  }

  /** The empty table can become `rows` by this history. */
  ghost predicate Reaches(t: Table, history: seq<Happening>, rows: multiset<Row>)
    decreases |history|, 0
  {
    if history == [] then
      rows == multiset{}
    else
      ReachesBy(t, history[..|history| - 1], history[|history| - 1], rows)
  }

  /** The distinct changes a history delivers. */
  ghost function Delivered(history: seq<Happening>): set<Change> {
    if history == [] then {}
    else
      var h := history[|history| - 1];
      Delivered(history[..|history| - 1]) + if h.Deliver? then {h.change} else {}
  }

  /** Inserting a change's row adds the change to what the table represents. */
  lemma DeliveryAddsChange(t: Table, rows: multiset<Row>, changes: set<Change>, c: Change, synced: nat)
    requires Represents(t, rows, changes) && SchemaKey(t, c.key)
    ensures Represents(t, rows + Delivery(t, c, synced), changes + {c})
  {
    RenderThenType(t, c, synced);
    var rows', changes' := rows + Delivery(t, c, synced), changes + {c};
    forall r | r in rows' ensures Complete(r.key) && Stems(t, r, changes') {
      if r in rows {
        assert Stems(t, r, changes);
        var d :| d in changes && Carries(t, r, d);
        assert d in changes';
      } else {
        assert c in changes' && Carries(t, r, c);
      }
    }
    forall d | d in changes' && Complete(d.key) ensures Covers(rows', d.key, d.lsn) {
      if d in changes {
        assert Covers(rows, d.key, d.lsn);
        var r :| r in rows && r.key == d.key && r.version >= d.lsn;
        assert r in rows';
      } else {
        assert TypedRow(t, Render(t, c), synced) in rows';
      }
    }
  }

  lemma {:induction false} HistoryRepresents(t: Table, history: seq<Happening>, rows: multiset<Row>)
    requires Reaches(t, history, rows)
    requires forall c :: c in Delivered(history) ==> SchemaKey(t, c.key)
    ensures Represents(t, rows, Delivered(history))
  {
    if history != [] {
      var past, h := history[..|history| - 1], history[|history| - 1];
      var before :| Reaches(t, past, before) && Happens(t, before, h, rows);
      HistoryRepresents(t, past, before);
      if h.Deliver? {
        DeliveryAddsChange(t, before, Delivered(past), h.change, h.synced);
      } else {
        MergeKeepsMeaning(t, before, rows, Delivered(past));
        assert Delivered(history) == Delivered(past);
      }
    }
  }

  /** Delivering the same changes in any order, any number of times, with any arrival stamps
      and any merges in between, gives the same current-state read. */
  lemma OrderFreeConvergence(t: Table, h: seq<Happening>, rows: multiset<Row>, f: map<Key, Row>,
                             h': seq<Happening>, rows': multiset<Row>, f': map<Key, Row>)
    requires Reaches(t, h, rows) && IsFinal(rows, f)
    requires Reaches(t, h', rows') && IsFinal(rows', f')
    requires Delivered(h) == Delivered(h') && Distinguished(Delivered(h))
    requires forall c :: c in Delivered(h) ==> SchemaKey(t, c.key)
    ensures CurrentState(f) == CurrentState(f')
  {
    HistoryRepresents(t, h, rows);
    HistoryRepresents(t, h', rows');
    SameChangesSameRead(t, Delivered(h), rows, f, rows', f');
  }

  // ---- Quarantine -----------------------------------------------------------------------

  datatype Reason = UnknownOperation | IncompleteKey | Unclassified

  predicate KnownOp(op: string) {
    op in {"c", "u", "d", "r"}
  }

  /** The view's reason column: the first matching branch. */
  function QuarantineReason(m: Payload): Reason {
    if !KnownOp(m.op) then UnknownOperation
    else if m.srcTable == "observation" && (m.country == "" || m.indicator == "" || m.year == 0) then IncompleteKey
    else if m.srcTable == "country" && m.country == "" then IncompleteKey
    else if m.srcTable == "indicator" && m.indicator == "" then IncompleteKey
    else Unclassified
  }

  /** The view's WHERE clause. */
  predicate Quarantined(m: Payload) {
    || !KnownOp(m.op)
    || (m.srcTable == "observation" && (m.country == "" || m.indicator == "" || m.year == 0))
    || (m.srcTable == "country" && m.country == "")
    || (m.srcTable == "indicator" && m.indicator == "")
  }

  /** A message of table t's topic that names t is typed or quarantined, and nothing in
      quarantine is unclassified. A message with a known operation is never both. */
  lemma TypedOrQuarantined(t: Table, m: Payload)
    requires m.srcTable == TableName(t)
    ensures PassesFilter(t, m) || Quarantined(m)
    ensures Quarantined(m) ==> QuarantineReason(m) == if m.op in {"c", "u", "d", "r"} then IncompleteKey else UnknownOperation
    ensures KnownOp(m.op) ==> (Quarantined(m) <==> !PassesFilter(t, m))
  {
  }
}
