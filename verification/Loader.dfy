/** The change-detecting loader: one transaction for data, rejections, audit row and
    watermark, over a PostgreSQL connection whose statements can fail. */
module Loader {
  import opened Model
  import opened Gate

  // ---- Statements over one table ------------------------------------------------------

  datatype DbError = DuplicateTarget | ForeignKey | YearCheck | SmallintRange | InvalidJson | Lost

  /** A replicated table and the change log it has emitted. */
  datatype TableState = TableState(rows: map<Key, Image>, log: seq<Change>)

  /** The keys the foreign keys may point to. */
  type Refs = Allowed

  predicate Smallint(n: int) {
    -32768 <= n < 32768
  }

  /** The type and CHECK errors of one proposed row; foreign keys are checked on insert. */
  function RowError(r: Record): Option<DbError> {
    if r.key.ObservationKey? && !Smallint(r.key.year) then Some(SmallintRange)
    else if r.cols.ObservationCols? && r.cols.decimals.Some? && !Smallint(r.cols.decimals.value) then Some(SmallintRange)
    else if r.key.ObservationKey? && !(MIN_OBS_YEAR <= r.key.year <= MAX_OBS_YEAR) then Some(YearCheck)
    else None
  }

  predicate Referenced(k: Key, refs: Refs) {
    k.ObservationKey? ==> k.country in refs.countries && k.indicator in refs.indicators
  }

  function ImageOf(r: Record, now: nat): Image {
    Image(r.cols, HashOf(r), now)
  }

  /** Progress inside one statement: the table, the keys this statement wrote, and the
      `xmax = 0` flags it returns. */
  datatype Progress = Progress(table: TableState, written: set<Key>, returned: seq<bool>)
  datatype Result<+T> = Done(value: T) | Fail(error: DbError)

  /** Log sequence numbers of this transaction start above `base`. */
  function Emit(table: TableState, k: Key, image: Image, base: nat): TableState {
    var kind := if k in table.rows then Update(image) else Insert(image);
    TableState(table.rows[k := image], table.log + [Change(k, kind, base + |table.log|)])
  }

  /** INSERT .. ON CONFLICT (key) DO UPDATE .. WHERE source_hash IS DISTINCT FROM EXCLUDED's,
      for one proposed row. A statement may not update a row it has itself written. */
  function UpsertRow(p: Progress, r: Record, refs: Refs, now: nat, base: nat): Result<Progress> {
    if RowError(r).Some? then Fail(RowError(r).value)
    else if r.key in p.written then Fail(DuplicateTarget)
    else if r.key !in p.table.rows then
      if !Referenced(r.key, refs) then Fail(ForeignKey)
      else Done(Progress(Emit(p.table, r.key, ImageOf(r, now), base), p.written + {r.key}, p.returned + [true]))
    else if p.table.rows[r.key].hash != HashOf(r) then
      Done(Progress(Emit(p.table, r.key, ImageOf(r, now), base), p.written + {r.key}, p.returned + [false]))
    else Done(p)
  }

  /** One upsert statement over the chunk a..b of the batch. */
  function Upsert(table: TableState, records: seq<Record>, a: nat, b: nat, refs: Refs, now: nat, base: nat): Result<Progress>
    requires a <= b <= |records|
  {
    if a == b then Done(Progress(table, {}, []))
    else match Upsert(table, records, a, b - 1, refs, now, base)
      case Fail(e) => Fail(e)
      case Done(p) => UpsertRow(p, records[b - 1], refs, now, base)
  }

  function CountTrue(flags: seq<bool>): nat {
    if flags == [] then 0
    else CountTrue(flags[..|flags| - 1]) + if flags[|flags| - 1] then 1 else 0
  }

  lemma {:induction false} CountTrueBound(flags: seq<bool>)
    ensures CountTrue(flags) <= |flags|
  {
    if flags != [] {
      CountTrueBound(flags[..|flags| - 1]);
    }
  }

  lemma CountTrueAppend(flags: seq<bool>, flag: bool)
    ensures CountTrue(flags + [flag]) == CountTrue(flags) + if flag then 1 else 0
  {
    assert (flags + [flag])[..|flags|] == flags;
  }

  // ---- The row-at-a-time specification -------------------------------------------------

  datatype Effect = Inserted | Updated | Unchanged

  function EffectOn(rows: map<Key, Image>, r: Record): Effect {
    if r.key !in rows then Inserted
    else if rows[r.key].hash != HashOf(r) then Updated
    else Unchanged
  }

  /** How many of the first n records have an effect on the given table. */
  function Count(rows: map<Key, Image>, records: seq<Record>, n: nat, e: Effect): nat
    requires n <= |records|
  {
    if n == 0 then 0
    else Count(rows, records, n - 1, e) + if EffectOn(rows, records[n - 1]) == e then 1 else 0
  }

  lemma {:induction false} CountsAddUp(rows: map<Key, Image>, records: seq<Record>, n: nat)
    requires n <= |records|
    ensures Count(rows, records, n, Inserted) + Count(rows, records, n, Updated) + Count(rows, records, n, Unchanged) == n
  {
    if n > 0 {
      CountsAddUp(rows, records, n - 1);
    }
  }

  /** One record at a time. */
  function ApplyOne(table: TableState, r: Record, now: nat, base: nat): TableState {
    if EffectOn(table.rows, r) == Unchanged then table else Emit(table, r.key, ImageOf(r, now), base)
  }

  function ApplyAll(table: TableState, records: seq<Record>, n: nat, now: nat, base: nat): TableState
    requires n <= |records|
  {
    if n == 0 then table else ApplyOne(ApplyAll(table, records, n - 1, now, base), records[n - 1], now, base)
  }

  /** The table that the first n records should lead to: each of them applied to the table as
      it was, every other row kept. */
  ghost predicate Merges(before: map<Key, Image>, records: seq<Record>, n: nat, now: nat, after: map<Key, Image>)
    requires n <= |records|
  {
    && (forall i :: 0 <= i < n ==> AppliedTo(before, records[i], now, after))
    && (forall k :: (forall i :: 0 <= i < n ==> records[i].key != k) ==> SameAt(before, after, k))
  }

  predicate AppliedTo(before: map<Key, Image>, r: Record, now: nat, after: map<Key, Image>) {
    r.key in after && after[r.key] == if EffectOn(before, r) == Unchanged then before[r.key] else ImageOf(r, now)
  }

  predicate SameAt(before: map<Key, Image>, after: map<Key, Image>, k: Key) {
    if k in before then k in after && after[k] == before[k] else k !in after
  }

  /** No record of the batch breaks a type, CHECK or foreign key. */
  ghost predicate Fits(records: seq<Record>, refs: Refs) {
    forall i :: 0 <= i < |records| ==> RowError(records[i]).None? && Referenced(records[i].key, refs)
  }

  /** The change log describes the table, its numbers stay below the next one, and the loader
      never deletes. */
  ghost predicate TableInv(t: Table, table: TableState, base: nat) {
    && ValidLog(t, table.log)
    && table.rows == SourceAt(table.log, |table.log|)
    && forall i :: 0 <= i < |table.log| ==> table.log[i].lsn < base + i + 1 && !table.log[i].kind.Delete?
  }

  /** One emitted change keeps the table and its log together. */
  lemma EmitKeeps(t: Table, table: TableState, k: Key, image: Image, base: nat)
    requires TableInv(t, table, base) && SchemaKey(t, k)
    ensures TableInv(t, Emit(table, k, image, base), base)
  {
    var after := Emit(table, k, image, base);
    var c := after.log[|table.log|];
    ValidAppend(t, table.log, c);
    SourceAtAppend(table.log, c, |table.log|);
  }

  ghost predicate OfTable(t: Table, records: seq<Record>) {
    forall i :: 0 <= i < |records| ==> TableOf(records[i].key) == t
  }

  /** Whatever a statement does, its counts add up, each write emits one change, and the log
      still describes the table. */
  lemma {:induction false} UpsertAccounts(t: Table, table: TableState, records: seq<Record>, a: nat, b: nat,
                                          refs: Refs, now: nat, base: nat)
    requires a <= b <= |records| && TableInv(t, table, base) && OfTable(t, records)
    requires Upsert(table, records, a, b, refs, now, base).Done?
    ensures var p := Upsert(table, records, a, b, refs, now, base).value;
            && (forall i :: a <= i < b ==> RowError(records[i]).None?)
            && |p.returned| <= b - a
            && |p.table.log| == |table.log| + |p.returned|
            && TableInv(t, p.table, base)
  {
    if a < b {
      UpsertAccounts(t, table, records, a, b - 1, refs, now, base);
      var p, r := Upsert(table, records, a, b - 1, refs, now, base).value, records[b - 1];
      if EffectOn(p.table.rows, r) != Unchanged {
        EmitKeeps(t, p.table, r.key, ImageOf(r, now), base);
      }
    }
  }

  /** Applying records touches only their keys. */
  lemma {:induction false} ApplyTouches(table: TableState, records: seq<Record>, n: nat, now: nat, base: nat, k: Key)
    requires n <= |records|
    requires forall i :: 0 <= i < n ==> records[i].key != k
    ensures SameAt(table.rows, ApplyAll(table, records, n, now, base).rows, k)
  {
    if n > 0 {
      ApplyTouches(table, records, n - 1, now, base, k);
    }
  }

  /** With distinct keys, a record's effect is decided by the table as it was before the load. */
  lemma EffectIsOriginal(table: TableState, records: seq<Record>, n: nat, now: nat, base: nat)
    requires n < |records| && DistinctRecords(records)
    ensures EffectOn(ApplyAll(table, records, n, now, base).rows, records[n]) == EffectOn(table.rows, records[n])
  {
    ApplyTouches(table, records, n, now, base, records[n].key);
  }

  lemma {:induction false} ApplyReaches(table: TableState, records: seq<Record>, n: nat, now: nat, base: nat, i: nat)
    requires i < n <= |records| && DistinctRecords(records)
    ensures AppliedTo(table.rows, records[i], now, ApplyAll(table, records, n, now, base).rows)
  {
    if i < n - 1 {
      ApplyReaches(table, records, n - 1, now, base, i);
    } else {
      ApplyTouches(table, records, i, now, base, records[i].key);
    }
  }

  /** The specification merges the records into the table. */
  lemma ApplyMerges(table: TableState, records: seq<Record>, n: nat, now: nat, base: nat)
    requires n <= |records| && DistinctRecords(records)
    ensures Merges(table.rows, records, n, now, ApplyAll(table, records, n, now, base).rows)
  {
    var after := ApplyAll(table, records, n, now, base).rows;
    forall i | 0 <= i < n ensures AppliedTo(table.rows, records[i], now, after) {
      ApplyReaches(table, records, n, now, base, i);
    }
    forall k | forall i :: 0 <= i < n ==> records[i].key != k ensures SameAt(table.rows, after, k) {
      ApplyTouches(table, records, n, now, base, k);
    }
  }

  /** What one statement over records a..b adds to the first a records. */
  ghost predicate ChunkDone(table: TableState, records: seq<Record>, a: nat, b: nat, now: nat, base: nat, p: Progress)
    requires a <= b <= |records|
  {
    && p.table == ApplyAll(table, records, b, now, base)
    && (forall k :: k in p.written ==> exists i :: a <= i < b && records[i].key == k)
    && CountTrue(p.returned) == Count(table.rows, records, b, Inserted) - Count(table.rows, records, a, Inserted)
    && |p.returned| - CountTrue(p.returned) == Count(table.rows, records, b, Updated) - Count(table.rows, records, a, Updated)
  }

  /** A statement over records a..b succeeds and does that. */
  ghost predicate Follows(table: TableState, records: seq<Record>, a: nat, b: nat, now: nat, base: nat, r: Result<Progress>)
    requires a <= b <= |records|
  {
    r.Done? && ChunkDone(table, records, a, b, now, base, r.value)
  }

  lemma ChunkStarts(table: TableState, records: seq<Record>, a: nat, now: nat, base: nat)
    requires a <= |records|
    ensures ChunkDone(table, records, a, a, now, base, Progress(ApplyAll(table, records, a, now, base), {}, []))
  {
  }

  lemma ChunkGrows(table: TableState, records: seq<Record>, a: nat, b: nat, refs: Refs, now: nat, base: nat, p: Progress)
    requires a <= b < |records| && DistinctRecords(records) && Fits(records, refs)
    requires ChunkDone(table, records, a, b, now, base, p)
    ensures Follows(table, records, a, b + 1, now, base, UpsertRow(p, records[b], refs, now, base))
  {
    EffectIsOriginal(table, records, b, now, base);
    CountTrueAppend(p.returned, EffectOn(table.rows, records[b]) == Inserted);
  }

  lemma ChunkExtends(table: TableState, first: TableState, records: seq<Record>, a: nat, b: nat, refs: Refs, now: nat, base: nat)
    requires a <= b < |records| && DistinctRecords(records) && Fits(records, refs)
    requires Follows(table, records, a, b, now, base, Upsert(first, records, a, b, refs, now, base))
    ensures Follows(table, records, a, b + 1, now, base, Upsert(first, records, a, b + 1, refs, now, base))
  {
    var p := Upsert(first, records, a, b, refs, now, base).value;
    ChunkGrows(table, records, a, b, refs, now, base, p);
    assert Upsert(first, records, a, b + 1, refs, now, base) == UpsertRow(p, records[b], refs, now, base);
  }

  /** With distinct fitting records a statement succeeds and follows the specification, from
      whatever point of the batch it starts. */
  lemma {:induction false} ChunkRefines(table: TableState, first: TableState, records: seq<Record>, a: nat, b: nat,
                                        refs: Refs, now: nat, base: nat)
    requires a <= b <= |records| && DistinctRecords(records) && Fits(records, refs)
    requires first == ApplyAll(table, records, a, now, base)
    ensures Follows(table, records, a, b, now, base, Upsert(first, records, a, b, refs, now, base))
  {
    if a == b {
      ChunkStarts(table, records, a, now, base);
    } else {
      ChunkRefines(table, first, records, a, b - 1, refs, now, base);
      ChunkExtends(table, first, records, a, b - 1, refs, now, base);
    }
  }

  /** Re-ingesting the same records writes nothing: every record is unchanged, the table stays
      as it is and no change is emitted. */
  lemma {:induction false} QuietReingest(table: TableState, records: seq<Record>, now: nat, base: nat, n: nat, later: nat, base': nat)
    requires n <= |records| && DistinctRecords(records)
    ensures var loaded := ApplyAll(table, records, |records|, now, base);
            && ApplyAll(loaded, records, n, later, base') == loaded
            && Count(loaded.rows, records, n, Unchanged) == n
  {
    if n > 0 {
      QuietReingest(table, records, now, base, n - 1, later, base');
      ApplyReaches(table, records, |records|, now, base, n - 1);
    }
  }

  /** Every row's hash, if it is a digest, is the digest of that row. */
  ghost predicate HashSound(rows: map<Key, Image>) {
    forall k :: k in rows && rows[k].hash.Digest? ==> rows[k].hash == Digest(k, rows[k].cols)
  }

  /** When hashes are sound, skipping unchanged rows loses nothing: after the load the table
      holds the columns of every record. */
  lemma LoadedTableAgrees(before: map<Key, Image>, records: seq<Record>, now: nat, after: map<Key, Image>, i: nat)
    requires Merges(before, records, |records|, now, after) && HashSound(before) && i < |records|
    ensures var r := records[i]; r.key in after && after[r.key].cols == r.cols && after[r.key].hash == HashOf(r)
  {
    assert AppliedTo(before, records[i], now, after);
  }

  /** A row is written exactly if its key is new or it has another hash, and then holds the record's
      columns, its digest and the time of the load; otherwise it is the row from before. */
  lemma WrittenRowIs(before: map<Key, Image>, records: seq<Record>, n: nat, now: nat, after: map<Key, Image>, i: nat)
    requires n <= |records| && Merges(before, records, n, now, after) && i < n
    ensures var r := records[i];
            && r.key in after
            && if r.key in before && before[r.key].hash == Digest(r.key, r.cols) then after[r.key] == before[r.key]
               else after[r.key].cols == r.cols && after[r.key].hash == Digest(r.key, r.cols) && after[r.key].updatedAt == now
  {
    assert AppliedTo(before, records[i], now, after);
  }

  /** The keys of the first n records that the table lacks, and those it holds with another hash. */
  ghost function NewKeys(rows: map<Key, Image>, records: seq<Record>, n: nat): set<Key>
    requires n <= |records|
  {
    set i | 0 <= i < n && records[i].key !in rows :: records[i].key
  }

  ghost function ChangedKeys(rows: map<Key, Image>, records: seq<Record>, n: nat): set<Key>
    requires n <= |records|
  {
    set i | 0 <= i < n && records[i].key in rows && rows[records[i].key].hash != Digest(records[i].key, records[i].cols) :: records[i].key
  }

  lemma NewKeysGrow(rows: map<Key, Image>, records: seq<Record>, n: nat)
    requires n < |records| && DistinctRecords(records)
    ensures |NewKeys(rows, records, n + 1)| == |NewKeys(rows, records, n)| + if records[n].key in rows then 0 else 1
  {
    var k := records[n].key;
    assert k !in NewKeys(rows, records, n);
    if k in rows {
      assert NewKeys(rows, records, n + 1) == NewKeys(rows, records, n);
    } else {
      assert NewKeys(rows, records, n + 1) == NewKeys(rows, records, n) + {k};
    }
  }

  lemma ChangedKeysGrow(rows: map<Key, Image>, records: seq<Record>, n: nat)
    requires n < |records| && DistinctRecords(records)
    ensures var r := records[n];
            |ChangedKeys(rows, records, n + 1)|
              == |ChangedKeys(rows, records, n)| + if r.key in rows && rows[r.key].hash != Digest(r.key, r.cols) then 1 else 0
  {
    var r := records[n];
    assert r.key !in ChangedKeys(rows, records, n);
    if r.key in rows && rows[r.key].hash != Digest(r.key, r.cols) {
      assert ChangedKeys(rows, records, n + 1) == ChangedKeys(rows, records, n) + {r.key};
    } else {
      assert ChangedKeys(rows, records, n + 1) == ChangedKeys(rows, records, n);
    }
  }

  lemma {:induction false} NewKeysCount(rows: map<Key, Image>, records: seq<Record>, n: nat)
    requires n <= |records| && DistinctRecords(records)
    ensures Count(rows, records, n, Inserted) == |NewKeys(rows, records, n)|
  {
    if n > 0 {
      var m := n - 1;
      NewKeysCount(rows, records, m);
      NewKeysGrow(rows, records, m);
    }
  }

  lemma {:induction false} ChangedKeysCount(rows: map<Key, Image>, records: seq<Record>, n: nat)
    requires n <= |records| && DistinctRecords(records)
    ensures Count(rows, records, n, Updated) == |ChangedKeys(rows, records, n)|
  {
    if n > 0 {
      var m := n - 1;
      ChangedKeysCount(rows, records, m);
      ChangedKeysGrow(rows, records, m);
    }
  }

  /** With distinct keys, the counts of inserts and updates are the numbers of new and of changed
      keys. */
  lemma CountsAreKeys(rows: map<Key, Image>, records: seq<Record>)
    requires DistinctRecords(records)
    ensures Count(rows, records, |records|, Inserted) == |NewKeys(rows, records, |records|)|
    ensures Count(rows, records, |records|, Updated) == |ChangedKeys(rows, records, |records|)|
  {
    NewKeysCount(rows, records, |records|);
    ChangedKeysCount(rows, records, |records|);
  }

  lemma {:induction false} OtherKeysStay(table: TableState, records: seq<Record>, a: nat, b: nat, refs: Refs, now: nat, base: nat, k: Key)
    requires a <= b <= |records| && k !in table.rows && forall i :: a <= i < b ==> records[i].key != k
    ensures var r := Upsert(table, records, a, b, refs, now, base); r.Done? ==> k !in r.value.table.rows
  {
    if a < b {
      OtherKeysStay(table, records, a, b - 1, refs, now, base, k);
    }
  }

  /** The foreign keys hold: a statement fails that would insert an observation without its country
      or its indicator. */
  lemma {:induction false} UnreferencedFails(table: TableState, records: seq<Record>, a: nat, b: nat, refs: Refs, now: nat, base: nat, i: nat)
    requires a <= i < b <= |records| && records[i].key.ObservationKey? && records[i].key !in table.rows
    requires records[i].key.country !in refs.countries || records[i].key.indicator !in refs.indicators
    ensures Upsert(table, records, a, b, refs, now, base).Fail?
  {
    if i < b - 1 {
      UnreferencedFails(table, records, a, b - 1, refs, now, base, i);
    } else if exists j :: a <= j < i && records[j].key == records[i].key {
      var j :| a <= j < i && records[j].key == records[i].key;
      NewKeyTwiceFails(table, records, a, b, refs, now, base, j, i);
    } else {
      OtherKeysStay(table, records, a, i, refs, now, base, records[i].key);
    }
  }

  lemma {:induction false} UpsertKeepsHashes(table: TableState, records: seq<Record>, a: nat, b: nat, refs: Refs, now: nat, base: nat)
    requires a <= b <= |records| && HashSound(table.rows) && Upsert(table, records, a, b, refs, now, base).Done?
    ensures HashSound(Upsert(table, records, a, b, refs, now, base).value.table.rows)
  {
    if a < b {
      UpsertKeepsHashes(table, records, a, b - 1, refs, now, base);
    }
  }

  lemma {:induction false} NewKeyIsWritten(table: TableState, records: seq<Record>, a: nat, b: nat, refs: Refs, now: nat, base: nat, k: Key)
    requires a <= b <= |records| && k !in table.rows
    ensures var r := Upsert(table, records, a, b, refs, now, base);
            r.Done? ==>
              && (k in r.value.table.rows ==> k in r.value.written)
              && forall i :: a <= i < b && records[i].key == k ==> k in r.value.written
  {
    if a < b {
      NewKeyIsWritten(table, records, a, b - 1, refs, now, base, k);
    }
  }

  /** The gate's deduplication is a true precondition: a statement that meets a new key twice
      fails. */
  lemma {:induction false} NewKeyTwiceFails(table: TableState, records: seq<Record>, a: nat, b: nat, refs: Refs, now: nat, base: nat,
                                            i: nat, j: nat)
    requires a <= i < j < b <= |records| && records[i].key == records[j].key && records[i].key !in table.rows
    ensures Upsert(table, records, a, b, refs, now, base).Fail?
  {
    if j < b - 1 {
      NewKeyTwiceFails(table, records, a, b - 1, refs, now, base, i, j);
    } else {
      NewKeyIsWritten(table, records, a, j, refs, now, base, records[i].key);
    }
  }

  /** A key that a statement has not written is as it was. */
  lemma {:induction false} UnwrittenStays(table: TableState, records: seq<Record>, a: nat, b: nat, refs: Refs, now: nat, base: nat, k: Key)
    requires a <= b <= |records|
    ensures var r := Upsert(table, records, a, b, refs, now, base);
            r.Done? && k !in r.value.written ==> SameAt(table.rows, r.value.table.rows, k)
  {
    if a < b {
      UnwrittenStays(table, records, a, b - 1, refs, now, base, k);
    }
  }

  /** A key that record i would insert or change has been written after it. */
  lemma {:induction false} WriteIsNoted(table: TableState, records: seq<Record>, a: nat, b: nat, refs: Refs, now: nat, base: nat, i: nat)
    requires a <= i < b <= |records| && Writes(table.rows, records[i])
    ensures var r := Upsert(table, records, a, b, refs, now, base); r.Done? ==> records[i].key in r.value.written
  {
    if i < b - 1 {
      WriteIsNoted(table, records, a, b - 1, refs, now, base, i);
    } else {
      UnwrittenStays(table, records, a, i, refs, now, base, records[i].key);
    }
  }

  /** The record is new to the table, or has another hash than the row it meets. */
  predicate Writes(rows: map<Key, Image>, r: Record) {
    r.key !in rows || rows[r.key].hash != Digest(r.key, r.cols)
  }

  /** No row is written twice: a statement fails that meets the key of a record it inserts or
      changes again. */
  lemma {:induction false} WriteTwiceFails(table: TableState, records: seq<Record>, a: nat, b: nat, refs: Refs, now: nat, base: nat,
                                           i: nat, j: nat)
    requires a <= i < j < b <= |records| && records[i].key == records[j].key && Writes(table.rows, records[i])
    ensures Upsert(table, records, a, b, refs, now, base).Fail?
  {
    if j < b - 1 {
      WriteTwiceFails(table, records, a, b - 1, refs, now, base, i, j);
    } else {
      WriteIsNoted(table, records, a, j, refs, now, base, i);
    }
  }

  // ---- The database -----------------------------------------------------------------

  datatype Status = Running | Success | Failed

  /** ops.ingest_run, without its free-text columns. */
  datatype Run = Run(id: nat, stream: Table, started: nat, finished: Option<nat>, status: Status,
                     seen: nat, inserted: nat, updated: nat, same: nat, rejected: nat)

  /** ops.ingest_watermark */
  datatype Watermark = Watermark(lastSuccess: nat, cursor: Option<string>, seen: nat, written: nat)

  /** ops.ingest_reject */
  datatype RejectRow = RejectRow(stream: Table, reason: Reason, payload: Raw)

  datatype Db = Db(country: TableState, indicator: TableState, observation: TableState,
                   runs: seq<Run>, rejects: seq<RejectRow>, watermarks: map<Table, Watermark>)
  {
    function At(t: Table): TableState {
      match t
      case Country => country
      case Indicator => indicator
      case Observation => observation
    }

    function With(t: Table, table: TableState): Db {
      match t
      case Country => this.(country := table)
      case Indicator => this.(indicator := table)
      case Observation => this.(observation := table)
    }
  }

  const EMPTY_TABLE := TableState(map[], [])
  const EMPTY_DB := Db(EMPTY_TABLE, EMPTY_TABLE, EMPTY_TABLE, [], [], map[])

  /** existing_keys for both dimensions. */
  function RefsOf(db: Db): Refs
  {
    Allowed(set k | k in db.country.rows && k.CountryKey? :: k.id,
            set k | k in db.indicator.rows && k.IndicatorKey? :: k.id)
  }

  /** Those are the ids that the dimension tables hold. */
  lemma RefsAre(db: Db, id: string)
    ensures id in RefsOf(db).countries <==> CountryKey(id) in db.country.rows
    ensures id in RefsOf(db).indicators <==> IndicatorKey(id) in db.indicator.rows
  {
  }

  datatype LoadStats = LoadStats(inserted: nat, updated: nat, same: nat, rejected: nat)

  /** A NaN or Infinity token survives json.dumps but is not valid jsonb. */
  predicate JsonSafe(raw: Raw) {
    raw.Object? ==>
      && raw.plain
      && forall n :: n in {raw.longitude, raw.latitude, raw.date, raw.value, raw.decimal} && n.Number? ==> n.f.Finite?
  }

  /** A payload is stored exactly if none of its numbers is a NaN or an infinity; text is stored
      whatever it reads as. */
  lemma UnsafeIs(raw: Raw)
    ensures JsonSafe(raw) <==>
              || raw.NotAnObject?
              || (raw.plain && forall f: Float {:trigger Number(f)} :: !f.Finite? ==>
                    Number(f) != raw.longitude && Number(f) != raw.latitude && Number(f) != raw.date
                    && Number(f) != raw.value && Number(f) != raw.decimal)
  {
    if raw.Object? && raw.plain {
      forall n | n in {raw.longitude, raw.latitude, raw.date, raw.value, raw.decimal} && n.Number? ensures n == Number(n.f) {
      }
    }
  }

  function RejectRows(t: Table, rejected: seq<Rejection>): seq<RejectRow> {
    seq(|rejected|, i requires 0 <= i < |rejected| => RejectRow(t, rejected[i].reason, rejected[i].payload))
  }

  function Advance(db: Db, t: Table, now: nat, cursor: Option<string>, seen: nat, written: nat): Watermark {
    if t in db.watermarks then
      Watermark(now, cursor, db.watermarks[t].seen + seen, db.watermarks[t].written + written)
    else Watermark(now, cursor, seen, written)
  }

  function FailedRun(id: nat, t: Table, now: nat): Run {
    Run(id, t, now, Some(now), Failed, 0, 0, 0, 0, 0)
  }

  function SuccessRun(id: nat, t: Table, now: nat, seen: nat, s: LoadStats): Run {
    Run(id, t, now, Some(now), Success, seen, s.inserted, s.updated, s.same, s.rejected)
  }

  /** The database after a successful load. */
  function Loaded(db: Db, t: Table, table: TableState, id: nat, now: nat, cursor: Option<string>,
                  result: GateResult, s: LoadStats): Db
  {
    db.With(t, table).(
      runs := db.runs + [SuccessRun(id, t, now, result.Seen(), s)],
      rejects := db.rejects + RejectRows(t, result.rejected),
      watermarks := db.watermarks[t := Advance(db, t, now, cursor, result.Seen(), s.inserted + s.updated)])
  }

  // ---- The ledger ---------------------------------------------------------------------

  function SumWritten(runs: seq<Run>, t: Table): nat {
    if runs == [] then 0
    else
      var r := runs[|runs| - 1];
      SumWritten(runs[..|runs| - 1], t) + if r.stream == t && r.status == Success then r.inserted + r.updated else 0
  }

  function SumSeen(runs: seq<Run>, t: Table): nat {
    if runs == [] then 0
    else
      var r := runs[|runs| - 1];
      SumSeen(runs[..|runs| - 1], t) + if r.stream == t && r.status == Success then r.seen else 0
  }

  function SumRejected(runs: seq<Run>, t: Table): nat {
    if runs == [] then 0
    else
      var r := runs[|runs| - 1];
      SumRejected(runs[..|runs| - 1], t) + if r.stream == t && r.status == Success then r.rejected else 0
  }

  function CountRejects(rejects: seq<RejectRow>, t: Table): nat {
    if rejects == [] then 0
    else CountRejects(rejects[..|rejects| - 1], t) + if rejects[|rejects| - 1].stream == t then 1 else 0
  }

  function WatermarkOf(db: Db, t: Table): Watermark {
    if t in db.watermarks then db.watermarks[t] else Watermark(0, None, 0, 0)
  }

  /** A finished run: a success whose counts add up, or a failure that counts nothing. */
  predicate Settles(r: Run) {
    match r.status
    case Running => false
    case Success => r.seen == r.inserted + r.updated + r.same + r.rejected
    case Failed => r.inserted == r.updated == r.same == r.rejected == r.seen == 0
  }

  /** The books of stream t balance: the watermark equals the emitted change events and the
      sums over success rows, and every reject is accounted for. */
  predicate Balances(db: Db, t: Table) {
    && WatermarkOf(db, t).written == |db.At(t).log| == SumWritten(db.runs, t)
    && WatermarkOf(db, t).seen == SumSeen(db.runs, t)
    && CountRejects(db.rejects, t) == SumRejected(db.runs, t)
  }

  /** Table t follows from its log, its hashes are sound, and its books balance. */
  ghost predicate Sound(db: Db, t: Table, base: nat) {
    TableInv(t, db.At(t), base) && HashSound(db.At(t).rows) && Balances(db, t)
  }

  ghost predicate DbInv(db: Db, base: nat) {
    && (forall t :: Sound(db, t, base))
    && (forall i :: 0 <= i < |db.runs| ==> Settles(db.runs[i]))
  }

  lemma {:induction false} RejectsAppend(rejects: seq<RejectRow>, t: Table, rejected: seq<Rejection>, q: Table)
    ensures CountRejects(rejects + RejectRows(t, rejected), q) == CountRejects(rejects, q) + if q == t then |rejected| else 0
  {
    var rows := rejects + RejectRows(t, rejected);
    if rejected == [] {
      assert rows == rejects;
    } else {
      var fewer := rejected[..|rejected| - 1];
      assert rows[..|rows| - 1] == rejects + RejectRows(t, fewer);
      RejectsAppend(rejects, t, fewer, q);
    }
  }

  lemma SumsAppend(runs: seq<Run>, r: Run, t: Table)
    ensures var own := r.stream == t && r.status == Success;
            && SumWritten(runs + [r], t) == SumWritten(runs, t) + (if own then r.inserted + r.updated else 0)
            && SumSeen(runs + [r], t) == SumSeen(runs, t) + (if own then r.seen else 0)
            && SumRejected(runs + [r], t) == SumRejected(runs, t) + (if own then r.rejected else 0)
  {
    assert (runs + [r])[..|runs|] == runs;
  }

  lemma LoadBalancesStream(db: Db, t: Table, table: TableState, id: nat, now: nat, cursor: Option<string>,
                           result: GateResult, s: LoadStats, q: Table)
    requires Balances(db, q)
    requires |table.log| == |db.At(t).log| + s.inserted + s.updated && s.rejected == |result.rejected|
    ensures Balances(Loaded(db, t, table, id, now, cursor, result, s), q)
  {
    SumsAppend(db.runs, SuccessRun(id, t, now, result.Seen(), s), q);
    RejectsAppend(db.rejects, t, result.rejected, q);
  }

  /** Ledger conservation, success: a load whose counts add up and whose log grew by what it
      wrote keeps every book balanced. */
  lemma LoadBalances(db: Db, t: Table, table: TableState, id: nat, now: nat, cursor: Option<string>,
                     result: GateResult, s: LoadStats, base: nat)
    requires DbInv(db, base) && TableInv(t, table, base) && HashSound(table.rows)
    requires |table.log| == |db.At(t).log| + s.inserted + s.updated
    requires s.inserted + s.updated + s.same == |result.accepted| && s.rejected == |result.rejected|
    ensures DbInv(Loaded(db, t, table, id, now, cursor, result, s), base)
  {
    var after := Loaded(db, t, table, id, now, cursor, result, s);
    assert Settles(SuccessRun(id, t, now, result.Seen(), s));
    forall q: Table ensures Sound(after, q, base) {
      assert Sound(db, q, base) && Sound(db, t, base);
      LoadBalancesStream(db, t, table, id, now, cursor, result, s, q);
    }
  }

  /** Ledger conservation, failure: a failed row changes no sum. */
  lemma FailureBalances(db: Db, t: Table, id: nat, now: nat, base: nat, base': nat)
    requires DbInv(db, base) && base <= base'
    ensures DbInv(db.(runs := db.runs + [FailedRun(id, t, now)]), base')
  {
    var after := db.(runs := db.runs + [FailedRun(id, t, now)]);
    forall q: Table ensures Sound(after, q, base') {
      SumsAppend(db.runs, FailedRun(id, t, now), q);
      assert Sound(db, q, base);
    }
  }

  // ---- The loader ---------------------------------------------------------------------

  /** Rows per statement. */
  const BATCH_SIZE := 500

  /** How a load ends: committed, rolled back with a failure row, or abandoned because the
      bookkeeping itself failed. The last two raise. */
  datatype Outcome = Committed(stats: LoadStats) | RolledBack(error: DbError) | Abandoned

  /** Only table t may differ. */
  predicate OnlyTable(before: Db, t: Table, after: Db) {
    after == before.With(t, after.At(t))
  }

  /** Of the three tables, only t may differ; the books may. */
  predicate OthersStay(before: Db, t: Table, after: Db) {
    OnlyTable(before, t, after.(runs := before.runs, rejects := before.rejects, watermarks := before.watermarks))
  }

  /** n records are accounted for: none breaks a type or CHECK, each is counted once, and each
      write is one change in the log. */
  ghost predicate Accounted(t: Table, before: TableState, after: TableState, records: seq<Record>, n: nat,
                            inserted: nat, updated: nat, same: nat, base: nat)
    requires n <= |records|
  {
    && (forall i :: 0 <= i < n ==> RowError(records[i]).None?)
    && TableInv(t, after, base) && HashSound(after.rows)
    && inserted + updated + same == n
    && |after.log| == |before.log| + inserted + updated
  }

  /** The table and the counts of the row-at-a-time specification after n records. */
  ghost predicate AsSpecified(before: TableState, after: TableState, records: seq<Record>, n: nat,
                              inserted: nat, updated: nat, now: nat, base: nat)
    requires n <= |records|
  {
    && after == ApplyAll(before, records, n, now, base)
    && inserted == Count(before.rows, records, n, Inserted)
    && updated == Count(before.rows, records, n, Updated)
  }

  /** Two loads of the same batch: the second inserts and updates nothing, leaves the table as
      it is and emits no change event, so nothing downstream moves. */
  lemma SecondLoadIsQuiet(before: TableState, loaded: TableState, again: TableState, records: seq<Record>,
                          inserted: nat, updated: nat, now: nat, base: nat,
                          inserted': nat, updated': nat, later: nat, base': nat)
    requires DistinctRecords(records)
    requires AsSpecified(before, loaded, records, |records|, inserted, updated, now, base)
    requires AsSpecified(loaded, again, records, |records|, inserted', updated', later, base')
    ensures again == loaded && inserted' == 0 && updated' == 0
  {
    QuietReingest(before, records, now, base, |records|, later, base');
    CountsAddUp(loaded.rows, records, |records|);
  }

  /** Foreign keys only concern observations, and the dimensions do not change meanwhile. */
  lemma {:induction false} RefsMatterForObservations(t: Table, table: TableState, records: seq<Record>, a: nat, b: nat,
                                                     refs: Refs, live: Refs, now: nat, base: nat)
    requires a <= b <= |records| && OfTable(t, records) && (t.Observation? ==> live == refs)
    ensures Upsert(table, records, a, b, live, now, base) == Upsert(table, records, a, b, refs, now, base)
  {
    if a < b {
      RefsMatterForObservations(t, table, records, a, b - 1, refs, live, now, base);
    }
  }

  /** One statement of the loop: it keeps the account, and with distinct fitting records it
      succeeds and follows the specification. */
  lemma ChunkAccounts(t: Table, before: TableState, table: TableState, records: seq<Record>, start: nat, end: nat,
                      inserted: nat, updated: nat, same: nat, refs: Refs, live: Refs, now: nat, base: nat)
    requires start <= end <= |records| && OfTable(t, records) && (t.Observation? ==> live == refs)
    requires Accounted(t, before, table, records, start, inserted, updated, same, base)
    requires DistinctRecords(records) && Fits(records, refs) ==>
               AsSpecified(before, table, records, start, inserted, updated, now, base)
    ensures var r := Upsert(table, records, start, end, live, now, base);
            && (DistinctRecords(records) && Fits(records, refs) ==> r.Done?)
            && (r.Done? ==>
                  var n, ins := |r.value.returned|, CountTrue(r.value.returned);
                  && ins <= n <= end - start
                  && Accounted(t, before, r.value.table, records, end, inserted + ins, updated + (n - ins), same + (end - start - n), base)
                  && (DistinctRecords(records) && Fits(records, refs) ==>
                        AsSpecified(before, r.value.table, records, end, inserted + ins, updated + (n - ins), now, base)))
  {
    var r := Upsert(table, records, start, end, live, now, base);
    RefsMatterForObservations(t, table, records, start, end, refs, live, now, base);
    if DistinctRecords(records) && Fits(records, refs) {
      ChunkRefines(before, table, records, start, end, refs, now, base);
    }
    if r.Done? {
      UpsertAccounts(t, table, records, start, end, live, now, base);
      UpsertKeepsHashes(table, records, start, end, live, now, base);
      CountTrueBound(r.value.returned);
    }
  }

  /** One of the first n statements is lost. A load issues at most four more than it has rows. */
  ghost predicate Faulty(fails: nat -> bool, n: nat) {
    exists i :: 0 <= i < n && fails(i)
  }

  class PostgresLoader {
    var committed: Db    // what every other session sees
    var working: Db      // the open transaction
    var nextRun: nat     // identity sequence; a rollback does not return its numbers
    var base: nat        // log position below which no later change is numbered

    ghost predicate Valid()
      reads this
    {
      working == committed && DbInv(committed, base)
    }

    /** An empty database. */
    constructor ()
      ensures Valid() && committed == EMPTY_DB
    {
      committed, working, nextRun, base := EMPTY_DB, EMPTY_DB, 1, 0;
    }

    /** cursor.execute of one upsert statement, and fetchall. A statement that fails changes
        nothing. */
    method Execute(t: Table, records: seq<Record>, a: nat, b: nat, now: nat, lost: bool) returns (r: Result<seq<bool>>)
      requires a <= b <= |records|
      modifies this`working
      ensures var want := Upsert(old(working).At(t), records, a, b, RefsOf(old(working)), now, base);
              && (lost || want.Fail? ==> r == Fail(if lost then Lost else want.error) && working == old(working))
              && (!lost && want.Done? ==>
                    && r == Done(want.value.returned)
                    && working == old(working).With(t, want.value.table))
    {
      if lost {
        return Fail(Lost);
      }
      var p := Upsert(working.At(t), records, a, b, RefsOf(working), now, base);
      if p.Fail? {
        return Fail(p.error);
      }
      working := working.With(t, p.value.table);
      return Done(p.value.returned);
    }

    /** _upsert: one statement per chunk, counting what each returned. Statement number n is
        lost when fails(n). The counts and the table are those of the row-at-a-time
        specification, whatever the chunk size. */
    method UpsertAll(t: Table, records: seq<Record>, now: nat, batch: nat, first: nat, fails: nat -> bool)
      returns (error: Option<DbError>, inserted: nat, updated: nat, same: nat, next: nat)
      requires batch > 0
      requires TableInv(t, working.At(t), base) && HashSound(working.At(t).rows) && OfTable(t, records)
      modifies this`working
      ensures OnlyTable(old(working), t, working) && first <= next <= first + |records|
      ensures error.None? ==> Accounted(t, old(working).At(t), working.At(t), records, |records|, inserted, updated, same, base)
      ensures DistinctRecords(records) && Fits(records, RefsOf(old(working))) ==>
                && (error.None? ==> AsSpecified(old(working).At(t), working.At(t), records, |records|, inserted, updated, now, base))
                && (error.Some? ==> exists n :: first <= n < next && fails(n))
    {
      ghost var before, refs := working.At(t), RefsOf(working);
      error, inserted, updated, same, next := None, 0, 0, 0, first;
      var start := 0;
      while start < |records|
        invariant 0 <= start <= |records| && first <= next <= first + start
        invariant OnlyTable(old(working), t, working)
        invariant Accounted(t, before, working.At(t), records, start, inserted, updated, same, base)
        invariant t.Observation? ==> RefsOf(working) == refs
        invariant DistinctRecords(records) && Fits(records, refs) ==>
                    AsSpecified(before, working.At(t), records, start, inserted, updated, now, base)
      {
        var end := if start + batch < |records| then start + batch else |records|;
        ghost var table, live := working.At(t), RefsOf(working);
        var r := Execute(t, records, start, end, now, fails(next));
        next := next + 1;
        ChunkAccounts(t, before, table, records, start, end, inserted, updated, same, refs, live, now, base);
        if r.Fail? {
          error := Some(r.error);
          return;
        }
        var newRows := CountTrue(r.value);
        inserted, updated, same := inserted + newRows, updated + (|r.value| - newRows), same + (end - start - |r.value|);
        start := end;
      }
    }

    /** _record_rejections: the rejected payloads, in chunks, as jsonb. */
    method RecordRejections(t: Table, rejected: seq<Rejection>, batch: nat, first: nat, fails: nat -> bool)
      returns (error: Option<DbError>, next: nat)
      requires batch > 0
      modifies this`working
      ensures error.None? ==> working == old(working).(rejects := old(working).rejects + RejectRows(t, rejected))
      ensures error.None? ==> forall r :: r in rejected ==> JsonSafe(r.payload)
      ensures error.Some? ==> ((exists n :: first <= n < next && fails(n)) || exists r :: r in rejected && !JsonSafe(r.payload))
      ensures first <= next <= first + |rejected|
    {
      error, next := None, first;
      var start := 0;
      while start < |rejected|
        invariant 0 <= start <= |rejected| && first <= next <= first + start
        invariant working == old(working).(rejects := old(working).rejects + RejectRows(t, rejected[..start]))
        invariant forall r :: r in rejected[..start] ==> JsonSafe(r.payload)
      {
        var end := if start + batch < |rejected| then start + batch else |rejected|;
        var chunk := rejected[start..end];
        next := next + 1;
        if fails(next - 1) {
          return Some(Lost), next;
        }
        if r :| r in chunk && !JsonSafe(r.payload) {
          return Some(InvalidJson), next;
        }
        assert rejected[..end] == rejected[..start] + chunk;
        assert RejectRows(t, rejected[..end]) == RejectRows(t, rejected[..start]) + RejectRows(t, chunk);
        working := working.(rejects := working.rejects + RejectRows(t, chunk));
        start := end;
      }
      assert rejected[..|rejected|] == rejected;
    }

    /** Rollback, then a failure row in a transaction of its own. */
    method RecordFailure(t: Table, now: nat, error: DbError, next: nat, fails: nat -> bool) returns (outcome: Outcome)
      requires DbInv(committed, base)
      modifies this
      ensures Valid() && base >= old(base)
      ensures (outcome == RolledBack(error) && FailedAs(old(committed), committed, t, now)
               && exists id :: committed == old(committed).(runs := old(committed).runs + [FailedRun(id, t, now)]))
           || (outcome == Abandoned && committed == old(committed) && (fails(next) || fails(next + 1)))
    {
      ghost var was := base;
      working, base := committed, base + 1;
      var id := nextRun;
      nextRun := nextRun + 1;
      FailureBalances(committed, t, id, now, was, base);
      FailedIs(committed, t, id, now);
      DbInvLater(committed, was, base);
      if fails(next) {
        return Abandoned;
      }
      working := working.(runs := working.runs + [FailedRun(id, t, now)]);
      if fails(next + 1) {
        working := committed;
        return Abandoned;
      }
      committed := working;
      return RolledBack(error);
    }

    /** The try block: from the audit row onward, up to the commit. */
    method LoadBody(t: Table, result: GateResult, cursor: Option<string>, now: nat, id: nat, fails: nat -> bool)
      returns (error: Option<DbError>, stats: LoadStats, next: nat)
      requires DbInv(committed, base) && OfTable(t, result.accepted)
      requires working == committed.(runs := committed.runs + [RunningRun(id, t, now)])
      modifies this`working
      ensures error.None? ==>
                && working == Loaded(committed, t, working.At(t), id, now, cursor, result, stats)
                && Accounted(t, committed.At(t), working.At(t), result.accepted, |result.accepted|, stats.inserted, stats.updated, stats.same, base)
                && stats.rejected == |result.rejected|
                && forall r :: r in result.rejected ==> JsonSafe(r.payload)
      ensures DistinctRecords(result.accepted) && Fits(result.accepted, RefsOf(committed)) ==>
                && (error.None? ==> AsSpecified(committed.At(t), working.At(t), result.accepted, |result.accepted|, stats.inserted, stats.updated, now, base))
                && (error.Some? ==> Faulty(fails, next) || exists r :: r in result.rejected && !JsonSafe(r.payload))
      ensures next <= result.Seen() + 3
    {
      var inserted, updated, same;
      assert Sound(committed, t, base);
      stats := LoadStats(0, 0, 0, 0);
      error, inserted, updated, same, next := UpsertAll(t, result.accepted, now, BATCH_SIZE, 1, fails);
      if error.Some? {
        return;
      }
      ghost var upserted := working;
      stats := LoadStats(inserted, updated, same, |result.rejected|);
      error, next := RecordRejections(t, result.rejected, BATCH_SIZE, next, fails);
      if error.Some? {
        return;
      }
      ghost var recorded := working;
      StagesAreLoad(committed, t, id, now, cursor, result, stats, upserted, recorded);
      error := FinishRun(t, result, cursor, now, id, stats, fails(next), fails(next + 1));
      next := next + 2;
    }

    /** The audit row becomes a success and the watermark advances. */
    method FinishRun(t: Table, result: GateResult, cursor: Option<string>, now: nat, id: nat, stats: LoadStats, lost: bool, lostToo: bool)
      returns (error: Option<DbError>)
      requires working.runs == committed.runs + [RunningRun(id, t, now)]
      modifies this`working
      ensures error.Some? <==> lost || lostToo
      ensures error.None? ==> working == Finished(committed, old(working), t, id, now, cursor, result, stats)
    {
      if lost {
        return Some(Lost);
      }
      var runs := working.runs[|working.runs| - 1 := SuccessRun(id, t, now, result.Seen(), stats)];
      assert runs == committed.runs + [SuccessRun(id, t, now, result.Seen(), stats)];
      working := working.(runs := runs);
      if lostToo {
        return Some(Lost);
      }
      working := working.(watermarks := working.watermarks[t := Advance(working, t, now, cursor, result.Seen(), stats.inserted + stats.updated)]);
      return None;
    }

    /** load: data, rejections, audit row and watermark in one transaction. Whatever fails,
        the committed state is the one before the load, or that state and one failure row,
        or the whole load. */
    method Load(t: Table, result: GateResult, cursor: Option<string>, now: nat, fails: nat -> bool) returns (outcome: Outcome)
      requires Valid() && OfTable(t, result.accepted)
      modifies this
      ensures Valid() && AllOrNothing(old(committed), committed, t, result, cursor, now, outcome)
      ensures outcome.Committed? ==> base == old(base) && forall r :: r in result.rejected ==> JsonSafe(r.payload)
      ensures outcome.Committed? ==> forall i :: 0 <= i < |result.accepted| ==> RowError(result.accepted[i]).None?
      ensures DistinctRecords(result.accepted) && Fits(result.accepted, RefsOf(old(committed))) ==>
                && (outcome.Committed? ==>
                      AsSpecified(old(committed).At(t), committed.At(t), result.accepted, |result.accepted|,
                                  outcome.stats.inserted, outcome.stats.updated, now, old(base))
                      && outcome.stats.inserted == |NewKeys(old(committed).At(t).rows, result.accepted, |result.accepted|)|
                      && outcome.stats.updated == |ChangedKeys(old(committed).At(t).rows, result.accepted, |result.accepted|)|)
                && (!Faulty(fails, result.Seen() + 4) ==>
                      (outcome.Committed? <==> forall r :: r in result.rejected ==> JsonSafe(r.payload)))
    {
      if DistinctRecords(result.accepted) {
        CountsAreKeys(committed.At(t).rows, result.accepted);
      }
      var id := nextRun;
      nextRun := nextRun + 1;
      if fails(0) {
        return Abandoned;
      }
      working := working.(runs := working.runs + [RunningRun(id, t, now)]);
      var error, stats, next := LoadBody(t, result, cursor, now, id, fails);
      if error.Some? {
        outcome := RecordFailure(t, now, error.value, next, fails);
        return;
      }
      if fails(next) {
        working := committed;
        return Abandoned;
      }
      LoadBalances(committed, t, working.At(t), id, now, cursor, result, stats, base);
      LoadedIs(committed, t, working.At(t), id, now, cursor, result, stats);
      committed := working;
      return Committed(stats);
    }
  }

  /** The database once the audit row and the watermark are written. */
  function Finished(db: Db, recorded: Db, t: Table, id: nat, now: nat, cursor: Option<string>, result: GateResult, s: LoadStats): Db {
    recorded.(runs := db.runs + [SuccessRun(id, t, now, result.Seen(), s)],
              watermarks := recorded.watermarks[t := Advance(recorded, t, now, cursor, result.Seen(), s.inserted + s.updated)])
  }

  /** Upsert, rejections, audit row and watermark make up the load. */
  lemma StagesAreLoad(db: Db, t: Table, id: nat, now: nat, cursor: Option<string>, result: GateResult, s: LoadStats,
                      upserted: Db, recorded: Db)
    requires OnlyTable(db.(runs := db.runs + [RunningRun(id, t, now)]), t, upserted)
    requires recorded == upserted.(rejects := upserted.rejects + RejectRows(t, result.rejected))
    ensures Finished(db, recorded, t, id, now, cursor, result, s) == Loaded(db, t, upserted.At(t), id, now, cursor, result, s)
    ensures recorded.At(t) == upserted.At(t)
  {
  }

  function RunningRun(id: nat, t: Table, now: nat): Run {
    Run(id, t, now, None, Running, 0, 0, 0, 0, 0)
  }

  /** An audit row of a finished run, field by field. */
  predicate RunTells(r: Run, t: Table, now: nat, status: Status, seen: nat, inserted: nat, updated: nat, same: nat, rejected: nat) {
    && r.stream == t && r.status == status && r.started == now && r.finished == Some(now)
    && r.seen == seen && r.inserted == inserted && r.updated == updated && r.same == same && r.rejected == rejected
  }

  predicate RejectTells(row: RejectRow, t: Table, x: Rejection) {
    row.stream == t && row.reason == x.reason && row.payload == x.payload
  }

  /** The stream's watermark has the time and the cursor of this load and its counts added. */
  predicate WatermarkTells(before: map<Table, Watermark>, after: map<Table, Watermark>, t: Table, cursor: Option<string>, now: nat,
                           seen: nat, written: nat)
  {
    && t in after && after[t].lastSuccess == now && after[t].cursor == cursor
    && after[t].seen == seen + (if t in before then before[t].seen else 0)
    && after[t].written == written + (if t in before then before[t].written else 0)
    && forall q: Table :: q != t ==> (q in after <==> q in before) && (q in before ==> after[q] == before[q])
  }

  /** One more run than before, with these fields. */
  predicate RunAdded(before: seq<Run>, after: seq<Run>, t: Table, now: nat, status: Status,
                     seen: nat, inserted: nat, updated: nat, same: nat, rejected: nat)
  {
    && |after| == |before| + 1 && after[..|before|] == before
    && RunTells(after[|before|], t, now, status, seen, inserted, updated, same, rejected)
  }

  /** One reject row for each rejection, in order. */
  ghost predicate RejectsAdded(before: seq<RejectRow>, after: seq<RejectRow>, t: Table, rejected: seq<Rejection>) {
    && |after| == |before| + |rejected| && after[..|before|] == before
    && forall i :: 0 <= i < |rejected| ==> RejectTells(after[|before|..][i], t, rejected[i])
  }

  /** The books after a committed load: one success row with the counts of the load, one reject row
      for each rejection, in order, and the watermark advanced; the rows before stay. */
  ghost predicate CommittedAs(before: Db, after: Db, t: Table, result: GateResult, cursor: Option<string>, now: nat, s: LoadStats) {
    var seen := |result.accepted| + |result.rejected|;
    && OthersStay(before, t, after)
    && RunAdded(before.runs, after.runs, t, now, Success, seen, s.inserted, s.updated, s.same, s.rejected)
    && RejectsAdded(before.rejects, after.rejects, t, result.rejected)
    && WatermarkTells(before.watermarks, after.watermarks, t, cursor, now, seen, s.inserted + s.updated)
  }

  /** The books after a load that was rolled back: one failure row that counts nothing. */
  ghost predicate FailedAs(before: Db, after: Db, t: Table, now: nat) {
    && after.country == before.country && after.indicator == before.indicator && after.observation == before.observation
    && after.rejects == before.rejects && after.watermarks == before.watermarks
    && RunAdded(before.runs, after.runs, t, now, Failed, 0, 0, 0, 0, 0)
  }

  lemma LoadedIs(before: Db, t: Table, table: TableState, id: nat, now: nat, cursor: Option<string>, result: GateResult, s: LoadStats)
    ensures CommittedAs(before, Loaded(before, t, table, id, now, cursor, result, s), t, result, cursor, now, s)
  {
    SuccessIsAdded(before.runs, id, t, now, result, s);
    RejectsAreAdded(before.rejects, t, result.rejected);
  }

  lemma SuccessIsAdded(runs: seq<Run>, id: nat, t: Table, now: nat, result: GateResult, s: LoadStats)
    ensures RunAdded(runs, runs + [SuccessRun(id, t, now, result.Seen(), s)], t, now, Success,
                     |result.accepted| + |result.rejected|, s.inserted, s.updated, s.same, s.rejected)
  {
  }

  lemma RejectsAreAdded(rejects: seq<RejectRow>, t: Table, rejected: seq<Rejection>)
    ensures RejectsAdded(rejects, rejects + RejectRows(t, rejected), t, rejected)
  {
    assert (rejects + RejectRows(t, rejected))[|rejects|..] == RejectRows(t, rejected);
  }

  lemma FailedIs(before: Db, t: Table, id: nat, now: nat)
    ensures FailedAs(before, before.(runs := before.runs + [FailedRun(id, t, now)]), t, now)
  {
  }

  /** What a load can do to the committed state. */
  ghost predicate AllOrNothing(before: Db, after: Db, t: Table, result: GateResult, cursor: Option<string>, now: nat, outcome: Outcome)
  {
    match outcome
    case Committed(s) =>
      && s.rejected == |result.rejected| && s.inserted + s.updated + s.same == |result.accepted|
      && |after.At(t).log| == |before.At(t).log| + s.inserted + s.updated
      && (exists id :: after == Loaded(before, t, after.At(t), id, now, cursor, result, s))
      && CommittedAs(before, after, t, result, cursor, now, s)
    case RolledBack(_) => FailedAs(before, after, t, now) && exists id :: after == before.(runs := before.runs + [FailedRun(id, t, now)])
    case Abandoned => after == before
  }

  lemma DbInvLater(db: Db, base: nat, base': nat)
    requires DbInv(db, base) && base <= base'
    ensures DbInv(db, base')
  {
    forall t: Table ensures Sound(db, t, base') {
      assert Sound(db, t, base);
    }
  }
}
