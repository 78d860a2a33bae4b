/** The data model shared by every stage: the three replicated tables, their keys and
    columns, and the change log that PostgreSQL emits for each of them. */
module Model {

  datatype Option<+T> = None | Some(value: T)

  /** The three business streams, in dependency order. */
  datatype Table = Country | Indicator | Observation

  /** The natural keys, which are also the primary keys and the landing sort keys. */
  datatype Key =
    | CountryKey(id: string)
    | IndicatorKey(id: string)
    | ObservationKey(country: string, indicator: string, year: int)

  function TableOf(k: Key): Table {
    match k
    case CountryKey(_) => Country
    case IndicatorKey(_) => Indicator
    case ObservationKey(_, _, _) => Observation
  }

  /** A double as Python and PostgreSQL see it. */
  datatype Float = Finite(r: real) | NaN | Infinite(positive: bool)

  /** The non-key business columns. `attrs` holds the nullable text columns in table order. */
  datatype Cols =
    | CountryCols(name: string, attrs: seq<Option<string>>, longitude: Option<Float>, latitude: Option<Float>)
    | IndicatorCols(name: string, attrs: seq<Option<string>>)
    | ObservationCols(value: Option<Float>, decimals: Option<int>, vintage: Option<int>)

  /** `source_hash`. The digest is an injective function of the business fields; rows that
      were not written by the loader carry some other text. */
  datatype Hash = Digest(key: Key, cols: Cols) | OtherText(text: string)

  /** What one row of a replicated table holds besides its key. */
  datatype Image = Image(cols: Cols, hash: Hash, updatedAt: nat)

  /** One row change, stamped with its log sequence number. */
  datatype Kind = Insert(image: Image) | Update(image: Image) | Delete
  datatype Change = Change(key: Key, kind: Kind, lsn: nat)

  const MIN_OBS_YEAR := 1960
  const MAX_OBS_YEAR := 2100

  /** The key constraint the schema puts on a row of table t. */
  predicate SchemaKey(t: Table, k: Key) {
    && TableOf(k) == t
    && (k.ObservationKey? ==> MIN_OBS_YEAR <= k.year <= MAX_OBS_YEAR)
  }

  /** The table after one change. */
  function Apply(rows: map<Key, Image>, c: Change): map<Key, Image> {
    match c.kind
    case Insert(image) => rows[c.key := image]
    case Update(image) => rows[c.key := image]
    case Delete => rows - {c.key}
  }

  /** The table as of position p of its change log. */
  function SourceAt(log: seq<Change>, p: nat): map<Key, Image>
    requires p <= |log|
  {
    if p == 0 then map[] else Apply(SourceAt(log, p - 1), log[p - 1])
  }

  /** An insert meets an absent key, an update or delete a present one. */
  predicate Legal(rows: map<Key, Image>, c: Change) {
    if c.kind.Insert? then c.key !in rows else c.key in rows
  }

  /** Log sequence numbers increase strictly along each key. Transactions may interleave,
      so numbers of different keys are not ordered. */
  ghost predicate Ordered(log: seq<Change>) {
    forall i, j :: 0 <= i < j < |log| && log[i].key == log[j].key ==> log[i].lsn < log[j].lsn
  }

  ghost predicate LegalAt(t: Table, log: seq<Change>, i: nat)
    requires i < |log|
  {
    SchemaKey(t, log[i].key) && Legal(SourceAt(log, i), log[i])
  }

  /** A log that table t can have produced: legal changes to schema keys, in order. */
  ghost predicate ValidLog(t: Table, log: seq<Change>) {
    && Ordered(log)
    && forall i {:trigger LegalAt(t, log, i)} :: 0 <= i < |log| ==> LegalAt(t, log, i)
  }

  /** Appending to a log does not change its past. */
  lemma {:induction false} SourceAtAppend(log: seq<Change>, c: Change, p: nat)
    requires p <= |log|
    ensures SourceAt(log + [c], p) == SourceAt(log, p)
  {
    if p > 0 {
      SourceAtAppend(log, c, p - 1);
    }
  }

  /** A longer log tells the same past. */
  lemma {:induction false} SourceAtPrefix(log: seq<Change>, longer: seq<Change>, p: nat)
    requires log <= longer && p <= |log|
    ensures SourceAt(longer, p) == SourceAt(log, p)
  {
    if p > 0 {
      SourceAtPrefix(log, longer, p - 1);
    }
  }

  /** c may be appended: it is legal now and its number is the latest of its key. */
  ghost predicate MayAppend(t: Table, log: seq<Change>, c: Change) {
    && SchemaKey(t, c.key) && Legal(SourceAt(log, |log|), c)
    && forall i :: 0 <= i < |log| && log[i].key == c.key ==> log[i].lsn < c.lsn
  }

  lemma ValidAppend(t: Table, log: seq<Change>, c: Change)
    requires ValidLog(t, log) && MayAppend(t, log, c)
    ensures ValidLog(t, log + [c])
  {
    forall i | 0 <= i < |log + [c]| ensures LegalAt(t, log + [c], i) {
      SourceAtAppend(log, c, i);
      assert i < |log| ==> LegalAt(t, log, i);
    }
  }
}
