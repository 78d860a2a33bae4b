/** The boundary contract and the pre-load gate: what a raw row becomes, which rows are let
    through, and when a batch is fit to load. */
module Gate {
  import opened Model

  // ---- Raw values ---------------------------------------------------------------------

  /** A text field after `str()`; None is JSON null or absence. */
  datatype RawText = NoText | Text(s: string)

  /** A numeric field. `Digits` is text with what float() makes of it; `Oversized` is an integer
      literal no double can hold. */
  datatype RawNumber = NoNumber | Boolean | Number(f: Float) | Oversized | Digits(parsed: Option<Float>)

  /** One element of a response's row array. `iterable` says that `topics` is absent, falsy or
      something to iterate over; `plain`, that the fields not listed here hold no NaN or Infinity
      token. */
  datatype Raw =
    | NotAnObject
    | Object(id: RawText, name: RawText, attrs: seq<RawText>, longitude: RawNumber, latitude: RawNumber,
             iso3: RawText, indicator: RawText, date: RawNumber, value: RawNumber, decimal: RawNumber, iterable: bool, plain: bool)

  /** A raw row with the vintage of the response it came in. */
  datatype Item = Item(vintage: Option<int>, raw: Raw)

  /** A validated record. Its source_hash is Digest(key, cols). */
  datatype Record = Record(key: Key, cols: Cols)

  function HashOf(r: Record): Hash {
    Digest(r.key, r.cols)
  }

  /** A constructor's result: a value, a ValueError the gate records, or an error of another
      type that it does not catch. */
  datatype Parse<+T> = Ok(value: T) | Reject | Abort

  // ---- Normalisation ------------------------------------------------------------------

  /** The characters str.strip removes. */
  predicate IsSpace(c: char) {
    var n := c as int;
    || 0x09 <= n <= 0x0D || 0x1C <= n <= 0x20 || n == 0x85 || n == 0xA0 || n == 0x1680
    || 0x2000 <= n <= 0x200A || n == 0x2028 || n == 0x2029 || n == 0x202F || n == 0x205F || n == 0x3000
  }

  /** They are these 29. */
  lemma SpacesAre(c: char)
    ensures IsSpace(c) <==>
              c in "\U{9}\U{A}\U{B}\U{C}\U{D}\U{1C}\U{1D}\U{1E}\U{1F}\U{20}\U{85}\U{A0}\U{1680}"
                 + "\U{2000}\U{2001}\U{2002}\U{2003}\U{2004}\U{2005}\U{2006}\U{2007}\U{2008}\U{2009}\U{200A}"
                 + "\U{2028}\U{2029}\U{202F}\U{205F}\U{3000}"
  {
  }

  function StripLeft(s: string): string {
    if s != "" && IsSpace(s[0]) then StripLeft(s[1..]) else s
  }

  function StripRight(s: string): string {
    if s != "" && IsSpace(s[|s| - 1]) then StripRight(s[..|s| - 1]) else s
  }

  function CleanText(t: RawText): Option<string> {
    if t.NoText? || StripRight(StripLeft(t.s)) == "" then None else Some(StripRight(StripLeft(t.s)))
  }

  lemma {:induction false} StripRightKeepsHead(s: string)
    requires s != "" && !IsSpace(s[0])
    ensures StripRight(s) != "" && StripRight(s)[0] == s[0]
    ensures !IsSpace(StripRight(s)[|StripRight(s)| - 1])
  {
    if IsSpace(s[|s| - 1]) {
      StripRightKeepsHead(s[..|s| - 1]);
    }
  }

  lemma {:induction false} StripLeftIs(s: string)
    ensures StripLeft(s) != "" ==> !IsSpace(StripLeft(s)[0])
  {
    if s != "" && IsSpace(s[0]) {
      StripLeftIs(s[1..]);
    }
  }

  /** Clean text is non-empty, has no space at either end, and cleaning it again changes
      nothing, so a value cannot split into two that differ in spaces. */
  lemma CleanTextIsClean(t: RawText)
    requires CleanText(t).Some?
    ensures var s := CleanText(t).value;
            && s != "" && !IsSpace(s[0]) && !IsSpace(s[|s| - 1])
            && CleanText(Text(s)) == Some(s)
  {
    StripLeftIs(t.s);
    StripRightKeepsHead(StripLeft(t.s));
  }

  /** Text o is the field t without the spaces at its ends; a field of spaces, or none, is null. */
  ghost predicate Cleans(t: RawText, o: Option<string>) {
    match o
    case None => t.NoText? || forall i :: 0 <= i < |t.s| ==> IsSpace(t.s[i])
    case Some(s) => t.Text? && s != "" && !IsSpace(s[0]) && !IsSpace(s[|s| - 1]) && exists i, j :: CutsOut(t.s, i, j, s)
  }

  /** s is what lies between i and j, and only spaces lie outside. */
  ghost predicate CutsOut(text: string, i: int, j: int, s: string) {
    && 0 <= i <= j <= |text| && text[i..j] == s
    && forall k :: 0 <= k < i || j <= k < |text| ==> IsSpace(text[k])
  }

  lemma {:induction false} StripLeftCuts(s: string) returns (i: nat)
    ensures i <= |s| && StripLeft(s) == s[i..] && forall k :: 0 <= k < i ==> IsSpace(s[k])
  {
    if s != "" && IsSpace(s[0]) {
      i := StripLeftCuts(s[1..]);
      assert forall k :: 1 <= k < i + 1 ==> s[k] == s[1..][k - 1];
      i := i + 1;
    } else {
      i := 0;
    }
  }

  lemma {:induction false} StripRightCuts(s: string) returns (j: nat)
    ensures j <= |s| && StripRight(s) == s[..j] && forall k :: j <= k < |s| ==> IsSpace(s[k])
  {
    if s != "" && IsSpace(s[|s| - 1]) {
      j := StripRightCuts(s[..|s| - 1]);
    } else {
      j := |s|;
    }
  }

  /** clean_text gives the text between the outer spaces, and nothing else does. */
  lemma CleanTextCleans(t: RawText)
    ensures Cleans(t, CleanText(t))
  {
    if t.Text? {
      var i := StripLeftCuts(t.s);
      var j := StripRightCuts(StripLeft(t.s));
      if CleanText(t).Some? {
        CleanTextIsClean(t);
        assert CutsOut(t.s, i, i + j, CleanText(t).value) by {
          assert forall k :: i + j <= k < |t.s| ==> t.s[k] == StripLeft(t.s)[k - i];
        }
      } else {
        assert forall k :: i <= k < |t.s| ==> t.s[k] == StripLeft(t.s)[k - i];
      }
    }
  }

  lemma SomeIsNotNone(t: RawText, s: string)
    ensures Cleans(t, Some(s)) ==> !Cleans(t, None)
  {
    if Cleans(t, Some(s)) {
      var i, j :| CutsOut(t.s, i, j, s);
      assert t.s[i] == s[0];
    }
  }

  lemma CutOnce(text: string, i: int, j: int, s: string, i': int, j': int, s': string)
    requires CutsOut(text, i, j, s) && s != "" && !IsSpace(s[0]) && !IsSpace(s[|s| - 1])
    requires CutsOut(text, i', j', s') && s' != "" && !IsSpace(s'[0]) && !IsSpace(s'[|s'| - 1])
    ensures s == s'
  {
    assert text[i] == s[0] && text[j - 1] == s[|s| - 1];
    assert text[i'] == s'[0] && text[j' - 1] == s'[|s'| - 1];
    assert i == i' && j == j';
  }

  lemma CleansOnce(t: RawText, a: Option<string>, b: Option<string>)
    requires Cleans(t, a) && Cleans(t, b)
    ensures a == b
  {
    if a.Some? {
      SomeIsNotNone(t, a.value);
    }
    if b.Some? {
      SomeIsNotNone(t, b.value);
    }
    if a.Some? && b.Some? {
      var i, j :| CutsOut(t.s, i, j, a.value);
      var k, l :| CutsOut(t.s, k, l, b.value);
      CutOnce(t.s, i, j, a.value, k, l, b.value);
    }
  }

  lemma CleansIs(t: RawText, o: Option<string>)
    ensures Cleans(t, o) <==> o == CleanText(t)
  {
    CleanTextCleans(t);
    if Cleans(t, o) {
      CleansOnce(t, o, CleanText(t));
    }
  }

  function ToFloat(n: RawNumber): Parse<Option<Float>> {
    match n
    case NoNumber => Ok(None)
    case Boolean => Ok(None)
    case Number(f) => Ok(Some(f))
    case Oversized => Abort
    case Digits(parsed) => Ok(parsed)
  }

  /** int() of a double truncates toward zero. */
  function Truncate(r: real): int {
    if r >= 0.0 then r.Floor else -((-r).Floor)
  }

  /** int() of NaN is a ValueError, of an infinity an OverflowError. */
  function ToInt(n: RawNumber): Parse<Option<int>> {
    match ToFloat(n)
    case Ok(None) => Ok(None)
    case Ok(Some(Finite(r))) => Ok(Some(Truncate(r)))
    case Ok(Some(NaN)) => Reject
    case Ok(Some(Infinite(_))) => Abort
    case Reject => Reject
    case Abort => Abort
  }

  /** The field holds the double f, as a number or as text that reads as one. */
  predicate HoldsFloat(n: RawNumber, f: Float) {
    n == Number(f) || n == Digits(Some(f))
  }

  /** What a numeric field reads as: the double it holds, or null if it holds none. */
  predicate Reads(n: RawNumber, v: Option<Float>) {
    if v.Some? then HoldsFloat(n, v.value) else n.NoNumber? || n.Boolean? || n == Digits(None)
  }

  /** What an integer field reads as: the double it holds without its fraction, or null. */
  predicate ReadsInt(n: RawNumber, v: Option<int>) {
    if v.None? then Reads(n, None)
    else
      var f := if n.Number? then n.f else if n.Digits? && n.parsed.Some? then n.parsed.value else NaN;
      f.Finite? && IsTruncated(f.r, v.value)
  }

  /** i is r rounded toward zero. */
  predicate IsTruncated(r: real, i: int) {
    if r >= 0.0 then 0 <= i && i as real <= r < i as real + 1.0
    else i <= 0 && i as real - 1.0 < r <= i as real
  }

  lemma ReadsIs(n: RawNumber, v: Option<Float>)
    ensures Reads(n, v) <==> ToFloat(n) == Ok(v)
  {
  }

  lemma ReadsIntIs(n: RawNumber, v: Option<int>)
    ensures ReadsInt(n, v) <==> ToInt(n) == Ok(v)
  {
    if v.Some? && ToFloat(n).Ok? && ToFloat(n).value.Some? && ToFloat(n).value.value.Finite? {
      TruncatedOnce(ToFloat(n).value.value.r, v.value);
    }
  }

  lemma TruncatedOnce(r: real, i: int)
    ensures IsTruncated(r, i) <==> i == Truncate(r)
  {
    assert IsTruncated(r, Truncate(r));
  }

  function CleanAll(attrs: seq<RawText>): seq<Option<string>> {
    seq(|attrs|, i requires 0 <= i < |attrs| => CleanText(attrs[i]))
  }

  /** The three from_api constructors, each with its own order of evaluation. */
  function FromApi(t: Table, item: Item): Parse<Record> {
    var raw := item.raw;
    if raw.NotAnObject? then Abort
    else match t
      case Country =>
        if CleanText(raw.id).None? || CleanText(raw.name).None? then Reject
        else if ToFloat(raw.longitude).Abort? || ToFloat(raw.latitude).Abort? then Abort
        else Ok(Record(CountryKey(CleanText(raw.id).value),
                       CountryCols(CleanText(raw.name).value, CleanAll(raw.attrs),
                                   ToFloat(raw.longitude).value, ToFloat(raw.latitude).value)))
      case Indicator =>
        if CleanText(raw.id).None? || CleanText(raw.name).None? then Reject
        else if !raw.iterable then Abort
        else Ok(Record(IndicatorKey(CleanText(raw.id).value), IndicatorCols(CleanText(raw.name).value, CleanAll(raw.attrs))))
      case Observation =>
        match ToInt(raw.date)
        case Abort => Abort
        case Reject => Reject
        case Ok(year) =>
          if CleanText(raw.iso3).None? || CleanText(raw.indicator).None? || year.None? then Reject
          else
            var key := ObservationKey(CleanText(raw.iso3).value, CleanText(raw.indicator).value, year.value);
            match (ToFloat(raw.value), ToInt(raw.decimal))
            case (Ok(value), Ok(decimals)) => Ok(Record(key, ObservationCols(value, decimals, item.vintage)))
            case (Ok(_), Reject) => Reject
            case _ => Abort
  }

  // ---- What a record holds of its row ----------------------------------------------------------

  ghost predicate CleansAll(attrs: seq<RawText>, o: seq<Option<string>>) {
    |attrs| == |o| && forall i :: 0 <= i < |attrs| ==> Cleans(attrs[i], o[i])
  }

  /** The record holds, field by field, what its row holds: cleaned texts, parsed numbers, whole
      years and decimal counts, and the vintage of the response. */
  ghost predicate Describes(t: Table, item: Item, r: Record) {
    item.raw.Object? &&
    var raw := item.raw;
    match (r.key, r.cols)
    case (CountryKey(id), CountryCols(name, attrs, longitude, latitude)) =>
      && t.Country? && Cleans(raw.id, Some(id)) && Cleans(raw.name, Some(name)) && CleansAll(raw.attrs, attrs)
      && Reads(raw.longitude, longitude) && Reads(raw.latitude, latitude)
    case (IndicatorKey(id), IndicatorCols(name, attrs)) =>
      && t.Indicator? && Cleans(raw.id, Some(id)) && Cleans(raw.name, Some(name)) && CleansAll(raw.attrs, attrs)
      && raw.iterable
    case (ObservationKey(country, indicator, year), ObservationCols(value, decimals, vintage)) =>
      && t.Observation? && Cleans(raw.iso3, Some(country)) && Cleans(raw.indicator, Some(indicator)) && ReadsInt(raw.date, Some(year))
      && Reads(raw.value, value) && ReadsInt(raw.decimal, decimals) && vintage == item.vintage
    case _ => false
  }

  lemma CleansAllIs(attrs: seq<RawText>, o: seq<Option<string>>)
    ensures CleansAll(attrs, o) <==> o == CleanAll(attrs)
  {
    forall i | 0 <= i < |attrs| && |attrs| == |o| ensures Cleans(attrs[i], o[i]) <==> o[i] == CleanAll(attrs)[i] {
      CleansIs(attrs[i], o[i]);
    }
  }

  /** The constructors give a record exactly if it describes the row. */
  lemma DescribesIs(t: Table, item: Item, r: Record)
    ensures Describes(t, item, r) <==> FromApi(t, item) == Ok(r)
  {
    if item.raw.Object? {
      match (r.key, r.cols)
      case (CountryKey(id), CountryCols(name, attrs, longitude, latitude)) =>
        CountryDescribes(item, id, name, attrs, longitude, latitude);
      case (IndicatorKey(id), IndicatorCols(name, attrs)) =>
        CleansIs(item.raw.id, Some(id));
        CleansIs(item.raw.name, Some(name));
        CleansAllIs(item.raw.attrs, attrs);
      case (ObservationKey(country, indicator, year), ObservationCols(value, decimals, vintage)) =>
        ObservationDescribes(item, country, indicator, year, value, decimals, vintage);
      case _ =>
    }
  }

  lemma CountryDescribes(item: Item, id: string, name: string, attrs: seq<Option<string>>, longitude: Option<Float>, latitude: Option<Float>)
    requires item.raw.Object?
    ensures forall t :: Describes(t, item, Record(CountryKey(id), CountryCols(name, attrs, longitude, latitude))) <==>
                        FromApi(t, item) == Ok(Record(CountryKey(id), CountryCols(name, attrs, longitude, latitude)))
  {
    CleansIs(item.raw.id, Some(id));
    CleansIs(item.raw.name, Some(name));
    CleansAllIs(item.raw.attrs, attrs);
    ReadsIs(item.raw.longitude, longitude);
    ReadsIs(item.raw.latitude, latitude);
  }

  lemma ObservationDescribes(item: Item, country: string, indicator: string, year: int, value: Option<Float>,
                             decimals: Option<int>, vintage: Option<int>)
    requires item.raw.Object?
    ensures forall t :: Describes(t, item, Record(ObservationKey(country, indicator, year), ObservationCols(value, decimals, vintage))) <==>
                        FromApi(t, item) == Ok(Record(ObservationKey(country, indicator, year), ObservationCols(value, decimals, vintage)))
  {
    CleansIs(item.raw.iso3, Some(country));
    CleansIs(item.raw.indicator, Some(indicator));
    ReadsIntIs(item.raw.date, Some(year));
    ReadsIs(item.raw.value, value);
    ReadsIntIs(item.raw.decimal, decimals);
  }

  // ---- Row checks -----------------------------------------------------------------------

  datatype Reason = Contract | NotConfigured | LatitudeRange | LongitudeRange
                  | NoCountryRow | NoIndicatorRow | YearRange | NotFinite | Duplicate

  /** The keys a stream may use: the configured set, or for observations the dimension rows. */
  datatype Allowed = Allowed(countries: set<string>, indicators: set<string>)

  /** A coordinate is in range if it is null or compares inside; NaN does not. */
  predicate Within(f: Option<Float>, bound: real) {
    f.None? || (f.value.Finite? && -bound <= f.value.r <= bound)
  }

  function Check(r: Record, allowed: Allowed): Option<Reason> {
    match (r.key, r.cols)
    case (CountryKey(id), CountryCols(_, _, longitude, latitude)) =>
      if id !in allowed.countries then Some(NotConfigured)
      else if !Within(latitude, 90.0) then Some(LatitudeRange)
      else if !Within(longitude, 180.0) then Some(LongitudeRange)
      else None
    case (IndicatorKey(id), IndicatorCols(_, _)) =>
      if id !in allowed.indicators then Some(NotConfigured) else None
    case (ObservationKey(country, indicator, year), ObservationCols(value, _, _)) =>
      if country !in allowed.countries then Some(NoCountryRow)
      else if indicator !in allowed.indicators then Some(NoIndicatorRow)
      else if !(MIN_OBS_YEAR <= year <= MAX_OBS_YEAR) then Some(YearRange)
      else if value.Some? && !value.value.Finite? then Some(NotFinite)
      else None
    case _ => Some(Contract)
  }

  datatype Verdict = Valid(record: Record) | Invalid(reason: Reason) | Aborts

  function Judge(t: Table, item: Item, allowed: Allowed): Verdict {
    match FromApi(t, item)
    case Abort => Aborts
    case Reject => Invalid(Contract)
    case Ok(r) => if Check(r, allowed).Some? then Invalid(Check(r, allowed).value) else Valid(r)
  }

  // ---- The gates ------------------------------------------------------------------------

  datatype Rejection = Rejection(reason: Reason, payload: Raw)
  datatype GateResult = GateResult(accepted: seq<Record>, rejected: seq<Rejection>) {
    function Seen(): nat {
      |accepted| + |rejected|
    }
  }

  /** Row i is the first valid row with its key. */
  ghost predicate First(t: Table, items: seq<Item>, allowed: Allowed, i: nat)
    requires i < |items|
  {
    && Judge(t, items[i], allowed).Valid?
    && forall j :: 0 <= j < i && Judge(t, items[j], allowed).Valid? ==>
         Judge(t, items[j], allowed).record.key != Judge(t, items[i], allowed).record.key
  }

  /** The records of the first n rows that are the first valid ones of their key, in order. */
  ghost function Accepted(t: Table, items: seq<Item>, allowed: Allowed, n: nat): seq<Record>
    requires n <= |items|
  {
    if n == 0 then []
    else Accepted(t, items, allowed, n - 1)
         + if First(t, items, allowed, n - 1) then [Judge(t, items[n - 1], allowed).record] else []
  }

  /** The rest of the first n rows, in order, each with its reason. */
  ghost function Rejected(t: Table, items: seq<Item>, allowed: Allowed, n: nat): seq<Rejection>
    requires n <= |items|
  {
    if n == 0 then []
    else
      var v := Judge(t, items[n - 1], allowed);
      Rejected(t, items, allowed, n - 1)
      + if First(t, items, allowed, n - 1) then []
        else [Rejection(if v.Invalid? then v.reason else Duplicate, items[n - 1].raw)]
  }

  /** Some valid row before n has this key. */
  ghost predicate SeenBy(t: Table, items: seq<Item>, allowed: Allowed, n: nat, k: Key)
    requires n <= |items|
  {
    exists j :: 0 <= j < n && Judge(t, items[j], allowed).Valid? && Judge(t, items[j], allowed).record.key == k
  }

  /** The seen_keys set after n rows. */
  ghost predicate IsSeen(t: Table, items: seq<Item>, allowed: Allowed, n: nat, seen: set<Key>)
    requires n <= |items|
  {
    forall k :: k in seen <==> SeenBy(t, items, allowed, n, k)
  }

  lemma SeenGrows(t: Table, items: seq<Item>, allowed: Allowed, n: nat, seen: set<Key>)
    requires n < |items| && IsSeen(t, items, allowed, n, seen)
    ensures var v := Judge(t, items[n], allowed);
            IsSeen(t, items, allowed, n + 1, if v.Valid? then seen + {v.record.key} else seen)
  {
    forall k | SeenBy(t, items, allowed, n, k) ensures SeenBy(t, items, allowed, n + 1, k) {
      var j :| 0 <= j < n && Judge(t, items[j], allowed).Valid? && Judge(t, items[j], allowed).record.key == k;
      assert 0 <= j < n + 1;
    }
  }

  /** What the next row adds. */
  lemma NextRow(t: Table, items: seq<Item>, allowed: Allowed, n: nat)
    requires n < |items|
    ensures var v, some, rest := Judge(t, items[n], allowed), Accepted(t, items, allowed, n), Rejected(t, items, allowed, n);
            var first := v.Valid? && !SeenBy(t, items, allowed, n, v.record.key);
            && Accepted(t, items, allowed, n + 1) == (if first then some + [v.record] else some)
            && Rejected(t, items, allowed, n + 1) ==
                 (if first then rest else rest + [Rejection(if v.Invalid? then v.reason else Duplicate, items[n].raw)])
  {
    var v := Judge(t, items[n], allowed);
    assert First(t, items, allowed, n) <==> v.Valid? && !SeenBy(t, items, allowed, n, v.record.key);
  }

  /** The state of the loop after n rows. */
  ghost predicate GatedSoFar(t: Table, items: seq<Item>, allowed: Allowed, n: nat,
                             accepted: seq<Record>, rejected: seq<Rejection>, seen: set<Key>)
    requires n <= |items|
  {
    && accepted == Accepted(t, items, allowed, n) && rejected == Rejected(t, items, allowed, n)
    && IsSeen(t, items, allowed, n, seen)
  }

  /** One turn of the loop. */
  lemma GateStep(t: Table, items: seq<Item>, allowed: Allowed, n: nat, v: Verdict,
                 accepted: seq<Record>, rejected: seq<Rejection>, seen: set<Key>)
    requires n < |items| && v == Judge(t, items[n], allowed)
    requires GatedSoFar(t, items, allowed, n, accepted, rejected, seen)
    ensures if v.Valid? && v.record.key !in seen then
              GatedSoFar(t, items, allowed, n + 1, accepted + [v.record], rejected, seen + {v.record.key})
            else
              GatedSoFar(t, items, allowed, n + 1, accepted,
                         rejected + [Rejection(if v.Invalid? then v.reason else Duplicate, items[n].raw)], seen)
  {
    NextRow(t, items, allowed, n);
    SeenGrows(t, items, allowed, n, seen);
    assert v.Valid? && v.record.key in seen ==> seen + {v.record.key} == seen;
  }

  /** gate_countries, gate_indicators and gate_observations: the same loop over their own
      constructor, check and key. None is an exception that leaves the gate. */
  method GateRows(t: Table, items: seq<Item>, allowed: Allowed) returns (result: Option<GateResult>)
    ensures result.None? <==> exists i :: 0 <= i < |items| && Judge(t, items[i], allowed).Aborts?
    ensures result.Some? ==> result.value.accepted == Accepted(t, items, allowed, |items|)
    ensures result.Some? ==> result.value.rejected == Rejected(t, items, allowed, |items|)
  {
    var accepted: seq<Record>, rejected: seq<Rejection>, seen: set<Key> := [], [], {};
    for i := 0 to |items|
      invariant forall j :: 0 <= j < i ==> !Judge(t, items[j], allowed).Aborts?
      invariant GatedSoFar(t, items, allowed, i, accepted, rejected, seen)
    {
      var verdict := Judge(t, items[i], allowed);
      GateStep(t, items, allowed, i, verdict, accepted, rejected, seen);
      match verdict
      case Aborts => return None;
      case Invalid(reason) => rejected := rejected + [Rejection(reason, items[i].raw)];
      case Valid(record) =>
        if record.key in seen {
          rejected := rejected + [Rejection(Duplicate, items[i].raw)];
        } else {
          seen := seen + {record.key};
          accepted := accepted + [record];
        }
    }
    return Some(GateResult(accepted, rejected));
  }

  ghost predicate DistinctRecords(records: seq<Record>) {
    forall i, j :: 0 <= i < j < |records| ==> records[i].key != records[j].key
  }

  /** The gate partitions its input: nothing is lost or doubled, accepted keys are pairwise
      distinct and pass the check, and every valid row's key is accepted. */
  lemma {:induction false} GatePartition(t: Table, items: seq<Item>, allowed: Allowed, n: nat)
    requires n <= |items|
    ensures |Accepted(t, items, allowed, n)| + |Rejected(t, items, allowed, n)| == n
    ensures DistinctRecords(Accepted(t, items, allowed, n))
    ensures forall r :: r in Accepted(t, items, allowed, n) <==>
              exists i :: 0 <= i < n && First(t, items, allowed, i) && r == Judge(t, items[i], allowed).record
  {
    if n > 0 {
      GatePartition(t, items, allowed, n - 1);
      if First(t, items, allowed, n - 1) {
        var some, r := Accepted(t, items, allowed, n - 1), Judge(t, items[n - 1], allowed).record;
        forall i | 0 <= i < |some| ensures some[i].key != r.key {
          assert some[i] in some;
        }
      }
    }
  }

  lemma {:induction false} ValidIsAccepted(t: Table, items: seq<Item>, allowed: Allowed, i: nat) returns (first: nat)
    requires i < |items| && Judge(t, items[i], allowed).Valid?
    ensures first <= i && First(t, items, allowed, first)
    ensures Judge(t, items[first], allowed).record.key == Judge(t, items[i], allowed).record.key
  {
    if First(t, items, allowed, i) {
      first := i;
    } else {
      var j :| 0 <= j < i && Judge(t, items[j], allowed).Valid? &&
        Judge(t, items[j], allowed).record.key == Judge(t, items[i], allowed).record.key;
      first := ValidIsAccepted(t, items, allowed, j);
    }
  }

  /** What an accepted record of stream t guarantees: complete clean keys inside the allowed
      sets, a year in range, and a null or finite value. */
  predicate Admitted(t: Table, r: Record, allowed: Allowed) {
    match (r.key, r.cols)
    case (CountryKey(id), CountryCols(_, _, _, _)) => t.Country? && id != "" && id in allowed.countries
    case (IndicatorKey(id), IndicatorCols(_, _)) => t.Indicator? && id != "" && id in allowed.indicators
    case (ObservationKey(country, indicator, year), ObservationCols(value, _, _)) =>
      && t.Observation? && country != "" && indicator != ""
      && country in allowed.countries && indicator in allowed.indicators
      && 1960 <= year <= 2100 && (value.Some? ==> value.value.Finite?)
    case _ => false
  }

  lemma ValidIsAdmitted(t: Table, item: Item, allowed: Allowed)
    requires Judge(t, item, allowed).Valid?
    ensures Admitted(t, Judge(t, item, allowed).record, allowed)
  {
    assert FromApi(t, item) == Ok(Judge(t, item, allowed).record);
  }

  lemma AcceptedAreAdmitted(t: Table, items: seq<Item>, allowed: Allowed, r: Record)
    requires r in Accepted(t, items, allowed, |items|)
    ensures Admitted(t, r, allowed)
  {
    GatePartition(t, items, allowed, |items|);
    var i :| 0 <= i < |items| && First(t, items, allowed, i) && r == Judge(t, items[i], allowed).record;
    ValidIsAdmitted(t, items[i], allowed);
  }

  predicate IsInfinite(n: RawNumber) {
    || n.Oversized?
    || (n.Number? && n.f.Infinite?)
    || (n.Digits? && n.parsed.Some? && n.parsed.value.Infinite?)
  }

  predicate IsFinite(n: RawNumber) {
    || (n.Number? && n.f.Finite?)
    || (n.Digits? && n.parsed.Some? && n.parsed.value.Finite?)
  }

  /** What ends the gate of stream t, as read off one row. */
  predicate EndsGate(t: Table, raw: Raw) {
    raw.NotAnObject? ||
    match t
    case Country =>
      CleanText(raw.id).Some? && CleanText(raw.name).Some? && (raw.longitude.Oversized? || raw.latitude.Oversized?)
    case Indicator => CleanText(raw.id).Some? && CleanText(raw.name).Some? && !raw.iterable
    case Observation =>
      || IsInfinite(raw.date)
      || (IsFinite(raw.date) && CleanText(raw.iso3).Some? && CleanText(raw.indicator).Some?
          && (raw.value.Oversized? || IsInfinite(raw.decimal)))
  }

  /** The gates do not catch everything. A row ends the whole gate, instead of being rejected,
      exactly when it is not an object, or its key is usable and a country's coordinate is an
      oversized integer, an indicator's topics cannot be iterated, or an observation's value is
      an oversized integer or its decimal count infinite, or an observation's date is infinite. */
  lemma AbortsExactly(t: Table, item: Item, allowed: Allowed)
    ensures Judge(t, item, allowed).Aborts? <==> EndsGate(t, item.raw)
  {
    if item.raw.Object? {
      match item.raw.date
      case Digits(Some(f)) => match f { case Finite(_) => case NaN => case Infinite(_) => }
      case Number(f) => match f { case Finite(_) => case NaN => case Infinite(_) => }
      case _ =>
    }
  }

  /** So a stream is gated if and only if none of its rows is one of these. */
  lemma GateAborts(t: Table, items: seq<Item>, allowed: Allowed)
    ensures (exists i :: 0 <= i < |items| && Judge(t, items[i], allowed).Aborts?)
            <==> exists i :: 0 <= i < |items| && EndsGate(t, items[i].raw)
  {
    forall i | 0 <= i < |items| ensures Judge(t, items[i], allowed).Aborts? <==> EndsGate(t, items[i].raw) {
      AbortsExactly(t, items[i], allowed);
    }
  }

  // ---- Valid rows, field by field -------------------------------------------------------------

  /** The coordinate is null, or a number between -bound and bound. */
  predicate InRange(f: Option<Float>, bound: real) {
    f == None || (f.value.Finite? && f.value.r >= -bound && f.value.r <= bound)
  }

  /** What the checks of stream t let through. */
  predicate Permitted(t: Table, r: Record, allowed: Allowed) {
    && Admitted(t, r, allowed)
    && (t.Country? ==> InRange(r.cols.latitude, 90.0) && InRange(r.cols.longitude, 180.0))
  }

  /** A row is valid, and gives this record, exactly if the record describes the row and is
      permitted. */
  lemma ValidExactly(t: Table, item: Item, allowed: Allowed, r: Record)
    ensures Judge(t, item, allowed) == Valid(r) <==> Describes(t, item, r) && Permitted(t, r, allowed)
  {
    DescribesIs(t, item, r);
    if Judge(t, item, allowed) == Valid(r) {
      ValidIsAdmitted(t, item, allowed);
    }
  }

  /** What each reason of a check means for the record it stops. */
  predicate Explains(reason: Reason, r: Record, allowed: Allowed) {
    match reason
    case NotConfigured =>
      (r.key.CountryKey? && r.key.id !in allowed.countries) || (r.key.IndicatorKey? && r.key.id !in allowed.indicators)
    case LatitudeRange => r.key.CountryKey? && r.cols.CountryCols? && r.key.id in allowed.countries && !InRange(r.cols.latitude, 90.0)
    case LongitudeRange =>
      r.key.CountryKey? && r.cols.CountryCols? && r.key.id in allowed.countries && InRange(r.cols.latitude, 90.0) && !InRange(r.cols.longitude, 180.0)
    case NoCountryRow => r.key.ObservationKey? && r.key.country !in allowed.countries
    case NoIndicatorRow => r.key.ObservationKey? && r.key.country in allowed.countries && r.key.indicator !in allowed.indicators
    case YearRange =>
      && r.key.ObservationKey? && r.key.country in allowed.countries && r.key.indicator in allowed.indicators
      && !(1960 <= r.key.year <= 2100)
    case NotFinite =>
      && r.key.ObservationKey? && r.key.country in allowed.countries && r.key.indicator in allowed.indicators
      && 1960 <= r.key.year <= 2100
      && r.cols.ObservationCols? && r.cols.value.Some? && !r.cols.value.value.Finite?
    case _ => false
  }

  /** Key and columns are of one stream. */
  predicate OneStream(r: Record) {
    || (r.key.CountryKey? && r.cols.CountryCols?)
    || (r.key.IndicatorKey? && r.cols.IndicatorCols?)
    || (r.key.ObservationKey? && r.cols.ObservationCols?)
  }

  lemma CheckExplains(r: Record, allowed: Allowed, reason: Reason)
    requires OneStream(r)
    ensures Check(r, allowed) == Some(reason) <==> Explains(reason, r, allowed)
  {
  }

  /** A row is invalid for the first check it fails, or for the contract if no record describes it
      and it does not end the gate. */
  lemma InvalidExactly(t: Table, item: Item, allowed: Allowed, reason: Reason)
    ensures Judge(t, item, allowed) == Invalid(reason) <==>
              || (reason == Contract && !EndsGate(t, item.raw) && forall r :: !Describes(t, item, r))
              || exists r :: Describes(t, item, r) && Explains(reason, r, allowed)
  {
    AbortsExactly(t, item, allowed);
    forall r ensures Describes(t, item, r) <==> FromApi(t, item) == Ok(r) {
      DescribesIs(t, item, r);
    }
    if FromApi(t, item).Ok? {
      var r := FromApi(t, item).value;
      assert Describes(t, item, r);
      CheckExplains(r, allowed, reason);
    }
  }

  /** Every accepted record describes one of the rows. */
  lemma AcceptedDescribe(t: Table, items: seq<Item>, allowed: Allowed, r: Record) returns (i: nat)
    requires r in Accepted(t, items, allowed, |items|)
    ensures i < |items| && Describes(t, items[i], r) && Permitted(t, r, allowed)
    ensures forall j, q :: 0 <= j < i && Describes(t, items[j], q) && Permitted(t, q, allowed) ==> q.key != r.key
  {
    GatePartition(t, items, allowed, |items|);
    i :| 0 <= i < |items| && First(t, items, allowed, i) && r == Judge(t, items[i], allowed).record;
    ValidExactly(t, items[i], allowed, r);
    forall j, q | 0 <= j < i && Describes(t, items[j], q) && Permitted(t, q, allowed) ensures q.key != r.key {
      ValidExactly(t, items[j], allowed, q);
    }
  }

  /** Every row that a permitted record describes has its key among the accepted ones. */
  lemma PermittedIsAccepted(t: Table, items: seq<Item>, allowed: Allowed, i: nat, r: Record) returns (q: Record)
    requires i < |items| && Describes(t, items[i], r) && Permitted(t, r, allowed)
    ensures q in Accepted(t, items, allowed, |items|) && q.key == r.key
  {
    ValidExactly(t, items[i], allowed, r);
    var first := ValidIsAccepted(t, items, allowed, i);
    GatePartition(t, items, allowed, |items|);
    q := Judge(t, items[first], allowed).record;
  }

  /** Row i gives this rejection: an invalid row its reason, a valid one that is not the first of
      its key the reason Duplicate, each with the row itself. */
  ghost predicate RejectedAt(t: Table, items: seq<Item>, allowed: Allowed, i: nat, x: Rejection)
    requires i < |items|
  {
    && x.payload == items[i].raw
    && match Judge(t, items[i], allowed)
       case Invalid(reason) => x.reason == reason
       case Valid(r) => x.reason == Duplicate && SeenBy(t, items, allowed, i, r.key)
       case Aborts => !First(t, items, allowed, i)
  }

  /** The rejections are the other rows, in their order. */
  lemma {:induction false} RejectedAre(t: Table, items: seq<Item>, allowed: Allowed, n: nat) returns (at: seq<nat>)
    requires n <= |items|
    ensures |at| == |Rejected(t, items, allowed, n)|
    ensures forall k :: 0 <= k < |at| ==> at[k] < n && RejectedAt(t, items, allowed, at[k], Rejected(t, items, allowed, n)[k])
    ensures forall k, l :: 0 <= k < l < |at| ==> at[k] < at[l]
  {
    at := [];
    if n > 0 {
      at := RejectedAre(t, items, allowed, n - 1);
      NextRow(t, items, allowed, n - 1);
      if |Rejected(t, items, allowed, n)| > |at| {
        at := at + [n - 1];
      }
    }
  }

  // ---- Batches --------------------------------------------------------------------------

  /** assert_batch_acceptable at its threshold of five percent. */
  predicate Acceptable(result: GateResult, minRows: nat) {
    && result.Seen() >= minRows
    && (result.Seen() > 0 ==> 20 * |result.rejected| <= result.Seen())
  }

  /** A batch passes exactly if it has the floor and at most five percent of it were rejected. */
  lemma AcceptableExactly(result: GateResult, minRows: nat)
    ensures Acceptable(result, minRows) <==>
              var seen := |result.accepted| + |result.rejected|;
              seen >= minRows && |result.rejected| as real <= 0.05 * seen as real
  {
  }

  /** A batch that is not failed keeps at least 95 of every 100 rows of the floor. */
  lemma AcceptableKeeps(result: GateResult, minRows: nat)
    requires Acceptable(result, minRows)
    ensures 100 * |result.accepted| >= 95 * minRows
  {
  }
}
