/** Pagination, the retry policy, and record and replay of responses. */
module ApiClient {
  import opened Model

  // ---- Responses ----------------------------------------------------------------------

  /** The `pages` field of a metadata object: absent, null, an integer, text that reads as one,
      a number with a fractional part (given by the next integer up), or anything else (`truthy`
      is its truth value in Python). */
  datatype PagesField = Missing | Null | Count(n: int) | CountText(n: int) | Fraction(ceiling: int) | Junk(truthy: bool)

  /** The first element of a response. `sound` says that page, per_page and total are there and
      read as integers, and lastupdated, if there, as a date. */
  datatype Meta = NoObject | Meta(pages: PagesField, sound: bool, vintage: nat)

  /** The second element. Rows are opaque. */
  datatype Body = NullRows | RowList(rows: seq<nat>) | OtherBody(truthy: bool)

  /** A decoded JSON payload, by the shapes the client and the recorder tell apart. */
  datatype Payload =
    | JsonNull
    | Scalar                      // number or boolean: has no length
    | Mapping(size: nat)          // object or its like: items are not numbered
    | Characters(size: nat)       // string
    | ShortList                   // array of fewer than two elements
    | Envelope(meta: Meta, body: Body)

  datatype Page = Page(pages: int, vintage: nat, rows: seq<nat>)
  datatype Parsed = Good(page: Page) | ContractError

  function PagesValue(p: PagesField): Option<int> {
    match p
    case Count(n) => Some(n)
    case CountText(n) => Some(n)
    case _ => None
  }

  /** parse_envelope. Every refusal is a SourceContractError or pydantic's ValidationError. */
  function ParseEnvelope(payload: Payload): Parsed {
    if !payload.Envelope? || payload.meta.NoObject? || payload.body.OtherBody? then ContractError
    else if !payload.meta.sound || PagesValue(payload.meta.pages).None? then ContractError
    else Good(Page(PagesValue(payload.meta.pages).value, payload.meta.vintage,
                   if payload.body.RowList? then payload.body.rows else []))
  }

  // ---- The client -----------------------------------------------------------------------

  const PAGE_LIMIT := 10_000

  datatype Ending = Complete | Refused | DidNotTerminate

  /** All pages a caller drains, how the generator ended, and the number of fetches. */
  datatype Drained = Drained(pages: seq<Page>, ending: Ending, fetches: nat)

  /** A server: what it answers for page 1, 2, and so on. */
  type Server = nat -> Payload

  /** The first response's page count. */
  function Total(server: Server): int {
    if ParseEnvelope(server(1)).Good? then ParseEnvelope(server(1)).page.pages else 0
  }

  /** Page n is the last one fetched: it is refused or empty, or the first count is reached. */
  predicate Stops(server: Server, n: nat) {
    || ParseEnvelope(server(n)).ContractError?
    || ParseEnvelope(server(n)).page.rows == []
    || n >= Total(server)
  }

  /** The pages 1 .. n as parsed. */
  ghost predicate AreFirst(server: Server, pages: seq<Page>) {
    forall i :: 0 <= i < |pages| ==> ParseEnvelope(server(i + 1)) == Good(pages[i]) && pages[i].rows != []
  }

  /** What draining means, without the loop: pages 1 up to the first stop, that one included
      if it has rows. */
  ghost predicate Drains(server: Server, d: Drained) {
    && AreFirst(server, d.pages)
    && 1 <= d.fetches <= PAGE_LIMIT
    && (forall n :: 1 <= n < d.fetches ==> !Stops(server, n))
    && match d.ending
       case Refused => |d.pages| == d.fetches - 1 && ParseEnvelope(server(d.fetches)).ContractError?
       case Complete =>
         && Stops(server, d.fetches) && ParseEnvelope(server(d.fetches)).Good?
         && |d.pages| == if ParseEnvelope(server(d.fetches)).page.rows == [] then d.fetches - 1 else d.fetches
       case DidNotTerminate => |d.pages| == d.fetches == PAGE_LIMIT && !Stops(server, PAGE_LIMIT)
  }

  /** Pages 1 .. |pages| are in and none of them was the last. */
  ghost predicate Underway(server: Server, pages: seq<Page>) {
    AreFirst(server, pages) && forall n :: 1 <= n <= |pages| ==> !Stops(server, n)
  }

  /** How a drain under way ends when response n comes in, if it does. */
  function Ended(server: Server, pages: seq<Page>, n: nat): Option<Drained> {
    match ParseEnvelope(server(n))
    case ContractError => Some(Drained(pages, Refused, n))
    case Good(page) =>
      if page.rows == [] then Some(Drained(pages, Complete, n))
      else if n >= Total(server) then Some(Drained(pages + [page], Complete, n))
      else if n >= PAGE_LIMIT then Some(Drained(pages + [page], DidNotTerminate, n))
      else None
  }

  // ---- Draining, in terms of the responses ----------------------------------------------------

  /** A response the client takes: an array of two or more elements, an object with sound metadata
      and an integer page count first, null or a list of rows second. */
  predicate WellMade(p: Payload) {
    && p.Envelope? && p.meta.Meta? && p.meta.sound
    && (p.meta.pages.Count? || p.meta.pages.CountText?)
    && (p.body.NullRows? || p.body.RowList?)
  }

  /** Its metadata gives this page count. */
  predicate CountIs(p: Payload, c: int) {
    p.Envelope? && p.meta.Meta? && p.meta.pages in {Count(c), CountText(c)}
  }

  predicate HasRows(p: Payload) {
    p.Envelope? && p.body.RowList? && |p.body.rows| > 0
  }

  /** The page holds all rows, the vintage and the page count of the response. */
  predicate PageIs(page: Page, p: Payload) {
    && HasRows(p) && page.rows == p.body.rows
    && CountIs(p, page.pages) && page.vintage == p.meta.vintage
  }

  /** Page n is the last by the first response's count. */
  ghost predicate IsLast(server: Server, n: nat) {
    exists c :: CountIs(server(1), c) && n >= c
  }

  /** The pages are responses 1 .. |pages|; every response before the last one fetched has rows and
      does not reach the first count; and the last one says how the drain ends. */
  ghost predicate DrainsResponses(server: Server, d: Drained) {
    && (forall i :: 0 <= i < |d.pages| ==> PageIs(d.pages[i], server(i + 1)))
    && 1 <= d.fetches <= 10_000
    && (forall n :: 1 <= n < d.fetches ==> Passes(server, n))
    && match d.ending
       case Refused => |d.pages| == d.fetches - 1 && !WellMade(server(d.fetches))
       case Complete =>
         && WellMade(server(d.fetches))
         && if HasRows(server(d.fetches)) then |d.pages| == d.fetches && IsLast(server, d.fetches) else |d.pages| == d.fetches - 1
       case DidNotTerminate => |d.pages| == d.fetches == 10_000 && Passes(server, 10_000)
  }

  ghost predicate Passes(server: Server, n: nat) {
    WellMade(server(n)) && HasRows(server(n)) && !IsLast(server, n)
  }

  /** A response is refused exactly when it is not well made; otherwise its page is all of it. */
  lemma ParsedIs(p: Payload)
    ensures ParseEnvelope(p).ContractError? <==> !WellMade(p)
    ensures ParseEnvelope(p).Good? ==>
              var page := ParseEnvelope(p).page;
              CountIs(p, page.pages) && page.vintage == p.meta.vintage && (if HasRows(p) then page.rows == p.body.rows else page.rows == [])
  {
  }

  lemma StopsIs(server: Server, n: nat)
    requires WellMade(server(1))
    ensures Stops(server, n) <==> !WellMade(server(n)) || !HasRows(server(n)) || IsLast(server, n)
  {
    ParsedIs(server(1));
    ParsedIs(server(n));
    assert CountIs(server(1), Total(server));
  }

  /** What draining means in terms of parsed pages is what it means in terms of the responses. */
  lemma DrainsAre(server: Server, d: Drained)
    requires Drains(server, d)
    ensures DrainsResponses(server, d)
  {
    ParsedIs(server(1));
    ParsedIs(server(d.fetches));
    forall i | 0 <= i < |d.pages| ensures PageIs(d.pages[i], server(i + 1)) {
      ParsedIs(server(i + 1));
    }
    if WellMade(server(1)) {
      StopsIs(server, d.fetches);
      forall n | 1 <= n < d.fetches ensures Passes(server, n) {
        StopsIs(server, n);
      }
    } else {
      assert Stops(server, 1);
    }
  }

  /** All rows a drain yields, and all rows of the first n responses. */
  function AllRows(pages: seq<Page>): seq<nat> {
    if pages == [] then [] else AllRows(pages[..|pages| - 1]) + pages[|pages| - 1].rows
  }

  function ResponseRows(server: Server, n: nat): seq<nat> {
    if n == 0 then []
    else ResponseRows(server, n - 1) + if HasRows(server(n)) then server(n).body.rows else []
  }

  lemma {:induction false} PagesHoldRows(server: Server, pages: seq<Page>)
    requires forall i :: 0 <= i < |pages| ==> PageIs(pages[i], server(i + 1))
    ensures AllRows(pages) == ResponseRows(server, |pages|)
  {
    if pages != [] {
      var n := |pages| - 1;
      PagesHoldRows(server, pages[..n]);
      assert PageIs(pages[n], server(n + 1));
    }
  }

  /** No row is lost, added or reordered: a drain yields the rows of all responses it fetched, one
      response after the other; the one it refused, if any, is the last. */
  lemma DrainedRows(server: Server, d: Drained)
    requires Drains(server, d)
    ensures AllRows(d.pages) == ResponseRows(server, |d.pages|)
    ensures d.ending.Complete? ==> AllRows(d.pages) == ResponseRows(server, d.fetches)
  {
    DrainsAre(server, d);
    PagesHoldRows(server, d.pages);
  }

  /** One more response ends the drain as it should, or leaves it under way. */
  lemma OneMorePage(server: Server, pages: seq<Page>)
    requires Underway(server, pages) && |pages| < PAGE_LIMIT
    ensures var n := |pages| + 1;
            match Ended(server, pages, n)
            case Some(d) => Drains(server, d)
            case None => ParseEnvelope(server(n)).Good? && Underway(server, pages + [ParseEnvelope(server(n)).page])
  {
  }

  // ---- Fetchers ---------------------------------------------------------------------------

  /** The empty page served past the end of a recording. */
  function Tail(pages: nat): Payload {
    Envelope(Meta(Count(pages), true, 0), RowList([]))
  }

  /** Page n of a recording. */
  function ReplayPage(pages: seq<Payload>, n: nat): Payload {
    if 1 <= n <= |pages| then pages[n - 1] else Tail(|pages|)
  }

  /** How a recording answers request 1, 2, and so on. */
  function Replay(pages: seq<Payload>): Server {
    (n: nat) => ReplayPage(pages, n)
  }

  /** Live servers by path, or recordings by path. */
  datatype Source = Live(servers: string -> Server) | Recorded(files: map<string, seq<Payload>>)

  function PositionIn(cursor: map<string, nat>, path: string): nat {
    if path in cursor then cursor[path] else 0
  }

  /** The cursors after k further requests for a path, and nothing else. */
  function Moved(cursor: map<string, nat>, path: string, k: nat): map<string, nat> {
    if k == 0 then cursor else cursor[path := PositionIn(cursor, path) + k]
  }

  /** Whether requests for a path move a cursor. */
  predicate Counted(source: Source, path: string) {
    source.Recorded? && path in source.files
  }

  /** What the nth of the next requests for a path will be answered with, if they ask for page 1,
      2, and so on. A path without a recording is refused. */
  function Answer(source: Source, cursor: map<string, nat>, path: string, n: nat): Payload {
    match source
    case Live(servers) => servers(path)(n)
    case Recorded(files) => if path !in files then Scalar else ReplayPage(files[path], PositionIn(cursor, path) + n)
  }

  function AnswersFrom(source: Source, cursor: map<string, nat>, path: string): Server {
    (n: nat) => Answer(source, cursor, path, n)
  }

  /** The cursors after n requests. */
  function After(source: Source, cursor: map<string, nat>, path: string, n: nat): map<string, nat> {
    Moved(cursor, path, if Counted(source, path) then n else 0)
  }

  /** What request n + 1 gets after n requests is page n + 1 as seen from the start. */
  lemma NextAnswer(source: Source, start: map<string, nat>, path: string, n: nat)
    ensures var now := After(source, start, path, n);
            && Answer(source, now, path, if Counted(source, path) then 1 else n + 1) == Answer(source, start, path, n + 1)
            && After(source, now, path, 1) == After(source, start, path, n + 1)
  {
    var now := After(source, start, path, n);
    if Counted(source, path) {
      assert PositionIn(now, path) == PositionIn(start, path) + n;
    }
  }

  /** The next answer and the cursors after it: a live server is asked for the page, a recording
      gives its next response, and past its end a well-made one without rows. */
  lemma NextAnswerIs(source: Source, cursor: map<string, nat>, path: string, page: nat)
    ensures var payload, next := Answer(source, cursor, path, if Counted(source, path) then 1 else page), After(source, cursor, path, 1);
            match source
            case Live(servers) => payload == servers(path)(page) && next == cursor
            case Recorded(files) =>
              if path !in files then !WellMade(payload) && next == cursor
              else
                var done := if path in cursor then cursor[path] else 0;
                && next == cursor[path := done + 1]
                && if done < |files[path]| then payload == files[path][done] else WellMade(payload) && !HasRows(payload)
  {
  }

  /** LiveFetcher and FixtureFetcher, chosen by the settings. */
  class Fetcher {
    const source: Source
    var cursor: map<string, nat>

    constructor (source: Source)
      ensures this.source == source && cursor == map[]
    {
      this.source, this.cursor := source, map[];
    }

    /** A recording serves its pages in order, whatever page is asked for. */
    method Get(path: string, page: nat) returns (payload: Payload)
      modifies this`cursor
      ensures payload == Answer(source, old(cursor), path, if Counted(source, path) then 1 else page)
      ensures cursor == After(source, old(cursor), path, 1)
    {
      match source
      case Live(servers) =>
        payload := servers(path)(page);
      case Recorded(files) =>
        if path !in files {
          return Scalar;
        }
        var pages, index := files[path], PositionIn(cursor, path);
        cursor := cursor[path := index + 1];
        payload := if index >= |pages| then Tail(|pages|) else pages[index];
    }

    /** paginate, drained. A recording moves on by one position for each fetch. */
    method Paginate(path: string) returns (d: Drained)
      modifies this`cursor
      ensures Drains(AnswersFrom(source, old(cursor), path), d)
      ensures cursor == After(source, old(cursor), path, d.fetches)
    {
      ghost var start, server := cursor, AnswersFrom(source, cursor, path);
      var page, total: Option<int>, pages: seq<Page> := 1, None, [];
      while true
        invariant 1 <= page <= PAGE_LIMIT && |pages| == page - 1
        invariant Underway(server, pages)
        invariant total == if page == 1 then None else Some(Total(server))
        invariant cursor == After(source, start, path, page - 1)
        decreases PAGE_LIMIT - page
      {
        NextAnswer(source, start, path, page - 1);
        OneMorePage(server, pages);
        ghost var ended := Ended(server, pages, page);
        var payload := Get(path, page);
        var parsed := ParseEnvelope(payload);
        assert parsed == ParseEnvelope(server(page));
        if parsed.ContractError? {
          d := Drained(pages, Refused, page);
          assert ended == Some(d);
          return;
        }
        if total.None? {
          total := Some(parsed.page.pages);
        }
        if parsed.page.rows == [] {
          d := Drained(pages, Complete, page);
          assert ended == Some(d);
          return;
        }
        pages := pages + [parsed.page];
        if page >= total.value {
          d := Drained(pages, Complete, page);
          assert ended == Some(d);
          return;
        }
        if page + 1 > PAGE_LIMIT {
          d := Drained(pages, DidNotTerminate, page);
          assert ended == Some(d);
          return;
        }
        page := page + 1;
      }
    }
  }

  /** The meaning is unambiguous. */
  lemma DrainsOnce(server: Server, d: Drained, d': Drained)
    requires Drains(server, d) && Drains(server, d')
    ensures d == d'
  {
    assert Stops(server, d.fetches) || d.fetches == PAGE_LIMIT;
    assert Stops(server, d'.fetches) || d'.fetches == PAGE_LIMIT;
    assert d.fetches == d'.fetches && |d.pages| == |d'.pages|;
    forall i | 0 <= i < |d.pages| ensures d.pages[i] == d'.pages[i] {
      assert ParseEnvelope(server(i + 1)) == Good(d.pages[i]);
    }
  }

  /** At most max(1, min(first count, 10000)) fetches, whatever later pages claim; and the
      guard is hit only if the first count is beyond it. */
  lemma FetchBound(server: Server, d: Drained)
    requires Drains(server, d)
    ensures d.fetches <= 1 || d.fetches <= Total(server)
    ensures d.fetches <= 10_000
    ensures d.ending.DidNotTerminate? ==> Total(server) > PAGE_LIMIT
  {
    if d.fetches > 1 {
      assert !Stops(server, d.fetches - 1);
    }
  }

  /** Later page counts are ignored: a server that changes them is drained the same. */
  lemma LaterCountsAreIgnored(server: Server, liar: Server, d: Drained, d': Drained)
    requires Drains(server, d) && Drains(liar, d')
    requires ParseEnvelope(server(1)) == ParseEnvelope(liar(1))
    requires forall n :: n > 1 ==>
               var a, b := ParseEnvelope(server(n)), ParseEnvelope(liar(n));
               a.Good? == b.Good? && (a.Good? ==> a.page.rows == b.page.rows)
    ensures d.ending == d'.ending && d.fetches == d'.fetches && |d.pages| == |d'.pages|
    ensures forall i :: 0 <= i < |d.pages| ==> d.pages[i].rows == d'.pages[i].rows
  {
    forall n | n >= 1 ensures Stops(server, n) <==> Stops(liar, n) {
    }
    assert Stops(liar, d.fetches) || d.fetches == PAGE_LIMIT;
    assert Stops(server, d'.fetches) || d'.fetches == PAGE_LIMIT;
    forall i | 0 <= i < |d.pages| ensures d.pages[i].rows == d'.pages[i].rows {
      assert ParseEnvelope(server(i + 1)) == Good(d.pages[i]) && ParseEnvelope(liar(i + 1)) == Good(d'.pages[i]);
    }
  }

  // ---- Retry -----------------------------------------------------------------------------

  /** One HTTP attempt: no response, or a status and the decoded body if it is JSON. */
  datatype Attempt = TransportFailure | Response(status: nat, json: Option<Payload>)
  datatype Fetch = Decoded(payload: Payload) | ClientError | GaveUp

  const MAX_ATTEMPTS := 5

  /** _decode_json: a body that is the literal null cannot be told from one that is not JSON. */
  function DecodeJson(json: Option<Payload>): Option<Payload> {
    if json == Some(JsonNull) then None else json
  }

  /** A server error, a body that does not decode, or no response at all. */
  predicate Retryable(a: Attempt) {
    a.TransportFailure? || a.status >= 500 || DecodeJson(a.json).None?
  }

  /** A 4xx with a JSON body is final, as is a success with one. No response, a server error, a body
      that is not JSON and a JSON null are tried again. */
  lemma RetriedAre(a: Attempt)
    ensures a.TransportFailure? ==> Retryable(a)
    ensures a.Response? && a.status >= 500 ==> Retryable(a)
    ensures a.Response? && a.json in {None, Some(JsonNull)} ==> Retryable(a)
    ensures a.Response? && a.status < 500 && a.json.Some? && !a.json.value.JsonNull? ==> !Retryable(a)
  {
  }

  /** How many of the attempts from number i on are made. */
  function Used(attempts: nat -> Attempt, i: nat): nat
    requires i <= MAX_ATTEMPTS
    decreases MAX_ATTEMPTS - i
  {
    if i == MAX_ATTEMPTS then 0
    else 1 + if Retryable(attempts(i)) then Used(attempts, i + 1) else 0
  }

  /** _get_with_retry: the first attempt that is not retryable decides, within five. A JSON null
      is never handed on. */
  method GetWithRetry(attempts: nat -> Attempt) returns (result: Fetch, used: nat)
    ensures 1 <= used == Used(attempts, 0) <= 5
    ensures forall i :: 0 <= i < used - 1 ==> Retryable(attempts(i))
    ensures result.GaveUp? <==> forall i :: 0 <= i < 5 ==> Retryable(attempts(i))
    ensures !result.GaveUp? ==> !Retryable(attempts(used - 1))
    ensures result.GaveUp? ==> used == 5
    ensures result.ClientError? ==> 400 <= attempts(used - 1).status < 500
    ensures result.Decoded? ==> attempts(used - 1).status < 400 && attempts(used - 1).json == Some(result.payload)
                                && !result.payload.JsonNull?
  {
    used := 0;
    while used < MAX_ATTEMPTS
      invariant 0 <= used <= MAX_ATTEMPTS
      invariant forall i :: 0 <= i < used ==> Retryable(attempts(i))
      invariant used + Used(attempts, used) == Used(attempts, 0)
    {
      var a := attempts(used);
      used := used + 1;
      if a.TransportFailure? || a.status >= 500 {
        continue;
      }
      var decoded := DecodeJson(a.json);
      if a.status >= 400 {
        if decoded.None? {
          continue;
        }
        return ClientError, used;
      }
      if decoded.Some? {
        return Decoded(decoded.value), used;
      }
    }
    return GaveUp, used;
  }

  /** The requests for pages 1 .. n, if page k is asked for with the attempts web(k). */
  function Requests(web: nat -> nat -> Attempt, n: nat): nat {
    if n == 0 then 0 else Requests(web, n - 1) + Used(web(n), 0)
  }

  lemma {:induction false} UsedBound(attempts: nat -> Attempt, i: nat)
    requires i < MAX_ATTEMPTS
    ensures 1 <= Used(attempts, i) <= MAX_ATTEMPTS - i
    decreases MAX_ATTEMPTS - i
  {
    if i + 1 < MAX_ATTEMPTS {
      UsedBound(attempts, i + 1);
    }
  }

  lemma {:induction false} RequestsPerFetch(web: nat -> nat -> Attempt, n: nat)
    ensures n <= Requests(web, n) <= MAX_ATTEMPTS * n
  {
    if n > 0 {
      RequestsPerFetch(web, n - 1);
      UsedBound(web(n), 0);
    }
  }

  /** A whole pagination makes at least one request for each page fetched and at most five, and no
      more than five times max(1, min(first count, 10000)) in all. */
  lemma RequestBound(web: nat -> nat -> Attempt, server: Server, d: Drained)
    requires Drains(server, d)
    ensures d.fetches <= Requests(web, d.fetches) <= 5 * d.fetches
    ensures Requests(web, d.fetches) <= 5 || Requests(web, d.fetches) <= 5 * Total(server)
    ensures Requests(web, d.fetches) <= 50_000
  {
    RequestsPerFetch(web, d.fetches);
    FetchBound(server, d);
  }

  // ---- Record ----------------------------------------------------------------------------

  const MAX_RECORDED := 50

  /** payload[1] as a truth value; None raises. A short payload has no second element and reads
      as None, an object is not numbered, and scalars have no length. */
  function SecondIsTruthy(p: Payload): Option<bool> {
    match p
    case JsonNull => None
    case Scalar => None
    case Mapping(size) => if size > 1 then None else Some(false)
    case Characters(size) => Some(size > 1)
    case ShortList => Some(false)
    case Envelope(_, NullRows) => Some(false)
    case Envelope(_, RowList(rows)) => Some(rows != [])
    case Envelope(_, OtherBody(truthy)) => Some(truthy)
  }

  /** What the recorder takes as total from a first page with rows: `payload[0].get("pages", 1)`
      then `or 1` at its use; None raises. */
  function RecordedTotal(p: Payload): Option<int> {
    if !p.Envelope? || p.meta.NoObject? then None
    else match p.meta.pages
      case Missing => Some(1)
      case Null => Some(1)
      case Count(n) => Some(if n == 0 then 1 else n)
      case CountText(_) => None
      case Fraction(ceiling) => Some(ceiling)
      case Junk(truthy) => if truthy then None else Some(1)
  }

  /** Whether the recorder goes on after page n, or raises. */
  datatype Decision = GoOn | StopHere | Raise

  function Decide(server: Server, n: nat): Decision {
    match SecondIsTruthy(server(n))
    case None => Raise
    case Some(false) => StopHere
    case Some(true) =>
      if RecordedTotal(server(1)).None? then Raise
      else if n >= RecordedTotal(server(1)).value then StopHere
      else GoOn
  }

  /** The recorder gets as far as page n and raises there. */
  ghost predicate RaisesAt(server: Server, n: nat) {
    && 1 <= n <= MAX_RECORDED && Decide(server, n) == Raise
    && forall m :: 1 <= m < n ==> Decide(server, m) == GoOn
  }

  /** The recorder ends its recording with this response: an error envelope, or one without rows. */
  predicate EndsRecording(p: Payload) {
    || p.ShortList? || (p.Mapping? && p.size <= 1) || (p.Characters? && p.size <= 1)
    || (p.Envelope? && p.body in {NullRows, RowList([]), OtherBody(false)})
  }

  /** The first response gives the recorder this total: its page count, or one if that is zero,
      null, absent or false. */
  predicate TotalReads(p: Payload, c: int) {
    && p.Envelope? && p.meta.Meta?
    && (|| (p.meta.pages == Count(c) && c != 0)
        || p.meta.pages == Fraction(c)
        || (c == 1 && p.meta.pages in {Count(0), Null, Missing, Junk(false)}))
  }

  /** What the recorder does with page n, in terms of the responses. */
  lemma DecideIs(server: Server, n: nat)
    ensures EndsRecording(server(n)) ==> Decide(server, n) == StopHere
    ensures Decide(server, n) == StopHere <==>
              || EndsRecording(server(n))
              || (Recordable(server(n)) && exists c :: TotalReads(server(1), c) && n >= c)
    ensures Decide(server, n) == GoOn <==> Recordable(server(n)) && exists c :: TotalReads(server(1), c) && n < c
  {
    if RecordedTotal(server(1)).Some? {
      var c := RecordedTotal(server(1)).value;
      assert TotalReads(server(1), c);
      assert forall x :: TotalReads(server(1), x) ==> x == c;
    }
  }

  /** A response that seems to have rows. */
  predicate Recordable(p: Payload) {
    || (p.Characters? && p.size > 1)
    || (p.Envelope? && (HasRows(p) || p.body == OtherBody(true)))
  }

  /** An error envelope is a complete recording on its own, and draining its replay is refused. */
  lemma ErrorEnvelopeIsRecorded(server: Server, pages: seq<Payload>, r: Drained)
    requires server(1).ShortList? && Records(server, pages) && Drains(Replay(pages), r)
    ensures pages == [server(1)] && (forall n :: !RaisesAt(server, n)) && r == Drained([], Refused, 1)
  {
    DecideIs(server, 1);
    assert Replay(pages)(1) == server(1);
    DrainsAre(Replay(pages), r);
    assert !Passes(Replay(pages), 1);
    assert r.fetches == 1 && r.pages == [];
  }

  /** fetch_pages: None if it raises. */
  method FetchPages(server: Server) returns (recorded: Option<seq<Payload>>)
    ensures recorded.Some? ==> Records(server, recorded.value)
    ensures recorded.None? <==> exists n :: RaisesAt(server, n)
  {
    var page, pages: seq<Payload> := 1, [];
    while page <= MAX_RECORDED
      invariant 1 <= page <= MAX_RECORDED + 1 && |pages| == page - 1
      invariant forall i :: 0 <= i < |pages| ==> pages[i] == server(i + 1)
      invariant forall n :: 1 <= n < page ==> Decide(server, n) == GoOn
    {
      pages := pages + [server(page)];
      match Decide(server, page)
      case Raise => assert RaisesAt(server, page); return None;
      case StopHere => return Some(pages);
      case GoOn => page := page + 1;
    }
    return Some(pages);
  }

  /** A recording: pages 1 .. k, where k is the first page the recorder stops at, or 50. */
  ghost predicate Records(server: Server, pages: seq<Payload>) {
    && 1 <= |pages| <= MAX_RECORDED
    && (forall i :: 0 <= i < |pages| ==> pages[i] == server(i + 1))
    && (forall n :: 1 <= n < |pages| ==> Decide(server, n) == GoOn)
    && Decide(server, |pages|) != Raise
    && (|pages| == MAX_RECORDED || Decide(server, |pages|) == StopHere)
  }

  // ---- Record, then replay ---------------------------------------------------------------

  /** While the client goes on, so does the recorder. */
  lemma ClientGoesOn(server: Server, k: nat)
    requires k >= 1 && !Stops(server, 1) && !Stops(server, k)
    ensures Decide(server, k) != StopHere
  {
    assert ParseEnvelope(server(1)).Good? && ParseEnvelope(server(k)).Good?;
  }

  /** Inside the recording the replay cannot be told from the server. */
  lemma ReplayAgrees(server: Server, pages: seq<Payload>, n: nat)
    requires Records(server, pages) && 1 <= n <= |pages|
    ensures Replay(pages)(n) == server(n) && (Stops(Replay(pages), n) <==> Stops(server, n))
  {
    assert Replay(pages)(1) == pages[0];
  }

  /** If the client stops inside the recording, draining the replay is draining the server. */
  lemma DrainInsideRecording(server: Server, pages: seq<Payload>, d: Drained)
    requires Records(server, pages) && Drains(server, d) && d.fetches <= |pages|
    ensures Drains(Replay(pages), d)
  {
    forall n | 1 <= n <= d.fetches ensures Replay(pages)(n) == server(n) && (Stops(Replay(pages), n) <==> Stops(server, n)) {
      ReplayAgrees(server, pages, n);
    }
  }

  /** If it does not, the replay ends after 50 pages with an empty one. */
  lemma DrainPastRecording(server: Server, pages: seq<Payload>, d: Drained)
    requires Records(server, pages) && Drains(server, d) && d.fetches > |pages|
    ensures |pages| == MAX_RECORDED && |d.pages| >= MAX_RECORDED
    ensures Drains(Replay(pages), Drained(d.pages[..MAX_RECORDED], Complete, MAX_RECORDED + 1))
  {
    assert !Stops(server, 1) && !Stops(server, |pages|);
    ClientGoesOn(server, |pages|);
    forall n | 1 <= n <= |pages| ensures Replay(pages)(n) == server(n) && !Stops(Replay(pages), n) {
      ReplayAgrees(server, pages, n);
      assert !Stops(server, n);
    }
    assert Replay(pages)(MAX_RECORDED + 1) == Tail(MAX_RECORDED);
    forall i | 0 <= i < MAX_RECORDED ensures ParseEnvelope(Replay(pages)(i + 1)) == Good(d.pages[i]) {
      assert ParseEnvelope(server(i + 1)) == Good(d.pages[i]);
    }
  }

  /** The server stops within the recorder's limit. */
  ghost predicate StopsInTime(server: Server) {
    exists n :: 1 <= n <= 50 && Stops(server, n)
  }

  /** The page after the recorder's limit is there and empty. */
  predicate EndsAtLimit(server: Server) {
    WellMade(server(51)) && !HasRows(server(51))
  }

  lemma DrainedInTime(server: Server, d: Drained)
    requires Drains(server, d)
    ensures d.fetches <= MAX_RECORDED <==> StopsInTime(server)
  {
    if d.fetches <= MAX_RECORDED {
      assert Stops(server, d.fetches);
    }
  }

  /** A client that stops too late, at an empty page 51 or not. */
  lemma DrainedLate(server: Server, d: Drained)
    requires Drains(server, d) && d.fetches > MAX_RECORDED
    ensures EndsAtLimit(server) <==> |d.pages| == MAX_RECORDED && d.ending == Complete && d.fetches == MAX_RECORDED + 1
  {
    ParsedIs(server(MAX_RECORDED + 1));
    assert EndsAtLimit(server) ==> Stops(server, MAX_RECORDED + 1);
  }

  /** Record and replay round trip: whatever the recorder wrote, draining a fresh replay gives
      the same pages and the same ending as draining the server, exactly when the server is
      refused, empty or at its first page count within 50 pages, or its page 51 is an empty
      one. */
  lemma RecordReplayRoundTrip(server: Server, pages: seq<Payload>, d: Drained, r: Drained)
    requires Records(server, pages) && Drains(server, d) && Drains(Replay(pages), r)
    ensures d == r <==> StopsInTime(server) || EndsAtLimit(server)
    ensures (d.pages == r.pages && d.ending == r.ending) <==> d == r
  {
    DrainedInTime(server, d);
    if d.fetches <= |pages| {
      DrainInsideRecording(server, pages, d);
      DrainsOnce(Replay(pages), d, r);
    } else {
      DrainPastRecording(server, pages, d);
      DrainsOnce(Replay(pages), Drained(d.pages[..MAX_RECORDED], Complete, MAX_RECORDED + 1), r);
      DrainedLate(server, d);
      assert |d.pages| == MAX_RECORDED ==> d.pages[..MAX_RECORDED] == d.pages;
    }
  }

  /** A fresh fetcher over recordings answers as their replay does, and a live one as its server. */
  lemma FreshAnswers(source: Source, path: string, n: nat)
    ensures source.Recorded? && path in source.files ==> Answer(source, map[], path, n) == Replay(source.files[path])(n)
    ensures source.Live? ==> Answer(source, map[], path, n) == source.servers(path)(n)
  {
  }

  lemma SameAnswersDrain(server: Server, server': Server, d: Drained)
    requires Drains(server, d) && forall n :: server(n) == server'(n)
    ensures Drains(server', d)
  {
    forall n ensures Stops(server', n) <==> Stops(server, n) {
    }
  }

  /** The round trip through the fetchers: record a server, put the recording under a path, drain a
      fresh fixture fetcher, and compare with draining a live one. */
  lemma FetchersRoundTrip(live: Source, fixtures: Source, path: string, d: Drained, r: Drained)
    requires live.Live? && fixtures.Recorded? && path in fixtures.files
    requires Records(live.servers(path), fixtures.files[path])
    requires Drains(AnswersFrom(live, map[], path), d) && Drains(AnswersFrom(fixtures, map[], path), r)
    ensures d == r <==> StopsInTime(live.servers(path)) || EndsAtLimit(live.servers(path))
  {
    var server, replay := live.servers(path), Replay(fixtures.files[path]);
    forall n ensures AnswersFrom(live, map[], path)(n) == server(n) && AnswersFrom(fixtures, map[], path)(n) == replay(n) {
      FreshAnswers(live, path, n);
      FreshAnswers(fixtures, path, n);
    }
    SameAnswersDrain(AnswersFrom(live, map[], path), server, d);
    SameAnswersDrain(AnswersFrom(fixtures, map[], path), replay, r);
    RecordReplayRoundTrip(server, fixtures.files[path], d, r);
  }

  /** In particular whenever the first page count is at most 50. */
  lemma SmallServersRoundTrip(server: Server, pages: seq<Payload>, d: Drained, r: Drained)
    requires Records(server, pages) && Drains(server, d) && Drains(Replay(pages), r) && Total(server) <= MAX_RECORDED
    ensures d == r
  {
    assert Stops(server, MAX_RECORDED);
    RecordReplayRoundTrip(server, pages, d, r);
  }

  predicate CountIsText(p: Payload) {
    p.Envelope? && p.meta.Meta? && p.meta.pages.CountText?
  }

  /** The recorder is narrower than the client in one way: of the servers the client drains to
      the end, it raises on exactly those that give rows and the page count as text. */
  lemma {:induction false} DrainedButNotRecorded(server: Server, d: Drained)
    requires Drains(server, d) && d.ending == Complete
    ensures (exists n :: RaisesAt(server, n)) <==> d.pages != [] && CountIsText(server(1))
  {
    if d.pages == [] {
      assert ParseEnvelope(server(1)).Good? && Decide(server, 1) == StopHere;
    } else {
      assert ParseEnvelope(server(1)) == Good(d.pages[0]);
      if CountIsText(server(1)) {
        assert RaisesAt(server, 1);
      } else {
        forall n | 1 <= n <= d.fetches ensures Decide(server, n) != Raise && (n == d.fetches ==> Decide(server, n) == StopHere) {
          assert n < d.fetches ==> !Stops(server, n);
        }
        forall n ensures !RaisesAt(server, n) {
          assert Decide(server, d.fetches) == StopHere;
        }
      }
    }
  }
}
