/**
 * The statement endpoint: the query wrapping that fetches one page, the
 * continuation cursor, the two response envelopes, and the POST and GET
 * handlers, with the database an oracle (`Engine`).
 *
 * Go's `int` is 64 bits: limits and offsets are `int64` values and
 * `offset + limit` wraps around.
 */
module Server {
  import opened Wrappers
  import opened Decimal
  import opened Text
  import Url
  import opened Wire
  import opened Rows
  import opened Pattern
  import opened Dispatch
  import opened Table

  /** The page size of the first page of a statement. */
  const InitialLimit: int := 1024

  /** Declared next to `InitialLimit` but never read: later pages keep the first page's size. */
  const LimitFactor: int := 2

  const StatusOK: int := 200
  const StatusBadRequest: int := 400
  const StatusInternalServerError: int := 500

  // The query that fetches one page.

  const SelectFrom: string := "SELECT * FROM ("
  const LimitWord: string := ") LIMIT"
  const OffsetWord: string := " OFFSET"

  /** `SELECT * FROM (q) LIMIT l OFFSET o`: the page of `q` that the engine runs. */
  function WrapLimitOffset(q: string, limit: int, offset: int): (t: string)
    ensures StartsWith(t, SelectFrom)
    ensures EndsWith(t, " " + Itoa(offset))
  {
    var head := SelectFrom + q + LimitWord + " " + Itoa(limit) + OffsetWord;
    StartsWithJoin(SelectFrom, q + LimitWord + " " + Itoa(limit) + OffsetWord + " " + Itoa(offset));
    assert SelectFrom + (q + LimitWord + " " + Itoa(limit) + OffsetWord + " " + Itoa(offset)) == head + (" " + Itoa(offset));
    EndsWithJoin(head, " " + Itoa(offset));
    head + (" " + Itoa(offset))
  }

  /** A text ending in a space and a decimal `int`: the text before the space, and the number. */
  function TrailingNumber(t: string): Option<(string, int)> {
    match SplitLast(t, ' ')
    case None => None
    case Some((head, digits)) =>
      match Atoi(digits)
      case Success(n) => Some((head, n))
      case Failure(_) => None
  }

  /** A number Itoa prints after a space is read back, together with what precedes it. */
  lemma TrailingNumberOf(head: string, n: int)
    requires InInt64(n)
    ensures TrailingNumber(head + " " + Itoa(n)) == Some((head, n))
  {
    ItoaAlphabet(n);
    AtoiOfItoa(n);
    SplitLastJoin(head, ' ', Itoa(n));
  }

  /**
   * Reads a paged query back from its right end: the last word is the
   * offset, the word before `OFFSET` the limit, and what lies between
   * `SELECT * FROM (` and `) LIMIT` the query, whatever it contains.
   */
  function UnwrapLimitOffset(t: string): Option<(string, int, int)> {
    match TrailingNumber(t)
    case None => None
    case Some((h1, offset)) =>
      match StripSuffix(h1, OffsetWord)
      case None => None
      case Some(h2) =>
        match TrailingNumber(h2)
        case None => None
        case Some((h3, limit)) =>
          match StripSuffix(h3, LimitWord)
          case None => None
          case Some(h4) =>
            match StripPrefix(h4, SelectFrom)
            case None => None
            case Some(q) => Some((q, limit, offset))
  }

  /** The reader's five steps, each taken on its own. */
  lemma UnwrapSteps(t: string, h1: string, h2: string, h3: string, h4: string, q: string, limit: int, offset: int)
    requires TrailingNumber(t) == Some((h1, offset))
    requires StripSuffix(h1, OffsetWord) == Some(h2)
    requires TrailingNumber(h2) == Some((h3, limit))
    requires StripSuffix(h3, LimitWord) == Some(h4)
    requires StripPrefix(h4, SelectFrom) == Some(q)
    ensures UnwrapLimitOffset(t) == Some((q, limit, offset))
  {
  }

  /** The page query determines the query, limit and offset it was built from. */
  lemma UnwrapOfWrap(q: string, limit: int, offset: int)
    requires InInt64(limit) && InInt64(offset)
    ensures UnwrapLimitOffset(WrapLimitOffset(q, limit, offset)) == Some((q, limit, offset))
  {
    var h4 := SelectFrom + q;
    var h3 := h4 + LimitWord;
    var h2 := h3 + " " + Itoa(limit);
    var h1 := h2 + OffsetWord;
    var t := WrapLimitOffset(q, limit, offset);
    assert t == h1 + " " + Itoa(offset);
    TrailingNumberOf(h1, offset);
    StripSuffixOf(h2, OffsetWord);
    TrailingNumberOf(h3, limit);
    StripSuffixOf(h4, LimitWord);
    StripPrefixOf(SelectFrom, q);
    UnwrapSteps(t, h1, h2, h3, h4, q, limit, offset);
  }

  /** Two page queries are the same text only when they fetch the same page of the same query. */
  lemma WrapInjective(q1: string, l1: int, o1: int, q2: string, l2: int, o2: int)
    requires InInt64(l1) && InInt64(o1) && InInt64(l2) && InInt64(o2)
    requires WrapLimitOffset(q1, l1, o1) == WrapLimitOffset(q2, l2, o2)
    ensures q1 == q2 && l1 == l2 && o1 == o2
  {
    UnwrapOfWrap(q1, l1, o1);
    UnwrapOfWrap(q2, l2, o2);
  }

  // The continuation cursor.

  /**
   * The limit and offset of the page after one that returned `count` rows: a
   * page as long as its limit may have more after it; the next one keeps the
   * limit and starts `limit` rows later.
   */
  function NextPage(limit: int, offset: int, count: nat): (r: Option<(int, int)>)
    requires InInt64(limit) && InInt64(offset)
    ensures r.Some? <==> count == limit
    ensures r.Some? ==> r.value.0 == limit && InInt64(r.value.1)
    ensures r.Some? ==> (r.value.1 - (offset + limit)) % Two64 == 0
    ensures r.Some? && InInt64(offset + limit) ==> r.value.1 == offset + limit
  {
    if count == limit then Some((limit, AddInt64(offset, limit))) else None
  }

  /**
   * The address of the next page: the request's own URL with `offset`,
   * `limit` and `query` set (the query being the text actually run, before
   * paging), the scheme `https` and the external host.
   */
  function NextUri(req: Url.Url, host: string, query: string, limit: int, offset: int, count: nat)
    : (r: Option<Url.Url>)
    requires InInt64(limit) && InInt64(offset)
    ensures r.Some? <==> count == limit
    ensures r.Some? ==> r.value.scheme == "https" && r.value.host == host && r.value.path == req.path
    ensures r.Some? ==> Url.Get(r.value.query, "query") == query
    ensures r.Some? ==> Atoi(Url.Get(r.value.query, "limit")) == Success(limit)
    ensures r.Some? ==> Atoi(Url.Get(r.value.query, "offset")) == Success(AddInt64(offset, limit))
    ensures r.Some? ==> r.value.query.Keys == req.query.Keys + {"offset", "limit", "query"}
    ensures r.Some? ==> r.value.query["query"] == [query] && r.value.query["limit"] == [Itoa(limit)]
                        && r.value.query["offset"] == [Itoa(AddInt64(offset, limit))]
    ensures r.Some? ==> forall k :: k in req.query && k != "offset" && k != "limit" && k != "query" ==>
                          r.value.query[k] == req.query[k]
  {
    match NextPage(limit, offset, count)
    case None => None
    case Some((l, o)) =>
      CursorQueryReads(req.query, query, l, o);
      Some(Url.Url("https", host, req.path, CursorQuery(req.query, query, l, o)))
  }

  /** The request's parameters with `offset`, `limit` and `query` set, in that order. */
  function CursorQuery(v: Url.Values, query: string, limit: int, offset: int): Url.Values {
    Url.Set(Url.Set(Url.Set(v, "offset", Itoa(offset)), "limit", Itoa(limit)), "query", query)
  }

  /** The cursor's parameters read back as set, and the request's other parameters survive. */
  lemma CursorQueryReads(v: Url.Values, query: string, limit: int, offset: int)
    requires InInt64(limit) && InInt64(offset)
    ensures Url.Get(CursorQuery(v, query, limit, offset), "query") == query
    ensures Atoi(Url.Get(CursorQuery(v, query, limit, offset), "limit")) == Success(limit)
    ensures Atoi(Url.Get(CursorQuery(v, query, limit, offset), "offset")) == Success(offset)
    ensures CursorQuery(v, query, limit, offset).Keys == v.Keys + {"offset", "limit", "query"}
    ensures CursorQuery(v, query, limit, offset)["query"] == [query]
    ensures CursorQuery(v, query, limit, offset)["limit"] == [Itoa(limit)]
    ensures CursorQuery(v, query, limit, offset)["offset"] == [Itoa(offset)]
    ensures forall k :: k in v && k != "offset" && k != "limit" && k != "query" ==>
              CursorQuery(v, query, limit, offset)[k] == v[k]
  {
    var v1 := Url.Set(v, "offset", Itoa(offset));
    var v2 := Url.Set(v1, "limit", Itoa(limit));
    Url.GetAfterSet(v, "offset", Itoa(offset), "offset");
    Url.GetAfterSet(v1, "limit", Itoa(limit), "offset");
    Url.GetAfterSet(v2, "query", query, "offset");
    Url.GetAfterSet(v2, "query", query, "limit");
    AtoiOfItoa(limit);
    AtoiOfItoa(offset);
  }

  // The response envelopes.

  /** A response document whose cells are scanned cells. */
  type Results = QueryResults<Cell>

  /** `queryResultsOfError`: the error text as the message, and error code 400 whatever the HTTP status. */
  function ErrorEnvelope(message: string): (r: Results)
    ensures r.error == Some(QueryError(Some(message), None, StatusBadRequest, None, None, None, None))
    ensures r.id == "" && r.infoUri == "" && r.partialCancelUri.None?
    ensures r.nextUri.None? && r.columns.None? && r.data.None? && r.stats == ZeroStats
    ensures r.warnings.None? && r.updateType.None? && r.updateCount.None?
  {
    QueryResults("", "", None, None, None, None, ZeroStats,
      Some(QueryError(Some(message), None, StatusBadRequest, None, None, None, None)),
      None, None, None)
  }

  /** The `nextUri` text: the rendered URL, or the empty string when there is none. */
  function NextUriText(next: Option<Url.Url>): (s: string)
    ensures s == "" <==> next.None?
  {
    match next
    case None => ""
    case Some(u) => Url.ToString(u)
  }

  /** `queryResultsOfSuccess`: columns and rows as given, and `nextUri` always present. */
  function SuccessEnvelope(columns: seq<Column>, data: seq<seq<Cell>>, next: Option<Url.Url>): (r: Results)
    ensures r.error.None? && r.columns == Some(columns) && r.data == Some(data) && r.stats == ZeroStats
    ensures r.id == "" && r.infoUri == "" && r.partialCancelUri.None?
    ensures r.warnings.None? && r.updateType.None? && r.updateCount.None?
    ensures r.nextUri.Some? && (r.nextUri.value == "" <==> next.None?)
  {
    QueryResults("", "", None, Some(NextUriText(next)), Some(columns), Some(data), ZeroStats,
      None, None, None, None)
  }

  /** What a client makes of a response document. */
  datatype Outcome =
    | Failed(message: string, code: int)
    | Delivered(columns: seq<Column>, data: seq<seq<Cell>>, next: Option<string>)
    | Unreadable

  /** A client's reading: an error when `error` is set, else the rows and, unless absent or empty, the next address. */
  function ReadEnvelope(r: Results): Outcome {
    match r.error
    case Some(e) => if e.message.Some? then Failed(e.message.value, e.errorCode) else Unreadable
    case None =>
      if r.columns.None? || r.data.None? then Unreadable
      else Delivered(r.columns.value, r.data.value, if r.nextUri == Some("") then None else r.nextUri)
  }

  /** Each envelope reads back as what it was built from. */
  lemma ReadEnvelopes(message: string, columns: seq<Column>, data: seq<seq<Cell>>, next: Option<Url.Url>)
    ensures ReadEnvelope(ErrorEnvelope(message)) == Failed(message, StatusBadRequest)
    ensures ReadEnvelope(SuccessEnvelope(columns, data, next))
         == Delivered(columns, data, if next.None? then None else Some(Url.ToString(next.value)))
  {
  }

  // The handlers.

  /** The database: whether a connection can be had, and what running a text gives. */
  datatype Engine = Engine(connectError: Option<string>, run: string -> Result<EngineRows, string>)

  /** A response: the HTTP status, the document, and the text handed to the engine, if any. */
  datatype Response = Response(status: int, body: Results, executed: Option<string>)

  /**
   * `doQueryInternal`: connect (500 on failure), run the page query (400 on
   * failure), read the rows (400 on failure), and answer 200 with the rows and
   * the next page's address when the page came back full.
   */
  function DoQueryInternal(db: Engine, req: Url.Url, host: string, query: string, limit: int, offset: int)
    : (r: Response)
    requires InInt64(limit) && InInt64(offset)
    ensures r.status == StatusInternalServerError <==> db.connectError.Some?
    ensures r.status == StatusOK || r.status == StatusBadRequest || r.status == StatusInternalServerError
    ensures r.status == StatusOK <==> r.body.error.None?
    ensures r.body.error.Some? ==> r.body.error.value.errorCode == StatusBadRequest
    ensures r.executed.Some? <==> db.connectError.None?
    ensures r.executed.Some? ==> r.executed.value == WrapLimitOffset(query, limit, offset)
    ensures db.connectError.Some? ==>
              r == Response(StatusInternalServerError, ErrorEnvelope(db.connectError.value), None)
    ensures db.connectError.None? && db.run(WrapLimitOffset(query, limit, offset)).Failure? ==>
              r.status == StatusBadRequest
              && r.body == ErrorEnvelope(db.run(WrapLimitOffset(query, limit, offset)).error)
    ensures db.connectError.None? && db.run(WrapLimitOffset(query, limit, offset)).Success?
            && Materialize(db.run(WrapLimitOffset(query, limit, offset)).value).Failure? ==>
              r.status == StatusBadRequest
              && r.body == ErrorEnvelope(Materialize(db.run(WrapLimitOffset(query, limit, offset)).value).error)
    ensures db.connectError.None? && db.run(WrapLimitOffset(query, limit, offset)).Success?
            && Materialize(db.run(WrapLimitOffset(query, limit, offset)).value).Success? ==>
              r.status == StatusOK
    ensures r.status == StatusOK ==>
      var run := db.run(WrapLimitOffset(query, limit, offset));
      && run.Success? && Materialize(run.value).Success?
      && var page := Materialize(run.value).value;
      && r.body == SuccessEnvelope(page.columns, page.data,
                                   NextUri(req, host, query, limit, offset, |page.data|))
  {
    var text := WrapLimitOffset(query, limit, offset);
    match db.connectError
    case Some(e) => Response(StatusInternalServerError, ErrorEnvelope(e), None)
    case None =>
      match db.run(text)
      case Failure(e) => Response(StatusBadRequest, ErrorEnvelope(e), Some(text))
      case Success(rows) =>
        match Materialize(rows)
        case Failure(e) => Response(StatusBadRequest, ErrorEnvelope(e), Some(text))
        case Success(page) =>
          var next := NextUri(req, host, query, limit, offset, |page.data|);
          Response(StatusOK, SuccessEnvelope(page.columns, page.data, next), Some(text))
  }

  /** `doQuery`: a recognized listing command runs its rewrite, anything else runs as given. */
  function DoQuery(db: Engine, req: Url.Url, host: string, query: string, limit: int, offset: int)
    : (r: Response)
    requires InInt64(limit) && InInt64(offset)
    ensures r.executed.Some? ==> r.executed.value == WrapLimitOffset(Dispatch.Dispatch(query).text, limit, offset)
    ensures !Recognized(query) ==> r == DoQueryInternal(db, req, host, query, limit, offset)
    ensures Recognized(query) ==>
              IsRewrite(Dispatch.Dispatch(query).text)
              && r == DoQueryInternal(db, req, host, Dispatch.Dispatch(query).text, limit, offset)
  {
    RewrittenIffRecognized(query);
    DoQueryInternal(db, req, host, Dispatch.Dispatch(query).text, limit, offset)
  }

  /** The POST handler: the body is the query, run from the first row with the initial page size. */
  function PostStatement(db: Engine, req: Url.Url, host: string, body: Result<string, string>): (r: Response)
    ensures body.Failure? ==> r == Response(StatusBadRequest, ErrorEnvelope(body.error), None)
    ensures body.Success? ==> r == DoQuery(db, req, host, body.value, InitialLimit, 0)
  {
    match body
    case Failure(e) => Response(StatusBadRequest, ErrorEnvelope(e), None)
    case Success(q) => DoQuery(db, req, host, q, InitialLimit, 0)
  }

  /**
   * The GET handler: `limit` is parsed first and its error answered at once,
   * then `offset`; both failures are 400 and run nothing.
   */
  function GetStatement(db: Engine, req: Url.Url, host: string): (r: Response)
    ensures Atoi(Url.Get(req.query, "limit")).Failure? ==>
              r == Response(StatusBadRequest, ErrorEnvelope(NumErrorText(Atoi(Url.Get(req.query, "limit")).error)), None)
    ensures Atoi(Url.Get(req.query, "limit")).Success? && Atoi(Url.Get(req.query, "offset")).Failure? ==>
              r == Response(StatusBadRequest, ErrorEnvelope(NumErrorText(Atoi(Url.Get(req.query, "offset")).error)), None)
    ensures r.executed.Some? ==>
              Atoi(Url.Get(req.query, "limit")).Success? && Atoi(Url.Get(req.query, "offset")).Success?
              && r.executed.value == WrapLimitOffset(Dispatch.Dispatch(Url.Get(req.query, "query")).text,
                                                     Atoi(Url.Get(req.query, "limit")).value,
                                                     Atoi(Url.Get(req.query, "offset")).value)
    ensures Atoi(Url.Get(req.query, "limit")).Success? && Atoi(Url.Get(req.query, "offset")).Success? ==>
              r == DoQuery(db, req, host, Url.Get(req.query, "query"),
                           Atoi(Url.Get(req.query, "limit")).value, Atoi(Url.Get(req.query, "offset")).value)
  {
    match Atoi(Url.Get(req.query, "limit"))
    case Failure(e) => Response(StatusBadRequest, ErrorEnvelope(NumErrorText(e)), None)
    case Success(limit) =>
      match Atoi(Url.Get(req.query, "offset"))
      case Failure(e) => Response(StatusBadRequest, ErrorEnvelope(NumErrorText(e)), None)
      case Success(offset) => DoQuery(db, req, host, Url.Get(req.query, "query"), limit, offset)
  }

  /** Listing commands never reach the engine as typed: what runs is the rewrite, paged. */
  lemma CommandNeverExecuted(db: Engine, req: Url.Url, host: string, query: string, limit: int, offset: int)
    requires InInt64(limit) && InInt64(offset) && Recognized(query)
    ensures DoQuery(db, req, host, query, limit, offset).executed != Some(WrapLimitOffset(query, limit, offset))
    ensures Match(CatalogsPattern, query).Some? ==>
              DoQuery(db, req, host, query, limit, offset).executed in {None, Some(WrapLimitOffset(CatalogsQuery, limit, offset))}
  {
    RewrittenIffRecognized(query);
    var d := Dispatch.Dispatch(query);
    if DoQuery(db, req, host, query, limit, offset).executed == Some(WrapLimitOffset(query, limit, offset)) {
      WrapInjective(d.text, limit, offset, query, limit, offset);
      DispatchIdempotent(query);
      RewrittenIffRecognized(d.text);
    }
  }

  /** A printed number holds neither `&` nor `;`. */
  lemma ItoaPlain(n: int)
    ensures '&' !in Itoa(n) && ';' !in Itoa(n)
  {
    ItoaAlphabet(n);
    var t := Itoa(n);
    forall i | 0 <= i < |t|
      ensures t[i] != '&' && t[i] != ';'
    {
    }
  }

  /** Setting the cursor's parameters keeps parameters that need no escaping so. */
  lemma CursorQueryPlain(v: Url.Values, query: string, limit: int, offset: int)
    requires Url.Plain(v) && '&' !in query && ';' !in query
    ensures Url.Plain(CursorQuery(v, query, limit, offset))
  {
    var c := CursorQuery(v, query, limit, offset);
    ItoaPlain(limit);
    ItoaPlain(offset);
    forall k | k in c
      ensures Url.PlainEntry(k, c[k])
    {
      if k == "query" {
        assert c[k] == [query];
      } else if k == "limit" {
        assert c[k] == [Itoa(limit)];
      } else if k == "offset" {
        assert c[k] == [Itoa(offset)];
      } else {
        assert c[k] == v[k];
        assert Url.PlainEntry(k, v[k]);
      }
    }
  }

  /**
   * The rendered `nextUri` text, cut at its `?` and parsed again, gives the
   * cursor's parameters back, when no parameter needs escaping.
   */
  lemma NextUriReadsBack(req: Url.Url, host: string, query: string, limit: int, offset: int, count: nat)
    requires InInt64(limit) && InInt64(offset) && count == limit
    requires Url.Plain(req.query) && '&' !in query && ';' !in query
    requires '?' !in host && '?' !in req.path
    ensures var u := NextUri(req, host, query, limit, offset, count);
      u.Some? && Url.ParseQuery(Url.RawQuery(Url.ToString(u.value))) == u.value.query
  {
    var u := NextUri(req, host, query, limit, offset, count).value;
    assert u.query == CursorQuery(req.query, query, limit, AddInt64(offset, limit));
    CursorQueryPlain(req.query, query, limit, AddInt64(offset, limit));
    Url.QueryOfToString(u);
  }

  /**
   * Following a next address resumes the same statement: the GET handler
   * reads back the limit, the advanced offset and the query that ran, and
   * runs that query unchanged one page further on.
   */
  lemma ContinuationResumes(db: Engine, req: Url.Url, host: string, query: string, limit: int, offset: int,
                            count: nat, host2: string)
    requires InInt64(limit) && InInt64(offset) && count == limit
    ensures var ran := Dispatch.Dispatch(query).text;
      var u := NextUri(req, host, ran, limit, offset, count);
      && u.Some?
      && GetStatement(db, u.value, host2)
         == DoQueryInternal(db, u.value, host2, ran, limit, AddInt64(offset, limit))
  {
    var ran := Dispatch.Dispatch(query).text;
    DispatchIdempotent(query);
    RewrittenIffRecognized(ran);
  }

  // Paging through a table.

  /**
   * The pages a client gets by following the cursor over a table of `total`
   * rows, as (offset, rows returned) per request.
   */
  function Pages(total: nat, limit: nat, offset: nat): seq<(nat, nat)>
    requires 0 < limit && offset <= total && total + limit <= MaxInt64
    decreases total - offset
  {
    var n := Window(total, limit, offset);
    match NextPage(limit, offset, n)
    case None => [(offset, n)]
    case Some((_, next)) => [(offset, n)] + Pages(total, limit, next)
  }

  /**
   * Following the cursor reads a table exactly once: the pages are
   * contiguous, every page but the last is full, and the last one ends at the
   * table's end and is not full.
   */
  lemma {:induction false} PagesCoverTable(total: nat, limit: nat, offset: nat)
    requires 0 < limit && offset <= total && total + limit <= MaxInt64
    ensures var p := Pages(total, limit, offset);
      && |p| > 0
      && p[0].0 == offset
      && (forall i :: 0 <= i < |p| - 1 ==> p[i].1 == limit && p[i + 1].0 == p[i].0 + limit)
      && p[|p| - 1].0 + p[|p| - 1].1 == total
      && p[|p| - 1].1 < limit
    decreases total - offset
  {
    var n := Window(total, limit, offset);
    var p := Pages(total, limit, offset);
    PagesUnfold(total, limit, offset);
    if n == limit {
      var next := offset + limit;
      PagesCoverTable(total, limit, next);
      var rest := Pages(total, limit, next);
      assert p[|p| - 1] == rest[|rest| - 1];
      forall i | 0 <= i < |p| - 1
        ensures p[i].1 == limit && p[i + 1].0 == p[i].0 + limit
      {
        if i > 0 {
          assert p[i] == rest[i - 1] && p[i + 1] == rest[i];
        }
      }
    }
  }

  /** The `k`-th page of the walk starts `k` limits after the first. */
  lemma {:induction false} PagesLastOffset(total: nat, limit: nat, offset: nat)
    requires 0 < limit && offset <= total && total + limit <= MaxInt64
    ensures var p := Pages(total, limit, offset);
      |p| > 0 && p[|p| - 1].0 == offset + (|p| - 1) * limit
    decreases total - offset
  {
    var n := Window(total, limit, offset);
    var p := Pages(total, limit, offset);
    PagesUnfold(total, limit, offset);
    if n == limit {
      var next := offset + limit;
      PagesLastOffset(total, limit, next);
      var rest := Pages(total, limit, next);
      assert p[|p| - 1] == rest[|rest| - 1];
      assert offset + (|p| - 1) * limit == next + (|rest| - 1) * limit;
    }
  }

  /** One step of the walk: this page, then the walk from the next offset. */
  lemma PagesUnfold(total: nat, limit: nat, offset: nat)
    requires 0 < limit && offset <= total && total + limit <= MaxInt64
    ensures var n := Window(total, limit, offset);
      Pages(total, limit, offset)
        == if n == limit then [(offset, n)] + Pages(total, limit, offset + limit) else [(offset, n)]
  {
  }

  /** Five rows read two at a time: pages at offsets 0, 2 and 4, the last holding one row and no next address. */
  lemma FiveRowsByTwo()
    ensures Pages(5, 2, 0) == [(0, 2), (2, 2), (4, 1)]
  {
    assert Pages(5, 2, 4) == [(4, 1)];
    assert Pages(5, 2, 2) == [(2, 2)] + Pages(5, 2, 4);
  }

  /** A table of `rows` rows past the start takes `rows / limit + 1` requests: a multiple of the limit ends with an empty page. */
  lemma PageCount(total: nat, limit: nat, offset: nat)
    requires 0 < limit && offset <= total && total + limit <= MaxInt64
    ensures |Pages(total, limit, offset)| == (total - offset) / limit + 1
  {
    PagesCoverTable(total, limit, offset);
    PagesLastOffset(total, limit, offset);
    var p := Pages(total, limit, offset);
    var k := |p| - 1;
    var r := p[k].1;
    assert total - offset == k * limit + r && 0 <= r < limit;
    DivideExactly(total - offset, limit, k, r);
  }

  /** Euclidean division of `k * d + r` by `d`, for a remainder `0 <= r < d`. */
  lemma DivideExactly(a: nat, d: nat, k: nat, r: nat)
    requires 0 < d && a == k * d + r && r < d
    ensures a / d == k
  {
    var q := a / d;
    assert (q - k) * d == r - a % d;
    MulAwayFromZero(q - k, d);
  }

  lemma MulAwayFromZero(x: int, d: nat)
    requires d > 0
    ensures x >= 1 ==> x * d >= d
    ensures x <= -1 ==> x * d <= -(d as int)
  {
  }
}
