/**
 * The Python prototype of the same endpoint. A statement runs on a cursor;
 * parser and invalid-input errors answer 400, any other exception escapes to
 * the web framework; a page as long as its limit carries a next address whose
 * limit is twice the current one, served by the `/fetch` route.
 *
 * Python integers are unbounded: nothing wraps here.
 */
module Prototype {
  import opened Wrappers
  import opened Decimal
  import opened Text
  import opened Wire
  import opened Table

  /** The page size of the first page. */
  const Limit: int := 10

  const StatusOK: int := 200
  const StatusBadRequest: int := 400

  /** The values a result cell can hold. */
  datatype Value =
    | BoolValue(b: bool)
    | BytesValue(bytes: seq<bv8>)
    | DateValue(date: string)
    | DatetimeValue(datetime: string)
    | FloatValue(bits: bv64)
    | IntValue(i: int)
    | StrValue(s: string)
    | NoneValue

  /** What running a statement can raise. */
  datatype PyException =
    | ParserException(message: string)
    | InvalidInputException(message: string)
    | OtherException(message: string)

  /**
   * A relation: its column names, its column type names, and what fetching
   * all rows of a window of it gives for a given limit and offset.
   */
  datatype Relation = Relation(
    columns: seq<string>,
    dtypes: seq<string>,
    fetch: (int, int) -> Result<seq<seq<Value>>, PyException>)

  /** The database cursor: what running a statement text gives. */
  datatype Cursor = Cursor(sql: string -> Result<Relation, PyException>)

  /** A handler's outcome: a JSON answer, or an exception that leaves the handler. */
  datatype Reply =
    | Answered(status: int, body: QueryResults<Value>)
    | Raised(exception: PyException)

  // The next address.

  const FetchBase: string := "http://localhost:8000/fetch"

  /**
   * `nextUri`: the `/fetch` route on the fixed local host, with `query`,
   * `limit` and `offset` in that order. Escaping is not modelled.
   */
  function PyNextUri(query: string, limit: int, offset: int): (u: string)
    ensures StartsWith(u, FetchBase + "?query=")
  {
    StartsWithJoin(FetchBase + "?query=", FetchFields(query, limit, offset));
    FetchBase + "?query=" + FetchFields(query, limit, offset)
  }

  /** The parameters after `?query=`: the query, then `&limit=` and `&offset=` fields. */
  function FetchFields(query: string, limit: int, offset: int): string {
    query + "&limit=" + Itoa(limit) + "&offset=" + Itoa(offset)
  }

  /** A decimal `int` written in full, when the text is one. */
  function ParseInt(s: string): Option<int> {
    if IsDecimal(s) then Some(DecimalValue(s)) else None
  }

  /**
   * Reads a next address back from its right end: the last `&` field holds
   * the offset, the one before it the limit, and the query is everything
   * between `?query=` and that field, `&` characters included.
   */
  function FetchParams(uri: string): Option<(string, int, int)> {
    match StripPrefix(uri, FetchBase + "?query=")
    case None => None
    case Some(rest) => ReadFields(rest)
  }

  /** `query&limit=l&offset=o`, read from the right. */
  function ReadFields(rest: string): Option<(string, int, int)> {
    match SplitLast(rest, '&')
    case None => None
    case Some((front, offsetField)) =>
      match FieldValue(offsetField, "offset=")
      case None => None
      case Some(o) => ReadLimit(front, o)
  }

  /** `query&limit=l`, read from the right, with the offset already read. */
  function ReadLimit(front: string, offset: int): Option<(string, int, int)> {
    match SplitLast(front, '&')
    case None => None
    case Some((query, limitField)) =>
      match FieldValue(limitField, "limit=")
      case None => None
      case Some(l) => Some((query, l, offset))
  }

  /** The number in a `name=n` field. */
  function FieldValue(field: string, name: string): Option<int> {
    match StripPrefix(field, name)
    case None => None
    case Some(digits) => ParseInt(digits)
  }

  lemma FieldValueOf(name: string, n: int)
    ensures FieldValue(name + Itoa(n), name) == Some(n)
  {
    DecimalOfItoa(n);
    StripPrefixOf(name, Itoa(n));
  }

  /** A `name=n` field holds no `&` when its name holds none. */
  lemma FieldHasNoAmpersand(name: string, n: int)
    requires '&' !in name
    ensures '&' !in name + Itoa(n)
  {
    ItoaAlphabet(n);
    var f := name + Itoa(n);
    forall i | |name| <= i < |f|
      ensures f[i] != '&'
    {
      assert f[i] == Itoa(n)[i - |name|];
    }
    assert forall i :: 0 <= i < |name| ==> f[i] == name[i];
  }

  lemma ReadLimitOf(query: string, limit: int, offset: int)
    ensures ReadLimit(query + "&" + ("limit=" + Itoa(limit)), offset) == Some((query, limit, offset))
  {
    FieldHasNoAmpersand("limit=", limit);
    SplitLastJoin(query, '&', "limit=" + Itoa(limit));
    FieldValueOf("limit=", limit);
  }

  lemma ReadFieldsOf(query: string, limit: int, offset: int)
    ensures ReadFields(FetchFields(query, limit, offset)) == Some((query, limit, offset))
  {
    var offsetField := "offset=" + Itoa(offset);
    var front := query + "&" + ("limit=" + Itoa(limit));
    FieldHasNoAmpersand("offset=", offset);
    assert query + "&limit=" + Itoa(limit) + "&offset=" + Itoa(offset) == front + "&" + offsetField;
    SplitLastJoin(front, '&', offsetField);
    FieldValueOf("offset=", offset);
    ReadLimitOf(query, limit, offset);
  }

  /** Every next address reads back as the query, limit and offset it was built from, whatever the query holds. */
  lemma FetchParamsOfNextUri(query: string, limit: int, offset: int)
    ensures FetchParams(PyNextUri(query, limit, offset)) == Some((query, limit, offset))
  {
    StripPrefixOf(FetchBase + "?query=", FetchFields(query, limit, offset));
    ReadFieldsOf(query, limit, offset);
  }

  // The cursor.

  /** After a page of `count` rows: when it was full, the next limit doubles and the next offset follows it. */
  function PyNextPage(limit: int, offset: int, count: nat): (r: Option<(int, int)>)
    ensures r.Some? <==> count == limit
    ensures r.Some? ==> r.value.1 == offset + count && r.value.0 == 2 * count
  {
    if count == limit then Some((limit * 2, offset + limit)) else None
  }

  /** Two to the `k`. */
  function Pow2(k: nat): (r: nat)
    ensures r >= 1
  {
    if k == 0 then 1 else 2 * Pow2(k - 1)
  }

  /** The limit and offset after `k` full pages from the given ones. */
  function AfterFullPages(limit: nat, offset: int, k: nat): (nat, int) {
    if k == 0 then (limit, offset)
    else
      var prev := AfterFullPages(limit, offset, k - 1);
      var next := PyNextPage(prev.0, prev.1, prev.0);
      (next.value.0, next.value.1)
  }

  /** From offset 0 and limit `L`, the `k`-th continuation fetches `L * 2^k` rows from offset `L * (2^k - 1)`. */
  lemma {:induction false} DoublingCursor(limit: nat, k: nat)
    ensures AfterFullPages(limit, 0, k) == (limit * Pow2(k), limit * (Pow2(k) - 1))
  {
    if k > 0 {
      DoublingCursor(limit, k - 1);
      var p := Pow2(k - 1);
      assert limit * Pow2(k) == 2 * (limit * p);
      assert limit * (Pow2(k) - 1) == limit * (p - 1) + limit * p;
    }
  }

  /** The pages a client gets by following the next addresses over a table of `total` rows, as (offset, limit, rows returned). */
  function PyPages(total: nat, limit: nat, offset: nat): seq<(nat, nat, nat)>
    requires 0 < limit && offset <= total
    decreases total - offset
  {
    var n := Window(total, limit, offset);
    match PyNextPage(limit, offset, n)
    case None => [(offset, limit, n)]
    case Some((l, o)) => [(offset, limit, n)] + PyPages(total, l, o)
  }

  /**
   * Following the next addresses reads a table exactly once: the pages are
   * contiguous, every page but the last is full, and the last ends at the
   * table's end without being full.
   */
  lemma {:induction false} PyPagesCoverTable(total: nat, limit: nat, offset: nat)
    requires 0 < limit && offset <= total
    ensures var p := PyPages(total, limit, offset);
      && |p| > 0
      && p[0].0 == offset && p[0].1 == limit
      && (forall i :: 0 <= i < |p| - 1 ==> p[i].2 == p[i].1 && p[i + 1].0 == p[i].0 + p[i].1)
      && p[|p| - 1].0 + p[|p| - 1].2 == total
      && p[|p| - 1].2 < p[|p| - 1].1
    decreases total - offset
  {
    var n := Window(total, limit, offset);
    var p := PyPages(total, limit, offset);
    PyPagesUnfold(total, limit, offset);
    if n == limit {
      PyPagesCoverTable(total, 2 * limit, offset + limit);
      var rest := PyPages(total, 2 * limit, offset + limit);
      forall i | 0 <= i < |p| - 1
        ensures p[i].2 == p[i].1 && p[i + 1].0 == p[i].0 + p[i].1
      {
        if i > 0 {
          assert p[i] == rest[i - 1] && p[i + 1] == rest[i];
        }
      }
      assert p[|p| - 1] == rest[|rest| - 1];
    }
  }

  /** One step of the walk: this page, then the walk from the next address. */
  lemma PyPagesUnfold(total: nat, limit: nat, offset: nat)
    requires 0 < limit && offset <= total
    ensures var n := Window(total, limit, offset);
      PyPages(total, limit, offset)
        == if n == limit then [(offset, limit, n)] + PyPages(total, 2 * limit, offset + limit)
           else [(offset, limit, n)]
  {
  }

  /** Twice the limit, `i - 1` steps on, is the limit `i` steps on. */
  lemma DoubledLimit(limit: nat, i: nat)
    requires i > 0
    ensures (2 * limit) * Pow2(i - 1) == limit * Pow2(i)
  {
    assert Pow2(i) == 2 * Pow2(i - 1);
  }

  /** The `i`-th request of the walk asks for `limit * 2^i` rows. */
  lemma {:induction false} PyPagesDouble(total: nat, limit: nat, offset: nat)
    requires 0 < limit && offset <= total
    ensures var p := PyPages(total, limit, offset);
      forall i :: 0 <= i < |p| ==> p[i].1 == limit * Pow2(i)
    decreases total - offset
  {
    var n := Window(total, limit, offset);
    var p := PyPages(total, limit, offset);
    if n == limit {
      PyPagesDouble(total, 2 * limit, offset + limit);
      var rest := PyPages(total, 2 * limit, offset + limit);
      assert p == [(offset, limit, n)] + rest;
      forall i | 0 <= i < |p|
        ensures p[i].1 == limit * Pow2(i)
      {
        if i > 0 {
          assert p[i] == rest[i - 1];
          DoubledLimit(limit, i);
        }
      }
    } else {
      assert p == [(offset, limit, n)];
    }
  }

  // The handlers.

  /** The result columns: names paired with type names in order, as far as both lists go. */
  function ZipColumns(names: seq<string>, types: seq<string>): (cols: seq<Column>)
    ensures |cols| == if |names| <= |types| then |names| else |types|
    ensures forall i :: 0 <= i < |cols| ==> cols[i] == Column(names[i], types[i])
  {
    if |names| == 0 || |types| == 0 then []
    else [Column(names[0], types[0])] + ZipColumns(names[1..], types[1..])
  }

  /** The answer to a statement the engine rejects as unparsable or invalid: 400, with the message. */
  function ErrorResults(message: string): (r: QueryResults<Value>)
    ensures r.error == Some(QueryError(Some(message), None, StatusBadRequest, None, None, None, None))
    ensures r.nextUri.None? && r.columns.None? && r.data.None?
    ensures r.id == "" && r.infoUri == "" && r.partialCancelUri.None? && r.stats == ZeroStats
    ensures r.warnings.None? && r.updateType.None? && r.updateCount.None?
  {
    QueryResults("", "", None, None, None, None, ZeroStats,
      Some(QueryError(Some(message), None, StatusBadRequest, None, None, None, None)), None, None, None)
  }

  /**
   * `do_query`: run the statement, answer 400 for a parser or invalid-input
   * error and let any other exception escape; fetch the window; answer with
   * the columns, the rows and, when the window came back full, the next address.
   */
  function PyDoQuery(cur: Cursor, query: string, offset: int, limit: int): (r: Reply)
    ensures r.Answered? && r.status == StatusBadRequest <==>
              cur.sql(query).Failure? && !cur.sql(query).error.OtherException?
    ensures r.Answered? && r.status == StatusBadRequest ==> r.body == ErrorResults(cur.sql(query).error.message)
    ensures r.Raised? <==>
              (cur.sql(query).Failure? && cur.sql(query).error.OtherException?)
              || (cur.sql(query).Success? && cur.sql(query).value.fetch(limit, offset).Failure?)
    ensures r.Raised? ==>
              r.exception == if cur.sql(query).Failure? then cur.sql(query).error
                             else cur.sql(query).value.fetch(limit, offset).error
    ensures r.Answered? ==> r.status == StatusOK || r.status == StatusBadRequest
    ensures r.Answered? && r.status == StatusOK ==>
              var rel := cur.sql(query).value;
              var data := rel.fetch(limit, offset).value;
              && r.body.error.None? && r.body.stats == ZeroStats
              && r.body.id == "" && r.body.infoUri == "" && r.body.partialCancelUri.None?
              && r.body.warnings.None? && r.body.updateType.None? && r.body.updateCount.None?
              && r.body.columns == Some(ZipColumns(rel.columns, rel.dtypes))
              && r.body.data == Some(data)
              && (r.body.nextUri.Some? <==> |data| == limit)
              && (r.body.nextUri.Some? ==> r.body.nextUri.value == PyNextUri(query, 2 * limit, offset + limit))
  {
    match cur.sql(query)
    case Failure(e) =>
      if e.ParserException? || e.InvalidInputException? then Answered(StatusBadRequest, ErrorResults(e.message))
      else Raised(e)
    case Success(rel) =>
      match rel.fetch(limit, offset)
      case Failure(e) => Raised(e)
      case Success(data) =>
        var next :=
          match PyNextPage(limit, offset, |data|)
          case Some((l, o)) => Some(PyNextUri(query, l, o))
          case None => None;
        Answered(StatusOK, QueryResults("", "", None, next, Some(ZipColumns(rel.columns, rel.dtypes)),
                                        Some(data), ZeroStats, None, None, None, None))
  }

  /** `run_query`: the first page, from offset 0 with the initial page size. */
  function RunQuery(cur: Cursor, query: string): (r: Reply)
    ensures r == PyDoQuery(cur, query, 0, 10)
  {
    PyDoQuery(cur, query, 0, Limit)
  }

  /** `fetch`: the page the caller names, with its offset and limit unchanged. */
  function Fetch(cur: Cursor, query: string, offset: int, limit: int): (r: Reply)
    ensures r == PyDoQuery(cur, query, offset, limit)
  {
    PyDoQuery(cur, query, offset, limit)
  }

  /** The next address of a full page leads `/fetch` to the same statement, twice the limit, right after the page. */
  lemma ContinuationFetchesNext(cur: Cursor, query: string, offset: int, limit: int)
    requires PyDoQuery(cur, query, offset, limit).Answered?
    requires PyDoQuery(cur, query, offset, limit).body.nextUri.Some?
    ensures var u := PyDoQuery(cur, query, offset, limit).body.nextUri.value;
      && FetchParams(u) == Some((query, 2 * limit, offset + limit))
      && var (q, l, o) := FetchParams(u).value;
      && var next := Fetch(cur, q, o, l);
      && (next.Answered? && next.status == StatusOK ==>
            next.body.data == Some(cur.sql(query).value.fetch(2 * limit, offset + limit).value))
  {
    FetchParamsOfNextUri(query, 2 * limit, offset + limit);
  }
}
