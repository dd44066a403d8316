/**
 * A table as the paging arithmetic sees it: a number of rows, of which a
 * `LIMIT limit OFFSET offset` window keeps the rows from `offset` on, at most
 * `limit` of them.
 */
module Table {
  /** How many rows a `LIMIT limit OFFSET offset` window keeps of a table of `total` rows. */
  function Window(total: nat, limit: nat, offset: nat): (n: nat)
    ensures n <= limit
    ensures n == 0 || offset + n <= total
    ensures n < limit ==> offset + n >= total
  {
    if offset >= total then 0 else if limit <= total - offset then limit else total - offset
  }
}
