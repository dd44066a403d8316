/**
 * The parts of Go's `net/url` the continuation cursor uses: a URL as scheme,
 * host, path and parsed query parameters (`url.Values`, a map from a key to its
 * list of values), `Values.Get`, `Values.Set`, `Values.Encode` and `URL.String`.
 * Percent-escaping is not modelled: keys and values are written as they are,
 * and `ParseQuery` reads them back as they are.
 */
module Url {
  import opened Wrappers
  import opened Lexico
  import opened Text

  /** `url.Values`: each key maps to its values in the order they appeared. */
  type Values = map<string, seq<string>>

  datatype Url = Url(scheme: string, host: string, path: string, query: Values)

  /** `Values.Get`: the first value recorded for `key`, or "" when there is none. */
  function Get(v: Values, key: string): string {
    if key in v && |v[key]| > 0 then v[key][0] else ""
  }

  /** `Values.Set`: `key` now has exactly the one value `value`. */
  function Set(v: Values, key: string, value: string): Values {
    v[key := [value]]
  }

  /** What `Get` reads after `Set`: the new value at that key, the old one elsewhere. */
  lemma GetAfterSet(v: Values, key: string, value: string, other: string)
    ensures Get(Set(v, key, value), key) == value
    ensures other != key ==> Get(Set(v, key, value), other) == Get(v, other)
    ensures Set(v, key, value).Keys == v.Keys + {key}
  {
  }

  /** One `(key, value)` pair per value, in order. */
  function Tagged(key: string, values: seq<string>): seq<(string, string)> {
    if |values| == 0 then [] else [(key, values[0])] + Tagged(key, values[1..])
  }

  /** The pairs of one key are that key with each of its values. */
  lemma {:induction false} TaggedPairs(key: string, values: seq<string>)
    ensures forall p :: p in Tagged(key, values) ==> p.0 == key && p.1 in values
    ensures forall x :: x in values ==> (key, x) in Tagged(key, values)
    decreases |values|
  {
    if |values| > 0 {
      TaggedPairs(key, values[1..]);
      assert Tagged(key, values) == [(key, values[0])] + Tagged(key, values[1..]);
      assert forall x :: x in values ==> x == values[0] || x in values[1..];
    }
  }

  /** The `key=value` pairs `Encode` writes, key by key in sorted key order. */
  function PairsOf(v: Values, keys: seq<string>): (r: seq<(string, string)>)
    requires forall i :: 0 <= i < |keys| ==> keys[i] in v
    ensures forall p :: p in r ==> p.0 in keys && p.1 in v[p.0]
    ensures forall i, x :: 0 <= i < |keys| && x in v[keys[i]] ==> (keys[i], x) in r
  {
    if |keys| == 0 then []
    else
      TaggedPairs(keys[0], v[keys[0]]);
      Tagged(keys[0], v[keys[0]]) + PairsOf(v, keys[1..])
  }

  function Pairs(v: Values): (r: seq<(string, string)>)
    ensures forall p :: p in r ==> p.0 in v && p.1 in v[p.0]
    ensures forall k, x :: k in v && x in v[k] ==> (k, x) in r
  {
    var keys := SortedKeys(v.Keys);
    assert forall k :: k in v ==> exists i :: 0 <= i < |keys| && keys[i] == k;
    PairsOf(v, keys)
  }

  /** `pairs` written as `k1=v1&k2=v2&...`. */
  function JoinPairs(pairs: seq<(string, string)>): string {
    if |pairs| == 0 then ""
    else if |pairs| == 1 then pairs[0].0 + "=" + pairs[0].1
    else pairs[0].0 + "=" + pairs[0].1 + "&" + JoinPairs(pairs[1..])
  }

  /** `Values.Encode` without escaping: every key, sorted, once per value. */
  function Encode(v: Values): string {
    JoinPairs(Pairs(v))
  }

  /** `URL.String` for an absolute URL with a host and an absolute path. */
  function ToString(u: Url): (s: string)
    ensures |s| >= |u.scheme| + 3 && s[..|u.scheme| + 3] == u.scheme + "://"
  {
    var q := Encode(u.query);
    u.scheme + "://" + u.host + u.path + (if q == "" then "" else "?" + q)
  }

  // Reading a query string back: `url.ParseQuery`, as `URL.Query` uses it.

  /** The values recorded so far for `key`. */
  function Prior(m: Values, key: string): seq<string> {
    if key in m then m[key] else []
  }

  /** The `&`-separated pieces of a query string, in order; nothing follows a final `&`. */
  function Segments(s: string): seq<string>
    decreases |s|
  {
    match SplitFirst(s, '&')
    case None => if s == "" then [] else [s]
    case Some((piece, rest)) => [piece] + Segments(rest)
  }

  /** A piece as a key and a value: cut at the first `=`, the value empty when there is none. */
  function SplitPair(piece: string): (string, string) {
    match SplitFirst(piece, '=')
    case None => (piece, "")
    case Some((key, value)) => (key, value)
  }

  /**
   * One piece read into the parameters: an empty piece is skipped, and so is
   * one holding a `;` (Go records an error for it and goes on); any other
   * piece appends its value to its key's list.
   */
  function AddPiece(m: Values, piece: string): Values {
    if ';' in piece || piece == "" then m
    else
      var (key, value) := SplitPair(piece);
      m[key := Prior(m, key) + [value]]
  }

  function Collect(pieces: seq<string>, m: Values): Values
    decreases |pieces|
  {
    if |pieces| == 0 then m else Collect(pieces[1..], AddPiece(m, pieces[0]))
  }

  /** `url.ParseQuery` without unescaping; the error it may also return is dropped, as `URL.Query` drops it. */
  function ParseQuery(s: string): Values {
    Collect(Segments(s), map[])
  }

  /** The query part of a URL text: what follows the first `?`, or nothing. */
  function RawQuery(s: string): string {
    match SplitFirst(s, '?')
    case None => ""
    case Some((_, query)) => query
  }

  /**
   * Parameters that survive writing without escaping: no key holds `&`, `=`
   * or `;`, no value holds `&` or `;`, and no key has an empty list (such a
   * key writes nothing).
   */
  predicate Plain(v: Values) {
    forall k :: k in v ==> PlainEntry(k, v[k])
  }

  predicate PlainEntry(key: string, values: seq<string>) {
    && |values| > 0 && '&' !in key && '=' !in key && ';' !in key
    && forall i :: 0 <= i < |values| ==> '&' !in values[i] && ';' !in values[i]
  }

  predicate PlainPair(p: (string, string)) {
    '&' !in p.0 && '=' !in p.0 && ';' !in p.0 && '&' !in p.1 && ';' !in p.1
  }

  /** The pairs read in order, each appending its value to its key's list. */
  function CollectPairs(ps: seq<(string, string)>, m: Values): Values
    decreases |ps|
  {
    if |ps| == 0 then m else CollectPairs(ps[1..], m[ps[0].0 := Prior(m, ps[0].0) + [ps[0].1]])
  }

  /** A written pair reads back as one piece holding that key and value. */
  lemma PieceOfPair(p: (string, string), m: Values)
    requires PlainPair(p)
    ensures '&' !in p.0 + "=" + p.1 && p.0 + "=" + p.1 != ""
    ensures AddPiece(m, p.0 + "=" + p.1) == m[p.0 := Prior(m, p.0) + [p.1]]
  {
    var t := p.0 + "=" + p.1;
    assert t == p.0 + ['='] + p.1;
    assert t[|p.0|] == '=';
    assert ';' !in t;
    SplitFirstJoin(p.0, '=', p.1);
  }

  /** Parsing the joined pairs replays them in order. */
  lemma {:induction false} ParseJoin(ps: seq<(string, string)>, m: Values)
    requires forall i :: 0 <= i < |ps| ==> PlainPair(ps[i])
    ensures Collect(Segments(JoinPairs(ps)), m) == CollectPairs(ps, m)
    decreases |ps|
  {
    if |ps| == 0 {
      assert Segments("") == [];
    } else {
      var t := ps[0].0 + "=" + ps[0].1;
      PieceOfPair(ps[0], m);
      var m1 := m[ps[0].0 := Prior(m, ps[0].0) + [ps[0].1]];
      if |ps| == 1 {
        assert Segments(t) == [t];
        assert CollectPairs(ps, m) == CollectPairs([], m1);
      } else {
        var rest := JoinPairs(ps[1..]);
        assert JoinPairs(ps) == t + ['&'] + rest;
        SplitFirstJoin(t, '&', rest);
        var segs := Segments(rest);
        assert Segments(JoinPairs(ps)) == [t] + segs;
        assert ([t] + segs)[1..] == segs;
        ParseJoin(ps[1..], m1);
      }
    }
  }

  /** Reading pairs `a + b` is reading `a`, then `b`. */
  lemma {:induction false} CollectAppend(a: seq<(string, string)>, b: seq<(string, string)>, m: Values)
    ensures CollectPairs(a + b, m) == CollectPairs(b, CollectPairs(a, m))
    decreases |a|
  {
    if |a| == 0 {
      assert a + b == b;
    } else {
      assert (a + b)[0] == a[0] && (a + b)[1..] == a[1..] + b;
      CollectAppend(a[1..], b, m[a[0].0 := Prior(m, a[0].0) + [a[0].1]]);
    }
  }

  lemma CollectStep(ps: seq<(string, string)>, m: Values)
    requires |ps| > 0
    ensures CollectPairs(ps, m) == CollectPairs(ps[1..], m[ps[0].0 := Prior(m, ps[0].0) + [ps[0].1]])
  {
  }

  lemma TaggedStep(key: string, values: seq<string>)
    requires |values| > 0
    ensures |Tagged(key, values)| > 0
    ensures Tagged(key, values)[0] == (key, values[0]) && Tagged(key, values)[1..] == Tagged(key, values[1..])
  {
    assert Tagged(key, values) == [(key, values[0])] + Tagged(key, values[1..]);
  }

  lemma UpdateTwice(m: Values, key: string, a: seq<string>, b: seq<string>)
    ensures m[key := a][key := b] == m[key := b]
  {
  }

  /** Reading one key's pairs appends its values, in order, to that key's list. */
  lemma {:induction false} CollectTagged(key: string, values: seq<string>, m: Values)
    requires |values| > 0
    ensures CollectPairs(Tagged(key, values), m) == m[key := Prior(m, key) + values]
    decreases |values|
  {
    var m1 := m[key := Prior(m, key) + [values[0]]];
    assert CollectPairs(Tagged(key, values), m) == CollectPairs(Tagged(key, values[1..]), m1) by {
      TaggedStep(key, values);
      CollectStep(Tagged(key, values), m);
    }
    if |values| == 1 {
      assert values == [values[0]];
    } else {
      assert CollectPairs(Tagged(key, values[1..]), m1) == m[key := Prior(m, key) + values] by {
        CollectTagged(key, values[1..], m1);
        assert Prior(m1, key) + values[1..] == Prior(m, key) + values by {
          assert Prior(m, key) + [values[0]] + values[1..] == Prior(m, key) + values;
        }
        UpdateTwice(m, key, Prior(m, key) + [values[0]], Prior(m, key) + values);
      }
    }
  }

  /** Each key's whole list appended to what was read before, key by key. */
  function Extend(m: Values, v: Values, keys: seq<string>): Values
    requires forall i :: 0 <= i < |keys| ==> keys[i] in v
    decreases |keys|
  {
    if |keys| == 0 then m else Extend(m[keys[0] := Prior(m, keys[0]) + v[keys[0]]], v, keys[1..])
  }

  /** Reading the pairs of some keys appends each key's list in turn. */
  lemma {:induction false} CollectKeys(v: Values, keys: seq<string>, m: Values)
    requires forall i :: 0 <= i < |keys| ==> keys[i] in v && |v[keys[i]]| > 0
    ensures CollectPairs(PairsOf(v, keys), m) == Extend(m, v, keys)
    decreases |keys|
  {
    if |keys| > 0 {
      var k := keys[0];
      CollectAppend(Tagged(k, v[k]), PairsOf(v, keys[1..]), m);
      CollectTagged(k, v[k], m);
      CollectKeys(v, keys[1..], m[k := Prior(m, k) + v[k]]);
    }
  }

  /** Appending the lists of distinct keys, none recorded before, records exactly those lists. */
  lemma {:induction false} ExtendFresh(m: Values, v: Values, keys: seq<string>)
    requires forall i :: 0 <= i < |keys| ==> keys[i] in v && keys[i] !in m
    requires forall i, j :: 0 <= i < j < |keys| ==> keys[i] != keys[j]
    ensures forall k :: k in Extend(m, v, keys) <==> k in m || k in keys
    ensures forall k :: k in m ==> Extend(m, v, keys)[k] == m[k]
    ensures forall i :: 0 <= i < |keys| ==> Extend(m, v, keys)[keys[i]] == v[keys[i]]
    decreases |keys|
  {
    if |keys| > 0 {
      var k := keys[0];
      var m1 := m[k := v[k]];
      assert Prior(m, k) + v[k] == v[k];
      assert forall i :: 0 <= i < |keys[1..]| ==> keys[1..][i] == keys[i + 1];
      ExtendFresh(m1, v, keys[1..]);
      assert forall k' :: k' in keys <==> k' == k || k' in keys[1..];
      assert forall i :: 0 < i < |keys| ==> keys[i] == keys[1..][i - 1];
    }
  }

  /** Keys that are strictly sorted are distinct. */
  lemma SortedDistinct(keys: seq<string>)
    requires StrictlySorted(keys)
    ensures forall i, j :: 0 <= i < j < |keys| ==> keys[i] != keys[j]
  {
    forall i, j | 0 <= i < j < |keys|
      ensures keys[i] != keys[j]
    {
      LessIrreflexive(keys[i]);
    }
  }

  /** The pairs `Encode` writes for parameters that need no escaping need none either. */
  lemma PairsPlain(v: Values)
    requires Plain(v)
    ensures forall i :: 0 <= i < |Pairs(v)| ==> PlainPair(Pairs(v)[i])
  {
    var ps := Pairs(v);
    forall i | 0 <= i < |ps|
      ensures PlainPair(ps[i])
    {
      assert ps[i] in ps;
      var j :| 0 <= j < |v[ps[i].0]| && v[ps[i].0][j] == ps[i].1;
      assert PlainEntry(ps[i].0, v[ps[i].0]);
    }
  }

  /** The sorted key list holds each key of `v` exactly once. */
  lemma SortedKeysOf(v: Values)
    ensures forall i :: 0 <= i < |SortedKeys(v.Keys)| ==> SortedKeys(v.Keys)[i] in v
    ensures forall k :: k in v <==> k in SortedKeys(v.Keys)
    ensures forall i, j :: 0 <= i < j < |SortedKeys(v.Keys)| ==> SortedKeys(v.Keys)[i] != SortedKeys(v.Keys)[j]
  {
    var keys := SortedKeys(v.Keys);
    SortedDistinct(keys);
    forall i | 0 <= i < |keys|
      ensures keys[i] in v
    {
      assert keys[i] in keys;
    }
  }

  /** Appending every key's list to nothing, each key once, gives the parameters back. */
  lemma ExtendAll(v: Values, keys: seq<string>)
    requires forall i :: 0 <= i < |keys| ==> keys[i] in v
    requires forall k :: k in v <==> k in keys
    requires forall i, j :: 0 <= i < j < |keys| ==> keys[i] != keys[j]
    ensures Extend(map[], v, keys) == v
  {
    ExtendFresh(map[], v, keys);
    var r := Extend(map[], v, keys);
    forall k | k in v
      ensures k in r && r[k] == v[k]
    {
      var i :| 0 <= i < |keys| && keys[i] == k;
    }
    assert r.Keys == v.Keys;
  }

  /** Replaying the pairs `Encode` writes rebuilds the parameters, when no key has an empty list. */
  lemma CollectAll(v: Values)
    requires forall k :: k in v ==> |v[k]| > 0
    ensures CollectPairs(Pairs(v), map[]) == v
  {
    var keys := SortedKeys(v.Keys);
    SortedKeysOf(v);
    CollectKeys(v, keys, map[]);
    ExtendAll(v, keys);
  }

  /** `ParseQuery` reads back exactly the parameters `Encode` wrote, when none needed escaping. */
  lemma ParseOfEncode(v: Values)
    requires Plain(v)
    ensures ParseQuery(Encode(v)) == v
  {
    PairsPlain(v);
    ParseJoin(Pairs(v), map[]);
    assert forall k :: k in v ==> PlainEntry(k, v[k]);
    CollectAll(v);
  }

  /** The rendered address reads back, through its query part, as the parameters it was made from. */
  lemma QueryOfToString(u: Url)
    requires Plain(u.query) && '?' !in u.scheme && '?' !in u.host && '?' !in u.path
    ensures ParseQuery(RawQuery(ToString(u))) == u.query
  {
    var q := Encode(u.query);
    var head := u.scheme + "://" + u.host + u.path;
    assert '?' !in head;
    ParseOfEncode(u.query);
    if q == "" {
      assert SplitFirst(head, '?').None?;
      assert ParseQuery("") == map[];
    } else {
      assert ToString(u) == head + ['?'] + q;
      SplitFirstJoin(head, '?', q);
    }
  }
}
