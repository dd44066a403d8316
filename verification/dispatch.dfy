/**
 * The statement dispatcher (`fakeTrinodbCompatibility` and `doQuery` in
 * server.go): three introspection commands, tried in order, are rewritten into
 * queries over the engine's `information_schema`; any other text is executed
 * as it is. The captured identifiers are spliced into the rewritten SQL
 * between single quotes, as the server does (not bound as parameters).
 */
module Dispatch {
  import opened Wrappers
  import opened Pattern

  /** `^\s*show` */
  const ShowWord: seq<Elem> := [Spaces(false), Word("show")]

  /** `(?i)^\s*show\s+catalogs\s*$` */
  const CatalogsPattern: seq<Elem> :=
    ShowWord + [Spaces(true), Word("catalogs"), Spaces(false)]

  /** `(?i)^\s*show\s+schemas\s+from\s+(?<catalog>[0-9A-Za-z_-]+)\s*$` */
  const SchemasPattern: seq<Elem> :=
    ShowWord + [Spaces(true), Word("schemas"), Spaces(true), Word("from"), Spaces(true), Ident, Spaces(false)]

  /** `(?i)^\s*show\s+tables\s+from\s+(?<catalog>[0-9A-Za-z_-]+)\.(?<schema>[0-9A-Za-z_-]+)\s*$` */
  const TablesPattern: seq<Elem> :=
    ShowWord + [Spaces(true), Word("tables"), Spaces(true), Word("from"), Spaces(true), Ident, Word("."), Ident, Spaces(false)]

  // The rewritten queries, each literal written in pieces of at most one SQL clause.

  const CatalogsQuery: string :=
    "SELECT DISTINCT catalog_name as Catalog " + "FROM information_schema.schemata"

  const SchemasSelect: string :=
    "SELECT DISTINCT schema_name as Schema " + "FROM information_schema.schemata " + "WHERE catalog_name = "

  const TablesSelect: string :=
    "SELECT table_name AS Table " + "FROM information_schema.tables " + "WHERE table_catalog = "

  const TablesAnd: string := " and table_schema = "

  /** A single-quoted SQL string literal, spliced as text. */
  function Quoted(t: string): string {
    "'" + t + "'"
  }

  /** The schema listing for one catalog. */
  function SchemasQuery(catalog: string): string {
    SchemasSelect + Quoted(catalog)
  }

  /** The table listing for one schema of one catalog. */
  function TablesQuery(catalog: string, schema: string): string {
    TablesSelect + Quoted(catalog) + TablesAnd + Quoted(schema)
  }

  /** The text the executor runs, and whether a compatibility rewrite produced it. */
  datatype Dispatched = Dispatched(text: string, rewritten: bool)

  /** One of the three rewritten queries, for some identifiers. */
  ghost predicate IsRewrite(t: string) {
    || t == CatalogsQuery
    || (exists c :: IsIdentifier(c) && t == SchemasQuery(c))
    || (exists c, s :: IsIdentifier(c) && IsIdentifier(s) && t == TablesQuery(c, s))
  }

  lemma PatternShapes()
    ensures IdentCount(ShowWord) == 0
    ensures IdentCount(SchemasPattern) == 1 && IdentCount(TablesPattern) == 2
  {
    var sch: seq<Elem> := [Spaces(true), Word("schemas"), Spaces(true), Word("from"), Spaces(true), Ident, Spaces(false)];
    var tab: seq<Elem> := [Spaces(true), Word("tables"), Spaces(true), Word("from"), Spaces(true), Ident, Word("."), Ident, Spaces(false)];
    IdentCountAppend(ShowWord, sch);
    IdentCountAppend(ShowWord, tab);
    IdentCountAppend(sch[..5], sch[5..]);
    assert sch[..5] + sch[5..] == sch;
    IdentCountAppend(tab[..5], tab[5..]);
    assert tab[..5] + tab[5..] == tab;
  }

  /** `doQuery`'s choice of the text to execute. */
  function Dispatch(q: string): (d: Dispatched)
    ensures !d.rewritten ==> d.text == q
    ensures d.rewritten ==> IsRewrite(d.text)
  {
    PatternShapes();
    if Match(CatalogsPattern, q).Some? then Dispatched(CatalogsQuery, true)
    else match Match(SchemasPattern, q)
      case Some(caps) => Dispatched(SchemasQuery(caps[0]), true)
      case None =>
        match Match(TablesPattern, q)
        case Some(caps) => Dispatched(TablesQuery(caps[0], caps[1]), true)
        case None => Dispatched(q, false)
  }

  // What the dispatcher recognizes.

  /** Text made of `\s` characters only. */
  predicate Blank(t: string) {
    forall i :: 0 <= i < |t| ==> IsSpace(t[i])
  }

  /** `q` matches one of the three command patterns. */
  ghost predicate Recognized(q: string) {
    exists caps :: Matches(CatalogsPattern, q, caps) || Matches(SchemasPattern, q, caps) || Matches(TablesPattern, q, caps)
  }

  lemma PatternsSeparated()
    ensures Separated(CatalogsPattern) && Separated(SchemasPattern) && Separated(TablesPattern)
  {
    CatalogsSeparated();
    SchemasSeparated();
    TablesSeparated();
  }

  lemma CatalogsSeparated()
    ensures Separated(CatalogsPattern)
  {
  }

  lemma SchemasSeparated()
    ensures Separated(SchemasPattern)
  {
  }

  lemma TablesSeparated()
    ensures Separated(TablesPattern)
  {
  }

  /** A match of a pattern that starts with a keyword begins with that keyword's first letter. */
  lemma WordFirst(w: string, tail: seq<Elem>, r: string)
    requires |w| > 0 && Match([Word(w)] + tail, r).Some?
    ensures |r| > 0 && Lower(r[0]) == Lower(w[0])
  {
    assert ([Word(w)] + tail)[0] == Word(w);
  }

  /** Two commands whose keywords after `show` start with different letters never match the same text. */
  lemma KeywordsExclusive(a: string, ta: seq<Elem>, b: string, tb: seq<Elem>, q: string)
    requires |a| > 0 && |b| > 0 && Lower(a[0]) != Lower(b[0])
    ensures !(Match(ShowWord + [Spaces(true)] + ([Word(a)] + ta), q).Some?
              && Match(ShowWord + [Spaces(true)] + ([Word(b)] + tb), q).Some?)
  {
    var show := ShowWord + [Spaces(true)];
    PatternShapes();
    IdentCountAppend(ShowWord, [Spaces(true)]);
    MatchThrough(show, [Word(a)] + ta, q);
    MatchThrough(show, [Word(b)] + tb, q);
    match Advance(show, q)
    case None =>
    case Some(r) =>
      if Match([Word(a)] + ta, r).Some? {
        WordFirst(a, ta, r);
      }
      if Match([Word(b)] + tb, r).Some? {
        WordFirst(b, tb, r);
      }
  }

  /** No text matches two of the patterns, so the order they are tried in never matters. */
  lemma PatternsExclusive(q: string)
    ensures !(Match(CatalogsPattern, q).Some? && Match(SchemasPattern, q).Some?)
    ensures !(Match(CatalogsPattern, q).Some? && Match(TablesPattern, q).Some?)
    ensures !(Match(SchemasPattern, q).Some? && Match(TablesPattern, q).Some?)
  {
    var show := ShowWord + [Spaces(true)];
    var cat: seq<Elem> := [Spaces(false)];
    var sch: seq<Elem> := [Spaces(true), Word("from"), Spaces(true), Ident, Spaces(false)];
    var tab: seq<Elem> := [Spaces(true), Word("from"), Spaces(true), Ident, Word("."), Ident, Spaces(false)];
    assert CatalogsPattern == show + ([Word("catalogs")] + cat);
    assert SchemasPattern == show + ([Word("schemas")] + sch);
    assert TablesPattern == show + ([Word("tables")] + tab);
    KeywordsExclusive("catalogs", cat, "schemas", sch, q);
    KeywordsExclusive("catalogs", cat, "tables", tab, q);
    KeywordsExclusive("schemas", sch, "tables", tab, q);
  }

  /** Any `\s* show \s+ catalogs \s*`, in any ASCII case, runs the catalog listing instead. */
  lemma ShowCatalogsRewritten(w1: string, show: string, w2: string, catalogs: string, w3: string)
    requires Blank(w1) && FoldEq(show, "show") && Blank(w2) && |w2| > 0
    requires FoldEq(catalogs, "catalogs") && Blank(w3)
    ensures Dispatch(w1 + show + w2 + catalogs + w3) == Dispatched(CatalogsQuery, true)
  {
    SplitsCons(Spaces(false), w3, [], [], "");
    assert w3 + "" == w3;
    SplitsCons(Word("catalogs"), catalogs, [Spaces(false)], [w3], w3);
    SplitsCons(Spaces(true), w2, [Word("catalogs"), Spaces(false)], [catalogs, w3], catalogs + w3);
    var p1: seq<Elem> := [Spaces(true), Word("catalogs"), Spaces(false)];
    SplitsCons(Word("show"), show, p1, [w2, catalogs, w3], w2 + (catalogs + w3));
    var p0 := [Word("show")] + p1;
    SplitsCons(Spaces(false), w1, p0, [show, w2, catalogs, w3], show + (w2 + (catalogs + w3)));
    var q := w1 + show + w2 + catalogs + w3;
    assert w1 + (show + (w2 + (catalogs + w3))) == q;
    assert [Spaces(false)] + p0 == CatalogsPattern;
    PatternsSeparated();
    MatchComplete(CatalogsPattern, [w1, show, w2, catalogs, w3], q);
  }

  /** `SHOW SCHEMAS FROM c` lists the schemas of catalog `c`. */
  lemma ShowSchemasRewritten(w1: string, show: string, w2: string, schemas: string, w3: string,
                             from: string, w4: string, catalog: string, w5: string)
    requires Blank(w1) && FoldEq(show, "show") && Blank(w2) && |w2| > 0
    requires FoldEq(schemas, "schemas") && Blank(w3) && |w3| > 0
    requires FoldEq(from, "from") && Blank(w4) && |w4| > 0
    requires IsIdentifier(catalog) && Blank(w5)
    ensures Dispatch(w1 + show + w2 + schemas + w3 + from + w4 + catalog + w5)
         == Dispatched(SchemasQuery(catalog), true)
  {
    var tail := FromClause(w3, from, w4, catalog, w5);
    var s3 := w3 + from + w4 + catalog + w5;
    var head := ShowHead(w1, show, w2, schemas, "schemas", tail.0, tail.1, s3);
    var q := w1 + show + w2 + schemas + w3 + from + w4 + catalog + w5;
    assert w1 + show + w2 + schemas + s3 == q;
    assert head.0 == SchemasPattern;
    PatternsSeparated();
    MatchComplete(SchemasPattern, head.1, q);
    PatternsExclusive(q);
  }

  /** The cut of `\s* show \s+ kw` in front of the cut of a command's tail. */
  lemma ShowHead(w1: string, show: string, w2: string, word: string, kw: string,
                 p: seq<Elem>, parts: seq<string>, s: string)
    returns (r: (seq<Elem>, seq<string>))
    requires Blank(w1) && FoldEq(show, "show") && Blank(w2) && |w2| > 0 && FoldEq(word, kw)
    requires Splits(p, parts, s)
    ensures r.0 == [Spaces(false), Word("show"), Spaces(true), Word(kw)] + p
    ensures Splits(r.0, r.1, w1 + show + w2 + word + s)
    ensures Captured(r.0, r.1) == Captured(p, parts)
  {
    SplitsCons(Word(kw), word, p, parts, s);
    SplitsCons(Spaces(true), w2, [Word(kw)] + p, [word] + parts, word + s);
    SplitsCons(Word("show"), show, [Spaces(true)] + ([Word(kw)] + p), [w2] + ([word] + parts), w2 + (word + s));
    SplitsCons(Spaces(false), w1, [Word("show")] + ([Spaces(true)] + ([Word(kw)] + p)),
               [show] + ([w2] + ([word] + parts)), show + (w2 + (word + s)));
    assert w1 + (show + (w2 + (word + s))) == w1 + show + w2 + word + s;
    r := ([Spaces(false)] + ([Word("show")] + ([Spaces(true)] + ([Word(kw)] + p))),
          [w1] + ([show] + ([w2] + ([word] + parts))));
  }

  /** The cut of `\s+ from \s+ c \s*` that ends the schema command. */
  lemma FromClause(w3: string, from: string, w4: string, catalog: string, w5: string)
    returns (r: (seq<Elem>, seq<string>))
    requires Blank(w3) && |w3| > 0 && FoldEq(from, "from") && Blank(w4) && |w4| > 0
    requires IsIdentifier(catalog) && Blank(w5)
    ensures r.0 == [Spaces(true), Word("from"), Spaces(true), Ident, Spaces(false)]
    ensures Splits(r.0, r.1, w3 + from + w4 + catalog + w5)
    ensures Captured(r.0, r.1) == [catalog]
  {
    SplitsCons(Spaces(false), w5, [], [], "");
    assert w5 + "" == w5;
    SplitsCons(Ident, catalog, [Spaces(false)], [w5], w5);
    SplitsCons(Spaces(true), w4, [Ident, Spaces(false)], [catalog, w5], catalog + w5);
    SplitsCons(Word("from"), from, [Spaces(true), Ident, Spaces(false)], [w4, catalog, w5], w4 + (catalog + w5));
    SplitsCons(Spaces(true), w3, [Word("from"), Spaces(true), Ident, Spaces(false)], [from, w4, catalog, w5],
               from + (w4 + (catalog + w5)));
    assert w3 + (from + (w4 + (catalog + w5))) == w3 + from + w4 + catalog + w5;
    r := ([Spaces(true), Word("from"), Spaces(true), Ident, Spaces(false)], [w3, from, w4, catalog, w5]);
  }

  /** The cut of `c . s \s*`, the qualified schema name that ends the tables command. */
  lemma DottedName(catalog: string, dot: string, schema: string, w5: string)
    returns (r: (seq<Elem>, seq<string>))
    requires IsIdentifier(catalog) && dot == "." && IsIdentifier(schema) && Blank(w5)
    ensures r.0 == [Ident, Word("."), Ident, Spaces(false)]
    ensures Splits(r.0, r.1, catalog + dot + schema + w5)
    ensures Captured(r.0, r.1) == [catalog, schema]
  {
    SplitsCons(Spaces(false), w5, [], [], "");
    assert w5 + "" == w5;
    SplitsCons(Ident, schema, [Spaces(false)], [w5], w5);
    SplitsCons(Word("."), dot, [Ident, Spaces(false)], [schema, w5], schema + w5);
    SplitsCons(Ident, catalog, [Word("."), Ident, Spaces(false)], [dot, schema, w5], dot + (schema + w5));
    assert catalog + (dot + (schema + w5)) == catalog + dot + schema + w5;
    r := ([Ident, Word("."), Ident, Spaces(false)], [catalog, dot, schema, w5]);
  }

  /** The cut of `\s+ from \s+ c . s \s*` that ends the tables command. */
  lemma FromDottedClause(w3: string, from: string, w4: string, catalog: string, dot: string, schema: string, w5: string)
    returns (r: (seq<Elem>, seq<string>))
    requires Blank(w3) && |w3| > 0 && FoldEq(from, "from") && Blank(w4) && |w4| > 0
    requires IsIdentifier(catalog) && dot == "." && IsIdentifier(schema) && Blank(w5)
    ensures r.0 == [Spaces(true), Word("from"), Spaces(true), Ident, Word("."), Ident, Spaces(false)]
    ensures Splits(r.0, r.1, w3 + from + w4 + catalog + dot + schema + w5)
    ensures Captured(r.0, r.1) == [catalog, schema]
  {
    var name := DottedName(catalog, dot, schema, w5);
    var s4 := catalog + dot + schema + w5;
    SplitsCons(Spaces(true), w4, name.0, name.1, s4);
    SplitsCons(Word("from"), from, [Spaces(true)] + name.0, [w4] + name.1, w4 + s4);
    SplitsCons(Spaces(true), w3, [Word("from")] + ([Spaces(true)] + name.0), [from] + ([w4] + name.1),
               from + (w4 + s4));
    assert w3 + (from + (w4 + s4)) == w3 + from + w4 + catalog + dot + schema + w5;
    r := ([Spaces(true)] + ([Word("from")] + ([Spaces(true)] + name.0)), [w3] + ([from] + ([w4] + name.1)));
  }

  /** `SHOW TABLES FROM c.s` lists the tables of schema `s` in catalog `c`, in that order. */
  lemma ShowTablesRewritten(w1: string, show: string, w2: string, tables: string, w3: string,
                            from: string, w4: string, catalog: string, dot: string, schema: string, w5: string)
    requires Blank(w1) && FoldEq(show, "show") && Blank(w2) && |w2| > 0
    requires FoldEq(tables, "tables") && Blank(w3) && |w3| > 0
    requires FoldEq(from, "from") && Blank(w4) && |w4| > 0
    requires IsIdentifier(catalog) && dot == "." && IsIdentifier(schema) && Blank(w5)
    ensures Dispatch(w1 + show + w2 + tables + w3 + from + w4 + catalog + dot + schema + w5)
         == Dispatched(TablesQuery(catalog, schema), true)
  {
    var tail := FromDottedClause(w3, from, w4, catalog, dot, schema, w5);
    var s3 := w3 + from + w4 + catalog + dot + schema + w5;
    var head := ShowHead(w1, show, w2, tables, "tables", tail.0, tail.1, s3);
    var q := w1 + show + w2 + tables + w3 + from + w4 + catalog + dot + schema + w5;
    assert w1 + show + w2 + tables + s3 == q;
    assert head.0 == TablesPattern;
    PatternsSeparated();
    MatchComplete(TablesPattern, head.1, q);
    PatternsExclusive(q);
  }

  /** The split of `c.s` is unique: any two readings of a tables command capture the same pair. */
  lemma TablesSplitUnique(q: string, caps1: seq<string>, caps2: seq<string>)
    requires Matches(TablesPattern, q, caps1) && Matches(TablesPattern, q, caps2)
    ensures caps1 == caps2
  {
    PatternsSeparated();
    MatchIff(TablesPattern, q, caps1);
    MatchIff(TablesPattern, q, caps2);
  }

  /** The dispatcher rewrites exactly the recognized commands and passes everything else through. */
  lemma RewrittenIffRecognized(q: string)
    ensures Dispatch(q).rewritten <==> Recognized(q)
    ensures !Recognized(q) ==> Dispatch(q) == Dispatched(q, false)
  {
    PatternsSeparated();
    if Dispatch(q).rewritten {
      if Match(CatalogsPattern, q).Some? {
        MatchIff(CatalogsPattern, q, Match(CatalogsPattern, q).value);
      } else if Match(SchemasPattern, q).Some? {
        MatchIff(SchemasPattern, q, Match(SchemasPattern, q).value);
      } else {
        MatchIff(TablesPattern, q, Match(TablesPattern, q).value);
      }
    }
    if Recognized(q) {
      var caps :| Matches(CatalogsPattern, q, caps) || Matches(SchemasPattern, q, caps) || Matches(TablesPattern, q, caps);
      MatchIff(CatalogsPattern, q, caps);
      MatchIff(SchemasPattern, q, caps);
      MatchIff(TablesPattern, q, caps);
    }
  }

  // The rewritten queries.

  predicate QuoteFree(t: string) {
    forall i :: 0 <= i < |t| ==> t[i] != '\''
  }

  lemma QuoteFreeConcat(a: string, b: string)
    requires QuoteFree(a) && QuoteFree(b)
    ensures QuoteFree(a + b)
  {
  }

  lemma FixedTextQuoteFree()
    ensures QuoteFree(SchemasSelect) && QuoteFree(TablesSelect) && QuoteFree(TablesAnd)
  {
    var s1, s2, s3 := "SELECT DISTINCT schema_name as Schema ", "FROM information_schema.schemata ", "WHERE catalog_name = ";
    assert QuoteFree(s1) && QuoteFree(s2) && QuoteFree(s3);
    QuoteFreeConcat(s1, s2);
    QuoteFreeConcat(s1 + s2, s3);
    var t1, t2, t3 := "SELECT table_name AS Table ", "FROM information_schema.tables ", "WHERE table_catalog = ";
    assert QuoteFree(t1) && QuoteFree(t2) && QuoteFree(t3);
    QuoteFreeConcat(t1, t2);
    QuoteFreeConcat(t1 + t2, t3);
  }

  /**
   * The catalog literal of a schema listing opens right after the fixed text
   * and closes at the very end: its content is exactly the identifier, which
   * cannot contain a quote.
   */
  lemma SchemasLiteralIntact(catalog: string)
    requires IsIdentifier(catalog)
    ensures var t := SchemasQuery(catalog);
      forall i :: 0 <= i < |t| ==> (t[i] == '\'' <==> i == |SchemasSelect| || i == |t| - 1)
    ensures SchemasQuery(catalog)[|SchemasSelect| + 1..|SchemasQuery(catalog)| - 1] == catalog
  {
    FixedTextQuoteFree();
    var t := SchemasQuery(catalog);
    var n := |SchemasSelect|;
    assert |t| == n + |catalog| + 2;
    forall i | 0 <= i < |t|
      ensures t[i] == '\'' <==> i == n || i == |t| - 1
    {
      if i < n {
        assert t[i] == SchemasSelect[i];
      } else if n < i < |t| - 1 {
        assert t[i] == catalog[i - n - 1];
      }
    }
  }

  /** Both literals of a table listing hold exactly their identifiers. */
  lemma TablesLiteralsIntact(catalog: string, schema: string)
    requires IsIdentifier(catalog) && IsIdentifier(schema)
    ensures var t := TablesQuery(catalog, schema);
      var a := |TablesSelect|;
      var b := a + |catalog| + 1 + |TablesAnd| + 1;
      forall i :: 0 <= i < |t| ==> (t[i] == '\'' <==> i == a || i == a + |catalog| + 1 || i == b || i == |t| - 1)
    ensures var a := |TablesSelect|;
      TablesQuery(catalog, schema)[a + 1..a + 1 + |catalog|] == catalog
    ensures var b := |TablesSelect| + |catalog| + 2 + |TablesAnd|;
      TablesQuery(catalog, schema)[b + 1..b + 1 + |schema|] == schema
  {
    FixedTextQuoteFree();
    var t := TablesQuery(catalog, schema);
    var a := |TablesSelect|;
    var c := a + |catalog| + 1;
    var b := c + |TablesAnd| + 1;
    assert |t| == b + |schema| + 2;
    forall i | 0 <= i < |t|
      ensures t[i] == '\'' <==> i == a || i == c || i == b || i == |t| - 1
    {
      if i < a {
        assert t[i] == TablesSelect[i];
      } else if a < i < c {
        assert t[i] == catalog[i - a - 1];
      } else if c < i < b {
        assert t[i] == TablesAnd[i - c - 1];
      } else if b < i < |t| - 1 {
        assert t[i] == schema[i - b - 1];
      }
    }
  }

  /** Text starting with `SE` cannot match `^\s*show`. */
  lemma SelectNotRecognized(t: string)
    requires |t| >= 2 && t[0] == 'S' && t[1] == 'E'
    ensures Match(CatalogsPattern, t).None? && Match(SchemasPattern, t).None? && Match(TablesPattern, t).None?
  {
    PatternShapes();
    assert SpanLen(Spaces(false), t) == 0;
    assert ShowWord[1..] == [Word("show")];
    assert Advance(ShowWord, t) == Advance([Word("show")], t);
    if |t| >= 4 {
      assert !FoldEq(t[..4], "show") by {
        assert Lower(t[1]) != Lower("show"[1]);
      }
    }
    assert Advance(ShowWord, t).None?;
    MatchThrough(ShowWord, [Spaces(true), Word("catalogs"), Spaces(false)], t);
    MatchThrough(ShowWord, [Spaces(true), Word("schemas"), Spaces(true), Word("from"), Spaces(true), Ident, Spaces(false)], t);
    MatchThrough(ShowWord, [Spaces(true), Word("tables"), Spaces(true), Word("from"), Spaces(true), Ident, Word("."), Ident, Spaces(false)], t);
  }

  /**
   * Dispatching is idempotent: what the executor runs is never itself a
   * command, so dispatching it again (as a continuation request does) runs it unchanged.
   */
  lemma DispatchIdempotent(q: string)
    ensures Dispatch(Dispatch(q).text) == Dispatched(Dispatch(q).text, false)
  {
    var d := Dispatch(q);
    if d.rewritten {
      RewriteStartsSelect(d.text);
      SelectNotRecognized(d.text);
    }
  }

  /** Every rewritten query begins with `SELECT`. */
  lemma RewriteStartsSelect(t: string)
    requires IsRewrite(t)
    ensures |t| >= 2 && t[0] == 'S' && t[1] == 'E'
  {
    if t == CatalogsQuery {
      StartsSE("SELECT DISTINCT catalog_name as Catalog ", "FROM information_schema.schemata");
    } else if exists c :: IsIdentifier(c) && t == SchemasQuery(c) {
      var c :| IsIdentifier(c) && t == SchemasQuery(c);
      StartsSE("SELECT DISTINCT schema_name as Schema ", "FROM information_schema.schemata " + "WHERE catalog_name = ");
      StartsSE(SchemasSelect, Quoted(c));
    } else {
      var c, s :| IsIdentifier(c) && IsIdentifier(s) && t == TablesQuery(c, s);
      StartsSE("SELECT table_name AS Table ", "FROM information_schema.tables " + "WHERE table_catalog = ");
      StartsSE(TablesSelect, Quoted(c));
      StartsSE(TablesSelect + Quoted(c), TablesAnd);
      StartsSE(TablesSelect + Quoted(c) + TablesAnd, Quoted(s));
    }
  }

  lemma StartsSE(a: string, b: string)
    requires |a| >= 2 && a[0] == 'S' && a[1] == 'E'
    ensures |a + b| >= 2 && (a + b)[0] == 'S' && (a + b)[1] == 'E'
  {
  }
}
