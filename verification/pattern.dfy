/**
 * The three statement patterns of the server are anchored regular expressions
 * built from four pieces: `\s*`, `\s+`, a case-insensitive keyword (or the
 * literal `.`), and a captured identifier `([0-9A-Za-z_-]+)`. This module
 * matches such a pattern with a greedy left-to-right scanner and proves the
 * scanner agrees with the declarative reading: the text can be cut into one
 * piece per pattern element, each piece accepted by its element.
 * Matching is over ASCII: `(?i)` folding of non-ASCII characters is not modelled.
 */
module Pattern {
  import opened Wrappers

  /** RE2's `\s`: tab, newline, form feed, carriage return and space (no vertical tab). */
  predicate IsSpace(c: char) {
    c == '\t' || c == '\n' || c == '\U{000C}' || c == '\r' || c == ' '
  }

  /** The identifier class `[0-9A-Za-z_-]`. */
  predicate IsIdentChar(c: char) {
    ('0' <= c <= '9') || ('A' <= c <= 'Z') || ('a' <= c <= 'z') || c == '_' || c == '-'
  }

  predicate IsIdentifier(t: string) {
    |t| > 0 && forall i :: 0 <= i < |t| ==> IsIdentChar(t[i])
  }

  /** ASCII lower case, the folding `(?i)` applies to ASCII letters. */
  function Lower(c: char): char {
    if 'A' <= c <= 'Z' then (c as int + 32) as char else c
  }

  /** `t` spells `w` up to ASCII case. */
  predicate FoldEq(t: string, w: string) {
    |t| == |w| && forall i :: 0 <= i < |t| ==> Lower(t[i]) == Lower(w[i])
  }

  /** One piece of a pattern: a keyword, `\s*` / `\s+`, or a captured identifier. */
  datatype Elem = Word(w: string) | Spaces(atLeastOne: bool) | Ident

  /** `c` belongs to the character class a repeated element repeats. */
  predicate InRun(e: Elem, c: char) {
    match e
    case Word(_) => false
    case Spaces(_) => IsSpace(c)
    case Ident => IsIdentChar(c)
  }

  /** The length of the longest prefix of `s` inside the class of `e`. */
  function SpanLen(e: Elem, s: string): (n: nat)
    ensures n <= |s|
    ensures forall i :: 0 <= i < n ==> InRun(e, s[i])
    ensures n < |s| ==> !InRun(e, s[n])
  {
    if |s| == 0 || !InRun(e, s[0]) then 0 else 1 + SpanLen(e, s[1..])
  }

  function IdentCount(p: seq<Elem>): nat {
    if |p| == 0 then 0 else (if p[0].Ident? then 1 else 0) + IdentCount(p[1..])
  }

  lemma {:induction false} IdentCountAppend(a: seq<Elem>, b: seq<Elem>)
    ensures IdentCount(a + b) == IdentCount(a) + IdentCount(b)
    decreases |a|
  {
    if |a| == 0 {
      assert a + b == b;
    } else {
      assert (a + b)[1..] == a[1..] + b;
      IdentCountAppend(a[1..], b);
    }
  }

  /**
   * The scanner: keywords compared up to case, runs taken greedily, the text
   * used up exactly at the end. Returns the captured identifiers in order.
   */
  function Match(p: seq<Elem>, s: string): (r: Option<seq<string>>)
    ensures r.Some? ==> |r.value| == IdentCount(p)
    ensures r.Some? ==> forall k :: 0 <= k < |r.value| ==> IsIdentifier(r.value[k])
    decreases |p|
  {
    if |p| == 0 then (if |s| == 0 then Some([]) else None)
    else match p[0]
      case Word(w) =>
        if |w| <= |s| && FoldEq(s[..|w|], w) then Match(p[1..], s[|w|..]) else None
      case Spaces(atLeastOne) =>
        var n := SpanLen(p[0], s);
        if atLeastOne && n == 0 then None else Match(p[1..], s[n..])
      case Ident =>
        var n := SpanLen(p[0], s);
        if n == 0 then None
        else match Match(p[1..], s[n..])
          case None => None
          case Some(caps) => Some([s[..n]] + caps)
  }

  /** The text left after scanning a prefix pattern, captures ignored. */
  function Advance(p: seq<Elem>, s: string): Option<string>
    decreases |p|
  {
    if |p| == 0 then Some(s)
    else match p[0]
      case Word(w) =>
        if |w| <= |s| && FoldEq(s[..|w|], w) then Advance(p[1..], s[|w|..]) else None
      case Spaces(atLeastOne) =>
        var n := SpanLen(p[0], s);
        if atLeastOne && n == 0 then None else Advance(p[1..], s[n..])
      case Ident =>
        var n := SpanLen(p[0], s);
        if n == 0 then None else Advance(p[1..], s[n..])
  }

  // The declarative reading.

  /** `t` is a piece the element `e` accepts on its own. */
  predicate Fits(e: Elem, t: string) {
    match e
    case Word(w) => FoldEq(t, w)
    case Spaces(atLeastOne) => (atLeastOne ==> |t| > 0) && forall i :: 0 <= i < |t| ==> IsSpace(t[i])
    case Ident => IsIdentifier(t)
  }

  function Concat(parts: seq<string>): string {
    if |parts| == 0 then "" else parts[0] + Concat(parts[1..])
  }

  /** `parts` cuts `s` into one piece per element of `p`, each accepted by its element. */
  predicate Splits(p: seq<Elem>, parts: seq<string>, s: string) {
    |parts| == |p| && Concat(parts) == s && forall i :: 0 <= i < |p| ==> Fits(p[i], parts[i])
  }

  /** The pieces cut for the identifier elements, in order. */
  function Captured(p: seq<Elem>, parts: seq<string>): seq<string>
    requires |parts| == |p|
  {
    if |p| == 0 then [] else (if p[0].Ident? then [parts[0]] else []) + Captured(p[1..], parts[1..])
  }

  /** Cuts grow one element at a time, from the right. */
  lemma SplitsCons(e: Elem, t: string, p: seq<Elem>, parts: seq<string>, s: string)
    requires Fits(e, t) && Splits(p, parts, s)
    ensures Splits([e] + p, [t] + parts, t + s)
    ensures Captured([e] + p, [t] + parts) == (if e.Ident? then [t] else []) + Captured(p, parts)
  {
    assert ([e] + p)[1..] == p && ([t] + parts)[1..] == parts;
    forall i | 0 <= i < |p| + 1
      ensures Fits(([e] + p)[i], ([t] + parts)[i])
    {
      if i > 0 {
        assert Fits(p[i - 1], parts[i - 1]);
      }
    }
  }

  /** The regular expression `p` matches `s` with capture groups `caps`. */
  ghost predicate Matches(p: seq<Elem>, s: string, caps: seq<string>) {
    exists parts :: Splits(p, parts, s) && Captured(p, parts) == caps
  }

  /**
   * What may come after a repeated element `e` so that a greedy run never
   * swallows text the rest needs: the rest starts outside `e`'s class, and an
   * optional run may only come last.
   */
  predicate Follows(e: Elem, next: seq<Elem>) {
    |next| == 0 ||
    match next[0]
    case Word(w) => |w| > 0 && !InRun(e, Lower(w[0]))
    case Spaces(atLeastOne) => e.Ident? && (atLeastOne || |next| == 1)
    case Ident => e.Spaces?
  }

  predicate Separated(p: seq<Elem>) {
    forall i :: 0 <= i < |p| && !p[i].Word? ==> Follows(p[i], p[i + 1..])
  }

  // Agreement of the scanner with the declarative reading.

  /** ASCII folding never moves a character into or out of a run class. */
  lemma FoldKeepsClass(e: Elem, c: char)
    ensures InRun(e, c) <==> InRun(e, Lower(c))
  {
  }

  /** A greedy run stops exactly at the end of a fitting piece followed by a non-member. */
  lemma {:induction false} SpanOfPiece(e: Elem, a: string, b: string)
    requires !e.Word? && forall i :: 0 <= i < |a| ==> InRun(e, a[i])
    requires |b| == 0 || !InRun(e, b[0])
    ensures SpanLen(e, a + b) == |a|
    decreases |a|
  {
    if |a| > 0 {
      assert (a + b)[1..] == a[1..] + b;
      SpanOfPiece(e, a[1..], b);
    }
  }

  lemma {:induction false} SplitsTail(p: seq<Elem>, parts: seq<string>, s: string)
    requires |p| > 0 && Splits(p, parts, s)
    ensures s == parts[0] + Concat(parts[1..])
    ensures Splits(p[1..], parts[1..], Concat(parts[1..]))
  {
    forall i | 0 <= i < |p| - 1
      ensures Fits(p[1..][i], parts[1..][i])
    {
      assert Fits(p[i + 1], parts[i + 1]);
    }
  }

  /** Text cut by a pattern that may follow the run `e` does not start inside `e`'s class. */
  lemma {:induction false} RestStartsOutside(e: Elem, q: seq<Elem>, parts: seq<string>, r: string)
    requires !e.Word? && Follows(e, q) && Splits(q, parts, r) && |r| > 0
    ensures !InRun(e, r[0])
  {
    assert |q| > 0;
    SplitsTail(q, parts, r);
    assert Fits(q[0], parts[0]);
    match q[0]
    case Word(w) =>
      assert r[0] == parts[0][0];
      assert Lower(parts[0][0]) == Lower(w[0]);
      FoldKeepsClass(e, r[0]);
      FoldKeepsClass(e, w[0]);
    case Spaces(atLeastOne) =>
      assert |parts[0]| > 0;
      assert r[0] == parts[0][0];
    case Ident =>
      assert r[0] == parts[0][0];
  }

  lemma SeparatedTail(p: seq<Elem>)
    requires |p| > 0 && Separated(p)
    ensures Separated(p[1..])
  {
    forall i | 0 <= i < |p| - 1 && !p[1..][i].Word?
      ensures Follows(p[1..][i], p[1..][i + 1..])
    {
      assert p[1..][i + 1..] == p[i + 2..];
    }
  }

  /** Completeness: whenever the pattern can cut the text, the scanner finds exactly that cut. */
  lemma {:induction false} MatchComplete(p: seq<Elem>, parts: seq<string>, s: string)
    requires Separated(p) && Splits(p, parts, s)
    ensures Match(p, s) == Some(Captured(p, parts))
    decreases |p|
  {
    if |p| == 0 {
      assert s == "";
    } else {
      SplitsTail(p, parts, s);
      SeparatedTail(p);
      var rest := Concat(parts[1..]);
      MatchComplete(p[1..], parts[1..], rest);
      assert Fits(p[0], parts[0]);
      var n := |parts[0]|;
      assert s[..n] == parts[0] && s[n..] == rest;
      match p[0]
      case Word(w) =>
        assert n == |w| && s[|w|..] == rest;
        assert Captured(p, parts) == Captured(p[1..], parts[1..]);
      case Spaces(atLeastOne) =>
        PieceEndsRun(p, parts, s);
        assert SpanLen(p[0], s) == n;
        assert atLeastOne ==> n > 0;
        assert Captured(p, parts) == Captured(p[1..], parts[1..]);
      case Ident =>
        PieceEndsRun(p, parts, s);
        assert SpanLen(p[0], s) == n;
        assert Match(p, s) == Some([s[..n]] + Match(p[1..], rest).value);
    }
  }

  /** In a cut of a separated pattern, a run's piece is exactly what the greedy scan takes. */
  lemma PieceEndsRun(p: seq<Elem>, parts: seq<string>, s: string)
    requires |p| > 0 && !p[0].Word? && Separated(p) && Splits(p, parts, s)
    ensures SpanLen(p[0], s) == |parts[0]|
  {
    SplitsTail(p, parts, s);
    var rest := Concat(parts[1..]);
    assert Follows(p[0], p[1..]);
    assert Fits(p[0], parts[0]);
    if |rest| > 0 {
      RestStartsOutside(p[0], p[1..], parts[1..], rest);
    }
    SpanOfPiece(p[0], parts[0], rest);
  }

  /** Soundness: whatever the scanner accepts, the pattern can cut, with the same captures. */
  lemma {:induction false} MatchSound(p: seq<Elem>, s: string) returns (parts: seq<string>)
    requires Match(p, s).Some?
    ensures Splits(p, parts, s) && Captured(p, parts) == Match(p, s).value
    decreases |p|
  {
    if |p| == 0 {
      parts := [];
    } else {
      var n := match p[0] case Word(w) => |w| case _ => SpanLen(p[0], s);
      var tail := MatchSound(p[1..], s[n..]);
      parts := [s[..n]] + tail;
      assert parts[1..] == tail;
      assert s == s[..n] + s[n..];
      forall i | 0 <= i < |p|
        ensures Fits(p[i], parts[i])
      {
        if i > 0 {
          assert Fits(p[1..][i - 1], tail[i - 1]);
        }
      }
    }
  }

  /** The scanner answers exactly the regular-expression reading, in both directions. */
  lemma MatchIff(p: seq<Elem>, s: string, caps: seq<string>)
    requires Separated(p)
    ensures Match(p, s) == Some(caps) <==> Matches(p, s, caps)
  {
    if Match(p, s) == Some(caps) {
      var parts := MatchSound(p, s);
    }
    if Matches(p, s, caps) {
      var parts :| Splits(p, parts, s) && Captured(p, parts) == caps;
      MatchComplete(p, parts, s);
    }
  }

  /** A prefix without identifiers only moves the scanner along the text. */
  lemma {:induction false} MatchThrough(pre: seq<Elem>, q: seq<Elem>, s: string)
    requires IdentCount(pre) == 0
    ensures Match(pre + q, s) == (match Advance(pre, s) case None => None case Some(r) => Match(q, r))
    decreases |pre|
  {
    if |pre| == 0 {
      assert pre + q == q;
    } else {
      var p := pre + q;
      assert p[0] == pre[0];
      assert p[1..] == pre[1..] + q;
      assert IdentCount(pre[1..]) == 0;
      match pre[0]
      case Word(w) =>
        if |w| <= |s| && FoldEq(s[..|w|], w) {
          MatchThrough(pre[1..], q, s[|w|..]);
          assert Match(p, s) == Match(p[1..], s[|w|..]);
          assert Advance(pre, s) == Advance(pre[1..], s[|w|..]);
          assert Match(p, s) == (match Advance(pre, s) case None => None case Some(r) => Match(q, r));
        } else {
          assert Match(p, s) == None;
          assert Advance(pre, s) == None;
        }
      case Spaces(atLeastOne) =>
        var n := SpanLen(pre[0], s);
        if !(atLeastOne && n == 0) {
          MatchThrough(pre[1..], q, s[n..]);
          assert Match(p, s) == Match(p[1..], s[n..]);
          assert Advance(pre, s) == Advance(pre[1..], s[n..]);
          assert Match(p, s) == (match Advance(pre, s) case None => None case Some(r) => Match(q, r));
        } else {
          assert Match(p, s) == None;
          assert Advance(pre, s) == None;
        }
      case Ident =>
        assert false;
    }
  }
}
