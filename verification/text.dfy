/**
 * Reading a text back from its right end: the last occurrence of a separator
 * splits it into what precedes and what follows. A printed field that cannot
 * hold the separator (a decimal number, say) is recovered exactly this way,
 * whatever the text before it holds.
 */
module Text {
  import opened Wrappers

  /** `s` split at its last `c`: the text before it and the text after it. */
  function SplitLast(s: string, c: char): (r: Option<(string, string)>)
    ensures r.Some? ==> s == r.value.0 + [c] + r.value.1 && c !in r.value.1
    ensures r.None? <==> c !in s
    decreases |s|
  {
    if |s| == 0 then None
    else if s[|s| - 1] == c then
      assert s == s[..|s| - 1] + [c] + "";
      Some((s[..|s| - 1], ""))
    else
      match SplitLast(s[..|s| - 1], c)
      case None =>
        assert s == s[..|s| - 1] + [s[|s| - 1]];
        None
      case Some(p) =>
        assert s == s[..|s| - 1] + [s[|s| - 1]];
        Some((p.0, p.1 + [s[|s| - 1]]))
  }

  /** In `a + [c] + b` with no `c` in `b`, the `c` after `a` is the last one. */
  lemma LastSeparator(s: string, a: string, c: char, b: string)
    requires s == a + [c] + b && c !in b
    ensures s[|a|] == c
    ensures forall i :: |a| < i < |s| ==> s[i] != c
  {
    forall i | |a| < i < |s|
      ensures s[i] != c
    {
      assert s[i] == b[i - |a| - 1];
    }
  }

  /** Joining at a separator the right part does not contain, then splitting at the last one, gives the parts back. */
  lemma SplitLastJoin(a: string, c: char, b: string)
    requires c !in b
    ensures SplitLast(a + [c] + b, c) == Some((a, b))
  {
    var s := a + [c] + b;
    LastSeparator(s, a, c, b);
    var r := SplitLast(s, c);
    var a', b' := r.value.0, r.value.1;
    LastSeparator(s, a', c, b');
    assert |a'| == |a|;
    assert a' == s[..|a|] && a == s[..|a|];
    assert b' == s[|a| + 1..] && b == s[|a| + 1..];
  }

  /** `s` split at its first `c` (Go's `strings.Cut`): the text before it and the text after it. */
  function SplitFirst(s: string, c: char): (r: Option<(string, string)>)
    ensures r.Some? ==> s == r.value.0 + [c] + r.value.1 && c !in r.value.0
    ensures r.None? <==> c !in s
    decreases |s|
  {
    if |s| == 0 then None
    else if s[0] == c then
      assert s == "" + [c] + s[1..];
      Some(("", s[1..]))
    else
      match SplitFirst(s[1..], c)
      case None =>
        assert s == [s[0]] + s[1..];
        None
      case Some(p) =>
        assert s == [s[0]] + s[1..];
        Some(([s[0]] + p.0, p.1))
  }

  /** In `a + [c] + b` with no `c` in `a`, the `c` after `a` is the first one. */
  lemma FirstSeparator(s: string, a: string, c: char, b: string)
    requires s == a + [c] + b && c !in a
    ensures s[|a|] == c
    ensures forall i :: 0 <= i < |a| ==> s[i] != c
  {
    forall i | 0 <= i < |a|
      ensures s[i] != c
    {
      assert s[i] == a[i];
    }
  }

  /** Joining at a separator the left part does not contain, then cutting at the first one, gives the parts back. */
  lemma SplitFirstJoin(a: string, c: char, b: string)
    requires c !in a
    ensures SplitFirst(a + [c] + b, c) == Some((a, b))
  {
    var s := a + [c] + b;
    FirstSeparator(s, a, c, b);
    var r := SplitFirst(s, c);
    var a', b' := r.value.0, r.value.1;
    FirstSeparator(s, a', c, b');
    assert |a'| == |a|;
    assert a' == s[..|a|] && a == s[..|a|];
    assert b' == s[|a| + 1..] && b == s[|a| + 1..];
  }

  /** `s` begins with `p`. */
  predicate StartsWith(s: string, p: string) {
    |p| <= |s| && s[..|p|] == p
  }

  /** `s` ends with `p`. */
  predicate EndsWith(s: string, p: string) {
    |p| <= |s| && s[|s| - |p|..] == p
  }

  /** `s` without the prefix `p`, when it has it. */
  function StripPrefix(s: string, p: string): (r: Option<string>)
    ensures r.Some? <==> StartsWith(s, p)
    ensures r.Some? ==> s == p + r.value
  {
    if StartsWith(s, p) then
      assert s == s[..|p|] + s[|p|..];
      Some(s[|p|..])
    else None
  }

  /** `s` without the suffix `p`, when it has it. */
  function StripSuffix(s: string, p: string): (r: Option<string>)
    ensures r.Some? <==> EndsWith(s, p)
    ensures r.Some? ==> s == r.value + p
  {
    if EndsWith(s, p) then
      assert s == s[..|s| - |p|] + s[|s| - |p|..];
      Some(s[..|s| - |p|])
    else None
  }

  lemma StartsWithJoin(a: string, b: string)
    ensures StartsWith(a + b, a)
  {
    assert (a + b)[..|a|] == a;
  }

  lemma EndsWithJoin(a: string, b: string)
    ensures EndsWith(a + b, b)
  {
    assert (a + b)[|a + b| - |b|..] == b;
  }

  lemma StripPrefixOf(p: string, a: string)
    ensures StripPrefix(p + a, p) == Some(a)
  {
    assert (p + a)[..|p|] == p;
  }

  lemma StripSuffixOf(a: string, p: string)
    ensures StripSuffix(a + p, p) == Some(a)
  {
    assert (a + p)[|a|..] == p;
  }
}
