/** The .NET string operations the core relies on, stated over `seq<char>`:
    ordinal and ordinal-ignore-case comparison, prefix and suffix tests,
    substring search and `String.Replace` with an empty replacement. */
module Text {
  import opened Outcomes

  /** `System.StringComparison`, restricted to the two values the core uses. */
  datatype Comparison = Ordinal | OrdinalIgnoreCase

  /** Upper-case folding of one character; only the ASCII letters are folded. */
  function Upper(c: char): char {
    if 'a' <= c <= 'z' then (c as int - 32) as char else c
  }

  predicate CharEquals(a: char, b: char, cmp: Comparison) {
    match cmp
    case Ordinal => a == b
    case OrdinalIgnoreCase => Upper(a) == Upper(b)
  }

  /** Equality of two non-null strings under `cmp`. */
  predicate SameText(a: string, b: string, cmp: Comparison) {
    |a| == |b| && forall i :: 0 <= i < |a| ==> CharEquals(a[i], b[i], cmp)
  }

  /** The static `string.Equals(a, b, cmp)`: two nulls are equal, a null and a
      non-null string are not. */
  predicate Equals(a: NStr, b: NStr, cmp: Comparison) {
    match (a, b)
    case (Null, Null) => true
    case (Str(x), Str(y)) => SameText(x, y, cmp)
    case _ => false
  }

  /** `value.StartsWith(prefix, cmp)` on non-null strings. */
  predicate StartsWith(value: string, prefix: string, cmp: Comparison) {
    |prefix| <= |value| && SameText(value[..|prefix|], prefix, cmp)
  }

  /** `value.EndsWith(suffix, cmp)` on non-null strings. */
  predicate EndsWith(value: string, suffix: string, cmp: Comparison) {
    |suffix| <= |value| && SameText(value[|value| - |suffix|..], suffix, cmp)
  }

  /** `pattern` occurs in `s` starting at index `i`. */
  predicate OccursAt(s: string, pattern: string, i: int) {
    0 <= i && i + |pattern| <= |s| && s[i..i + |pattern|] == pattern
  }

  /** `s.Contains(pattern)`: an ordinal substring search. */
  function Contains(s: string, pattern: string): (r: bool)
    ensures r <==> exists i :: OccursAt(s, pattern, i)
    decreases |s|
  {
    if |pattern| > |s| then
      assert forall i :: !OccursAt(s, pattern, i);
      false
    else if s[..|pattern|] == pattern then
      assert OccursAt(s, pattern, 0);
      true
    else
      var rest := Contains(s[1..], pattern);
      assert forall i :: OccursAt(s[1..], pattern, i) <==> OccursAt(s, pattern, i + 1) by {
        forall i ensures OccursAt(s[1..], pattern, i) <==> OccursAt(s, pattern, i + 1) {
          if 0 <= i && i + |pattern| <= |s| - 1 {
            assert s[1..][i..i + |pattern|] == s[i + 1..i + 1 + |pattern|];
          }
        }
      }
      assert !OccursAt(s, pattern, 0);
      assert (exists i :: OccursAt(s, pattern, i)) ==> exists i :: OccursAt(s[1..], pattern, i) by {
        if exists i :: OccursAt(s, pattern, i) {
          var i :| OccursAt(s, pattern, i);
          assert i != 0;
          assert OccursAt(s[1..], pattern, i - 1);
        }
      }
      rest
  }

  /** `s.Replace(pattern, string.Empty)`: every non-overlapping occurrence of
      `pattern`, found left to right, is removed — not only a leading one.
      `String.Replace` rejects an empty pattern, hence the precondition. */
  function RemoveAll(s: string, pattern: string): (r: string)
    requires pattern != []
    ensures |r| <= |s|
    ensures !Contains(s, pattern) ==> r == s
    decreases |s|
  {
    if |s| < |pattern| then
      s
    else if s[..|pattern|] == pattern then
      RemoveAll(s[|pattern|..], pattern)
    else
      assert !Contains(s, pattern) ==> !Contains(s[1..], pattern) by {
        if Contains(s[1..], pattern) {
          var i :| OccursAt(s[1..], pattern, i);
          assert s[1..][i..i + |pattern|] == s[i + 1..i + 1 + |pattern|];
          assert OccursAt(s, pattern, i + 1);
        }
      }
      [s[0]] + RemoveAll(s[1..], pattern)
  }

  /** No occurrence of `pattern` starts in `s` before index `n`. */
  predicate NoneStartsBefore(s: string, pattern: string, n: int) {
    forall i :: 0 <= i < n ==> !OccursAt(s, pattern, i)
  }

  /** Dropping the first character of `s` shifts that stretch by one. */
  lemma NoneStartsBeforeTail(s: string, pattern: string, n: int)
    requires s != [] && NoneStartsBefore(s, pattern, n)
    ensures NoneStartsBefore(s[1..], pattern, n - 1)
  {
    forall i | 0 <= i < n - 1
      ensures !OccursAt(s[1..], pattern, i)
    {
      assert !OccursAt(s, pattern, i + 1);
      if i + |pattern| <= |s| - 1 {
        assert s[1..][i..i + |pattern|] == s[i + 1..i + 1 + |pattern|];
      }
    }
  }

  /** `Replace` keeps a first character at which no occurrence starts. */
  lemma RemoveAllSkip(s: string, pattern: string)
    requires pattern != [] && |s| >= |pattern| && s[..|pattern|] != pattern
    ensures RemoveAll(s, pattern) == [s[0]] + RemoveAll(s[1..], pattern)
  {
  }

  /** `Replace` leaves a stretch in which no occurrence of the pattern starts
      untouched, and works on the rest alone: removal is local to the
      occurrences it finds. */
  lemma {:induction false} RemoveAllConcat(a: string, b: string, pattern: string)
    requires pattern != []
    requires NoneStartsBefore(a + b, pattern, |a|)
    ensures RemoveAll(a + b, pattern) == a + RemoveAll(b, pattern)
    decreases |a|
  {
    var s := a + b;
    if a == [] {
      assert s == b;
    } else {
      assert !OccursAt(s, pattern, 0);
      if |s| < |pattern| {
        assert RemoveAll(b, pattern) == b;
      } else {
        assert s[..|pattern|] != pattern;
        RemoveAllSkip(s, pattern);
        var t := a[1..];
        assert s[1..] == t + b;
        NoneStartsBeforeTail(s, pattern, |a|);
        RemoveAllConcat(t, b, pattern);
        assert a == [s[0]] + t;
      }
    }
  }

  /** Removing the root prefix from a path that starts with it and holds no
      other occurrence gives the path relative to the root. */
  lemma {:induction false} RemoveAllLeading(prefix: string, rest: string)
    requires prefix != []
    requires !Contains(rest, prefix)
    ensures RemoveAll(prefix + rest, prefix) == rest
  {
    assert (prefix + rest)[..|prefix|] == prefix;
    assert (prefix + rest)[|prefix|..] == rest;
  }

  /** `Replace` is not "strip the leading root": a second occurrence deeper in
      the path is removed as well. */
  lemma RemoveAllIsNotLeadingStrip()
    ensures RemoveAll("a\\b\\a\\c", "a\\") == "b\\c"
    ensures "a\\b\\a\\c"[|"a\\"|..] == "b\\a\\c"
  {
    var p := "a\\";
    var s := "a\\b\\a\\c";
    assert s[..2] == p;
    var t := s[2..];
    assert RemoveAll(s, p) == RemoveAll(t, p);
    assert t[..2][0] == 'b' && p[0] == 'a';
    assert RemoveAll(t, p) == [t[0]] + RemoveAll(t[1..], p);
    var v := t[1..];
    assert v[..2][0] == '\\' && p[0] == 'a';
    assert RemoveAll(v, p) == [v[0]] + RemoveAll(v[1..], p);
    var u := v[1..];
    assert u[..2] == p;
    assert RemoveAll(u, p) == RemoveAll(u[2..], p);
    assert u[2..] == "c";
    assert RemoveAll("c", p) == "c";
  }
}
