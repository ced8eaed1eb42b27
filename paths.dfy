/** The two `System.IO.Path` rules the core depends on: how `Path.Combine` joins
    two path strings and how a file's extension is read off its full path.
    Windows separators are used, as the source targets Windows. */
module Paths {
  import opened Outcomes

  predicate IsSeparator(c: char) {
    c == '\\' || c == '/'
  }

  /** `Path.IsPathRooted`: a leading separator or a drive letter. */
  predicate IsRooted(p: string) {
    (|p| >= 1 && IsSeparator(p[0])) || (|p| >= 2 && p[1] == ':')
  }

  /** `Path.Combine(a, b)`: null arguments throw; an empty part yields the
      other; a rooted second part replaces the first; otherwise a backslash is
      inserted unless `a` already ends with a separator or a volume colon. */
  function Combine(a: NStr, b: NStr): (r: Result<string>)
    ensures r.Err? <==> a.Null? || b.Null?
    ensures r.Err? ==> r.error == ArgumentNull
  {
    if a.Null? || b.Null? then Err(ArgumentNull)
    else if b.s == [] then Ok(a.s)
    else if a.s == [] then Ok(b.s)
    else if IsRooted(b.s) then Ok(b.s)
    else
      var last := a.s[|a.s| - 1];
      if IsSeparator(last) || last == ':' then Ok(a.s + b.s) else Ok(a.s + "\\" + b.s)
  }

  /** A relative, non-empty second part ends the combined path. */
  lemma CombineEndsWithPart(a: NStr, b: NStr)
    requires Combine(a, b).Ok? && b.s != [] && !IsRooted(b.s)
    ensures EndsWithPart(Combine(a, b).value, b.s)
  {
  }

  /** Between two non-empty parts, the second relative and the first ending
      in neither a separator nor a volume colon, a backslash is inserted. */
  lemma CombineInsertsSeparator(a: NStr, b: NStr)
    requires a.Str? && b.Str? && a.s != [] && b.s != [] && !IsRooted(b.s)
    requires !IsSeparator(a.s[|a.s| - 1]) && a.s[|a.s| - 1] != ':'
    ensures Combine(a, b) == Ok(a.s + "\\" + b.s)
  {
  }

  /** `b` is the last part of `p`. */
  predicate EndsWithPart(p: string, b: string) {
    |b| <= |p| && p[|p| - |b|..] == b
  }

  /** `Path.Combine` on two non-null strings, for callers that know both are set. */
  function Join(a: string, b: string): (r: string)
    ensures Combine(Str(a), Str(b)) == Ok(r)
  {
    Combine(Str(a), Str(b)).value
  }

  /** Two different relative, non-empty names joined to the same directory
      give different paths. */
  lemma JoinInjective(dir: string, a: string, b: string)
    requires a != [] && b != [] && !IsRooted(a) && !IsRooted(b) && a != b
    ensures Join(dir, a) != Join(dir, b)
  {
    var prefix := if dir == [] then []
                  else if IsSeparator(dir[|dir| - 1]) || dir[|dir| - 1] == ':' then dir
                  else dir + "\\";
    assert Join(dir, a) == prefix + a && Join(dir, b) == prefix + b;
    assert (prefix + a)[|prefix|..] == a && (prefix + b)[|prefix|..] == b;
  }

  /** Index just past the last separator or volume colon before `i`, or 0. */
  function FileNameStart(p: string, i: nat): (k: nat)
    requires i <= |p|
    ensures k <= i
    ensures forall j :: k <= j < i ==> !IsSeparator(p[j]) && p[j] != ':'
  {
    if i == 0 then 0
    else if IsSeparator(p[i - 1]) || p[i - 1] == ':' then i
    else FileNameStart(p, i - 1)
  }

  /** Past index 0, the file name starts just after a separator or a volume colon. */
  lemma {:induction false} FileNameStartAfterSeparator(p: string, i: nat)
    requires i <= |p|
    ensures var k := FileNameStart(p, i); k > 0 ==> IsSeparator(p[k - 1]) || p[k - 1] == ':'
  {
    if i > 0 && !IsSeparator(p[i - 1]) && p[i - 1] != ':' {
      FileNameStartAfterSeparator(p, i - 1);
    }
  }

  /** The directory a file at `p` is created in, when it is not a root: the
      text before the last separator. `None` when `p` has no separator, its
      last one follows a volume colon or starts the path, or a drive letter
      and colon are all that precede it. */
  function DirectoryPart(p: string): (d: Option<string>)
    ensures d.Some? ==> |d.value| < |p| && p[..|d.value|] == d.value && IsSeparator(p[|d.value|])
    ensures d.Some? ==> forall j :: |d.value| < j < |p| ==> !IsSeparator(p[j]) && p[j] != ':'
  {
    FileNameStartAfterSeparator(p, |p|);
    var k := FileNameStart(p, |p|);
    if k == 0 || p[k - 1] == ':' then None
    else
      var dir := p[..k - 1];
      if dir == [] || (|dir| == 2 && dir[1] == ':') then None else Some(dir)
  }

  /** The directory part of a name joined under a directory is that directory. */
  lemma DirectoryPartOfJoin(dir: string, name: string)
    requires dir != [] && !IsSeparator(dir[|dir| - 1]) && dir[|dir| - 1] != ':'
    requires name != [] && forall j :: 0 <= j < |name| ==> !IsSeparator(name[j]) && name[j] != ':'
    ensures DirectoryPart(Join(dir, name)) == Some(dir)
  {
    var p := dir + "\\" + name;
    CombineInsertsSeparator(Str(dir), Str(name));
    assert Join(dir, name) == p;
    FileNameStartAfter(p, |dir| + 1, |p|);
    assert p[..|dir|] == dir;
  }

  /** No separator or colon after position `k`: the file name starts at `k`. */
  lemma {:induction false} FileNameStartAfter(p: string, k: nat, i: nat)
    requires 0 < k <= i <= |p| && (IsSeparator(p[k - 1]) || p[k - 1] == ':')
    requires forall j :: k <= j < i ==> !IsSeparator(p[j]) && p[j] != ':'
    ensures FileNameStart(p, i) == k
    decreases i
  {
    if i > k {
      FileNameStartAfter(p, k, i - 1);
    }
  }

  /** Index of the last '.' in `p[from..i]`, if any. */
  function LastDot(p: string, from: nat, i: nat): (d: int)
    requires from <= i <= |p|
    ensures d == -1 || (from <= d < i && p[d] == '.')
    ensures d == -1 ==> forall j :: from <= j < i ==> p[j] != '.'
    ensures d != -1 ==> forall j :: d < j < i ==> p[j] != '.'
  {
    if i == from then -1
    else if p[i - 1] == '.' then i - 1
    else LastDot(p, from, i - 1)
  }

  /** `FileInfo.Extension`: the text from the last '.' of the file name (the
      part after the last separator) to the end, or "" when the name has no '.'
      or ends with one. */
  function Extension(p: string): (e: string)
    ensures e == [] || (e[0] == '.' && |e| >= 2 && EndsWithPart(p, e))
    ensures forall j :: 0 < j < |e| ==> e[j] != '.' && !IsSeparator(e[j]) && e[j] != ':'
  {
    var start := FileNameStart(p, |p|);
    var d := LastDot(p, start, |p|);
    if d == -1 || d == |p| - 1 then [] else p[d..]
  }

  lemma ExtensionExamples()
    ensures Extension("C:\\w\\a.txt") == ".txt"
    ensures Extension("C:\\w\\sub.d\\c") == ""
  {
    var p := "C:\\w\\a.txt";
    assert FileNameStart(p, 10) == FileNameStart(p, 9) == FileNameStart(p, 8) == FileNameStart(p, 7);
    assert FileNameStart(p, 7) == FileNameStart(p, 6) == FileNameStart(p, 5) == 5;
    assert LastDot(p, 5, 10) == LastDot(p, 5, 9) == LastDot(p, 5, 8) == LastDot(p, 5, 7) == 6;
    var q := "C:\\w\\sub.d\\c";
    assert FileNameStart(q, 12) == FileNameStart(q, 11) == 11;
    assert LastDot(q, 11, 12) == LastDot(q, 11, 11) == -1;
  }
}
