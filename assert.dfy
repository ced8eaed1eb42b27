/** The validation helpers of `Assert`: each one either returns with no effect
    (`Pass`) or throws an `ArgumentException` (`Fail(ArgumentError)`). The file
    and directory checks read the file system through the sets of existing
    directories, existing files and locked files that the caller passes in. */
module Assert {
  import opened Outcomes
  import opened Text

  function IsTrue(value: bool): (r: Outcome)
    ensures r.Pass? <==> value
    ensures r.Fail? ==> r.error == ArgumentError
  {
    if value == false then Fail(ArgumentError) else Pass
  }

  function IsFalse(value: bool): (r: Outcome)
    ensures r.Pass? <==> !value
    ensures r.Fail? ==> r.error == ArgumentError
  {
    if value == true then Fail(ArgumentError) else Pass
  }

  function IsNull<T>(value: Option<T>): (r: Outcome)
    ensures r.Pass? <==> value.None?
    ensures r.Fail? ==> r.error == ArgumentError
  {
    if value.Some? then Fail(ArgumentError) else Pass
  }

  function IsNotNull<T>(value: Option<T>): (r: Outcome)
    ensures r.Pass? <==> value.Some?
    ensures r.Fail? ==> r.error == ArgumentError
  {
    if value.None? then Fail(ArgumentError) else Pass
  }

  function IsNullOrEmptyString(value: NStr): (r: Outcome)
    ensures r.Pass? <==> value == Null || value == Str("")
    ensures r.Fail? ==> r.error == ArgumentError
  {
    if IsNullOrEmpty(value) == false then Fail(ArgumentError) else Pass
  }

  function IsNotNullOrEmptyString(value: NStr): (r: Outcome)
    ensures r.Pass? <==> value.Str? && |value.s| > 0
    ensures r.Fail? ==> r.error == ArgumentError
  {
    if IsNullOrEmpty(value) == true then Fail(ArgumentError) else Pass
  }

  /** The two null-or-empty checks fail on complementary inputs. */
  lemma NullOrEmptyChecksAreComplementary(value: NStr)
    ensures IsNullOrEmptyString(value).Pass? <==> IsNotNullOrEmptyString(value).Fail?
  {
  }

  /** Number of whitelist entries equal to `value` under `cmp` (the LINQ
      `where ... select ...` followed by `Count()`). */
  function CountMatches(whitelist: seq<NStr>, value: NStr, cmp: Comparison): nat {
    if whitelist == [] then 0
    else (if Equals(whitelist[0], value, cmp) then 1 else 0) + CountMatches(whitelist[1..], value, cmp)
  }

  /** Indices of the whitelist entries equal to `value` under `cmp`. */
  function MatchIndices(whitelist: seq<NStr>, value: NStr, cmp: Comparison): set<nat> {
    set i: nat | i < |whitelist| && Equals(whitelist[i], value, cmp)
  }

  lemma {:induction false} CountIsNumberOfMatches(whitelist: seq<NStr>, value: NStr, cmp: Comparison)
    ensures CountMatches(whitelist, value, cmp) == |MatchIndices(whitelist, value, cmp)|
  {
    if whitelist != [] {
      var tail := whitelist[1..];
      var m := MatchIndices(whitelist, value, cmp);
      var t := MatchIndices(tail, value, cmp);
      CountIsNumberOfMatches(tail, value, cmp);
      var shifted := Shift(t);
      ShiftPreservesSize(t);
      var head: set<nat> := if Equals(whitelist[0], value, cmp) then {0} else {};
      forall y: nat ensures y in m <==> y in head + shifted {
        if y > 0 {
          assert y in shifted <==> y - 1 in t;
        }
      }
      assert m == head + shifted;
      assert 0 !in shifted;
    }
  }

  /** Every element of `s` plus one. */
  function Shift(s: set<nat>): (r: set<nat>)
    ensures forall y: nat :: y in r <==> y > 0 && y - 1 in s
  {
    set i | i in s :: i + 1
  }

  lemma {:induction false} ShiftPreservesSize(s: set<nat>)
    ensures |Shift(s)| == |s|
    decreases |s|
  {
    if s != {} {
      var x :| x in s;
      ShiftPreservesSize(s - {x});
      assert Shift(s) == Shift(s - {x}) + {x + 1};
      assert x + 1 !in Shift(s - {x});
    }
  }

  /** `IsWhitelistedValue`: a null whitelist is rejected; otherwise the value
      passes only when exactly one entry equals it under `cmp` (by default
      case-insensitively). */
  function IsWhitelistedValue(value: NStr, whitelist: Option<seq<NStr>>, cmp: Comparison := OrdinalIgnoreCase): (r: Outcome)
    ensures r.Pass? <==> whitelist.Some? && |MatchIndices(whitelist.value, value, cmp)| == 1
    ensures r.Fail? ==> r.error == ArgumentError
  {
    if whitelist.None? then Fail(ArgumentError)
    else
      CountIsNumberOfMatches(whitelist.value, value, cmp);
      var found := CountMatches(whitelist.value, value, cmp) == 1;
      if found == false then Fail(ArgumentError) else Pass
  }

  /** A whitelist that lists an accepted value twice rejects it. */
  lemma DuplicateWhitelistEntryRejects(value: NStr, whitelist: seq<NStr>, i: nat, j: nat, cmp: Comparison)
    requires i < j < |whitelist|
    requires Equals(whitelist[i], value, cmp) && Equals(whitelist[j], value, cmp)
    ensures IsWhitelistedValue(value, Some(whitelist), cmp).Fail?
  {
    var m := MatchIndices(whitelist, value, cmp);
    assert {i, j} <= m;
    assert |{i, j}| == 2;
    SubsetSize({i, j}, m);
  }

  lemma SubsetSize(a: set<nat>, b: set<nat>)
    requires a <= b
    ensures |a| <= |b|
  {
    assert b == a + (b - a);
  }

  /** A value listed exactly once passes. */
  lemma SingleWhitelistEntryAccepts(value: NStr, whitelist: seq<NStr>, i: nat, cmp: Comparison)
    requires i < |whitelist| && Equals(whitelist[i], value, cmp)
    requires forall j :: 0 <= j < |whitelist| && j != i ==> !Equals(whitelist[j], value, cmp)
    ensures IsWhitelistedValue(value, Some(whitelist), cmp).Pass?
  {
    assert MatchIndices(whitelist, value, cmp) == {i};
  }

  /** `FileIsNotLocked`: a file must be given and the lock probe must report it
      unlocked (the probe also reports a missing file as locked). */
  function FileIsNotLocked(file: Option<string>, locked: set<string>): (r: Outcome)
    ensures r.Pass? <==> file.Some? && file.value !in locked
    ensures r.Fail? ==> r.error == ArgumentError
  {
    if file.None? then IsNotNull(file) else IsFalse(file.value in locked)
  }

  function FileExists(file: Option<string>, files: set<string>): (r: Outcome)
    ensures r.Pass? <==> file.Some? && file.value in files
    ensures r.Fail? ==> r.error == ArgumentError
  {
    if file.None? then IsNotNull(file) else IsTrue(file.value in files)
  }

  function FileDoesNotExist(file: Option<string>, files: set<string>): (r: Outcome)
    ensures r.Pass? <==> file.Some? && file.value !in files
    ensures r.Fail? ==> r.error == ArgumentError
  {
    if file.None? then IsNotNull(file) else IsFalse(file.value in files)
  }

  /** `DirectoryExists(string path)`: a non-empty path naming an existing directory. */
  function DirectoryPathExists(path: NStr, dirs: set<string>): (r: Outcome)
    ensures r.Pass? <==> path.Str? && path.s != [] && path.s in dirs
    ensures r.Fail? ==> r.error == ArgumentError
  {
    var given := IsNotNullOrEmptyString(path);
    if given.Fail? then given else IsTrue(path.s in dirs)
  }

  /** `DirectoryDoesNotExist(string path)`: a non-empty path naming no directory. */
  function DirectoryPathDoesNotExist(path: NStr, dirs: set<string>): (r: Outcome)
    ensures r.Pass? <==> path.Str? && path.s != [] && path.s !in dirs
    ensures r.Fail? ==> r.error == ArgumentError
  {
    var given := IsNotNullOrEmptyString(path);
    if given.Fail? then given else IsFalse(path.s in dirs)
  }

  /** `DirectoryExists(DirectoryInfo)`: a directory object must be given; its
      full name is then checked by the path overload. */
  function DirectoryExists(directory: Option<string>, dirs: set<string>): (r: Outcome)
    ensures r.Pass? <==> directory.Some? && directory.value != [] && directory.value in dirs
    ensures r.Fail? ==> r.error == ArgumentError
  {
    if directory.None? then IsNotNull(directory) else DirectoryPathExists(Str(directory.value), dirs)
  }

  function DirectoryDoesNotExist(directory: Option<string>, dirs: set<string>): (r: Outcome)
    ensures r.Pass? <==> directory.Some? && directory.value != [] && directory.value !in dirs
    ensures r.Fail? ==> r.error == ArgumentError
  {
    if directory.None? then IsNotNull(directory) else DirectoryPathDoesNotExist(Str(directory.value), dirs)
  }

  /** `StartsWith`: a null value or a null or empty prefix is rejected before
      the comparison, which is case-insensitive by default. */
  function StartsWith(value: NStr, prefix: NStr, cmp: Comparison := OrdinalIgnoreCase): (r: Outcome)
    ensures r.Pass? <==> value.Str? && prefix.Str? && prefix.s != [] && Text.StartsWith(value.s, prefix.s, cmp)
    ensures r.Fail? ==> r.error == ArgumentError
  {
    if value.Null? then Fail(ArgumentError)
    else if IsNullOrEmpty(prefix) then Fail(ArgumentError)
    else if Text.StartsWith(value.s, prefix.s, cmp) == false then Fail(ArgumentError)
    else Pass
  }

  /** `EndsWith`, the suffix counterpart of `StartsWith`. */
  function EndsWith(value: NStr, suffix: NStr, cmp: Comparison := OrdinalIgnoreCase): (r: Outcome)
    ensures r.Pass? <==> value.Str? && suffix.Str? && suffix.s != [] && Text.EndsWith(value.s, suffix.s, cmp)
    ensures r.Fail? ==> r.error == ArgumentError
  {
    if value.Null? then Fail(ArgumentError)
    else if IsNullOrEmpty(suffix) then Fail(ArgumentError)
    else if Text.EndsWith(value.s, suffix.s, cmp) == false then Fail(ArgumentError)
    else Pass
  }

  /** The default comparison of `EndsWith` ignores case: ".ZIP" ends in ".zip". */
  lemma EndsWithIgnoresCaseByDefault()
    ensures EndsWith(Str("A.ZIP"), Str(".zip")).Pass?
    ensures EndsWith(Str("A.ZIP"), Str(".zip"), Ordinal).Fail?
  {
    var v := "A.ZIP";
    assert v[|v| - 4..] == ".ZIP";
    assert !CharEquals('Z', 'z', Ordinal);
    assert !Text.EndsWith(v, ".zip", Ordinal) by {
      assert v[|v| - 4..][1] == 'Z';
    }
  }

  /** `StringDoesNotEqual`: fails exactly when the two strings are equal under
      `cmp` (case-insensitive by default); two nulls count as equal. */
  function StringDoesNotEqual(value: NStr, invalid: NStr, cmp: Comparison := OrdinalIgnoreCase): (r: Outcome)
    ensures r.Fail? <==> (value.Null? && invalid.Null?)
                         || (value.Str? && invalid.Str? && SameText(value.s, invalid.s, cmp))
    ensures r.Fail? ==> r.error == ArgumentError
  {
    if Text.Equals(value, invalid, cmp) then Fail(ArgumentError) else Pass
  }
}
