/** `Extensions.AddDirectory`, which walks a directory and appends one archive
    entry per accepted file, and `Extensions.ToArray`, which copies a string
    collection into a new array. The directory listing (`GetFiles`) is given
    as a sequence; compression is not modelled, only the entries. */
module Extensions {
  import opened Outcomes
  import opened Text
  import Paths

  /** One zip entry: its name inside the archive and the file it was read from. */
  datatype Entry = Entry(name: string, source: string)

  /** One file of a `GetFiles("*", AllDirectories)` listing; `topLevel` tells
      whether it lies directly in the listed directory. */
  datatype FileInfo = FileInfo(fullName: string, topLevel: bool)

  /** A `ZipArchive` opened for creation: the entries written so far. */
  class ZipArchive {
    var entries: seq<Entry>

    constructor ()
      ensures entries == []
    {
      entries := [];
    }

    /** `CreateEntryFromFile(source, name)`. */
    method CreateEntryFromFile(source: string, name: string)
      modifies this
      ensures entries == old(entries) + [Entry(name, source)]
    {
      entries := entries + [Entry(name, source)];
    }
  }

  /** Some exclude pattern is a substring of `fullName` (the LINQ count > 0). */
  function AnyPatternIn(fullName: string, patterns: seq<string>): (r: bool)
    ensures r <==> exists i :: 0 <= i < |patterns| && Contains(fullName, patterns[i])
  {
    if patterns == [] then false
    else Contains(fullName, patterns[0]) || AnyPatternIn(fullName, patterns[1..])
  }

  /** The filter of `AddDirectory`: the extension is an element of the whitelist
      (exact, case-sensitive) and no exclude pattern occurs in the full path. */
  predicate Accepts(file: FileInfo, whitelist: seq<string>, exclude: seq<string>) {
    Paths.Extension(file.fullName) in whitelist && !AnyPatternIn(file.fullName, exclude)
  }

  /** The entry name: the full path with every occurrence of the root
      directory's full name followed by a backslash removed. */
  function EntryName(fullName: string, root: string): string {
    RemoveAll(fullName, root + "\\")
  }

  function EntryFor(file: FileInfo, root: string): Entry {
    Entry(EntryName(file.fullName, root), file.fullName)
  }

  /** The listing `GetFiles` returns for the search option: every file when
      recursive, the top-level files only otherwise. */
  function Considered(files: seq<FileInfo>, recursive: bool): (r: seq<FileInfo>)
    ensures forall f :: f in r <==> f in files && (recursive || f.topLevel)
  {
    if recursive || files == [] then files
    else (if files[0].topLevel then [files[0]] else []) + Considered(files[1..], recursive)
  }

  /** The entries `AddDirectory` appends for a listing, in listing order. */
  function AddedEntries(files: seq<FileInfo>, root: string, whitelist: seq<string>, exclude: seq<string>): seq<Entry>
  {
    if files == [] then []
    else
      (if Accepts(files[0], whitelist, exclude) then [EntryFor(files[0], root)] else [])
      + AddedEntries(files[1..], root, whitelist, exclude)
  }

  lemma {:induction false} AddedEntriesConcat(a: seq<FileInfo>, b: seq<FileInfo>, root: string,
                                              whitelist: seq<string>, exclude: seq<string>)
    ensures AddedEntries(a + b, root, whitelist, exclude)
            == AddedEntries(a, root, whitelist, exclude) + AddedEntries(b, root, whitelist, exclude)
  {
    if a != [] {
      assert (a + b)[1..] == a[1..] + b;
      AddedEntriesConcat(a[1..], b, root, whitelist, exclude);
    } else {
      assert a + b == b;
    }
  }

  lemma AddedEntriesSingle(file: FileInfo, root: string, whitelist: seq<string>, exclude: seq<string>)
    ensures AddedEntries([file], root, whitelist, exclude)
            == if Accepts(file, whitelist, exclude) then [EntryFor(file, root)] else []
  {
    assert [file][1..] == [];
  }

  /** One more file of the listing adds its own entry, when it is accepted. */
  lemma AddedEntriesSnoc(files: seq<FileInfo>, i: nat, root: string, whitelist: seq<string>, exclude: seq<string>)
    requires i < |files|
    ensures AddedEntries(files[..i + 1], root, whitelist, exclude)
            == AddedEntries(files[..i], root, whitelist, exclude)
               + if Accepts(files[i], whitelist, exclude) then [EntryFor(files[i], root)] else []
  {
    AddedEntriesConcat(files[..i], [files[i]], root, whitelist, exclude);
    assert files[..i + 1] == files[..i] + [files[i]];
    AddedEntriesSingle(files[i], root, whitelist, exclude);
  }

  /** An entry is added exactly for each accepted file of the listing. */
  lemma {:induction false} AddedEntriesMembership(files: seq<FileInfo>, root: string, whitelist: seq<string>,
                                                  exclude: seq<string>, e: Entry)
    ensures e in AddedEntries(files, root, whitelist, exclude)
            <==> exists f :: f in files && Accepts(f, whitelist, exclude) && e == EntryFor(f, root)
  {
    if files != [] {
      AddedEntriesMembership(files[1..], root, whitelist, exclude, e);
      assert forall f :: f in files <==> f == files[0] || f in files[1..];
    }
  }

  /** Number of accepted files in a listing. */
  function AcceptedCount(files: seq<FileInfo>, whitelist: seq<string>, exclude: seq<string>): nat {
    if files == [] then 0
    else (if Accepts(files[0], whitelist, exclude) then 1 else 0) + AcceptedCount(files[1..], whitelist, exclude)
  }

  /** One entry per accepted file: no more, no fewer. */
  lemma {:induction false} AddedEntriesCount(files: seq<FileInfo>, root: string, whitelist: seq<string>, exclude: seq<string>)
    ensures |AddedEntries(files, root, whitelist, exclude)| == AcceptedCount(files, whitelist, exclude)
  {
    if files != [] {
      AddedEntriesCount(files[1..], root, whitelist, exclude);
    }
  }

  /** An empty exclude list excludes nothing. */
  lemma EmptyExcludeListExcludesNothing(file: FileInfo, whitelist: seq<string>)
    ensures Accepts(file, whitelist, []) <==> Paths.Extension(file.fullName) in whitelist
  {
  }

  /** A file whose extension is not whitelisted is never added. */
  lemma NonWhitelistedNeverAdded(file: FileInfo, root: string, whitelist: seq<string>, exclude: seq<string>)
    requires Paths.Extension(file.fullName) !in whitelist
    ensures AddedEntries([file], root, whitelist, exclude) == []
  {
  }

  /** An empty string among the exclude patterns occurs in every path, so it
      excludes every file. */
  lemma EmptyPatternExcludesAll(file: FileInfo, whitelist: seq<string>, exclude: seq<string>)
    requires "" in exclude
    ensures !Accepts(file, whitelist, exclude)
  {
    assert OccursAt(file.fullName, "", 0);
    var i :| 0 <= i < |exclude| && exclude[i] == "";
    assert Contains(file.fullName, exclude[i]);
  }

  /** With `recursive = false` only top-level files give entries. */
  lemma NonRecursiveAddsTopLevelOnly(files: seq<FileInfo>, root: string, whitelist: seq<string>,
                                     exclude: seq<string>, e: Entry)
    requires e in AddedEntries(Considered(files, false), root, whitelist, exclude)
    ensures exists f :: f in files && f.topLevel && Accepts(f, whitelist, exclude) && e == EntryFor(f, root)
  {
    AddedEntriesMembership(Considered(files, false), root, whitelist, exclude, e);
  }

  lemma FirstCharAbsentNotContained(s: string, p: string)
    requires p != [] && p[0] !in s
    ensures !Contains(s, p)
  {
  }

  lemma ExampleTextFileExtension()
    ensures Paths.Extension("C:\\c\\a.txt") == ".txt"
  {
    var a := "C:\\c\\a.txt";
    assert Paths.FileNameStart(a, 10) == Paths.FileNameStart(a, 9) == Paths.FileNameStart(a, 8)
           == Paths.FileNameStart(a, 7) == Paths.FileNameStart(a, 6) == Paths.FileNameStart(a, 5) == 5;
    assert Paths.LastDot(a, 5, 10) == Paths.LastDot(a, 5, 9) == Paths.LastDot(a, 5, 8)
           == Paths.LastDot(a, 5, 7) == 6;
  }

  lemma ExampleTextFileEntryName()
    ensures EntryName("C:\\c\\a.txt", "C:\\c") == "a.txt"
  {
    assert "C:\\c\\a.txt" == "C:\\c" + "\\" + "a.txt";
    FirstCharAbsentNotContained("a.txt", "C:\\c\\");
    RemoveAllLeading("C:\\c\\", "a.txt");
  }

  lemma ExampleTextFileAccepted()
    ensures Accepts(FileInfo("C:\\c\\a.txt", true), [".txt"], ["sub"])
  {
    ExampleTextFileExtension();
    FirstCharAbsentNotContained("C:\\c\\a.txt", "sub");
  }

  lemma ExampleLibraryRejected()
    ensures !Accepts(FileInfo("C:\\c\\b.dll", true), [".txt"], ["sub"])
  {
    var b := "C:\\c\\b.dll";
    assert Paths.Extension(b) != ".txt" by {
      assert b[|b| - 4..] == ".dll";
    }
  }

  lemma ExampleExcludedRejected()
    ensures !Accepts(FileInfo("C:\\c\\sub\\c.txt", false), [".txt"], ["sub"])
  {
    assert OccursAt("C:\\c\\sub\\c.txt", "sub", 5);
  }

  /** The two rejected files of the worked example add no entry. */
  lemma ExampleRejectedFilesAddNothing()
    ensures AddedEntries([FileInfo("C:\\c\\b.dll", true), FileInfo("C:\\c\\sub\\c.txt", false)],
                         "C:\\c", [".txt"], ["sub"]) == []
  {
    var f1, f2 := FileInfo("C:\\c\\b.dll", true), FileInfo("C:\\c\\sub\\c.txt", false);
    ExampleLibraryRejected();
    ExampleExcludedRejected();
    AddedEntriesSingle(f1, "C:\\c", [".txt"], ["sub"]);
    AddedEntriesSingle(f2, "C:\\c", [".txt"], ["sub"]);
    AddedEntriesConcat([f1], [f2], "C:\\c", [".txt"], ["sub"]);
    assert [f1, f2] == [f1] + [f2];
  }

  /** The worked example: of `a.txt`, `b.dll` and `sub\c.txt`, with ".txt"
      whitelisted and "sub" excluded, only `a.txt` is archived. */
  lemma PackagingExample()
    ensures AddedEntries([FileInfo("C:\\c\\a.txt", true), FileInfo("C:\\c\\b.dll", true),
                          FileInfo("C:\\c\\sub\\c.txt", false)], "C:\\c", [".txt"], ["sub"])
            == [Entry("a.txt", "C:\\c\\a.txt")]
  {
    var f0 := FileInfo("C:\\c\\a.txt", true);
    var rest := [FileInfo("C:\\c\\b.dll", true), FileInfo("C:\\c\\sub\\c.txt", false)];
    ExampleTextFileAccepted();
    ExampleTextFileEntryName();
    AddedEntriesSingle(f0, "C:\\c", [".txt"], ["sub"]);
    ExampleRejectedFilesAddNothing();
    AddedEntriesConcat([f0], rest, "C:\\c", [".txt"], ["sub"]);
    assert [f0] + rest == [f0, rest[0], rest[1]];
  }

  /** `AddDirectory(archive, directory, whitelist, exclude, recursive)`:
      `root` is `directory.FullName` and `files` what `GetFiles("*",
      AllDirectories)` returns. A null archive is rejected before any entry is
      added; otherwise each accepted file gets exactly one entry, appended in
      listing order, and the rest is skipped. */
  method AddDirectory(archive: ZipArchive?, root: string, files: seq<FileInfo>, whitelist: seq<string>,
                      exclude: seq<string>, recursive: bool := true) returns (r: Outcome)
    modifies archive
    ensures archive == null ==> r == Fail(ArgumentError)
    ensures archive != null ==> r == Pass
    ensures archive != null ==>
              archive.entries == old(archive.entries) + AddedEntries(Considered(files, recursive), root, whitelist, exclude)
  {
    if archive == null {
      return Fail(ArgumentError);
    }
    var listing := Considered(files, recursive);
    var i := 0;
    while i < |listing|
      invariant 0 <= i <= |listing|
      invariant archive.entries == old(archive.entries) + AddedEntries(listing[..i], root, whitelist, exclude)
    {
      var file := listing[i];
      ghost var before := archive.entries;
      AddedEntriesSnoc(listing, i, root, whitelist, exclude);
      if Paths.Extension(file.fullName) in whitelist {
        var skip := AnyPatternIn(file.fullName, exclude);
        if !skip {
          var archiveName := RemoveAll(file.fullName, root + "\\");
          archive.CreateEntryFromFile(file.fullName, archiveName);
        }
      }
      i := i + 1;
    }
    assert listing[..|listing|] == listing;
    r := Pass;
  }

  /** `ToArray(StringCollection)`: a null collection is rejected; otherwise a
      new array of the same length holds the same strings at the same indices. */
  method ToArray(collection: Option<seq<NStr>>) returns (r: Result<array<NStr>>)
    ensures collection.None? <==> r.Err?
    ensures r.Err? ==> r.error == ArgumentError
    ensures r.Ok? ==> fresh(r.value) && r.value.Length == |collection.value|
                      && forall i :: 0 <= i < r.value.Length ==> r.value[i] == collection.value[i]
  {
    if collection.None? {
      return Err(ArgumentError);
    }
    var items := collection.value;
    var values := new NStr[|items|];
    for i := 0 to |items|
      invariant forall k :: 0 <= k < i ==> values[k] == items[k]
    {
      var value := items[i];
      values[i] := value;
    }
    r := Ok(values);
  }
}
