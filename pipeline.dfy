/** `Pipeline`: one deployment request run through four phases (staging the
    working directory, running the plugins, zipping the package, uploading
    it), followed by the `finally` block that logs diagnostics and removes the
    working directory. The filesystem is a set of directory paths and a set of
    file paths; the copy of the source tree, the content listing, the lock
    probe, the plugins and the S3 response come from an `Environment`. */
module Pipeline {
  import opened Outcomes
  import opened Text
  import Assert
  import Paths
  import Guid
  import Request
  import BuildRequest
  import Extensions
  import PluginUtil

  /** `Program.DefaultArgumentValue`, the placeholder the command line uses. */
  const DefaultArgumentValue: string := "foo-bar"

  /** `Program.TempFolderPath`. */
  const TempFolderPath: string := "C:\\temp\\AWS Development Tools\\EC2 Deployment Assistant\\temp"

  /** `HttpStatusCode.OK`. */
  const OK: int := 200

  /** The status codes that are named members of `System.Net.HttpStatusCode`. */
  const NamedStatusCodes: set<int> := {
    100, 101,
    200, 201, 202, 203, 204, 205, 206,
    300, 301, 302, 303, 304, 305, 306, 307,
    400, 401, 402, 403, 404, 405, 406, 407, 408, 409, 410, 411, 412, 413, 414, 415, 416, 417, 426,
    500, 501, 502, 503, 504, 505
  }

  datatype Phase = Staging | Plugins | Zipping | Uploading

  const AllPhases: seq<Phase> := [Staging, Plugins, Zipping, Uploading]

  /** The objects the `finally` block serialises into the log. */
  datatype Dump = RequestDump | TempDirectoryDump | TempContentDirectoryDump | OutputFileDump

  /** The pipeline's log. */
  datatype Event =
    | Started                      // "Starting deployment pipeline."
    | PhaseStarted(phase: Phase)   // "Creating working directory ...", "Running plugins." ...
    | PhaseCompleted(phase: Phase) // "    Completed ..."
    | Plugin(task: PluginUtil.TaskEvent)
    | Dumped(item: Dump)
    | KeptForReview                // the what-if message
    | CleanedUp                    // "Cleaning-up request working directory."
    | CleanupFailed                // "Failed to delete temporary directory."
    | Finished                     // "Finished deployment pipeline."

  /** The request properties the pipeline reads, as they were when the
      pipeline was created (the region after the getter's defaulting). */
  datatype RequestView = RequestView(
    requestId: Guid.Guid,
    sourcePath: NStr,
    bucketName: NStr,
    bucketRegion: string,
    credentialProfile: NStr,
    packageZipName: NStr,
    whatIf: bool)

  /** What the world outside the pipeline does during one run. */
  datatype Environment = Environment(
    copyFails: bool,                        // `FileSystemUtil.CopyDirectory` throws
    plugins: seq<seq<PluginUtil.Task>>,     // the plugins of each `*.dll`, in enumeration order
    content: seq<Extensions.FileInfo>,      // the content directory's listing when zipping
    includes: seq<string>,                   // `PublishFileTypesIncludePattern`
    excludes: seq<string>,                  // `PublishFileTypesExcludePattern`
    lockedAtHash: set<string>,              // files the lock probe reports locked before hashing
    lockedAtPut: set<string>,               // ... and before the client call
    putStatus: int,                         // the status code of the `PutObject` response
    deleteFails: bool)                      // `TempDirectory.Delete(true)` throws

  /** `Convert.ToBase64String(MD5(file))`, kept symbolic. */
  datatype Digest = Md5Base64Of(entries: seq<Extensions.Entry>)

  datatype CannedAcl = BucketOwnerFullControl

  /** A `PutObjectRequest` sent to the bucket's region. */
  datatype PutObjectRequest = PutObjectRequest(
    region: string, bucketName: NStr, filePath: string, cannedAcl: CannedAcl, key: NStr, md5Digest: Digest)

  /** How `Run` ends: it returns a value or throws. */
  datatype RunOutcome = Returned(value: bool) | Threw(error: Error)

  // ---------------------------------------------------------------------------
  // Paths

  /** `Path.Combine` of two non-empty parts where the second is relative and
      the first ends in neither a separator nor a volume colon. */
  lemma JoinInserts(a: string, b: string)
    requires a != [] && !Paths.IsSeparator(a[|a| - 1]) && a[|a| - 1] != ':'
    requires b != [] && !Paths.IsRooted(b)
    ensures Paths.Join(a, b) == a + "\\" + b
  {
    Paths.CombineInsertsSeparator(Str(a), Str(b));
  }

  /** The text of a GUID starts and ends with a hexadecimal digit. */
  lemma GuidTextIsRelative(id: Guid.Guid)
    ensures var t := Guid.ToString(id);
            t != [] && !Paths.IsRooted(t) && t[|t| - 1] in Guid.HexDigits
  {
    var t := Guid.ToString(id);
    assert t[0] == Guid.HexDigit(id[0]) && t[1] == Guid.HexDigit(id[1]) && t[35] == Guid.HexDigit(id[31]);
  }

  /** `Path.Combine(Program.TempFolderPath, RequestId.ToString())`. */
  function TempPath(id: Guid.Guid): string {
    Paths.Join(TempFolderPath, Guid.ToString(id))
  }

  /** The working directory is the GUID's text under the temp folder. */
  lemma TempPathShape(id: Guid.Guid)
    ensures TempPath(id) == TempFolderPath + "\\" + Guid.ToString(id)
  {
    GuidTextIsRelative(id);
    JoinInserts(TempFolderPath, Guid.ToString(id));
  }

  /** Two requests never share a working directory. */
  lemma TempPathInjective(a: Guid.Guid, b: Guid.Guid)
    requires TempPath(a) == TempPath(b)
    ensures a == b
  {
    TempPathShape(a);
    TempPathShape(b);
    var n := |TempFolderPath| + 1;
    assert Guid.ToString(a) == TempPath(a)[n..];
    assert Guid.ToString(b) == TempPath(b)[n..];
    Guid.ToStringInjective(a, b);
  }

  /** The `TempContentDirectory` getter: `Path.Combine(TempDirectory.FullName, "content")`. */
  function ContentPath(temp: string): string {
    Paths.Join(temp, "content")
  }

  lemma ContentOfTempPath(id: Guid.Guid)
    ensures ContentPath(TempPath(id)) == TempPath(id) + "\\content"
  {
    var g := Guid.ToString(id);
    var t := TempPath(id);
    TempPathShape(id);
    GuidTextIsRelative(id);
    assert t[|t| - 1] == g[|g| - 1];
    assert !Paths.IsRooted("content");
    JoinInserts(t, "content");
  }

  lemma ContentPathNonEmpty(temp: string)
    ensures ContentPath(temp) != []
  {
    assert Paths.Combine(Str(temp), Str("content")) == Ok(ContentPath(temp));
    assert !Paths.IsRooted("content");
  }

  /** `p` is `root` or lies under it. */
  predicate Within(p: string, root: string) {
    p == root || (|root| + 1 <= |p| && p[..|root| + 1] == root + "\\")
  }

  /** `Directory.Delete(root, true)` on a set of paths. */
  function RemoveTree(paths: set<string>, root: string): (r: set<string>)
    ensures r <= paths && root !in r
    ensures forall p :: p in paths && !Within(p, root) ==> p in r
  {
    set p | p in paths && !Within(p, root)
  }

  // ---------------------------------------------------------------------------
  // The constructor's checks

  /** The first three checks of the `Request` setter, made before it reads
      the region. */
  function EarlyChecks(credentialProfile: NStr, packageZipName: NStr, bucketName: NStr): (r: Outcome)
    ensures r.Pass? <==> !Equals(credentialProfile, Str(DefaultArgumentValue), OrdinalIgnoreCase)
                         && !Equals(packageZipName, Str(DefaultArgumentValue), OrdinalIgnoreCase)
                         && !Equals(bucketName, Str(DefaultArgumentValue), OrdinalIgnoreCase)
    ensures r.Fail? ==> r.error == ArgumentError
  {
    var placeholder := Str(DefaultArgumentValue);
    :- Assert.StringDoesNotEqual(credentialProfile, placeholder, OrdinalIgnoreCase);
    :- Assert.StringDoesNotEqual(packageZipName, placeholder, OrdinalIgnoreCase);
    Assert.StringDoesNotEqual(bucketName, placeholder, OrdinalIgnoreCase)
  }

  /** The `Request` setter: every property the pipeline uses must differ from
      the command line's placeholder, ignoring case. */
  function RequestChecks(view: RequestView): (r: Outcome)
    ensures r.Pass? <==> EarlyChecks(view.credentialProfile, view.packageZipName, view.bucketName).Pass?
                         && !SameText(view.bucketRegion, DefaultArgumentValue, OrdinalIgnoreCase)
                         && !Equals(view.sourcePath, Str(DefaultArgumentValue), OrdinalIgnoreCase)
    ensures r.Fail? ==> r.error == ArgumentError
  {
    var placeholder := Str(DefaultArgumentValue);
    :- EarlyChecks(view.credentialProfile, view.packageZipName, view.bucketName);
    :- Assert.StringDoesNotEqual(Str(view.bucketRegion), placeholder, OrdinalIgnoreCase);
    Assert.StringDoesNotEqual(view.sourcePath, placeholder, OrdinalIgnoreCase)
  }

  /** The placeholder is refused whatever its case. */
  lemma PlaceholderRefusedInAnyCase(view: RequestView)
    requires view.bucketName == Str("FOO-BAR")
    ensures RequestChecks(view).Fail?
  {
    assert SameText("FOO-BAR", DefaultArgumentValue, OrdinalIgnoreCase) by {
      var a, b := "FOO-BAR", DefaultArgumentValue;
      assert forall i :: 0 <= i < |a| ==> CharEquals(a[i], b[i], OrdinalIgnoreCase);
    }
  }

  // ---------------------------------------------------------------------------
  // What each phase does, as functions of the state before it

  /** The working directory exists once staging got past both existence checks. */
  predicate Creates(view: RequestView, dirs: set<string>) {
    Assert.DirectoryPathExists(view.sourcePath, dirs).Pass? && TempPath(view.requestId) !in dirs
  }

  /** `PopulateRequestWorkingDirectory`: the source directory must exist, the
      working directory must not, and the copy must succeed. */
  function StageResult(view: RequestView, env: Environment, dirs: set<string>): (r: Outcome)
    ensures r.Pass? <==> view.sourcePath.Str? && view.sourcePath.s != [] && view.sourcePath.s in dirs
                         && TempPath(view.requestId) !in dirs && !env.copyFails
    ensures r.Fail? ==> r.error == (if Creates(view, dirs) then IOError else ArgumentError)
  {
    var temp := TempPath(view.requestId);
    :- Assert.DirectoryPathExists(view.sourcePath, dirs);
    :- Assert.DirectoryDoesNotExist(Some(temp), dirs);
    if env.copyFails then Fail(IOError) else Pass
  }

  /** The directories after staging. */
  function StagedDirs(view: RequestView, dirs: set<string>): (r: set<string>)
    ensures Creates(view, dirs) ==> r == dirs + {TempPath(view.requestId), ContentPath(TempPath(view.requestId))}
    ensures !Creates(view, dirs) ==> r == dirs
  {
    if Creates(view, dirs) then dirs + {TempPath(view.requestId), ContentPath(TempPath(view.requestId))} else dirs
  }

  /** `TempDirectory` after staging: it is assigned once the source check passed. */
  function StagedTemp(view: RequestView, dirs: set<string>, before: Option<string>): (r: Option<string>)
    ensures Assert.DirectoryPathExists(view.sourcePath, dirs).Fail? ==> r == before
    ensures Assert.DirectoryPathExists(view.sourcePath, dirs).Pass? ==> r == Some(TempPath(view.requestId))
  {
    if Assert.DirectoryPathExists(view.sourcePath, dirs).Fail? then before else Some(TempPath(view.requestId))
  }

  /** The package's path: `Path.Combine(TempDirectory.FullName, PackageZipName)`. */
  function ZipPath(view: RequestView, temp: string): (r: Result<string>)
    ensures r.Err? <==> view.packageZipName.Null?
    ensures r.Err? ==> r.error == ArgumentNull
  {
    Paths.Combine(Str(temp), view.packageZipName)
  }

  /** `new FileStream(path, FileMode.CreateNew)` on a path that names no file:
      it throws an `IOException` (`DirectoryNotFoundException`) when the
      directory the file would be created in does not exist, and one when the
      path names a directory. */
  function CreateNewResult(path: string, dirs: set<string>): (r: Outcome)
    ensures r.Pass? <==> path !in dirs && (Paths.DirectoryPart(path).None? || Paths.DirectoryPart(path).value in dirs)
    ensures r.Fail? ==> r.error == IOError
  {
    var parent := Paths.DirectoryPart(path);
    if path in dirs || (parent.Some? && parent.value !in dirs) then Fail(IOError) else Pass
  }

  /** `ZipPackage` up to the creation of the package file, in the
      directories `dirs`: it fails without writing when the package path
      cannot be formed, names an existing file, or cannot be created. */
  function ZipResult(view: RequestView, temp: string, dirs: set<string>, files: set<string>): (r: Outcome)
    ensures r.Pass? <==> ZipPath(view, temp).Ok? && ZipPath(view, temp).value !in files
                         && CreateNewResult(ZipPath(view, temp).value, dirs).Pass?
    ensures r.Fail? ==> r.error == (if view.packageZipName.Null? then ArgumentNull
                                    else if ZipPath(view, temp).value in files then ArgumentError
                                    else IOError)
  {
    var zipPath := ZipPath(view, temp);
    if zipPath.Err? then Fail(zipPath.error)
    else
      var absent := Assert.FileDoesNotExist(Some(zipPath.value), files);
      if absent.Fail? then absent else CreateNewResult(zipPath.value, dirs)
  }

  /** The working directory ends in a hexadecimal digit, so `Path.Combine`
      puts a backslash between it and a relative name. */
  lemma TempPathEndsPlain(id: Guid.Guid)
    ensures var temp := TempPath(id);
            temp != [] && !Paths.IsSeparator(temp[|temp| - 1]) && temp[|temp| - 1] != ':'
  {
    var temp := TempPath(id);
    GuidTextIsRelative(id);
    TempPathShape(id);
    assert temp[|temp| - 1] == Guid.ToString(id)[|Guid.ToString(id)| - 1];
  }

  /** The directories after staging, when both existence checks passed. */
  lemma StagedDirsOfCreates(view: RequestView, dirs: set<string>)
    requires Creates(view, dirs)
    ensures StagedDirs(view, dirs) == dirs + {TempPath(view.requestId), ContentPath(TempPath(view.requestId))}
  {
  }

  /** A name with no directory part is created in an existing directory
      `temp`, unless it names a directory there. */
  lemma PlainNameIsCreated(temp: string, dirs: set<string>, name: string)
    requires temp != [] && !Paths.IsSeparator(temp[|temp| - 1]) && temp[|temp| - 1] != ':'
    requires name != [] && forall j :: 0 <= j < |name| ==> !Paths.IsSeparator(name[j]) && name[j] != ':'
    requires temp in dirs && Paths.Join(temp, name) !in dirs
    ensures CreateNewResult(Paths.Join(temp, name), dirs) == Pass
  {
    Paths.DirectoryPartOfJoin(temp, name);
  }

  /** A zip name with no directory part is created in the staged working
      directory, unless it names a directory already there. */
  lemma PlainZipNameIsCreated(view: RequestView, dirs: set<string>, name: string)
    requires Creates(view, dirs)
    requires view.packageZipName == Str(name) && name != [] && name != "content"
    requires forall j :: 0 <= j < |name| ==> !Paths.IsSeparator(name[j]) && name[j] != ':'
    requires Paths.Join(TempPath(view.requestId), name) !in dirs
    ensures CreateNewResult(ZipPath(view, TempPath(view.requestId)).value, StagedDirs(view, dirs)) == Pass
  {
    var temp := TempPath(view.requestId);
    TempPathEndsPlain(view.requestId);
    StagedDirsOfCreates(view, dirs);
    assert !Paths.IsRooted(name) && !Paths.IsRooted("content");
    Paths.JoinInjective(temp, name, "content");
    JoinInserts(temp, name);
    assert |Paths.Join(temp, name)| > |temp|;
    PlainNameIsCreated(temp, StagedDirs(view, dirs), name);
  }

  /** The zip name "sub\pkg.zip" passes the `PackageZipName` setter, whose
      help text forbids a key prefix but does not check for one. */
  lemma SubdirectoryZipNameAccepted()
    ensures BuildRequest.PackageZipNameValue(Str("sub\\pkg.zip")) == Ok("sub\\pkg.zip")
  {
    var name := "sub\\pkg.zip";
    assert name[|name| - 4..] == ".zip";
    assert EndsWith(name, ".zip", OrdinalIgnoreCase);
  }

  /** Under a directory `temp` without a `sub` directory, the package
      "sub\pkg.zip" cannot be created. */
  lemma SubdirectoryNameNotCreated(temp: string, dirs: set<string>)
    requires temp != [] && !Paths.IsSeparator(temp[|temp| - 1]) && temp[|temp| - 1] != ':'
    requires temp + "\\sub" !in dirs
    ensures CreateNewResult(Paths.Join(temp, "sub\\pkg.zip"), dirs) == Fail(IOError)
  {
    var name := "sub\\pkg.zip";
    JoinInserts(temp, name);
    var path := temp + "\\" + name;
    assert path == (temp + "\\sub") + "\\pkg.zip";
    Paths.FileNameStartAfter(path, |temp| + 5, |path|);
    assert path[..|temp| + 4] == temp + "\\sub";
  }

  /** `temp\sub` is neither the working directory nor its content directory. */
  lemma SubdirectoryNotStaged(view: RequestView, dirs: set<string>)
    requires Creates(view, dirs) && TempPath(view.requestId) + "\\sub" !in dirs
    ensures TempPath(view.requestId) + "\\sub" !in StagedDirs(view, dirs)
  {
    var temp := TempPath(view.requestId);
    StagedDirsOfCreates(view, dirs);
    ContentOfTempPath(view.requestId);
    assert (temp + "\\sub")[|temp| + 1] == 's' && ContentPath(temp)[|temp| + 1] == 'c';
    assert |temp + "\\sub"| > |temp|;
  }

  /** The package path of "sub\pkg.zip" under `temp`. */
  lemma SubdirectoryZipPath(temp: string)
    requires temp != [] && !Paths.IsSeparator(temp[|temp| - 1]) && temp[|temp| - 1] != ':'
    ensures Paths.Join(temp, "sub\\pkg.zip") == temp + "\\sub\\pkg.zip"
  {
    JoinInserts(temp, "sub\\pkg.zip");
    assert "\\" + "sub\\pkg.zip" == "\\sub\\pkg.zip";
  }

  /** With the zip name "sub\pkg.zip" the package cannot be created: its
      directory part under the working directory does not exist. */
  lemma SubdirectoryZipNameFails(view: RequestView, dirs: set<string>, files: set<string>)
    requires view.packageZipName == Str("sub\\pkg.zip") && Creates(view, dirs)
    requires TempPath(view.requestId) + "\\sub\\pkg.zip" !in files
    requires TempPath(view.requestId) + "\\sub" !in dirs
    ensures ZipResult(view, TempPath(view.requestId), StagedDirs(view, dirs), files) == Fail(IOError)
  {
    var temp := TempPath(view.requestId);
    TempPathEndsPlain(view.requestId);
    SubdirectoryNotStaged(view, dirs);
    SubdirectoryNameNotCreated(temp, StagedDirs(view, dirs));
    SubdirectoryZipPath(temp);
  }

  /** So a run with that zip name fails in the zip phase and puts nothing. */
  lemma SubdirectoryZipNameThrows(view: RequestView, env: Environment, plugins: PluginUtil.RunResult,
      dirs: set<string>, files: set<string>, tempBefore: Option<string>)
    requires view.packageZipName == Str("sub\\pkg.zip")
    requires StageResult(view, env, dirs).Pass? && plugins.abortedAt.None?
    requires TempPath(view.requestId) + "\\sub\\pkg.zip" !in files
    requires TempPath(view.requestId) + "\\sub" !in dirs
    ensures RunSpec(view, env, plugins, dirs, files, tempBefore) == Threw(IOError)
    ensures RunPuts(view, env, plugins, dirs, files) == []
  {
    SubdirectoryZipNameFails(view, dirs, files);
  }

  /** An empty zip name, which only deserialisation lets through, makes the
      package path the working directory itself, which cannot be created as
      a file. */
  lemma EmptyZipNameThrows(view: RequestView, env: Environment, plugins: PluginUtil.RunResult,
      dirs: set<string>, files: set<string>, tempBefore: Option<string>)
    requires view.packageZipName == Str("")
    requires StageResult(view, env, dirs).Pass? && plugins.abortedAt.None?
    requires TempPath(view.requestId) !in files
    ensures ZipPath(view, TempPath(view.requestId)) == Ok(TempPath(view.requestId))
    ensures RunSpec(view, env, plugins, dirs, files, tempBefore) == Threw(IOError)
  {
  }

  /** The entries of the package: `AddDirectory` over the content directory. */
  function PackageEntries(env: Environment, temp: string): seq<Extensions.Entry> {
    Extensions.AddedEntries(Extensions.Considered(env.content, true), ContentPath(temp), env.includes, env.excludes)
  }

  /** The error `UploadPackageToS3` throws for a status other than OK, as
      written: `int.Parse(HttpStatusCode.ToString())`, where `ToString` gives
      the member's name for a named code and its digits otherwise. */
  function StatusErrorAsWritten(status: int): (e: Error)
    ensures status in NamedStatusCodes ==> e == FormatError
    ensures status !in NamedStatusCodes ==> e == HttpError(status)
  {
    if status in NamedStatusCodes then FormatError else HttpError(status)
  }

  /** The error intended: an `HttpException` carrying the status code. */
  function StatusError(status: int): (e: Error)
    ensures e.HttpError? && e.status == status
  {
    HttpError(status)
  }

  /** For every named failure status (403 Forbidden, 500 Internal Server Error
      ...) the written code throws a `FormatException` from `int.Parse`
      instead of the intended `HttpException`; only unnamed codes get through. */
  lemma StatusCodeIsLost(status: int)
    requires status in NamedStatusCodes && status != OK
    ensures StatusErrorAsWritten(status) == FormatError
    ensures StatusError(status) == HttpError(status)
    ensures StatusErrorAsWritten(status) != StatusError(status)
  {
  }

  lemma ForbiddenExample()
    ensures StatusErrorAsWritten(403) == FormatError && StatusError(403) == HttpError(403)
  {
  }

  /** The request sent to S3 for the package at `zipPath`. */
  function PutFor(view: RequestView, zipPath: string, entries: seq<Extensions.Entry>): (p: PutObjectRequest)
    ensures p.key == view.packageZipName && p.bucketName == view.bucketName && p.filePath == zipPath
    ensures p.region == view.bucketRegion && p.cannedAcl == BucketOwnerFullControl
    ensures p.md5Digest == Md5Base64Of(entries)
  {
    PutObjectRequest(view.bucketRegion, view.bucketName, zipPath, BucketOwnerFullControl, view.packageZipName,
                     Md5Base64Of(entries))
  }

  /** The lock checks before hashing and before the client call pass. */
  predicate UploadChecksPass(env: Environment, outputFile: Option<string>, files: set<string>) {
    outputFile.Some? && outputFile.value in files
    && outputFile.value !in env.lockedAtHash && outputFile.value !in env.lockedAtPut
  }

  /** The three checks of `UploadPackageToS3`, in source order, followed by
      the outcome `put` of the client call. */
  function UploadChecked(env: Environment, outputFile: Option<string>, files: set<string>, put: Outcome): (r: Outcome)
    ensures r.Pass? <==> UploadChecksPass(env, outputFile, files) && put.Pass?
    ensures UploadChecksPass(env, outputFile, files) ==> r == put
    ensures !UploadChecksPass(env, outputFile, files) ==> r == Fail(ArgumentError)
  {
    var package := outputFile;
    :- Assert.FileExists(package, files);
    :- Assert.FileIsNotLocked(package, env.lockedAtHash);
    :- Assert.FileIsNotLocked(package, env.lockedAtPut);
    put
  }

  /** `UploadPackageToS3` as written: the package must exist and be unlocked
      at both checks; with `WhatIf` nothing is sent; a status other than OK
      throws what `StatusErrorAsWritten` gives. */
  function UploadResult(view: RequestView, env: Environment, outputFile: Option<string>, files: set<string>): (r: Outcome)
    ensures r.Pass? <==> UploadChecksPass(env, outputFile, files) && (view.whatIf || env.putStatus == OK)
    ensures r.Fail? && UploadChecksPass(env, outputFile, files) ==> r.error == StatusErrorAsWritten(env.putStatus)
    ensures r.Fail? && !UploadChecksPass(env, outputFile, files) ==> r.error == ArgumentError
  {
    var status := env.putStatus;
    UploadChecked(env, outputFile, files, if !view.whatIf && status != OK then Fail(StatusErrorAsWritten(status)) else Pass)
  }

  /** `UploadPackageToS3` as intended: a failed status is an `HttpException`
      carrying the status code. */
  function UploadResultIntended(view: RequestView, env: Environment, outputFile: Option<string>, files: set<string>): (r: Outcome)
    ensures r.Pass? <==> UploadChecksPass(env, outputFile, files) && (view.whatIf || env.putStatus == OK)
    ensures r.Fail? && UploadChecksPass(env, outputFile, files) ==> r.error == HttpError(env.putStatus)
    ensures r.Fail? && !UploadChecksPass(env, outputFile, files) ==> r.error == ArgumentError
  {
    var status := env.putStatus;
    UploadChecked(env, outputFile, files, if !view.whatIf && status != OK then Fail(StatusError(status)) else Pass)
  }

  /** The upload as written and as intended part exactly on a request that is
      sent and answered with a named status other than OK: then the written
      code throws `FormatException` where an `HttpException` was meant. */
  lemma UploadResultsDifferIff(view: RequestView, env: Environment, outputFile: Option<string>, files: set<string>)
    ensures UploadResult(view, env, outputFile, files) != UploadResultIntended(view, env, outputFile, files)
            <==> UploadChecksPass(env, outputFile, files) && !view.whatIf
                 && env.putStatus != OK && env.putStatus in NamedStatusCodes
    ensures UploadResult(view, env, outputFile, files) != UploadResultIntended(view, env, outputFile, files)
            ==> UploadResult(view, env, outputFile, files) == Fail(FormatError)
                && UploadResultIntended(view, env, outputFile, files) == Fail(HttpError(env.putStatus))
  {
  }

  /** The `PutObject` calls of an upload: one, unless a check failed or `WhatIf` is set. */
  function UploadPuts(view: RequestView, env: Environment, outputFile: Option<string>, files: set<string>,
                      entries: seq<Extensions.Entry>): (puts: seq<PutObjectRequest>)
    ensures |puts| <= 1
    ensures view.whatIf ==> puts == []
    ensures puts != [] <==> UploadChecksPass(env, outputFile, files) && !view.whatIf
    ensures puts != [] ==> puts[0] == PutFor(view, outputFile.value, entries)
  {
    if UploadChecksPass(env, outputFile, files) && !view.whatIf then [PutFor(view, outputFile.value, entries)] else []
  }

  /** How many phases were started and how the last one ended. */
  datatype PhasesResult = PhasesResult(started: nat, outcome: Outcome)

  /** The zipping and uploading phases over the working directory `temp`. */
  function Packaging(view: RequestView, env: Environment, temp: string, dirs: set<string>, files: set<string>): (r: PhasesResult)
    ensures r.started == 3 || r.started == 4
    ensures r.started == 3 <==> ZipResult(view, temp, dirs, files).Fail?
    ensures r.started == 3 ==> r.outcome == ZipResult(view, temp, dirs, files)
    ensures r.started == 4 ==>
              var zipPath := ZipPath(view, temp).value;
              r.outcome == UploadResult(view, env, Some(zipPath), files + {zipPath})
  {
    var zip := ZipResult(view, temp, dirs, files);
    if zip.Fail? then PhasesResult(3, zip)
    else
      var zipPath := ZipPath(view, temp).value;
      PhasesResult(4, UploadResult(view, env, Some(zipPath), files + {zipPath}))
  }

  /** The plugin phase and the packaging phases after it, once staging passed. */
  function FromPlugins(view: RequestView, env: Environment, plugins: PluginUtil.RunResult, temp: string,
                       dirs: set<string>, files: set<string>): PhasesResult {
    if plugins.abortedAt.Some? then PhasesResult(2, Fail(InvalidOperation))
    else Packaging(view, env, temp, dirs, files)
  }

  /** The four phases in order: a failure starts no later phase. */
  function Phases(view: RequestView, env: Environment, plugins: PluginUtil.RunResult,
      dirs: set<string>, files: set<string>): (r: PhasesResult)
    ensures 1 <= r.started <= 4
    ensures r.started < 4 ==> r.outcome.Fail?
    ensures r.started >= 2 <==> StageResult(view, env, dirs).Pass?
    ensures r.started >= 3 <==> r.started >= 2 && plugins.abortedAt.None?
    ensures r.started == 4 <==> r.started >= 3 && ZipResult(view, TempPath(view.requestId), StagedDirs(view, dirs), files).Pass?
    ensures r.started == 1 ==> r.outcome == StageResult(view, env, dirs)
    ensures r.started == 2 ==> r.outcome == Fail(InvalidOperation)
    ensures r.started == 3 ==> r.outcome == ZipResult(view, TempPath(view.requestId), StagedDirs(view, dirs), files)
  {
    var stage := StageResult(view, env, dirs);
    if stage.Fail? then PhasesResult(1, stage)
    else FromPlugins(view, env, plugins, TempPath(view.requestId), StagedDirs(view, dirs), files)
  }

  /** A run that gets past staging uses its own working directory, which
      then exists, and the package lands in it. */
  lemma StagedRunOwnsDirectory(view: RequestView, env: Environment, plugins: PluginUtil.RunResult,
      dirs: set<string>, files: set<string>)
    requires Phases(view, env, plugins, dirs, files).started >= 2
    ensures TempPath(view.requestId) !in dirs
    ensures TempPath(view.requestId) in StagedDirs(view, dirs)
    ensures ContentPath(TempPath(view.requestId)) in StagedDirs(view, dirs)
  {
  }

  /** The directories after the `finally` block: with `WhatIf` nothing is
      deleted; otherwise an existing working directory is deleted, unless the
      deletion fails. */
  function AfterCleanup(paths: set<string>, dirs: set<string>, view: RequestView, env: Environment,
                        temp: Option<string>): set<string>
  {
    if !view.whatIf && temp.Some? && temp.value in dirs && !env.deleteFails then RemoveTree(paths, temp.value)
    else paths
  }

  /** With `WhatIf` the working directory is kept for review. */
  lemma WhatIfKeepsWorkingDirectory(paths: set<string>, dirs: set<string>, view: RequestView, env: Environment,
                                    temp: Option<string>)
    requires view.whatIf
    ensures AfterCleanup(paths, dirs, view, env, temp) == paths
  {
  }

  /** Without `WhatIf` the working directory and everything under it are
      gone afterwards, unless the deletion failed; nothing else is touched. */
  lemma CleanupRemovesWorkingDirectory(paths: set<string>, dirs: set<string>, view: RequestView, env: Environment,
                                       temp: string)
    requires !view.whatIf && temp in dirs && !env.deleteFails
    ensures forall p :: p in AfterCleanup(paths, dirs, view, env, Some(temp)) ==> !Within(p, temp)
    ensures forall p :: p in paths && !Within(p, temp) ==> p in AfterCleanup(paths, dirs, view, env, Some(temp))
  {
  }

  /** `Run`'s result, from the state before it. */
  function RunSpec(view: RequestView, env: Environment, plugins: PluginUtil.RunResult,
      dirs: set<string>, files: set<string>,
                   tempBefore: Option<string>): (r: RunOutcome)
    ensures r != Returned(false)
    ensures r == Returned(true) <==> Phases(view, env, plugins, dirs, files).outcome.Pass?
    ensures StagedTemp(view, dirs, tempBefore).None? ==> r == Threw(NullReference)
    ensures StagedTemp(view, dirs, tempBefore).Some? && r.Threw? ==> r.error == Phases(view, env, plugins, dirs, files).outcome.error
  {
    var p := Phases(view, env, plugins, dirs, files);
    if StagedTemp(view, dirs, tempBefore).None? then Threw(NullReference)
    else if p.outcome.Pass? then Returned(true)
    else Threw(p.outcome.error)
  }

  /** When the source directory is missing on a new pipeline, the diagnostic
      of `TempContentDirectory` dereferences the null `TempDirectory`: the
      `NullReferenceException` replaces the staging `ArgumentException`. */
  lemma MissingSourceThrowsNullReference(view: RequestView, env: Environment, plugins: PluginUtil.RunResult,
      dirs: set<string>, files: set<string>)
    requires Assert.DirectoryPathExists(view.sourcePath, dirs).Fail?
    ensures Phases(view, env, plugins, dirs, files).outcome == Fail(ArgumentError)
    ensures RunSpec(view, env, plugins, dirs, files, None) == Threw(NullReference)
  {
  }

  /** A failed deletion of the working directory never changes the outcome. */
  lemma DeleteFailureDoesNotMatter(view: RequestView, env: Environment, plugins: PluginUtil.RunResult,
      dirs: set<string>, files: set<string>,
                                   tempBefore: Option<string>)
    ensures RunSpec(view, env.(deleteFails := true), plugins, dirs, files, tempBefore)
            == RunSpec(view, env.(deleteFails := false), plugins, dirs, files, tempBefore)
  {
    var e1, e2 := env.(deleteFails := true), env.(deleteFails := false);
    assert StageResult(view, e1, dirs) == StageResult(view, e2, dirs);
    assert UploadResult(view, e1, None, files) == UploadResult(view, e2, None, files);
    assert Phases(view, e1, plugins, dirs, files) == Phases(view, e2, plugins, dirs, files) by {
      var temp := TempPath(view.requestId);
      if ZipResult(view, temp, StagedDirs(view, dirs), files).Pass? {
        var zipPath := ZipPath(view, temp).value;
        assert UploadResult(view, e1, Some(zipPath), files + {zipPath})
               == UploadResult(view, e2, Some(zipPath), files + {zipPath});
      }
    }
  }

  // ---------------------------------------------------------------------------
  // The log

  /** The plugin events in the pipeline's log. */
  function Lift(events: seq<PluginUtil.TaskEvent>): seq<Event> {
    seq(|events|, i requires 0 <= i < |events| => Plugin(events[i]))
  }

  /** The phases started, in log order. */
  function Marks(log: seq<Event>): seq<Phase> {
    if log == [] then []
    else (if log[0].PhaseStarted? then [log[0].phase] else []) + Marks(log[1..])
  }

  lemma {:induction false} MarksConcat(a: seq<Event>, b: seq<Event>)
    ensures Marks(a + b) == Marks(a) + Marks(b)
  {
    if a == [] {
      assert a + b == b;
    } else {
      var head := if a[0].PhaseStarted? then [a[0].phase] else [];
      assert (a + b)[0] == a[0];
      assert (a + b)[1..] == a[1..] + b;
      assert Marks(a + b) == head + Marks(a[1..] + b);
      assert Marks(a) == head + Marks(a[1..]);
      MarksConcat(a[1..], b);
      assert head + (Marks(a[1..]) + Marks(b)) == (head + Marks(a[1..])) + Marks(b);
    }
  }

  lemma {:induction false} MarksWithoutPhaseStarts(log: seq<Event>)
    requires forall i :: 0 <= i < |log| ==> !log[i].PhaseStarted?
    ensures Marks(log) == []
  {
    if log != [] {
      MarksWithoutPhaseStarts(log[1..]);
    }
  }

  // ---------------------------------------------------------------------------
  // The pipeline object

  class Pipeline {
    const request: RequestView
    const env: Environment
    /** `TempDirectory`; `None` is null. */
    var tempDirectory: Option<string>
    /** `OutputFile`; `None` is null. */
    var outputFile: Option<string>
    var dirs: set<string>
    var files: set<string>
    /** The entries written to the package zip. */
    var entries: seq<Extensions.Entry>
    /** The `PutObject` calls made. */
    var puts: seq<PutObjectRequest>
    var log: seq<Event>

    constructor (view: RequestView, env: Environment, dirs: set<string>, files: set<string>)
      ensures request == view && this.env == env && this.dirs == dirs && this.files == files
      ensures tempDirectory == None && outputFile == None && entries == [] && puts == [] && log == []
    {
      request := view;
      this.env := env;
      this.dirs := dirs;
      this.files := files;
      tempDirectory := None;
      outputFile := None;
      entries := [];
      puts := [];
      log := [];
    }

    /** `new Pipeline(request)`: the `Request` setter rejects a null request
        and the placeholder value in any property, reading the region through
        its getter, which caches the default in the request. */
    static method Create(source: BuildRequest.BuildRequest?, env: Environment, dirs: set<string>, files: set<string>)
      returns (r: Result<Pipeline>)
      requires source != null ==> source.Valid()
      modifies source
      ensures source == null ==> r == Err(ArgumentError)
      ensures source != null ==>
                var view := RequestView(source.requestId, old(source.sourcePath), old(source.bucketName),
                                        Request.RegionRead(old(source.bucketRegion), None),
                                        old(source.credentialProfile), old(source.packageZipName), old(source.whatIf));
                source.bucketRegion == (if EarlyChecks(view.credentialProfile, view.packageZipName, view.bucketName).Pass? then Some(view.bucketRegion)
                                        else old(source.bucketRegion))
                && (r.Ok? <==> RequestChecks(view).Pass?)
                && (r.Err? ==> r.error == ArgumentError)
                && (r.Ok? ==> fresh(r.value) && r.value.request == view && r.value.env == env
                              && r.value.dirs == dirs && r.value.files == files
                              && r.value.tempDirectory.None? && r.value.outputFile.None?
                              && r.value.entries == [] && r.value.puts == [] && r.value.log == [])
    {
      var present := Assert.IsNotNull(if source == null then None else Some(source));
      if present.Fail? {
        return Err(present.error);
      }
      ghost var view := RequestView(source.requestId, source.sourcePath, source.bucketName,
                                    Request.RegionRead(source.bucketRegion, None),
                                    source.credentialProfile, source.packageZipName, source.whatIf);
      var early := EarlyChecks(source.credentialProfile, source.packageZipName, source.bucketName);
      if early.Fail? {
        return Err(early.error);
      }
      var region := source.GetS3BucketRegion();
      var checked := RequestView(source.requestId, source.sourcePath, source.bucketName, region,
                                 source.credentialProfile, source.packageZipName, source.whatIf);
      assert checked == view;
      var checks := RequestChecks(checked);
      if checks.Fail? {
        return Err(checks.error);
      }
      var p := new Pipeline(checked, env, dirs, files);
      r := Ok(p);
    }

    /** `PopulateRequestWorkingDirectory`. */
    method PopulateRequestWorkingDirectory() returns (r: Outcome)
      modifies this`tempDirectory, this`dirs
      ensures r == StageResult(request, env, old(dirs))
      ensures tempDirectory == StagedTemp(request, old(dirs), old(tempDirectory))
      ensures dirs == StagedDirs(request, old(dirs))
      ensures files == old(files) && puts == old(puts) && log == old(log)
    {
      var source := Assert.DirectoryPathExists(request.sourcePath, dirs);
      if source.Fail? {
        return source;
      }
      var tempPath := TempPath(request.requestId);
      tempDirectory := Some(tempPath);
      var absent := Assert.DirectoryDoesNotExist(tempDirectory, dirs);
      if absent.Fail? {
        return absent;
      }
      dirs := dirs + {tempPath};
      var created := Assert.DirectoryExists(tempDirectory, dirs);
      assert created.Pass?;
      dirs := dirs + {ContentPath(tempPath)};
      if env.copyFails {
        return Fail(IOError);
      }
      return Pass;
    }

    /** `RunPlugins`: every plugin assembly in enumeration order, each with
        the loops of `ExecuteAssembly`; a fail-fast failure ends the phase. */
    method RunPlugins() returns (r: Outcome)
      modifies this`log
      ensures log == old(log) + Lift(PluginUtil.RunAssemblies(env.plugins).events)
      ensures r == (if PluginUtil.RunAssemblies(env.plugins).abortedAt.Some? then Fail(InvalidOperation) else Pass)
    {
      ghost var runs := PluginUtil.AssemblyRuns(env.plugins);
      ghost var log0 := log;
      var k := 0;
      assert runs[..0] == [];
      while k < |env.plugins|
        invariant 0 <= k <= |env.plugins|
        invariant PluginUtil.RunAll(runs[..k]).abortedAt.None?
        invariant log == log0 + Lift(PluginUtil.RunAll(runs[..k]).events)
      {
        ghost var prev := PluginUtil.RunAll(runs[..k]);
        var events, abortedAt := PluginUtil.ExecuteAssembly(k, env.plugins[k]);
        assert PluginUtil.RunResult(events, abortedAt) == runs[k];
        PluginsStep(log0, log, runs, k);
        log := log + Lift(events);
        if abortedAt.Some? {
          PluginUtil.RunAllPrefixAborts(runs, k + 1);
          return Fail(InvalidOperation);
        }
        k := k + 1;
      }
      assert runs[..k] == runs;
      return Pass;
    }

    /** `ZipPackage`: a null working directory throws when the content
        directory is formed; a missing content directory is rejected; the
        package file is written only when `FileStream` can create it. */
    method ZipPackage() returns (r: Outcome)
      modifies this`outputFile, this`files, this`entries
      ensures tempDirectory.None? ==> r == Fail(NullReference)
      ensures tempDirectory.Some? && ContentPath(tempDirectory.value) !in dirs ==> r == Fail(ArgumentError)
      ensures tempDirectory.Some? && ContentPath(tempDirectory.value) in dirs ==>
                r == ZipResult(request, tempDirectory.value, dirs, old(files))
                && outputFile == (if request.packageZipName.Null? then old(outputFile)
                                  else Some(ZipPath(request, tempDirectory.value).value))
      ensures r.Pass? ==> tempDirectory.Some? && files == old(files) + {outputFile.value}
                          && entries == PackageEntries(env, tempDirectory.value)
      ensures r.Fail? ==> files == old(files) && entries == old(entries)
    {
      if tempDirectory.None? {
        return Fail(NullReference);
      }
      var content := ContentPath(tempDirectory.value);
      ContentPathNonEmpty(tempDirectory.value);
      var present := Assert.DirectoryExists(Some(content), dirs);
      if present.Fail? {
        return present;
      }
      var zipPath := ZipPath(request, tempDirectory.value);
      if zipPath.Err? {
        return Fail(zipPath.error);
      }
      outputFile := Some(zipPath.value);
      var absent := Assert.FileDoesNotExist(outputFile, files);
      if absent.Fail? {
        return absent;
      }
      var created := CreateNewResult(zipPath.value, dirs);
      if created.Fail? {
        return created;
      }
      files := files + {zipPath.value};
      entries := WritePackage(tempDirectory.value);
      return Pass;
    }

    /** The `using` blocks of `ZipPackage`: a new archive over the package
        file, filled by `AddDirectory` from the content directory. */
    method WritePackage(temp: string) returns (written: seq<Extensions.Entry>)
      ensures written == PackageEntries(env, temp)
    {
      var archive := new Extensions.ZipArchive();
      var added := Extensions.AddDirectory(archive, ContentPath(temp), env.content, env.includes, env.excludes);
      assert archive.entries == [] + PackageEntries(env, temp);
      written := archive.entries;
    }

    /** `UploadPackageToS3`. */
    method UploadPackageToS3() returns (r: Outcome)
      modifies this`puts
      ensures r == UploadResult(request, env, outputFile, files)
      ensures puts == old(puts) + UploadPuts(request, env, outputFile, files, entries)
    {
      var present := Assert.FileExists(outputFile, files);
      if present.Fail? {
        return present;
      }
      var unlocked := Assert.FileIsNotLocked(outputFile, env.lockedAtHash);
      if unlocked.Fail? {
        return unlocked;
      }
      var hash := Md5Base64Of(entries);
      unlocked := Assert.FileIsNotLocked(outputFile, env.lockedAtPut);
      if unlocked.Fail? {
        return unlocked;
      }
      var put := PutObjectRequest(request.bucketRegion, request.bucketName, outputFile.value,
                                  BucketOwnerFullControl, request.packageZipName, hash);
      if !request.whatIf {
        puts := puts + [put];
        if env.putStatus != OK {
          return Fail(StatusErrorAsWritten(env.putStatus));
        }
      }
      return Pass;
    }

    /** The `finally` block of `Run`, with `pending` the outcome of the phases
        and `result` the flag the `try` block set. Serialising the content
        directory dereferences `TempDirectory`, so a null one throws there and
        the rest of the block is skipped. */
    method Finally(pending: Outcome, result: bool) returns (r: RunOutcome)
      modifies this`dirs, this`files, this`log
      ensures tempDirectory.None? ==> r == Threw(NullReference)
      ensures tempDirectory.Some? ==> r == (if pending.Fail? then Threw(pending.error) else Returned(result))
      ensures dirs == AfterCleanup(old(dirs), old(dirs), request, env, tempDirectory)
      ensures files == AfterCleanup(old(files), old(dirs), request, env, tempDirectory)
      ensures log == FinallyLog(old(log), request, env, tempDirectory, old(dirs))
    {
      log := log + [Dumped(RequestDump), Dumped(TempDirectoryDump)];
      if tempDirectory.None? {
        return Threw(NullReference);
      }
      log := log + [Dumped(TempContentDirectoryDump), Dumped(OutputFileDump)];
      if request.whatIf {
        log := log + [KeptForReview];
      } else if tempDirectory.value in dirs {
        if env.deleteFails {
          log := log + [CleanupFailed];
        } else {
          dirs := RemoveTree(dirs, tempDirectory.value);
          files := RemoveTree(files, tempDirectory.value);
          log := log + [CleanedUp];
        }
      }
      log := log + [Finished];
      if pending.Fail? {
        return Threw(pending.error);
      }
      return Returned(result);
    }

    /** The `try` block of `Run`: the four phases, each between its start and
        completion messages, stopping at the first that throws. */
    method RunPhases() returns (outcome: Outcome, result: bool)
      modifies this`tempDirectory, this`outputFile, this`dirs, this`files, this`entries, this`puts, this`log
      ensures outcome == Phases(request, env, PluginUtil.RunAssemblies(env.plugins), old(dirs), old(files)).outcome
      ensures result <==> outcome.Pass?
      ensures tempDirectory == StagedTemp(request, old(dirs), old(tempDirectory))
      ensures dirs == StagedDirs(request, old(dirs))
      ensures files == RunFiles(request, env, PluginUtil.RunAssemblies(env.plugins), old(dirs), old(files))
      ensures puts == old(puts) + RunPuts(request, env, PluginUtil.RunAssemblies(env.plugins), old(dirs), old(files))
      ensures log == PhaseLog(old(log), request, env, PluginUtil.RunAssemblies(env.plugins), old(dirs), old(files))
    {
      ghost var plugins := PluginUtil.RunAssemblies(env.plugins);
      ghost var log0, dirs0, files0 := log, dirs, files;
      log := log + [PhaseStarted(Staging)];
      outcome := PopulateRequestWorkingDirectory();
      if outcome.Fail? {
        StoppedAtStaging(log0, request, env, plugins, dirs0, files0);
        return outcome, false;
      }
      ReachedPlugins(log0, request, env, plugins, dirs0, files0);
      log := log + [PhaseCompleted(Staging), PhaseStarted(Plugins)];
      outcome := PluginAndPackagePhases();
      result := outcome.Pass?;
    }

    /** The plugin, zipping and uploading phases of the `try` block, over a
        staged working directory. */
    method PluginAndPackagePhases() returns (outcome: Outcome)
      requires tempDirectory.Some? && ContentPath(tempDirectory.value) in dirs
      modifies this`outputFile, this`files, this`entries, this`puts, this`log
      ensures outcome == FromPlugins(request, env, PluginUtil.RunAssemblies(env.plugins), tempDirectory.value, dirs, old(files)).outcome
      ensures files == FromPluginsFiles(request, PluginUtil.RunAssemblies(env.plugins), tempDirectory.value, dirs, old(files))
      ensures puts == old(puts) + FromPluginsPuts(request, env, PluginUtil.RunAssemblies(env.plugins), tempDirectory.value, dirs, old(files))
      ensures log == FromPluginsLog(old(log), request, env, PluginUtil.RunAssemblies(env.plugins), tempDirectory.value, dirs, old(files))
      ensures tempDirectory == old(tempDirectory) && dirs == old(dirs)
    {
      outcome := RunPlugins();
      if outcome.Fail? {
        return;
      }
      log := log + [PhaseCompleted(Plugins), PhaseStarted(Zipping)];
      outcome := PackagePhases();
    }

    /** The zipping and uploading phases of the `try` block, over a staged
        working directory. */
    method PackagePhases() returns (outcome: Outcome)
      requires tempDirectory.Some? && ContentPath(tempDirectory.value) in dirs
      modifies this`outputFile, this`files, this`entries, this`puts, this`log
      ensures outcome == Packaging(request, env, tempDirectory.value, dirs, old(files)).outcome
      ensures files == PackageFiles(request, tempDirectory.value, dirs, old(files))
      ensures puts == old(puts) + PackagePuts(request, env, tempDirectory.value, dirs, old(files))
      ensures log == PackageLog(old(log), request, env, tempDirectory.value, dirs, old(files))
    {
      ghost var temp, files0 := tempDirectory.value, files;
      outcome := ZipPackage();
      if outcome.Fail? {
        return;
      }
      ghost var zipPath := ZipPath(request, temp).value;
      assert outputFile == Some(zipPath) && files == files0 + {zipPath};
      log := log + [PhaseCompleted(Zipping), PhaseStarted(Uploading)];
      outcome := UploadPackageToS3();
      if outcome.Fail? {
        return;
      }
      log := log + [PhaseCompleted(Uploading)];
    }

    /** `Run`: the phases inside `try`, then the `finally` block. */
    method Run() returns (r: RunOutcome)
      modifies this`tempDirectory, this`outputFile, this`dirs, this`files, this`entries, this`puts, this`log
      ensures r == RunSpec(request, env, PluginUtil.RunAssemblies(env.plugins), old(dirs), old(files), old(tempDirectory))
      ensures tempDirectory == StagedTemp(request, old(dirs), old(tempDirectory))
      ensures dirs == AfterCleanup(StagedDirs(request, old(dirs)), StagedDirs(request, old(dirs)),
                                   request, env, tempDirectory)
      ensures files == AfterCleanup(RunFiles(request, env, PluginUtil.RunAssemblies(env.plugins), old(dirs), old(files)),
                                    StagedDirs(request, old(dirs)), request, env, tempDirectory)
      ensures puts == old(puts) + RunPuts(request, env, PluginUtil.RunAssemblies(env.plugins), old(dirs), old(files))
      ensures log == RunLog(old(log), request, env, PluginUtil.RunAssemblies(env.plugins), old(dirs), old(files), old(tempDirectory))
    {
      log := log + [Started];
      var outcome, result := RunPhases();
      r := Finally(outcome, result);
    }
  }

  /** The run's state when staging throws. */
  lemma StoppedAtStaging(log0: seq<Event>, view: RequestView, env: Environment, plugins: PluginUtil.RunResult,
                         dirs: set<string>, files: set<string>)
    requires StageResult(view, env, dirs).Fail?
    ensures Phases(view, env, plugins, dirs, files) == PhasesResult(1, StageResult(view, env, dirs))
    ensures RunFiles(view, env, plugins, dirs, files) == files
    ensures RunPuts(view, env, plugins, dirs, files) == []
    ensures PhaseLog(log0, view, env, plugins, dirs, files) == log0 + [PhaseStarted(Staging)]
  {
  }

  /** The run's state once staging passed. */
  lemma ReachedPlugins(log0: seq<Event>, view: RequestView, env: Environment, plugins: PluginUtil.RunResult,
                       dirs: set<string>, files: set<string>)
    requires StageResult(view, env, dirs).Pass?
    ensures var temp := TempPath(view.requestId);
            var staged := StagedDirs(view, dirs);
            && Phases(view, env, plugins, dirs, files) == FromPlugins(view, env, plugins, temp, staged, files)
            && RunFiles(view, env, plugins, dirs, files) == FromPluginsFiles(view, plugins, temp, staged, files)
            && RunPuts(view, env, plugins, dirs, files) == FromPluginsPuts(view, env, plugins, temp, staged, files)
            && PhaseLog(log0, view, env, plugins, dirs, files)
               == FromPluginsLog(log0 + [PhaseStarted(Staging)] + [PhaseCompleted(Staging), PhaseStarted(Plugins)],
                                 view, env, plugins, temp, staged, files)
  {
  }

  /** The log after the `finally` block, from the log `log0` before it. */
  function FinallyLog(log0: seq<Event>, view: RequestView, env: Environment, temp: Option<string>,
                      dirs: set<string>): seq<Event> {
    var dumped := log0 + [Dumped(RequestDump), Dumped(TempDirectoryDump)];
    if temp.None? then dumped
    else dumped + [Dumped(TempContentDirectoryDump), Dumped(OutputFileDump)]
         + CleanupEvents(view, env, temp.value, dirs) + [Finished]
  }

  /** The log after the `try` block, from the log `log0` before it: each
      phase's start, the plugin events, and each completion of a phase that
      did not throw. */
  function PhaseLog(log0: seq<Event>, view: RequestView, env: Environment, plugins: PluginUtil.RunResult,
                    dirs: set<string>, files: set<string>): seq<Event> {
    var staging := log0 + [PhaseStarted(Staging)];
    if StageResult(view, env, dirs).Fail? then staging
    else FromPluginsLog(staging + [PhaseCompleted(Staging), PhaseStarted(Plugins)], view, env, plugins,
                        TempPath(view.requestId), StagedDirs(view, dirs), files)
  }

  /** The log of the plugin phase and the packaging phases, from the log
      `log0` that already marks the start of the plugin phase. */
  function FromPluginsLog(log0: seq<Event>, view: RequestView, env: Environment, plugins: PluginUtil.RunResult,
                          temp: string, dirs: set<string>, files: set<string>): seq<Event> {
    var plugging := log0 + Lift(plugins.events);
    if plugins.abortedAt.Some? then plugging
    else PackageLog(plugging + [PhaseCompleted(Plugins), PhaseStarted(Zipping)], view, env, temp, dirs, files)
  }

  /** The log of the zipping and uploading phases, from the log `log0` before them. */
  function PackageLog(log0: seq<Event>, view: RequestView, env: Environment, temp: string, dirs: set<string>,
                      files: set<string>): seq<Event> {
    var p := Packaging(view, env, temp, dirs, files);
    if p.started == 3 then log0
    else
      var uploading := log0 + [PhaseCompleted(Zipping), PhaseStarted(Uploading)];
      if p.outcome.Fail? then uploading else uploading + [PhaseCompleted(Uploading)]
  }

  /** The log after `Run`, from the log `log0` before it. */
  function RunLog(log0: seq<Event>, view: RequestView, env: Environment, plugins: PluginUtil.RunResult,
                  dirs: set<string>, files: set<string>, tempBefore: Option<string>): seq<Event> {
    FinallyLog(PhaseLog(log0 + [Started], view, env, plugins, dirs, files), view, env,
               StagedTemp(view, dirs, tempBefore), StagedDirs(view, dirs))
  }

  lemma FinallyLogMarksNothing(log0: seq<Event>, view: RequestView, env: Environment, temp: Option<string>,
                               dirs: set<string>)
    ensures Marks(FinallyLog(log0, view, env, temp, dirs)) == Marks(log0)
  {
    var added: seq<Event> := [Dumped(RequestDump), Dumped(TempDirectoryDump)];
    MarksWithoutPhaseStarts(added);
    MarksConcat(log0, added);
    if temp.Some? {
      var rest := [Dumped(TempContentDirectoryDump), Dumped(OutputFileDump)]
                  + CleanupEvents(view, env, temp.value, dirs) + [Finished];
      assert FinallyLog(log0, view, env, temp, dirs) == (log0 + added) + rest;
      MarksWithoutPhaseStarts(rest);
      MarksConcat(log0 + added, rest);
    }
  }

  lemma PhaseLogMarksPhases(log0: seq<Event>, view: RequestView, env: Environment, plugins: PluginUtil.RunResult,
                            dirs: set<string>, files: set<string>)
    ensures Marks(PhaseLog(log0, view, env, plugins, dirs, files))
            == Marks(log0) + AllPhases[..Phases(view, env, plugins, dirs, files).started]
  {
    var n := Phases(view, env, plugins, dirs, files).started;
    var staging := log0 + [PhaseStarted(Staging)];
    var plugging := staging + [PhaseCompleted(Staging), PhaseStarted(Plugins)] + Lift(plugins.events);
    var zipping := plugging + [PhaseCompleted(Plugins), PhaseStarted(Zipping)];
    PluggingMarks(log0, plugins.events);
    if n == 1 {
      assert AllPhases[..1] == [Staging];
    } else if n == 2 {
      assert AllPhases[..2] == [Staging, Plugins];
    } else {
      MarksOfNext(plugging, PhaseCompleted(Plugins), Zipping);
      PackageLogMarks(zipping, view, env, TempPath(view.requestId), StagedDirs(view, dirs), files);
      assert AllPhases[..3] == [Staging, Plugins, Zipping];
      assert AllPhases[..4] == [Staging, Plugins, Zipping] + [Uploading];
    }
  }

  /** The staging and plugin phases mark their own two starts. */
  lemma PluggingMarks(log0: seq<Event>, events: seq<PluginUtil.TaskEvent>)
    ensures Marks(log0 + [PhaseStarted(Staging)]) == Marks(log0) + [Staging]
    ensures Marks(log0 + [PhaseStarted(Staging)] + [PhaseCompleted(Staging), PhaseStarted(Plugins)] + Lift(events))
            == Marks(log0) + [Staging, Plugins]
  {
    var staging := log0 + [PhaseStarted(Staging)];
    MarksOfStart(log0, Staging);
    var begun := staging + [PhaseCompleted(Staging), PhaseStarted(Plugins)];
    MarksOfNext(staging, PhaseCompleted(Staging), Plugins);
    MarksWithoutPhaseStarts(Lift(events));
    MarksConcat(begun, Lift(events));
  }

  /** The zipping and uploading phases mark the start of the upload exactly
      when zipping completed. */
  lemma PackageLogMarks(log0: seq<Event>, view: RequestView, env: Environment, temp: string, dirs: set<string>,
                        files: set<string>)
    ensures Marks(PackageLog(log0, view, env, temp, dirs, files))
            == Marks(log0) + if Packaging(view, env, temp, dirs, files).started == 4 then [Uploading] else []
  {
    if Packaging(view, env, temp, dirs, files).started == 4 {
      var uploading := log0 + [PhaseCompleted(Zipping), PhaseStarted(Uploading)];
      MarksOfNext(log0, PhaseCompleted(Zipping), Uploading);
      MarksWithoutPhaseStarts([PhaseCompleted(Uploading)]);
      MarksConcat(uploading, [PhaseCompleted(Uploading)]);
    }
  }

  lemma MarksOfStart(log: seq<Event>, p: Phase)
    ensures Marks(log + [PhaseStarted(p)]) == Marks(log) + [p]
  {
    assert Marks([PhaseStarted(p)]) == [p] by {
      assert [PhaseStarted(p)][1..] == [];
    }
    MarksConcat(log, [PhaseStarted(p)]);
  }

  lemma MarksOfNext(log: seq<Event>, a: Event, p: Phase)
    requires !a.PhaseStarted?
    ensures Marks(log + [a, PhaseStarted(p)]) == Marks(log) + [p]
  {
    MarksOfPair(a, p);
    MarksConcat(log, [a, PhaseStarted(p)]);
  }

  /** The phases are started in order, each one only after the previous one
      completed, and `Run` logs no other phase start. */
  lemma RunLogMarksPhases(log0: seq<Event>, view: RequestView, env: Environment, plugins: PluginUtil.RunResult,
                          dirs: set<string>, files: set<string>, tempBefore: Option<string>)
    ensures Marks(RunLog(log0, view, env, plugins, dirs, files, tempBefore))
            == Marks(log0) + AllPhases[..Phases(view, env, plugins, dirs, files).started]
  {
    var phases := PhaseLog(log0 + [Started], view, env, plugins, dirs, files);
    MarksWithoutPhaseStarts([Started]);
    MarksConcat(log0, [Started]);
    assert Marks(log0 + [Started]) == Marks(log0);
    PhaseLogMarksPhases(log0 + [Started], view, env, plugins, dirs, files);
    FinallyLogMarksNothing(phases, view, env, StagedTemp(view, dirs, tempBefore), StagedDirs(view, dirs));
    assert RunLog(log0, view, env, plugins, dirs, files, tempBefore)
           == FinallyLog(phases, view, env, StagedTemp(view, dirs, tempBefore), StagedDirs(view, dirs));
  }

  /** "Finished deployment pipeline." is logged exactly when the working
      directory was set: otherwise the `finally` block throws before it. */
  lemma FinishedIffTempDirectorySet(view: RequestView, env: Environment, plugins: PluginUtil.RunResult,
                                    dirs: set<string>, files: set<string>, tempBefore: Option<string>)
    ensures Finished in RunLog([], view, env, plugins, dirs, files, tempBefore)
            <==> StagedTemp(view, dirs, tempBefore).Some?
  {
    var temp := StagedTemp(view, dirs, tempBefore);
    var phases := PhaseLog([Started], view, env, plugins, dirs, files);
    PhaseLogHasNoFinished([Started], view, env, plugins, dirs, files);
    if temp.None? {
      assert RunLog([], view, env, plugins, dirs, files, tempBefore)
             == phases + [Dumped(RequestDump), Dumped(TempDirectoryDump)];
    }
  }

  lemma PhaseLogHasNoFinished(log0: seq<Event>, view: RequestView, env: Environment, plugins: PluginUtil.RunResult,
                              dirs: set<string>, files: set<string>)
    requires Finished !in log0
    ensures Finished !in PhaseLog(log0, view, env, plugins, dirs, files)
  {
    var pluginLog := Lift(plugins.events);
    assert Finished !in pluginLog by {
      assert forall i :: 0 <= i < |pluginLog| ==> pluginLog[i].Plugin?;
    }
  }

  /** `[a, PhaseStarted(p)]` marks the start of `p` only. */
  lemma MarksOfPair(a: Event, p: Phase)
    requires !a.PhaseStarted?
    ensures Marks([a, PhaseStarted(p)]) == [p]
  {
    var log := [a, PhaseStarted(p)];
    assert log[1..] == [PhaseStarted(p)];
    assert [PhaseStarted(p)][1..] == [];
    assert Marks([PhaseStarted(p)]) == [p] + Marks([]);
    assert Marks(log) == [] + Marks(log[1..]);
  }

  /** What the `finally` block logs about cleaning up an existing working directory. */
  function CleanupEvents(view: RequestView, env: Environment, temp: string, dirs: set<string>): (r: seq<Event>)
    ensures view.whatIf ==> r == [KeptForReview]
    ensures !view.whatIf && temp !in dirs ==> r == []
    ensures !view.whatIf && temp in dirs ==> r == (if env.deleteFails then [CleanupFailed] else [CleanedUp])
  {
    if view.whatIf then [KeptForReview]
    else if temp !in dirs then []
    else if env.deleteFails then [CleanupFailed] else [CleanedUp]
  }

  /** The files after the packaging phases: the package is written when zipping passes. */
  function PackageFiles(view: RequestView, temp: string, dirs: set<string>, files: set<string>): (r: set<string>)
    ensures ZipResult(view, temp, dirs, files).Fail? ==> r == files
    ensures ZipResult(view, temp, dirs, files).Pass? ==> r == files + {ZipPath(view, temp).value}
  {
    if ZipResult(view, temp, dirs, files).Fail? then files else files + {ZipPath(view, temp).value}
  }

  /** The files after the phases. */
  function RunFiles(view: RequestView, env: Environment, plugins: PluginUtil.RunResult,
      dirs: set<string>, files: set<string>): (r: set<string>)
    ensures Phases(view, env, plugins, dirs, files).started < 4 ==> r == files
    ensures Phases(view, env, plugins, dirs, files).started == 4 ==>
              r == files + {ZipPath(view, TempPath(view.requestId)).value}
  {
    if StageResult(view, env, dirs).Fail? then files
    else FromPluginsFiles(view, plugins, TempPath(view.requestId), StagedDirs(view, dirs), files)
  }

  /** The files after the plugin phase and the packaging phases. */
  function FromPluginsFiles(view: RequestView, plugins: PluginUtil.RunResult, temp: string,
                            dirs: set<string>, files: set<string>): set<string> {
    if plugins.abortedAt.Some? then files else PackageFiles(view, temp, dirs, files)
  }

  /** The `PutObject` calls of the packaging phases. */
  function PackagePuts(view: RequestView, env: Environment, temp: string, dirs: set<string>, files: set<string>)
    : (puts: seq<PutObjectRequest>)
    ensures view.whatIf ==> puts == []
    ensures puts != [] ==> ZipResult(view, temp, dirs, files).Pass? && |puts| == 1 && puts[0].key == view.packageZipName
  {
    if ZipResult(view, temp, dirs, files).Fail? then []
    else
      var zipPath := ZipPath(view, temp).value;
      UploadPuts(view, env, Some(zipPath), files + {zipPath}, PackageEntries(env, temp))
  }

  /** The `PutObject` calls of a whole run: one when the upload phase reached
      the client call without `WhatIf`. */
  function RunPuts(view: RequestView, env: Environment, plugins: PluginUtil.RunResult,
      dirs: set<string>, files: set<string>): (puts: seq<PutObjectRequest>)
    ensures view.whatIf ==> puts == []
    ensures puts != [] ==> Phases(view, env, plugins, dirs, files).started == 4 && |puts| == 1
                           && puts[0].key == view.packageZipName
  {
    if StageResult(view, env, dirs).Fail? then []
    else FromPluginsPuts(view, env, plugins, TempPath(view.requestId), StagedDirs(view, dirs), files)
  }

  /** The `PutObject` calls of the plugin phase and the packaging phases. */
  function FromPluginsPuts(view: RequestView, env: Environment, plugins: PluginUtil.RunResult, temp: string,
                           dirs: set<string>, files: set<string>): seq<PutObjectRequest> {
    if plugins.abortedAt.Some? then [] else PackagePuts(view, env, temp, dirs, files)
  }

  /** One more assembly's run extends the plugin events of the phase. */
  lemma PluginsStep(log0: seq<Event>, log: seq<Event>, runs: seq<PluginUtil.RunResult>, k: nat)
    requires k < |runs| && PluginUtil.RunAll(runs[..k]).abortedAt.None?
    requires log == log0 + Lift(PluginUtil.RunAll(runs[..k]).events)
    ensures PluginUtil.RunAll(runs[..k + 1]).abortedAt == runs[k].abortedAt
    ensures log + Lift(runs[k].events) == log0 + Lift(PluginUtil.RunAll(runs[..k + 1]).events)
  {
    var prev := PluginUtil.RunAll(runs[..k]);
    var x := runs[k];
    assert runs[..k + 1] == runs[..k] + [x];
    PluginUtil.RunAllSnoc(runs[..k], x);
    var next := PluginUtil.RunAll(runs[..k + 1]);
    assert next == PluginUtil.RunResult(prev.events + x.events, x.abortedAt);
    LiftConcat(prev.events, x.events);
    assert Lift(next.events) == Lift(prev.events) + Lift(x.events);
  }

  lemma LiftConcat(a: seq<PluginUtil.TaskEvent>, b: seq<PluginUtil.TaskEvent>)
    ensures Lift(a + b) == Lift(a) + Lift(b)
  {
  }
}
