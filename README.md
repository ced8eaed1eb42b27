# AWS Deployment Assistant: a Dafny model of its core

The AWS Deployment Assistant is a command-line tool. It takes a build output
directory and copies it into a private working directory. It then lets plugin
assemblies work on that copy, zips the result with an include/exclude filter,
and uploads the zip to an S3 bucket. One bundled plugin, the CodeDeploy AppSpec
generator, writes an `appspec.yml` and default PowerShell hook scripts into the
working directory when the project does not ship its own.

This project models that core in Dafny and proves what it promises. Each
source file becomes one module:

- `Pipeline` (`pipeline.dfy`) models the `Pipeline` class.
  - It is a Dafny class with the same fields: `TempDirectory`, `OutputFile`,
    the directory and file sets it changes, the zip entries, the `PutObject`
    calls and the log.
  - Its methods are `Run`, the four phases and the `finally` block. Each is
    proved against a specification function: `Phases`, `RunSpec`, `RunLog`,
    `RunFiles` and `RunPuts`.
  - Lemmas prove the phase order and that `Run` never returns false. They also
    prove the cleanup rule and the null `TempDirectory` dereference in the
    `finally` block.
- `PluginUtil` (`plugin_util.dfy`) models plugin execution.
  - A plugin is a record `(Priority, ThrowOnError, how Execute ends)`.
  - Each assembly is run by the discovery loop and then by the sorted
    execution loop, both as Dafny loops. They are proved equal to a trace of
    events.
  - The stable `OrderBy(Priority)` is a specification function. It is proved
    to be a permutation, ordered, and the only such order.
  - `Domain_ResourceResolve` is a tiered search over resource-name lists, with
    a method for its early-returning folder loop.
- `Extensions` (`extensions.dfy`) models `AddDirectory`, an archive that grows
  in place under the include/exclude filter and the entry-name rule, and
  `ToArray`, an array filled index by index.
- `Assert` (`assert.dfy`) models every validation helper as a function whose
  `Fail` is the source's `ArgumentException`.
- `Request` and `BuildRequest` (`request.dfy`, `build_request.dfy`) model the
  request objects as classes.
  - The setters check their input and change one field each.
  - The region getters fall back to a default and cache it.
  - `GetObjectData` and the serialisation constructors are proved to be a
    round trip.
- `AppSpec` (`appspec.dfy`) models the CodeDeploy object graph as classes:
  `AppSpec`, `FileSection`, `HooksSection` and `HookEventCollection`.
  `Value()` reads the graph off in emission order.
- `AppSpecGenerator` (`appspec_generator.dfy`) models `Execute` and
  `BuildAppSpec` as methods over a working-directory class. They are proved
  against `Generated` and `BuiltSpec`, whose properties are lemmas.
- `Outcomes`, `Text`, `Paths` and `Guid` hold shared pieces:
  - nullable strings and the exception kinds;
  - the .NET string operations the core calls;
  - `Path.Combine` and `FileInfo.Extension`;
  - the text form of a `Guid`.

A member that throws in the source returns `Fail(e)` or `Err(e)` here, where `e`
is the kind of exception. Filesystem existence is membership in sets of
directory and file paths. What the outside world does during a run (the copy,
the plugins, the lock probe, the S3 status, a failed delete) is an
`Environment` value given to the pipeline. The region lookup
`RegionEndpoint.GetBySystemName` is membership in a set of known region names
held by each request object. The `Settings.Default` values are parameters:
the include/exclude patterns, `Priority`, `ThrowOnError` and
`DefaultEventTimeout`. The generator's `Name` ("AWSCodeDeployPlugin") and
`LoadOptions` (true) are constants of `AppSpecGenerator`.

Where the specification and the code differ, the model follows the code:

- `Run` never returns false. It returns true or throws.
- `String.Replace` removes every occurrence of the root prefix from an entry
  name, not only the leading one.
- `using (plugin) { plugins.Add(plugin) }` disposes each plugin right after it
  is created, so `Dispose` is called both at load and after execution.
- `UploadPackageToS3` throws `FormatException`, not the `HttpException` it
  builds, for a named failure status such as 403 (see Findings). `Run`
  rethrows that `FormatException`.
- In `SourcePath`, a value of two quote characters is stored as the empty
  string, even though the setter rejects empty input.

## Model

| member | source | states |
|---|---|---|
| Pipeline.Pipeline.constructor | AWSDeploymentAssistant/Pipeline.cs:28-31 | a new pipeline holds the request view and the given filesystem, with `TempDirectory` and `OutputFile` null and nothing written, put or logged |
| Pipeline.Pipeline.Create | AWSDeploymentAssistant/Pipeline.cs:39-49 | a null request is an `ArgumentException`; otherwise the pipeline is created exactly when none of the five properties equals "foo-bar" ignoring case. It then holds the request's values, with nothing staged, written, put or logged. The bucket region read through its getter is cached in the request once the first three checks pass |
| Pipeline.EarlyChecks | AWSDeploymentAssistant/Pipeline.cs:43-45 | passes exactly when the profile, zip name and bucket name all differ from the placeholder ignoring case |
| Pipeline.RequestChecks | AWSDeploymentAssistant/Pipeline.cs:43-47 | passes exactly when all five properties differ from the placeholder ignoring case, failing with `ArgumentException` |
| Pipeline.PlaceholderRefusedInAnyCase | AWSDeploymentAssistant/Pipeline.cs:45 | "FOO-BAR" as the bucket name is refused: the comparison ignores case |
| Pipeline.TempPathShape | AWSDeploymentAssistant/Pipeline.cs:128 | the working directory is the temp folder, a backslash and the request id's text |
| Pipeline.TempPathInjective | AWSDeploymentAssistant/Pipeline.cs:128 | two different request ids never share a working directory |
| Pipeline.ContentOfTempPath | AWSDeploymentAssistant/Pipeline.cs:52-58 | the content directory is the working directory followed by "\content" |
| Pipeline.StageResult | AWSDeploymentAssistant/Pipeline.cs:124-143 | staging passes exactly when the source path is a non-empty existing directory, the working directory does not exist yet and the copy succeeds |
| Pipeline.StagedDirs | AWSDeploymentAssistant/Pipeline.cs:130-138 | once both existence checks pass, the working directory and its content directory exist in addition to the old directories; otherwise nothing is created |
| Pipeline.StagedTemp | AWSDeploymentAssistant/Pipeline.cs:126-130 | `TempDirectory` is assigned the working directory once the source check passed, and is unchanged when it failed |
| Pipeline.Pipeline.PopulateRequestWorkingDirectory | AWSDeploymentAssistant/Pipeline.cs:124-143 | returns `StageResult`, sets `TempDirectory` and the directories as `StagedTemp` and `StagedDirs` say, and changes nothing else |
| Pipeline.Pipeline.RunPlugins | AWSDeploymentAssistant/Pipeline.cs:145-201 | the loop over assemblies logs exactly the chained traces of `RunAssemblies` and throws `InvalidOperationException` exactly when one of them aborted |
| Pipeline.ZipPath | AWSDeploymentAssistant/Pipeline.cs:207 | the package path fails with `ArgumentNullException` exactly when the zip name is null |
| Pipeline.CreateNewResult | AWSDeploymentAssistant/Pipeline.cs:213 | `new FileStream(path, FileMode.CreateNew)` succeeds exactly when the path names no directory and its directory part is a root or an existing directory; otherwise `IOError`, standing for `IOException` or `UnauthorizedAccessException` |
| Pipeline.ZipResult | AWSDeploymentAssistant/Pipeline.cs:207-213 | zipping passes exactly when the package path can be formed, names no existing file and can be created; otherwise `ArgumentNullException`, `ArgumentException` for an existing file, or the `IOException` of `FileStream` |
| Pipeline.PlainZipNameIsCreated | AWSDeploymentAssistant/Pipeline.cs:207-213 | a zip name without a directory part can be created in the staged working directory, unless it names a directory there |
| Pipeline.SubdirectoryZipNameAccepted | AWSDeploymentAssistant/BuildRequest.cs:135-148 | the setter accepts `sub\pkg.zip`: the help text's ban on a key prefix is not checked |
| Pipeline.SubdirectoryZipNameFails | AWSDeploymentAssistant/Pipeline.cs:207-213 | with the zip name `sub\pkg.zip` and no `sub` directory, the zip phase throws `IOException` (`DirectoryNotFoundException`) at `FileStream` |
| Pipeline.SubdirectoryZipNameThrows | AWSDeploymentAssistant/Pipeline.cs:64-122 | such a run, past staging and the plugins, throws that `IOException` and puts nothing |
| Pipeline.EmptyZipNameThrows | AWSDeploymentAssistant/Pipeline.cs:207-213 | an empty zip name makes the package path the working directory itself, so the run throws `IOError`, standing for `IOException` or `UnauthorizedAccessException` |
| Pipeline.Pipeline.ZipPackage | AWSDeploymentAssistant/Pipeline.cs:203-223 | a null working directory throws `NullReferenceException`; a missing content directory is rejected; otherwise the outcome is `ZipResult`'s, `OutputFile` is set once the path is formed, and on success the package file exists and holds the entries `AddDirectory` gives, while on failure no file or entry is written |
| Pipeline.Pipeline.WritePackage | AWSDeploymentAssistant/Pipeline.cs:213-222 | a new archive filled from the content directory holds exactly the filtered entries of its listing |
| Pipeline.StatusErrorAsWritten | AWSDeploymentAssistant/Pipeline.cs:262 | as written, a named status code becomes a `FormatException` and only an unnamed code reaches the `HttpException` |
| Pipeline.StatusError | AWSDeploymentAssistant/Pipeline.cs:262 | the intended error is an `HttpException` carrying the status code |
| Pipeline.StatusCodeIsLost | AWSDeploymentAssistant/Pipeline.cs:260-262 | for every named failure status, the code as written throws `FormatException` |
| Pipeline.ForbiddenExample | AWSDeploymentAssistant/Pipeline.cs:260-262 | status 403 gives `FormatException` as written and `HttpException(403)` as intended |
| Pipeline.PutFor | AWSDeploymentAssistant/Pipeline.cs:247-254 | the request goes to the bucket's region and bucket, with the package path, `BucketOwnerFullControl`, and the zip name as the key |
| Pipeline.UploadChecked | AWSDeploymentAssistant/Pipeline.cs:227-239 | the existence check and the two lock checks, in order: each failure is an `ArgumentException`, and once all pass the outcome is that of the client call |
| Pipeline.UploadResult | AWSDeploymentAssistant/Pipeline.cs:225-266 | the upload as written passes exactly when the package exists and is unlocked at both checks, and either `WhatIf` is set or the status is OK. A failed status throws what `StatusErrorAsWritten` gives, so `FormatException` for a named status; a failed check is an `ArgumentException` |
| Pipeline.UploadResultIntended | AWSDeploymentAssistant/Pipeline.cs:256-264 | the upload as intended passes on the same inputs, and a failed status is an `HttpException` carrying the status code |
| Pipeline.UploadResultsDifferIff | AWSDeploymentAssistant/Pipeline.cs:256-264 | the written and intended uploads differ exactly when the request is sent and answered with a named status other than OK, and then they are `FormatException` and `HttpException(status)` |
| Pipeline.UploadPuts | AWSDeploymentAssistant/Pipeline.cs:256-258 | at most one `PutObject`: exactly one when the package is present and unlocked and `WhatIf` is off, keyed by the zip name |
| Pipeline.Pipeline.UploadPackageToS3 | AWSDeploymentAssistant/Pipeline.cs:225-266 | returns `UploadResult` and appends exactly the calls of `UploadPuts` |
| Pipeline.Packaging | AWSDeploymentAssistant/Pipeline.cs:80-86 | the zip phase always starts; the upload phase starts exactly when zipping passed, and its outcome is that of the upload |
| Pipeline.Phases | AWSDeploymentAssistant/Pipeline.cs:70-89 | the phases start in order. A phase starts exactly when the one before it passed, and a run that stops before the fourth phase has failed with that phase's error |
| Pipeline.StagedRunOwnsDirectory | AWSDeploymentAssistant/Pipeline.cs:126-138 | a run past staging had no working directory before, and has it and its content directory afterwards |
| Pipeline.RemoveTree | AWSDeploymentAssistant/Pipeline.cs:108 | a recursive delete removes the root, keeps every path outside it and adds none |
| Pipeline.WhatIfKeepsWorkingDirectory | AWSDeploymentAssistant/Pipeline.cs:98-101 | with `WhatIf` nothing is deleted |
| Pipeline.CleanupRemovesWorkingDirectory | AWSDeploymentAssistant/Pipeline.cs:102-111 | without `WhatIf`, an existing working directory and everything under it is deleted and nothing else is touched |
| Pipeline.CleanupEvents | AWSDeploymentAssistant/Pipeline.cs:98-116 | with `WhatIf` only the review message is logged; without it and without a working directory nothing is logged; otherwise the delete or its failure is logged |
| Pipeline.Pipeline.Finally | AWSDeploymentAssistant/Pipeline.cs:90-119 | with a null `TempDirectory` the block throws `NullReferenceException`. Otherwise the pending exception escapes or the result flag is returned. The directories and files are those after cleanup, and the log is extended as `FinallyLog` sets out |
| Pipeline.RunSpec | AWSDeploymentAssistant/Pipeline.cs:64-122 | `Run` never returns false. It returns true exactly when all phases passed, throws `NullReferenceException` when `TempDirectory` stayed null, and otherwise rethrows the failing phase's exception, which for a named failed upload status is the `FormatException` of the code as written |
| Pipeline.MissingSourceThrowsNullReference | AWSDeploymentAssistant/Pipeline.cs:52-58 | when the source directory is missing, staging fails with `ArgumentException`, but the `finally` block replaces it with `NullReferenceException` |
| Pipeline.DeleteFailureDoesNotMatter | AWSDeploymentAssistant/Pipeline.cs:104-115 | a failed delete of the working directory never changes what `Run` returns or throws |
| Pipeline.Pipeline.RunPhases | AWSDeploymentAssistant/Pipeline.cs:70-89 | the `try` block's outcome is that of `Phases`, the flag is true exactly on success, and the fields, files, puts and log are those of the specification functions |
| Pipeline.Pipeline.PluginAndPackagePhases | AWSDeploymentAssistant/Pipeline.cs:76-88 | over a staged directory: the plugin phase, then the packaging phases unless a plugin aborted |
| Pipeline.Pipeline.PackagePhases | AWSDeploymentAssistant/Pipeline.cs:80-88 | over a staged directory: zip, then upload only when zipping passed |
| Pipeline.Pipeline.Run | AWSDeploymentAssistant/Pipeline.cs:64-122 | the outcome is `RunSpec`; the directories and files are those after staging, packaging and cleanup; the puts are `RunPuts`; the log is `RunLog` |
| Pipeline.PackageFiles | AWSDeploymentAssistant/Pipeline.cs:211-213 | the package file is added exactly when zipping passes |
| Pipeline.RunFiles | AWSDeploymentAssistant/Pipeline.cs:70-89 | a run that reaches the upload phase adds exactly the package file; a run that stops earlier adds no file |
| Pipeline.PackagePuts | AWSDeploymentAssistant/Pipeline.cs:203-266 | with `WhatIf` nothing is put; a put needs a package that was zipped, and is keyed by the zip name |
| Pipeline.RunPuts | AWSDeploymentAssistant/Pipeline.cs:70-89 | with `WhatIf` nothing is put, and there is at most one put per run |
| Pipeline.PhaseLogMarksPhases | AWSDeploymentAssistant/Pipeline.cs:70-89 | the `try` block logs the phase starts in order, one for each phase started |
| Pipeline.RunLogMarksPhases | AWSDeploymentAssistant/Pipeline.cs:64-122 | a run's log marks exactly the phases `Phases` started, in order, and the `finally` block marks none |
| Pipeline.FinishedIffTempDirectorySet | AWSDeploymentAssistant/Pipeline.cs:94-118 | "Finished deployment pipeline." is logged exactly when `TempDirectory` was set |
| PluginUtil.SortedOrder | AWSDeploymentAssistant/PluginUtil.cs:101 | the execution order lists every plugin exactly once, in ascending priority, with ties in discovery order |
| PluginUtil.SortedOrderIsPermutation | AWSDeploymentAssistant/PluginUtil.cs:101 | an index is in the order exactly when it is a plugin, and each appears once |
| PluginUtil.SortedOrderDistinct | AWSDeploymentAssistant/PluginUtil.cs:101 | no plugin appears twice in the order |
| PluginUtil.FirstIsLeast | AWSDeploymentAssistant/PluginUtil.cs:101 | the head of a sorted listing comes before every other plugin in it |
| PluginUtil.SortedIsUnique | AWSDeploymentAssistant/PluginUtil.cs:101 | any two permutations ordered by the stable sort are equal, so the order is determined |
| PluginUtil.SortExample | AWSDeploymentAssistant/PluginUtil.cs:101 | the priorities 5, 1, 1, 3 execute as plugins 1, 2, 3, 0 |
| PluginUtil.Instantiation | AWSDeploymentAssistant/PluginUtil.cs:93-99 | the discovery loop produces two events per plugin |
| PluginUtil.InstantiationAt | AWSDeploymentAssistant/PluginUtil.cs:93-99 | each plugin is created and then disposed at the end of its `using` block, in discovery order |
| PluginUtil.ExecutedCount | AWSDeploymentAssistant/PluginUtil.cs:101-127 | the plugins executed are those of the order up to and including the first that fails fast |
| PluginUtil.StepExecutesOne | AWSDeploymentAssistant/PluginUtil.cs:103-126 | one pass of the loop executes exactly its own plugin |
| PluginUtil.ExecuteInOrderRunsPrefix | AWSDeploymentAssistant/PluginUtil.cs:101-127 | plugins execute in the given order, stopping right after the first fail-fast failure |
| PluginUtil.ExecuteInOrderAborts | AWSDeploymentAssistant/PluginUtil.cs:112-114 | the run aborts exactly when some plugin fails fast, and then names the last plugin executed |
| PluginUtil.ExecuteAssembly | AWSDeploymentAssistant/PluginUtil.cs:91-127 | the discovery loop and then the sorted execution loop produce exactly the trace `RunAssembly` specifies |
| PluginUtil.ExecuteSorted | AWSDeploymentAssistant/PluginUtil.cs:101-127 | the execution loop with its try/catch/finally produces exactly the trace of `ExecuteInOrder`, leaving the loop at a fail-fast failure |
| PluginUtil.DiscoveryExecutesNothing | AWSDeploymentAssistant/PluginUtil.cs:93-99 | no plugin executes during discovery |
| PluginUtil.DisposedBeforeExecute | AWSDeploymentAssistant/PluginUtil.cs:95-98 | every plugin has already been disposed once before the execution loop starts |
| PluginUtil.ExecutedPluginDisposed | AWSDeploymentAssistant/PluginUtil.cs:116-126 | a plugin that executed without failing fast is disposed after it ran |
| PluginUtil.AbortEndsRun | AWSDeploymentAssistant/PluginUtil.cs:112-124 | an aborted run names a plugin of the order and ends with its execution, its rethrow and its "Completed" line |
| PluginUtil.AbortSkipsDispose | AWSDeploymentAssistant/PluginUtil.cs:112-126 | after a fail-fast failure, the failing plugin is not disposed again and no other failure was rethrown |
| PluginUtil.RunWithoutFailFast | AWSDeploymentAssistant/PluginUtil.cs:101-127 | without fail-fast plugins every plugin executes, in priority order, and each is disposed after it ran |
| PluginUtil.PluginProxyDomain.constructor | AWSDeploymentAssistant/PluginUtil.cs:77 | a new proxy has logged nothing |
| PluginUtil.PluginProxyDomain.ExecutePlugins | AWSDeploymentAssistant/PluginUtil.cs:79-134 | logs the assembly's trace. A fail-fast abort is logged again by the outer catch and rethrown as `InvalidOperationException`; otherwise it returns normally |
| PluginUtil.ExecutePluginsFailsIffFailFast | AWSDeploymentAssistant/PluginUtil.cs:112-133 | `ExecutePlugins` throws exactly when some plugin has `ThrowOnError` and its `Execute` fails |
| PluginUtil.AssemblyRuns | AWSDeploymentAssistant/Pipeline.cs:153-200 | each assembly file, by its enumeration index, is run as one assembly |
| PluginUtil.RunAssemblyOwnEvents | AWSDeploymentAssistant/Pipeline.cs:153-200 | an assembly's run only concerns its own plugins |
| PluginUtil.AssembliesInOrder | AWSDeploymentAssistant/Pipeline.cs:149-200 | assemblies run in enumeration order with no global sort; after a fail-fast abort no later assembly contributes |
| PluginUtil.IndexOf | AWSDeploymentAssistant/PluginUtil.cs:34 | the first position of the character, or -1 exactly when it is absent |
| PluginUtil.RequestedFileName | AWSDeploymentAssistant/PluginUtil.cs:34 | the requested name is the text before the first comma plus ".dll"; a name without a comma is `ArgumentOutOfRangeException` |
| PluginUtil.FirstMatch | AWSDeploymentAssistant/PluginUtil.cs:36-63 | the first resource whose name ends with the requested name, or none exactly when no resource does |
| PluginUtil.ExampleRequestedName | AWSDeploymentAssistant/PluginUtil.cs:34 | "Dep, V1" asks for "Dep.dll" |
| PluginUtil.ResolveExample | AWSDeploymentAssistant/PluginUtil.cs:30-75 | a dependency the host does not embed is loaded from the plugin folder |
| PluginUtil.HostResourceWins | AWSDeploymentAssistant/PluginUtil.cs:36-48 | the first host resource that matches decides, through its stream, and the folder is not searched |
| PluginUtil.FirstFolderMatchWins | AWSDeploymentAssistant/PluginUtil.cs:55-72 | when every earlier folder file is an assembly without a match, the first folder assembly holding a match decides through its stream |
| PluginUtil.NonAssemblyFails | AWSDeploymentAssistant/PluginUtil.cs:57 | a folder file that is not an assembly, met before any match, makes the search throw `BadImageFormatException` |
| PluginUtil.NoMatchGivesNull | AWSDeploymentAssistant/PluginUtil.cs:74 | when every folder file is an assembly without a match, the search returns null |
| PluginUtil.ResourceResolve | AWSDeploymentAssistant/PluginUtil.cs:30-75 | the handler with its early-returning folder loop computes exactly `Resolve` |
| Extensions.ZipArchive.constructor | AWSDeploymentAssistant/Extensions.cs:17 | a new archive has no entries |
| Extensions.ZipArchive.CreateEntryFromFile | AWSDeploymentAssistant/Extensions.cs:37 | appends one entry carrying that name and source file |
| Extensions.AnyPatternIn | AWSDeploymentAssistant/Extensions.cs:29-31 | true exactly when some exclude pattern is an ordinal substring of the full path |
| Extensions.Considered | AWSDeploymentAssistant/Extensions.cs:21-23 | the files considered are all of them when recursive, only the top-level ones otherwise |
| Extensions.AddedEntriesMembership | AWSDeploymentAssistant/Extensions.cs:25-39 | an entry is added exactly for a listed file whose extension is whitelisted and whose path holds no exclude pattern |
| Extensions.AddedEntriesCount | AWSDeploymentAssistant/Extensions.cs:25-39 | exactly one entry per accepted file |
| Extensions.EmptyExcludeListExcludesNothing | AWSDeploymentAssistant/Extensions.cs:27-33 | with no exclude patterns, the whitelist alone decides |
| Extensions.NonWhitelistedNeverAdded | AWSDeploymentAssistant/Extensions.cs:27 | a file whose extension is not whitelisted is never added, whatever the patterns |
| Extensions.EmptyPatternExcludesAll | AWSDeploymentAssistant/Extensions.cs:29-33 | an empty exclude pattern occurs in every path and so excludes every file |
| Extensions.NonRecursiveAddsTopLevelOnly | AWSDeploymentAssistant/Extensions.cs:21-23 | with `recursive = false`, every entry comes from an accepted top-level file |
| Extensions.ExampleTextFileExtension | AWSDeploymentAssistant/Extensions.cs:27 | the extension of `C:\c\a.txt` is ".txt" |
| Extensions.ExampleTextFileEntryName | AWSDeploymentAssistant/Extensions.cs:35 | `C:\c\a.txt` under `C:\c` is archived as `a.txt` |
| Extensions.ExampleTextFileAccepted | AWSDeploymentAssistant/Extensions.cs:27-33 | `a.txt` passes the filter with ".txt" whitelisted and "sub" excluded |
| Extensions.ExampleLibraryRejected | AWSDeploymentAssistant/Extensions.cs:27 | `b.dll` is refused by the whitelist |
| Extensions.ExampleExcludedRejected | AWSDeploymentAssistant/Extensions.cs:29-33 | `sub\c.txt` is refused by the exclude pattern |
| Extensions.ExampleRejectedFilesAddNothing | AWSDeploymentAssistant/Extensions.cs:25-39 | the two refused files add no entry |
| Extensions.PackagingExample | AWSDeploymentAssistant/Extensions.cs:17-41 | of `a.txt`, `b.dll` and `sub\c.txt`, only `a.txt` is archived |
| Extensions.AddDirectory | AWSDeploymentAssistant/Extensions.cs:17-41 | a null archive is an `ArgumentException`; otherwise the archive grows by exactly the accepted files' entries, in listing order |
| Extensions.ToArray | AWSDeploymentAssistant/Extensions.cs:43-57 | a null collection is rejected; otherwise a new array of the same length holds the same string at every index |
| Assert.IsTrue | AWSDeploymentAssistant/Assert.cs:18-24 | passes exactly when the value is true; fails with `ArgumentException` |
| Assert.IsFalse | AWSDeploymentAssistant/Assert.cs:26-32 | passes exactly when the value is false |
| Assert.IsNull | AWSDeploymentAssistant/Assert.cs:34-40 | passes exactly on null |
| Assert.IsNotNull | AWSDeploymentAssistant/Assert.cs:42-48 | passes exactly on non-null |
| Assert.IsNullOrEmptyString | AWSDeploymentAssistant/Assert.cs:50-56 | passes exactly on null or "" |
| Assert.IsNotNullOrEmptyString | AWSDeploymentAssistant/Assert.cs:58-64 | passes exactly on a non-empty string |
| Assert.NullOrEmptyChecksAreComplementary | AWSDeploymentAssistant/Assert.cs:50-64 | each of the two null-or-empty checks fails exactly where the other passes |
| Assert.CountIsNumberOfMatches | AWSDeploymentAssistant/Assert.cs:70-72 | the LINQ count equals the number of matching whitelist positions |
| Assert.IsWhitelistedValue | AWSDeploymentAssistant/Assert.cs:66-78 | a null whitelist is rejected; otherwise the value passes exactly when one entry equals it under the comparison, by default ignoring case |
| Assert.DuplicateWhitelistEntryRejects | AWSDeploymentAssistant/Assert.cs:70-77 | a value listed twice is rejected |
| Assert.SingleWhitelistEntryAccepts | AWSDeploymentAssistant/Assert.cs:70-77 | a value listed exactly once passes |
| Assert.FileIsNotLocked | AWSDeploymentAssistant/Assert.cs:80-87 | passes exactly for a given file the lock probe reports unlocked |
| Assert.FileExists | AWSDeploymentAssistant/Assert.cs:89-96 | passes exactly for a given, existing file |
| Assert.FileDoesNotExist | AWSDeploymentAssistant/Assert.cs:98-105 | passes exactly for a given file that does not exist |
| Assert.DirectoryPathExists | AWSDeploymentAssistant/Assert.cs:119-126 | passes exactly for a non-empty path of an existing directory |
| Assert.DirectoryPathDoesNotExist | AWSDeploymentAssistant/Assert.cs:128-135 | passes exactly for a non-empty path that names no directory |
| Assert.DirectoryExists | AWSDeploymentAssistant/Assert.cs:107-111 | a directory object must be given, and its full name must pass the path check |
| Assert.DirectoryDoesNotExist | AWSDeploymentAssistant/Assert.cs:113-117 | a directory object must be given, and its full name must name no directory |
| Assert.StartsWith | AWSDeploymentAssistant/Assert.cs:137-146 | a null value or a null or empty prefix is rejected, then the prefix is compared, by default ignoring case |
| Assert.EndsWith | AWSDeploymentAssistant/Assert.cs:148-157 | a null value or a null or empty suffix is rejected, then the suffix is compared, by default ignoring case |
| Assert.EndsWithIgnoresCaseByDefault | AWSDeploymentAssistant/Assert.cs:148 | "A.ZIP" ends with ".zip" by default but not under an ordinal comparison |
| Assert.StringDoesNotEqual | AWSDeploymentAssistant/Assert.cs:159-165 | fails exactly when the strings are equal under the comparison (by default ignoring case); two nulls are equal |
| Request.GetString | AWSDeploymentAssistant/Request.cs:31 | an entry present in the info is read back; a missing name is a `SerializationException` |
| Request.GetBySystemName | AWSDeploymentAssistant/Request.cs:31 | passes exactly for the non-null name of a known region, and gives that region |
| Request.RegionRead | AWSDeploymentAssistant/Request.cs:38-48 | a stored region is returned; else the configured one; else "us-east-1" |
| Request.RegionReadIsCached | AWSDeploymentAssistant/Request.cs:39-47 | once the result is cached, later reads agree whatever the configuration says |
| Request.SerializeRegion | AWSDeploymentAssistant/Request.cs:56-59 | writes exactly the "Region" entry with the region's name; a null region is a `NullReferenceException` |
| Request.DeserializeRegion | AWSDeploymentAssistant/Request.cs:27-32 | succeeds exactly when "Region" is present and names a known region, and stores that region |
| Request.RegionRoundTrip | AWSDeploymentAssistant/Request.cs:27-59 | `GetObjectData` then the serialisation constructor gives back the region |
| Request.Request.constructor | AWSDeploymentAssistant/Request.cs:18-19 | a new request stores no region |
| Request.Request.FromSerializationInfo | AWSDeploymentAssistant/Request.cs:27-32 | a null info is rejected; otherwise it succeeds exactly when `DeserializeRegion` does and stores its region |
| Request.Request.GetRegion | AWSDeploymentAssistant/Request.cs:38-48 | returns `RegionRead` of the old state and caches the result in the field |
| Request.Request.SetRegion | AWSDeploymentAssistant/Request.cs:49-53 | null or empty leaves the region unchanged; otherwise a known region is stored and an unknown one fails without changing the field |
| Request.Request.GetObjectData | AWSDeploymentAssistant/Request.cs:56-59 | writes what `SerializeRegion` writes for the stored region |
| BuildRequest.SourcePathValue | AWSDeploymentAssistant/BuildRequest.cs:68-83 | null or empty is rejected, and a lone quote fails in `Substring`; every other value is accepted. A leading quote strips the first and last characters, then a remaining trailing quote strips one more |
| BuildRequest.StripLeadingPair | AWSDeploymentAssistant/BuildRequest.cs:72-75 | with a leading quote, the first and last characters go; without one, the value stays |
| BuildRequest.StripTrailingQuote | AWSDeploymentAssistant/BuildRequest.cs:77-80 | with a trailing quote, the last character goes; without one, the value stays |
| BuildRequest.UnquotedSourcePathUnchanged | AWSDeploymentAssistant/BuildRequest.cs:72-82 | a path with no quote at either end is stored as given |
| BuildRequest.QuotedSourcePathUnwrapped | AWSDeploymentAssistant/BuildRequest.cs:72-82 | `"x"` is stored as `x` |
| BuildRequest.TrailingQuoteAlone | AWSDeploymentAssistant/BuildRequest.cs:77-80 | `C:\out"` is stored as `C:\out` |
| BuildRequest.SourcePathEdgeCases | AWSDeploymentAssistant/BuildRequest.cs:70-82 | two quotes are stored as "", and `"abc` loses its last real character |
| BuildRequest.PackageZipNameValue | AWSDeploymentAssistant/BuildRequest.cs:142-148 | accepted exactly when the value is non-empty and ends in ".zip" ignoring case, and then stored as given |
| BuildRequest.ZipNameWithoutSuffixRejected | AWSDeploymentAssistant/BuildRequest.cs:145 | a name without the ".zip" suffix is refused |
| BuildRequest.Serialize | AWSDeploymentAssistant/BuildRequest.cs:158-166 | writes exactly the six names, not `WhatIf`; an unset region is a `NullReferenceException` |
| BuildRequest.Deserialize | AWSDeploymentAssistant/BuildRequest.cs:41-51 | the read succeeds exactly when all six names are present, the `RequestId` text parses as a GUID and `S3BucketRegion` names a known region; the id is the parsed GUID, the region the one named, and the string fields are taken as read |
| BuildRequest.SerializationRoundTrip | AWSDeploymentAssistant/BuildRequest.cs:158-166 | `GetObjectData` then the serialisation constructor gives back all six fields |
| BuildRequest.DeserializeBypassesSetterChecks | AWSDeploymentAssistant/BuildRequest.cs:45-50 | an empty source path and a zip name without ".zip" are refused by the setters but still deserialise |
| BuildRequest.BuildRequest.GetFields | AWSDeploymentAssistant/BuildRequest.cs:19-24 | the serialised fields carry the request's id and region |
| BuildRequest.BuildRequest.constructor | AWSDeploymentAssistant/BuildRequest.cs:26-29 | the id is the one drawn at construction, every other field is null and `WhatIf` is false |
| BuildRequest.BuildRequest.FromFields | AWSDeploymentAssistant/BuildRequest.cs:41-51 | the fields are exactly those given, and `WhatIf` is false |
| BuildRequest.BuildRequest.FromSerializationInfo | AWSDeploymentAssistant/BuildRequest.cs:41-51 | a null info is rejected; otherwise it succeeds exactly when `Deserialize` does, with its fields and `WhatIf` false |
| BuildRequest.BuildRequest.Create | AWSDeploymentAssistant/BuildRequest.cs:31-39 | construction succeeds exactly when all five setters accept their values, and stores what they store |
| BuildRequest.BuildRequest.SetSourcePath | AWSDeploymentAssistant/BuildRequest.cs:68-83 | passes exactly when `SourcePathValue` does, and stores its value; a failure leaves the field |
| BuildRequest.BuildRequest.SetS3BucketName | AWSDeploymentAssistant/BuildRequest.cs:93-98 | passes exactly on a non-empty name, which is stored |
| BuildRequest.BuildRequest.GetS3BucketRegion | AWSDeploymentAssistant/BuildRequest.cs:104-111 | an unset region becomes "us-east-1", and the result is cached in the field |
| BuildRequest.BuildRequest.SetS3BucketRegion | AWSDeploymentAssistant/BuildRequest.cs:112-117 | passes exactly on the non-empty name of a known region, which is stored |
| BuildRequest.BuildRequest.SetAWSCredentialProfile | AWSDeploymentAssistant/BuildRequest.cs:127-132 | passes exactly on a non-empty profile name, which is stored |
| BuildRequest.BuildRequest.SetPackageZipName | AWSDeploymentAssistant/BuildRequest.cs:142-148 | passes exactly when `PackageZipNameValue` does, and stores the value |
| BuildRequest.BuildRequest.GetObjectData | AWSDeploymentAssistant/BuildRequest.cs:158-166 | writes what `Serialize` writes for the current fields |
| Guid.ParseHexDigit | AWSDeploymentAssistant/BuildRequest.cs:45 | a parsed digit prints back as the lower-case form of the character |
| Guid.ToStringIsGrouped | AWSDeploymentAssistant/BuildRequest.cs:160 | the text of a GUID is its 32 digits laid out 8-4-4-4-12 with hyphens |
| Guid.Parse | AWSDeploymentAssistant/BuildRequest.cs:45 | null is `ArgumentNullException` and any other failure is `FormatException` |
| Guid.ParseToString | AWSDeploymentAssistant/BuildRequest.cs:45 | parsing a GUID's text gives the GUID back |
| Guid.ToStringInjective | AWSDeploymentAssistant/Pipeline.cs:128 | different GUIDs have different texts |
| Text.Contains | AWSDeploymentAssistant/Extensions.cs:30 | true exactly when the pattern occurs at some position |
| Text.RemoveAll | AWSDeploymentAssistant/Extensions.cs:35 | never lengthens the text, and a text without the pattern is unchanged |
| Text.RemoveAllLeading | AWSDeploymentAssistant/Extensions.cs:35 | a path that is the root followed by a remainder holding no occurrence of the root becomes that remainder |
| Text.RemoveAllConcat | AWSDeploymentAssistant/Extensions.cs:35 | a leading stretch where no occurrence of the pattern starts is kept as it is, and `Replace` works on the rest alone |
| Text.RemoveAllIsNotLeadingStrip | AWSDeploymentAssistant/Extensions.cs:35 | a second occurrence of the root deeper in the path is removed too |
| Paths.Combine | AWSDeploymentAssistant/Pipeline.cs:128 | fails with `ArgumentNullException` exactly when either part is null |
| Paths.CombineEndsWithPart | AWSDeploymentAssistant/Pipeline.cs:56 | a non-empty relative second part ends the combined path |
| Paths.CombineInsertsSeparator | AWSDeploymentAssistant/Pipeline.cs:56 | a backslash is inserted between two non-empty parts unless the first ends in a separator or a volume colon |
| Paths.Join | AWSDeploymentAssistant/Pipeline.cs:207 | joining two strings is `Path.Combine` and never fails on them |
| Paths.JoinInjective | CodeDeployPlugin/AWSCodeDeployAppSpecGenerator.cs:80-164 | different relative names under one directory give different paths |
| Paths.FileNameStart | AWSDeploymentAssistant/Extensions.cs:27 | the file name starts just past the last separator or volume colon |
| Paths.DirectoryPart | AWSDeploymentAssistant/Pipeline.cs:213 | the directory a file is created in: a proper prefix of the path, followed by a separator and a file name with no separator or colon |
| Paths.DirectoryPartOfJoin | AWSDeploymentAssistant/Pipeline.cs:207 | a plain name joined under a directory is created in that directory |
| Paths.LastDot | AWSDeploymentAssistant/Extensions.cs:27 | the last dot of the file name, or none |
| Paths.Extension | AWSDeploymentAssistant/Extensions.cs:27 | empty, or a dot and at least one more character ending the path with no dot or separator after the first |
| Paths.ExtensionExamples | AWSDeploymentAssistant/Extensions.cs:27 | `C:\w\a.txt` has ".txt"; a file without a dot in its own name has "" |
| AppSpec.AppSpec.constructor | CodeDeployPlugin/AppSpec.cs:16-21 | version "0.0", no os, an empty file section and a new hooks section, all new objects |
| AppSpec.FileSection.constructor | CodeDeployPlugin/AppSpec.cs:36 | a new file section is empty |
| AppSpec.FileSection.Add | CodeDeployPlugin/AppSpec.cs:38-53 | inserts one new task carrying exactly that source and destination |
| AppSpec.HooksSection.constructor | CodeDeployPlugin/AppSpec.cs:64-84 | three new, distinct, empty collections; AfterInstall and ValidateService null |
| AppSpec.HookEventCollection.constructor | CodeDeployPlugin/AppSpec.cs:87 | a new collection is empty |
| AppSpec.HookEventCollection.Add | CodeDeployPlugin/AppSpec.cs:89-103 | inserts one new event with that location and the default timeout |
| AppSpecGenerator.WorkingDirectory.constructor | CodeDeployPlugin/AWSCodeDeployAppSpecGenerator.cs:68 | the working directory with its full name and files |
| AppSpecGenerator.WorkingDirectory.WriteFile | CodeDeployPlugin/AWSCodeDeployAppSpecGenerator.cs:86-101 | the file at the path is created or replaced, and no other file changes |
| AppSpecGenerator.CodeDeployAppSpecGenerator.constructor | CodeDeployPlugin/AWSCodeDeployAppSpecGenerator.cs:23-26 | a new generator has no options |
| AppSpecGenerator.CodeDeployAppSpecGenerator.SetOption | CodeDeployPlugin/AWSCodeDeployAppSpecGenerator.cs:60-66 | an entry of the `Options` dictionary is set |
| AppSpecGenerator.FillDefault | CodeDeployPlugin/AWSCodeDeployAppSpecGenerator.cs:147-166 | a null or empty value becomes the default script's name and that script is written, the before-install one with the `Remove-Item` line written over the start of the resource; any other value writes nothing |
| AppSpecGenerator.AddOptionalHooks | CodeDeployPlugin/AWSCodeDeployAppSpecGenerator.cs:177-186 | a non-null value gets a new collection with one event running it, a null value leaves the hook as it was, and the required hooks stay |
| AppSpecGenerator.NewAppSpec | CodeDeployPlugin/AWSCodeDeployAppSpecGenerator.cs:168-186 | the new appspec holds the os as given, one "\" to destination mapping, one event per required hook, and an optional hook only for a non-null value |
| AppSpecGenerator.CodeDeployAppSpecGenerator.BuildAppSpec | CodeDeployPlugin/AWSCodeDeployAppSpecGenerator.cs:115-189 | a rejected os throws `ArgumentException` before any write. Otherwise the needed default scripts are written and the new appspec is `BuiltSpec` |
| AppSpecGenerator.CodeDeployAppSpecGenerator.Execute | CodeDeployPlugin/AWSCodeDeployAppSpecGenerator.cs:68-113 | returns or rethrows as `ExecuteOutcome` says, and leaves exactly the directory `Generated` describes |
| AppSpecGenerator.OsAcceptedIff | CodeDeployPlugin/AWSCodeDeployAppSpecGenerator.cs:117-121 | the os passes exactly when it is "linux" or "windows" ignoring case, and otherwise throws `ArgumentException` |
| AppSpecGenerator.OsExamples | CodeDeployPlugin/AWSCodeDeployAppSpecGenerator.cs:117-121 | a missing or null os means "windows"; "LINUX" is accepted and kept in that spelling; "macos" and "" are rejected |
| AppSpecGenerator.FileMapping | CodeDeployPlugin/AWSCodeDeployAppSpecGenerator.cs:123-125 | one file mapping "\" to the destination option, or to `c:\inetpub\wwwroot` when that is missing or null |
| AppSpecGenerator.RequiredHooks | CodeDeployPlugin/AWSCodeDeployAppSpecGenerator.cs:147-175 | each required hook holds exactly one event: the option's script when non-empty, else the default script |
| AppSpecGenerator.OptionalHooks | CodeDeployPlugin/AWSCodeDeployAppSpecGenerator.cs:177-186 | AfterInstall and ValidateService exist exactly when their option is present and non-null, and then hold one event running it |
| AppSpecGenerator.RemoveItemCommandCases | CodeDeployPlugin/AWSCodeDeployAppSpecGenerator.cs:157-158 | the line written into the before-install script is `Remove-Item "<destination>\*"  -Force -Recurse`, with the backslash left out after a separator or colon and the wildcard alone for an empty destination |
| AppSpecGenerator.GeneratedPathsDistinct | CodeDeployPlugin/AWSCodeDeployAppSpecGenerator.cs:80-164 | the appspec and the three default scripts are four different files |
| AppSpecGenerator.ExistingAppSpecIsKept | CodeDeployPlugin/AWSCodeDeployAppSpecGenerator.cs:73-106 | with a top-level appspec.yml present, nothing is written and `Execute` returns |
| AppSpecGenerator.RejectedOsWritesNothing | CodeDeployPlugin/AWSCodeDeployAppSpecGenerator.cs:108-121 | a rejected os throws an `ArgumentException` from `Execute` and nothing is written |
| AppSpecGenerator.WithDefaultScriptsAt | CodeDeployPlugin/AWSCodeDeployAppSpecGenerator.cs:147-166 | after the three branches, each script path holds its default script exactly when its option is null or empty |
| AppSpecGenerator.GeneratedFiles | CodeDeployPlugin/AWSCodeDeployAppSpecGenerator.cs:76-166 | on generation `Execute` returns, appspec.yml holds the built appspec, and each default script is written exactly when its option is null or empty |
| AppSpecGenerator.GeneratedLeavesOtherFiles | CodeDeployPlugin/AWSCodeDeployAppSpecGenerator.cs:68-113 | no other file of the directory is touched |
| AppSpecGenerator.ExecuteIsIdempotent | CodeDeployPlugin/AWSCodeDeployAppSpecGenerator.cs:73-106 | a second `Execute` changes nothing more, and returns after a generation |
| AppSpecGenerator.EmptyOptionExample | CodeDeployPlugin/AWSCodeDeployAppSpecGenerator.cs:147-181 | an empty `afterinstall` still gives an AfterInstall event, while an empty `applicationstop` falls back to the default script, which is written |

## Left out

- The `(PluginProxyDomain)sender` cast in `Domain_ResourceResolve` (`PluginUtil.cs:53`) depends on runtime types and is not modelled. The model assumes the cast succeeds, so the folder search is always reached. FirstFolderMatchWins, NonAssemblyFails and NoMatchGivesNull describe the path past the cast.
- `PluginUtil.RunPlugins` (`PluginUtil.cs:17-28`) only creates an `AppDomain`, hooks the resolver and calls the proxy, so it is not modelled. `PluginProxyDomain.ExecutePlugins` is modelled.
- Reflection is not modelled: `Assembly.LoadFile` / `LoadFrom`, `GetTypes`, the `IDeploymentTask` filter and `Activator.CreateInstance`. The plugins of each assembly are given in discovery order, and failures of those calls are not modelled.
- A plugin's `Execute` is not modelled beyond whether it throws. The model does not capture plugins changing the request or the working directory.
- The AWS SDK (`AmazonS3Client`, credentials, `Program.GetAWSCredentials`) is not modelled. The `PutObject` response is a status code from the environment.
- Request.GetBySystemName: the SDK's region table is a set of known names. An unknown name counts as a failure without the SDK's own behaviour.
- The MD5 hash and its Base64 encoding are not computed. The digest is the symbolic `Md5Base64Of(entries)`.
- Zip compression and the bytes of the file streams are not modelled. An archive is its sequence of (entry name, source file). Whether `FileStream` can create the package file is modelled.
- CreateNewResult, ZipResult: the package path is not normalised as `FileInfo.FullName` does. A `.` or `..` segment or a doubled separator in the zip name is kept as written, so such a directory part is looked up literally. A path that names a directory gives `IOError`, whichever `IOException` or `UnauthorizedAccessException` .NET throws there. Plugins create no directories in the model, so a directory part that a plugin would have made is missing.
- `FileSystemUtil` (copy, lock probe, `WriteFile`) is not part of this model. A failing copy, the lock probe and a failing delete come from the environment.
- FillDefault: the before-install script's bytes are not modelled. `FileSystemUtil.WriteFile` writes the embedded resource with `File.Create` and then reopens the file with `File.OpenWrite`, at offset 0 and without truncating. So the `Remove-Item` line and its line break overwrite the first bytes of `defaultBeforeInstall`, and the rest of the resource follows. The model keeps such a script as `Script(script, overwrittenBy)`, naming the resource and the lines written over its start, with no byte-level content.
- FirstMatch: `s.EndsWith(name)` at `PluginUtil.cs:36` and `:59` is .NET's culture-sensitive comparison, which ignores zero-weight characters such as a soft hyphen; the model compares ordinally.
- SourcePathValue: the quote tests `StartsWith("\"")` and `EndsWith("\"")` at `BuildRequest.cs:72` and `:77` are culture-sensitive; the model compares ordinally, so a quote followed by a zero-weight character is not recognised as a trailing quote.
- StripLeadingPair: the leading-quote test at `BuildRequest.cs:72` is culture-sensitive; the model compares ordinally.
- StripTrailingQuote: the trailing-quote test at `BuildRequest.cs:77` is culture-sensitive; the model compares ordinally.
- A failure to create the working directory after `Create()` is not modelled. The model treats directory creation as succeeding.
- Log text, log4net, the JSON dumps in the `finally` block and the YAML serialiser are not modelled. The log records which events happen in which order, and `AppSpecValue` gives the emission order. Whether null hooks are emitted is not modelled.
- `FileSection` and `HookEventCollection` are `HashSet`s of reference-equal objects. They are modelled as sequences in insertion order, and their iteration order is not modelled. The generator adds one element to each, so the order does not matter there.
- `GetFiles("appspec.yml", TopDirectoryOnly)` lookup is case-insensitive on Windows, and it fails when more than one file matches. Neither is modelled: the model checks exact membership of the appspec path.
- `BuildAppSpec` does not use its `request` parameter, and the model omits it.
- The generator's `Dispose` methods (`AWSCodeDeployAppSpecGenerator.cs:191-200`) do nothing and are not modelled.
- The generator's `Priority` and `ThrowOnError` are fields of the `Settings` value, and `Name` and `LoadOptions` are constants. None is a separate member.
- Text.Upper: ignoring case folds ASCII letters only. The model does not capture the invariant culture's folding of other characters.
- Guid.Parse: only the default 8-4-4-4-12 form is modelled. `Guid.Parse` also accepts the "N", "B", "P" and "X" forms. `Guid.NewGuid` is randomness, and the new id is a constructor parameter.
- Paths.Combine: the exception for characters invalid in a path is not modelled.
- The `Request(string region)` constructor (`Request.cs:21-25`) is the default constructor followed by the setter, `Request.Request.constructor` and `SetRegion`. It is not a separate member.
- The getters of `BuildRequest` that only return a field are not separate members. Neither is its `Examples` help text (`BuildRequest.cs:168-177`), which belongs to the command-line library.
- `Program.cs` is not part of this model: static set-up, argument parsing, `Environment.Exit` and the profile wrappers. `ProfileRequest.cs` is not part of this model either. Their constants `DefaultArgumentValue` and `TempFolderPath` are copied.

## Findings

| source | as written | input that shows it | evidently intended | confidence | as-written member | corrected member |
|---|---|---|---|---|---|---|
| AWSDeploymentAssistant/Pipeline.cs:262 | `int.Parse(putResponse.HttpStatusCode.ToString())`. `ToString` of a named `HttpStatusCode` gives its name ("Forbidden"), so `int.Parse` throws `FormatException` | a `PutObject` response with status 403 (Forbidden) | `throw new HttpException(403, ...)`, which carries the status code, e.g. through `(int)putResponse.HttpStatusCode` | medium, not executed | Pipeline.StatusErrorAsWritten (used by Pipeline.UploadResult and so by Pipeline.Run; with Pipeline.StatusCodeIsLost, Pipeline.ForbiddenExample) | Pipeline.StatusError (in Pipeline.UploadResultIntended; Pipeline.UploadResultsDifferIff) |
