/** `AWSCodeDeployAppSpecGenerator`, the plugin that writes an `appspec.yml`
    into the staged working directory unless the project already ships one.
    The options are the plugin's loaded string dictionary; the working
    directory is a map from full file paths to what the plugin knows of their
    content. */
module AppSpecGenerator {
  import opened Outcomes
  import opened Text
  import Paths
  import Assert
  import AppSpec

  /** The accepted values of the `os` option, matched ignoring case. */
  const OsOptions: seq<NStr> := [Str("linux"), Str("windows")]

  const DefaultOs: string := "windows"
  const DefaultDestination: string := "c:\\inetpub\\wwwroot"
  const AppSpecFileName: string := "appspec.yml"

  /** The plugin's constant properties. */
  const Name: string := "AWSCodeDeployPlugin"
  const LoadOptions: bool := true

  /** The values of `Settings.Default` the plugin reads. */
  datatype Settings = Settings(priority: int, throwOnError: bool, defaultEventTimeout: int)

  /** The three hooks that get a bundled default script when their option is
      null or empty. */
  datatype DefaultScript = ApplicationStopScript | BeforeInstallScript | ApplicationStartScript

  /** The option key naming a hook's script. */
  function ScriptKey(s: DefaultScript): string {
    match s
    case ApplicationStopScript => "applicationstop"
    case BeforeInstallScript => "beforeinstall"
    case ApplicationStartScript => "applicationstart"
  }

  /** The file name of the bundled default script. */
  function ScriptName(s: DefaultScript): string {
    match s
    case ApplicationStopScript => "defaultApplicationStop.ps1"
    case BeforeInstallScript => "defaultBeforeInstall.ps1"
    case ApplicationStartScript => "defaultApplicationStart.ps1"
  }

  /** What the plugin knows of a file: a default script (the embedded resource
      with the extra lines `WriteFile` was given written over its start, since
      `File.OpenWrite` reopens the file at offset 0 without truncating it), the
      serialised appspec, or content it neither writes nor reads. */
  datatype Content =
    | Script(script: DefaultScript, overwrittenBy: seq<string>)
    | AppSpecYaml(spec: AppSpec.AppSpecValue)
    | Untracked

  /** The directory the plugin writes into. */
  class WorkingDirectory {
    const fullName: string
    var files: map<string, Content>

    constructor(fullName: string, files: map<string, Content>)
      ensures this.fullName == fullName && this.files == files
    {
      this.fullName := fullName;
      this.files := files;
    }

    /** `FileSystemUtil.WriteFile` and the appspec file stream: the file at
        `path` is created or replaced. */
    method WriteFile(path: string, content: Content)
      modifies this
      ensures files == old(files)[path := content]
    {
      files := files[path := content];
    }
  }

  /** `(from d in Options where string.Equals(d.Key, key, Ordinal) select
      d.Value).SingleOrDefault()`: dictionary keys are unique, so this is the
      value stored under exactly `key`, or null when the key is absent. */
  function Lookup(options: map<string, NStr>, key: string): NStr {
    if key in options then options[key] else Null
  }

  function RequestedOs(options: map<string, NStr>): string {
    Coalesce(Lookup(options, "os"), DefaultOs)
  }

  /** `Assert.IsWhitelistedValue(os, OSOptions)` with the default comparison. */
  function OsCheck(options: map<string, NStr>): Outcome {
    Assert.IsWhitelistedValue(Str(RequestedOs(options)), Some(OsOptions))
  }

  function Destination(options: map<string, NStr>): string {
    Coalesce(Lookup(options, "destination"), DefaultDestination)
  }

  /** The script a required hook runs: the option, or the default script's
      name when the option is null or empty. */
  function HookLocation(options: map<string, NStr>, s: DefaultScript): NStr {
    var v := Lookup(options, ScriptKey(s));
    if IsNullOrEmpty(v) then Str(ScriptName(s)) else v
  }

  /** The hook collection of an optional hook: one event when the option is
      non-null, an empty string included. */
  function OptionalHook(options: map<string, NStr>, key: string, timeout: int): Option<seq<AppSpec.HookEvent>> {
    var v := Lookup(options, key);
    if v.Str? then Some([AppSpec.HookEvent(v, timeout)]) else None
  }

  /** The line written over the start of the default before-install script. */
  function RemoveItemCommand(destination: string): string {
    "Remove-Item \"" + Paths.Join(destination, "*") + "\"  -Force -Recurse"
  }

  function ScriptLines(options: map<string, NStr>, s: DefaultScript): seq<string> {
    if s == BeforeInstallScript then [RemoveItemCommand(Destination(options))] else []
  }

  function ScriptPath(dirName: string, s: DefaultScript): string {
    Paths.Join(dirName, ScriptName(s))
  }

  function AppSpecPath(dirName: string): string {
    Paths.Join(dirName, AppSpecFileName)
  }

  /** The directory after the default-filling branch for `s`. */
  function WithDefaultScript(files: map<string, Content>, options: map<string, NStr>, dirName: string,
                             s: DefaultScript): map<string, Content>
  {
    if IsNullOrEmpty(Lookup(options, ScriptKey(s)))
    then files[ScriptPath(dirName, s) := Script(s, ScriptLines(options, s))]
    else files
  }

  /** The directory after all three default-filling branches, in source order. */
  function WithDefaultScripts(files: map<string, Content>, options: map<string, NStr>, dirName: string): map<string, Content> {
    var stopped := WithDefaultScript(files, options, dirName, ApplicationStopScript);
    var before := WithDefaultScript(stopped, options, dirName, BeforeInstallScript);
    WithDefaultScript(before, options, dirName, ApplicationStartScript)
  }

  /** The appspec `BuildAppSpec` returns when the os check passes. */
  function BuiltSpec(options: map<string, NStr>, timeout: int): AppSpec.AppSpecValue {
    AppSpec.AppSpecValue(
      AppSpec.DefaultVersion,
      Str(RequestedOs(options)),
      [AppSpec.FileTask(Str("\\"), Str(Destination(options)))],
      AppSpec.HooksValue(
        Some([AppSpec.HookEvent(HookLocation(options, ApplicationStopScript), timeout)]),
        Some([AppSpec.HookEvent(HookLocation(options, BeforeInstallScript), timeout)]),
        OptionalHook(options, "afterinstall", timeout),
        Some([AppSpec.HookEvent(HookLocation(options, ApplicationStartScript), timeout)]),
        OptionalHook(options, "validateservice", timeout)))
  }

  /** What `Execute` returns or throws. */
  function ExecuteOutcome(options: map<string, NStr>, dirName: string, files: map<string, Content>): Outcome {
    if AppSpecPath(dirName) in files then Pass else OsCheck(options)
  }

  /** The directory `Execute` leaves behind. */
  function Generated(options: map<string, NStr>, timeout: int, dirName: string,
                     files: map<string, Content>): map<string, Content>
  {
    if AppSpecPath(dirName) in files || OsCheck(options).Fail? then files
    else WithDefaultScripts(files, options, dirName)[AppSpecPath(dirName) := AppSpecYaml(BuiltSpec(options, timeout))]
  }

  /** One default-filling branch of `BuildAppSpec`: a null or empty `value`
      is replaced by the default script's name and that script is written. */
  method FillDefault(dir: WorkingDirectory, s: DefaultScript, value: NStr, destination: string)
    returns (location: NStr)
    modifies dir
    ensures location == (if IsNullOrEmpty(value) then Str(ScriptName(s)) else value)
    ensures !IsNullOrEmpty(value) ==> dir.files == old(dir.files)
    ensures IsNullOrEmpty(value) ==>
              dir.files == old(dir.files)[ScriptPath(dir.fullName, s) :=
                Script(s, if s == BeforeInstallScript then [RemoveItemCommand(destination)] else [])]
  {
    location := value;
    if IsNullOrEmpty(location) {
      location := Str(ScriptName(s));
      var path := Paths.Join(dir.fullName, location.s);
      if s == BeforeInstallScript {
        var command := RemoveItemCommand(destination);
        dir.WriteFile(path, Script(s, [command]));
      } else {
        dir.WriteFile(path, Script(s, []));
      }
    }
  }

  /** The two conditional branches at the end of `BuildAppSpec`: a non-null
      value gets a new collection holding one event that runs it. */
  method AddOptionalHooks(hooks: AppSpec.HooksSection, afterInstall: NStr, validateService: NStr, timeout: int)
    modifies hooks
    ensures hooks.applicationStop == old(hooks.applicationStop) && hooks.beforeInstall == old(hooks.beforeInstall)
    ensures hooks.applicationStart == old(hooks.applicationStart)
    ensures afterInstall.Null? ==> hooks.afterInstall == old(hooks.afterInstall)
    ensures afterInstall.Str? ==> hooks.afterInstall != null && fresh(hooks.afterInstall)
                                  && hooks.afterInstall.events == [AppSpec.HookEvent(afterInstall, timeout)]
    ensures validateService.Null? ==> hooks.validateService == old(hooks.validateService)
    ensures validateService.Str? ==> hooks.validateService != null && fresh(hooks.validateService)
                                     && hooks.validateService.events == [AppSpec.HookEvent(validateService, timeout)]
    ensures afterInstall.Str? && validateService.Str? ==> hooks.afterInstall != hooks.validateService
  {
    if afterInstall != Null {
      var c := new AppSpec.HookEventCollection();
      hooks.afterInstall := c;
      c.Add(afterInstall, timeout);
    }
    if validateService != Null {
      var c := new AppSpec.HookEventCollection();
      hooks.validateService := c;
      c.Add(validateService, timeout);
    }
  }

  /** The construction at the end of `BuildAppSpec`: the os as given, one file
      mapping, one event in each required hook and a collection for each
      optional hook whose value is non-null. */
  method NewAppSpec(os: string, destination: string, applicationStop: NStr, beforeInstall: NStr,
                    afterInstall: NStr, applicationStart: NStr, validateService: NStr, timeout: int)
    returns (spec: AppSpec.AppSpec)
    ensures fresh(spec)
    ensures spec.Value() == AppSpec.AppSpecValue(
              AppSpec.DefaultVersion, Str(os), [AppSpec.FileTask(Str("\\"), Str(destination))],
              AppSpec.HooksValue(
                Some([AppSpec.HookEvent(applicationStop, timeout)]),
                Some([AppSpec.HookEvent(beforeInstall, timeout)]),
                if afterInstall.Str? then Some([AppSpec.HookEvent(afterInstall, timeout)]) else None,
                Some([AppSpec.HookEvent(applicationStart, timeout)]),
                if validateService.Str? then Some([AppSpec.HookEvent(validateService, timeout)]) else None))
  {
    spec := new AppSpec.AppSpec();
    spec.os := Str(os);
    spec.files.Add(Str("\\"), Str(destination));
    spec.hooks.applicationStop.Add(applicationStop, timeout);
    spec.hooks.beforeInstall.Add(beforeInstall, timeout);
    spec.hooks.applicationStart.Add(applicationStart, timeout);
    AddOptionalHooks(spec.hooks, afterInstall, validateService, timeout);
    assert spec.files.tasks == [AppSpec.FileTask(Str("\\"), Str(destination))];
    assert spec.hooks.applicationStop.events == [AppSpec.HookEvent(applicationStop, timeout)];
    assert spec.hooks.beforeInstall.events == [AppSpec.HookEvent(beforeInstall, timeout)];
    assert spec.hooks.applicationStart.events == [AppSpec.HookEvent(applicationStart, timeout)];
    assert AppSpec.EventsOf(spec.hooks.afterInstall) == if afterInstall.Str? then Some([AppSpec.HookEvent(afterInstall, timeout)]) else None;
    assert AppSpec.EventsOf(spec.hooks.validateService) == if validateService.Str? then Some([AppSpec.HookEvent(validateService, timeout)]) else None;
  }

  /** The collection of a required hook. */
  function RequiredHook(h: AppSpec.HooksValue, s: DefaultScript): Option<seq<AppSpec.HookEvent>> {
    match s
    case ApplicationStopScript => h.applicationStop
    case BeforeInstallScript => h.beforeInstall
    case ApplicationStartScript => h.applicationStart
  }

  /** The os passes exactly when it is "linux" or "windows" ignoring case;
      otherwise construction throws an `ArgumentException`. */
  lemma OsAcceptedIff(options: map<string, NStr>)
    ensures OsCheck(options).Pass? <==>
              SameText("linux", RequestedOs(options), OrdinalIgnoreCase)
              || SameText("windows", RequestedOs(options), OrdinalIgnoreCase)
    ensures OsCheck(options).Fail? ==> OsCheck(options).error == ArgumentError
  {
    var os := Str(RequestedOs(options));
    var m := Assert.MatchIndices(OsOptions, os, OrdinalIgnoreCase);
    if SameText("linux", os.s, OrdinalIgnoreCase) {
      assert m == {0};
    } else if SameText("windows", os.s, OrdinalIgnoreCase) {
      assert m == {1};
    } else {
      assert m == {};
    }
  }

  /** A missing or null `os` means "windows"; "LINUX" is accepted and kept in
      that spelling; "macos" and the empty string are rejected. */
  lemma OsExamples(timeout: int)
    ensures RequestedOs(map[]) == "windows" && OsCheck(map[]).Pass?
    ensures OsCheck(map["os" := Null]).Pass?
    ensures OsCheck(map["os" := Str("LINUX")]).Pass?
    ensures BuiltSpec(map["os" := Str("LINUX")], timeout).os == Str("LINUX")
    ensures OsCheck(map["os" := Str("macos")]) == Fail(ArgumentError)
    ensures OsCheck(map["os" := Str("")]) == Fail(ArgumentError)
  {
    OsAcceptedIff(map[]);
    OsAcceptedIff(map["os" := Null]);
    OsAcceptedIff(map["os" := Str("LINUX")]);
    OsAcceptedIff(map["os" := Str("macos")]);
    OsAcceptedIff(map["os" := Str("")]);
    assert !SameText("linux", "macos", OrdinalIgnoreCase) by {
      assert !CharEquals("linux"[0], "macos"[0], OrdinalIgnoreCase);
    }
  }

  /** The appspec maps the whole bundle ("\\") to the `destination` option, or
      to "c:\\inetpub\\wwwroot" when that option is missing or null. */
  lemma FileMapping(options: map<string, NStr>, timeout: int)
    ensures BuiltSpec(options, timeout).files ==
              [AppSpec.FileTask(Str("\\"), Str(if "destination" in options && options["destination"].Str?
                                                then options["destination"].s else "c:\\inetpub\\wwwroot"))]
  {
  }

  /** Each required hook holds exactly one event: the option's script when it
      is non-empty, the default script otherwise, with the default timeout. */
  lemma RequiredHooks(options: map<string, NStr>, timeout: int, s: DefaultScript)
    ensures RequiredHook(BuiltSpec(options, timeout).hooks, s) ==
              Some([AppSpec.HookEvent(
                if ScriptKey(s) in options && options[ScriptKey(s)].Str? && options[ScriptKey(s)].s != []
                then options[ScriptKey(s)] else Str(ScriptName(s)),
                timeout)])
  {
  }

  /** AfterInstall and ValidateService exist exactly when their option is
      present with a non-null value, and then hold one event running it. */
  lemma OptionalHooks(options: map<string, NStr>, timeout: int)
    ensures BuiltSpec(options, timeout).hooks.afterInstall.Some? <==>
              "afterinstall" in options && options["afterinstall"].Str?
    ensures BuiltSpec(options, timeout).hooks.afterInstall.Some? ==>
              BuiltSpec(options, timeout).hooks.afterInstall.value == [AppSpec.HookEvent(options["afterinstall"], timeout)]
    ensures BuiltSpec(options, timeout).hooks.validateService.Some? <==>
              "validateservice" in options && options["validateservice"].Str?
    ensures BuiltSpec(options, timeout).hooks.validateService.Some? ==>
              BuiltSpec(options, timeout).hooks.validateService.value == [AppSpec.HookEvent(options["validateservice"], timeout)]
  {
  }

  /** The `Remove-Item` line deletes everything under the destination: the
      wildcard follows a separator, which is inserted unless the destination
      already ends in one or in a volume colon; an empty destination leaves the
      wildcard on its own, relative to the current directory. */
  lemma RemoveItemCommandCases(destination: string)
    ensures destination == [] ==> RemoveItemCommand(destination) == "Remove-Item \"" + "*" + "\"  -Force -Recurse"
    ensures destination != [] && (Paths.IsSeparator(destination[|destination| - 1]) || destination[|destination| - 1] == ':')
            ==> RemoveItemCommand(destination) == "Remove-Item \"" + (destination + "*") + "\"  -Force -Recurse"
    ensures destination != [] && !Paths.IsSeparator(destination[|destination| - 1]) && destination[|destination| - 1] != ':'
            ==> RemoveItemCommand(destination) == "Remove-Item \"" + (destination + "\\*") + "\"  -Force -Recurse"
  {
    if destination != [] && !Paths.IsSeparator(destination[|destination| - 1]) && destination[|destination| - 1] != ':' {
      Paths.CombineInsertsSeparator(Str(destination), Str("*"));
      assert destination + "\\" + "*" == destination + "\\*";
    }
  }

  /** The four files the plugin may write have different paths. */
  lemma GeneratedPathsDistinct(dirName: string)
    ensures AppSpecPath(dirName) != ScriptPath(dirName, ApplicationStopScript)
    ensures AppSpecPath(dirName) != ScriptPath(dirName, BeforeInstallScript)
    ensures AppSpecPath(dirName) != ScriptPath(dirName, ApplicationStartScript)
    ensures ScriptPath(dirName, ApplicationStopScript) != ScriptPath(dirName, BeforeInstallScript)
    ensures ScriptPath(dirName, ApplicationStopScript) != ScriptPath(dirName, ApplicationStartScript)
    ensures ScriptPath(dirName, BeforeInstallScript) != ScriptPath(dirName, ApplicationStartScript)
  {
    var stop, before, start := ScriptName(ApplicationStopScript), ScriptName(BeforeInstallScript), ScriptName(ApplicationStartScript);
    Paths.JoinInjective(dirName, AppSpecFileName, stop);
    Paths.JoinInjective(dirName, AppSpecFileName, before);
    Paths.JoinInjective(dirName, AppSpecFileName, start);
    Paths.JoinInjective(dirName, stop, before);
    Paths.JoinInjective(dirName, stop, start);
    Paths.JoinInjective(dirName, before, start);
  }

  /** An existing top-level appspec.yml is kept and nothing is written. */
  lemma ExistingAppSpecIsKept(options: map<string, NStr>, timeout: int, dirName: string, files: map<string, Content>)
    requires AppSpecPath(dirName) in files
    ensures Generated(options, timeout, dirName, files) == files
    ensures ExecuteOutcome(options, dirName, files) == Pass
  {
  }

  /** A rejected os throws before any file is written. */
  lemma RejectedOsWritesNothing(options: map<string, NStr>, timeout: int, dirName: string, files: map<string, Content>)
    requires AppSpecPath(dirName) !in files && OsCheck(options).Fail?
    ensures Generated(options, timeout, dirName, files) == files
    ensures ExecuteOutcome(options, dirName, files) == Fail(ArgumentError)
  {
  }

  /** One default-filling branch touches only its own script's path. */
  lemma WithDefaultScriptElsewhere(files: map<string, Content>, options: map<string, NStr>, dirName: string,
                                   s: DefaultScript, p: string)
    requires p != ScriptPath(dirName, s)
    ensures p in WithDefaultScript(files, options, dirName, s) <==> p in files
    ensures p in files ==> WithDefaultScript(files, options, dirName, s)[p] == files[p]
  {
  }

  /** After the three branches, each script's path holds its default script
      when its option is null or empty, and is as it was otherwise. */
  lemma {:induction false} WithDefaultScriptsAt(files: map<string, Content>, options: map<string, NStr>, dirName: string,
                                                s: DefaultScript)
    ensures IsNullOrEmpty(Lookup(options, ScriptKey(s))) ==>
              WithDefaultScripts(files, options, dirName)[ScriptPath(dirName, s)] == Script(s, ScriptLines(options, s))
    ensures !IsNullOrEmpty(Lookup(options, ScriptKey(s))) ==>
              (ScriptPath(dirName, s) in WithDefaultScripts(files, options, dirName) <==> ScriptPath(dirName, s) in files)
              && (ScriptPath(dirName, s) in files ==>
                    WithDefaultScripts(files, options, dirName)[ScriptPath(dirName, s)] == files[ScriptPath(dirName, s)])
  {
    GeneratedPathsDistinct(dirName);
    var p := ScriptPath(dirName, s);
    var stopped := WithDefaultScript(files, options, dirName, ApplicationStopScript);
    var before := WithDefaultScript(stopped, options, dirName, BeforeInstallScript);
    match s
    case ApplicationStopScript =>
      WithDefaultScriptElsewhere(stopped, options, dirName, BeforeInstallScript, p);
      WithDefaultScriptElsewhere(before, options, dirName, ApplicationStartScript, p);
    case BeforeInstallScript =>
      WithDefaultScriptElsewhere(files, options, dirName, ApplicationStopScript, p);
      WithDefaultScriptElsewhere(before, options, dirName, ApplicationStartScript, p);
    case ApplicationStartScript =>
      WithDefaultScriptElsewhere(files, options, dirName, ApplicationStopScript, p);
      WithDefaultScriptElsewhere(stopped, options, dirName, BeforeInstallScript, p);
  }

  /** When the appspec is generated, appspec.yml holds the built appspec and
      each default script is written exactly when its option is null or empty;
      a script the options name leaves its path as it was. */
  lemma GeneratedFiles(options: map<string, NStr>, timeout: int, dirName: string, files: map<string, Content>,
                       s: DefaultScript)
    requires AppSpecPath(dirName) !in files && OsCheck(options).Pass?
    ensures ExecuteOutcome(options, dirName, files) == Pass
    ensures Generated(options, timeout, dirName, files)[AppSpecPath(dirName)] == AppSpecYaml(BuiltSpec(options, timeout))
    ensures (ScriptKey(s) !in options || IsNullOrEmpty(options[ScriptKey(s)])) ==>
              Generated(options, timeout, dirName, files)[ScriptPath(dirName, s)] == Script(s, ScriptLines(options, s))
    ensures !(ScriptKey(s) !in options || IsNullOrEmpty(options[ScriptKey(s)])) ==>
              (ScriptPath(dirName, s) in Generated(options, timeout, dirName, files) <==> ScriptPath(dirName, s) in files)
              && (ScriptPath(dirName, s) in files ==>
                    Generated(options, timeout, dirName, files)[ScriptPath(dirName, s)] == files[ScriptPath(dirName, s)])
  {
    GeneratedPathsDistinct(dirName);
    WithDefaultScriptsAt(files, options, dirName, s);
    assert AppSpecPath(dirName) != ScriptPath(dirName, s);
  }

  /** No other file of the directory is touched. */
  lemma GeneratedLeavesOtherFiles(options: map<string, NStr>, timeout: int, dirName: string,
                                  files: map<string, Content>, p: string)
    requires p != AppSpecPath(dirName) && forall s :: p != ScriptPath(dirName, s)
    ensures p in Generated(options, timeout, dirName, files) <==> p in files
    ensures p in files ==> Generated(options, timeout, dirName, files)[p] == files[p]
  {
    var stopped := WithDefaultScript(files, options, dirName, ApplicationStopScript);
    var before := WithDefaultScript(stopped, options, dirName, BeforeInstallScript);
    WithDefaultScriptElsewhere(files, options, dirName, ApplicationStopScript, p);
    WithDefaultScriptElsewhere(stopped, options, dirName, BeforeInstallScript, p);
    WithDefaultScriptElsewhere(before, options, dirName, ApplicationStartScript, p);
  }

  /** Running the plugin a second time changes nothing more, and after a
      generation it passes. */
  lemma ExecuteIsIdempotent(options: map<string, NStr>, timeout: int, dirName: string, files: map<string, Content>)
    ensures Generated(options, timeout, dirName, Generated(options, timeout, dirName, files))
            == Generated(options, timeout, dirName, files)
    ensures ExecuteOutcome(options, dirName, files) == Pass ==>
              ExecuteOutcome(options, dirName, Generated(options, timeout, dirName, files)) == Pass
  {
  }

  /** An empty string counts as given for an optional hook but not for a
      required one: `afterinstall = ""` yields an AfterInstall event with an
      empty location, while `applicationstop = ""` falls back to the default
      script, which is written. */
  lemma EmptyOptionExample(timeout: int, dirName: string)
    ensures var options := map["afterinstall" := Str(""), "applicationstop" := Str("")];
            BuiltSpec(options, timeout).hooks.afterInstall == Some([AppSpec.HookEvent(Str(""), timeout)])
            && BuiltSpec(options, timeout).hooks.applicationStop
               == Some([AppSpec.HookEvent(Str("defaultApplicationStop.ps1"), timeout)])
            && Generated(options, timeout, dirName, map[])[ScriptPath(dirName, ApplicationStopScript)]
               == Script(ApplicationStopScript, [])
  {
    var options := map["afterinstall" := Str(""), "applicationstop" := Str("")];
    OsAcceptedIff(options);
    GeneratedFiles(options, timeout, dirName, map[], ApplicationStopScript);
  }

  class CodeDeployAppSpecGenerator {
    var options: map<string, NStr>
    const settings: Settings

    /** A new generator has no options; the host fills them in. */
    constructor(settings: Settings)
      ensures options == map[] && this.settings == settings
    {
      options := map[];
      this.settings := settings;
    }

    /** An entry added through the `Options` dictionary. */
    method SetOption(key: string, value: NStr)
      modifies this
      ensures options == old(options)[key := value]
    {
      options := options[key := value];
    }

    /** `BuildAppSpec`: resolve the options, check the os, write the default
        scripts that are needed, then build the appspec. */
    method BuildAppSpec(dir: WorkingDirectory) returns (r: Result<AppSpec.AppSpec>)
      modifies dir
      ensures OsCheck(options).Fail? ==> r == Err(ArgumentError) && dir.files == old(dir.files)
      ensures OsCheck(options).Pass? ==> r.Ok? && fresh(r.value)
      ensures OsCheck(options).Pass? ==> dir.files == WithDefaultScripts(old(dir.files), options, dir.fullName)
      ensures r.Ok? ==> r.value.Value() == BuiltSpec(options, settings.defaultEventTimeout)
    {
      var timeout := settings.defaultEventTimeout;
      var os := Coalesce(Lookup(options, "os"), DefaultOs);
      var check := Assert.IsWhitelistedValue(Str(os), Some(OsOptions));
      if check.Fail? {
        return Err(check.error);
      }
      var destination := Coalesce(Lookup(options, "destination"), DefaultDestination);
      var applicationStop := Lookup(options, "applicationstop");
      var beforeInstall := Lookup(options, "beforeinstall");
      var afterInstall := Lookup(options, "afterinstall");
      var applicationStart := Lookup(options, "applicationstart");
      var validateService := Lookup(options, "validateservice");

      ghost var files0 := dir.files;
      applicationStop := FillDefault(dir, ApplicationStopScript, applicationStop, destination);
      ghost var files1 := dir.files;
      beforeInstall := FillDefault(dir, BeforeInstallScript, beforeInstall, destination);
      ghost var files2 := dir.files;
      applicationStart := FillDefault(dir, ApplicationStartScript, applicationStart, destination);
      assert files1 == WithDefaultScript(files0, options, dir.fullName, ApplicationStopScript);
      assert files2 == WithDefaultScript(files1, options, dir.fullName, BeforeInstallScript);

      var spec := NewAppSpec(os, destination, applicationStop, beforeInstall, afterInstall,
                             applicationStart, validateService, timeout);
      return Ok(spec);
    }

    /** `Execute`: an `appspec.yml` at the top of the working directory is left
        alone; otherwise the appspec is built and written there. An exception
        from building is rethrown unchanged. */
    method Execute(dir: WorkingDirectory) returns (r: Outcome)
      modifies dir
      ensures r == ExecuteOutcome(options, dir.fullName, old(dir.files))
      ensures dir.files == Generated(options, settings.defaultEventTimeout, dir.fullName, old(dir.files))
    {
      var appSpecPath := Paths.Join(dir.fullName, AppSpecFileName);
      if appSpecPath in dir.files {
        return Pass;
      }
      var built := BuildAppSpec(dir);
      if built.Err? {
        return Fail(built.error);
      }
      var spec := built.value;
      dir.WriteFile(appSpecPath, AppSpecYaml(spec.Value()));
      return Pass;
    }
  }
}
