/** The CodeDeploy `appspec.yml` object graph: an `AppSpec` holding a version,
    an operating system, a `FileSection` of source-to-destination mappings and
    a `HooksSection` of lifecycle hook collections. Each class keeps the fields
    the source sets; `Value()` reads the graph off as a value whose fields are
    listed in the order the serializer emits them. */
module AppSpec {
  import opened Outcomes

  /** The version a new `AppSpec` carries. */
  const DefaultVersion: string := "0.0"

  /** The source a new `FileTask` starts with before its initializer runs. */
  const DefaultSource: string := "\\"

  /** One entry of the `files` section. */
  datatype FileTask = FileTask(source: NStr, destination: NStr)

  /** A `FileTask` as its parameterless constructor leaves it. */
  const NewFileTask: FileTask := FileTask(Str(DefaultSource), Null)

  /** One script run by a lifecycle hook, with its timeout in seconds. */
  datatype HookEvent = HookEvent(location: NStr, timeout: int)

  /** A `HookEvent` as its constructor leaves it: the timeout comes from the
      `DefaultEventTimeout` setting, passed in here. */
  function NewHookEvent(defaultTimeout: int): HookEvent {
    HookEvent(Null, defaultTimeout)
  }

  /** The hooks in emission order; `None` is a null collection. */
  datatype HooksValue = HooksValue(
    applicationStop: Option<seq<HookEvent>>,
    beforeInstall: Option<seq<HookEvent>>,
    afterInstall: Option<seq<HookEvent>>,
    applicationStart: Option<seq<HookEvent>>,
    validateService: Option<seq<HookEvent>>)

  /** A whole `AppSpec` in emission order: version, os, files, hooks. */
  datatype AppSpecValue = AppSpecValue(version: string, os: NStr, files: seq<FileTask>, hooks: HooksValue)

  /** The hooks of a new `HooksSection`. */
  const NewHooks: HooksValue := HooksValue(Some([]), Some([]), None, Some([]), None)

  /** `FileSection`, a `HashSet<FileTask>`. `FileTask` has reference equality,
      so every added task is a new element; the set is kept as the sequence of
      tasks in insertion order. */
  class FileSection {
    var tasks: seq<FileTask>

    constructor()
      ensures tasks == []
    {
      tasks := [];
    }

    /** `Add(source, destination)`: a new task, its default source then
        overwritten by the initializer, is inserted. */
    method Add(source: NStr, destination: NStr)
      modifies this
      ensures tasks == old(tasks) + [FileTask(source, destination)]
    {
      var task := NewFileTask.(source := source, destination := destination);
      tasks := tasks + [task];
    }
  }

  /** `HookEventCollection`, a `HashSet<HookEvent>` kept, for the same reason
      as `FileSection`, as the sequence of its events. */
  class HookEventCollection {
    var events: seq<HookEvent>

    constructor()
      ensures events == []
    {
      events := [];
    }

    /** `Add(location)`: a new event with the default timeout and the given
        location is inserted. */
    method Add(location: NStr, defaultTimeout: int)
      modifies this
      ensures events == old(events) + [HookEvent(location, defaultTimeout)]
    {
      var e := NewHookEvent(defaultTimeout).(location := location);
      events := events + [e];
    }
  }

  /** The events of a possibly null collection. */
  function EventsOf(c: HookEventCollection?): Option<seq<HookEvent>>
    reads c
  {
    if c == null then None else Some(c.events)
  }

  class HooksSection {
    var applicationStop: HookEventCollection?
    var beforeInstall: HookEventCollection?
    var afterInstall: HookEventCollection?
    var applicationStart: HookEventCollection?
    var validateService: HookEventCollection?

    /** Three empty collections, distinct objects, and two null ones. */
    constructor()
      ensures applicationStop != null && fresh(applicationStop)
      ensures beforeInstall != null && fresh(beforeInstall)
      ensures applicationStart != null && fresh(applicationStart)
      ensures applicationStop != beforeInstall && applicationStop != applicationStart
      ensures beforeInstall != applicationStart
      ensures afterInstall == null && validateService == null
      ensures Value() == NewHooks
    {
      applicationStop := new HookEventCollection();
      beforeInstall := new HookEventCollection();
      applicationStart := new HookEventCollection();
      afterInstall := null;
      validateService := null;
    }

    function Value(): HooksValue
      reads this, applicationStop, beforeInstall, afterInstall, applicationStart, validateService
    {
      HooksValue(EventsOf(applicationStop), EventsOf(beforeInstall), EventsOf(afterInstall),
                 EventsOf(applicationStart), EventsOf(validateService))
    }
  }

  class AppSpec {
    var version: string
    var os: NStr
    var files: FileSection
    var hooks: HooksSection

    /** Version "0.0", an empty file section, a new hooks section and no os. */
    constructor()
      ensures fresh(files) && fresh(hooks)
      ensures hooks.applicationStop != null && fresh(hooks.applicationStop)
      ensures hooks.beforeInstall != null && fresh(hooks.beforeInstall)
      ensures hooks.applicationStart != null && fresh(hooks.applicationStart)
      ensures hooks.applicationStop != hooks.beforeInstall && hooks.applicationStop != hooks.applicationStart
      ensures hooks.beforeInstall != hooks.applicationStart
      ensures hooks.afterInstall == null && hooks.validateService == null
      ensures Value() == AppSpecValue(DefaultVersion, Null, [], NewHooks)
    {
      version := DefaultVersion;
      os := Null;
      files := new FileSection();
      hooks := new HooksSection();
    }

    function Value(): AppSpecValue
      reads this, files, hooks, hooks.applicationStop, hooks.beforeInstall, hooks.afterInstall,
            hooks.applicationStart, hooks.validateService
    {
      AppSpecValue(version, os, files.tasks, hooks.Value())
    }
  }
}
