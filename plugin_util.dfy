/** The plugin engine. A discovered plugin is a record of its `Priority`, its
    `ThrowOnError` flag and how its `Execute` ends in this run; a run of one
    assembly's plugins is the trace of events its loops produce. Reflection,
    `AppDomain` creation and assembly loading are left to the caller, which
    supplies the plugins of each assembly in discovery order. The module also
    holds `Domain_ResourceResolve`, the tiered dependency lookup. */
module PluginUtil {
  import opened Outcomes
  import Text

  /** How a plugin's `Execute` ends in the run being modelled. */
  datatype ExecOutcome = Succeeds | Throws

  /** A discovered plugin (an `IDeploymentTask` instance). */
  datatype Task = Task(priority: int, throwOnError: bool, outcome: ExecOutcome)

  /** A plugin by the index of its assembly in the enumeration and its index
      in that assembly's discovery order. */
  datatype TaskId = TaskId(assembly: nat, index: nat)

  /** The observable steps of the plugin loops. */
  datatype TaskEvent =
    | Instantiated(id: TaskId)   // `Activator.CreateInstance` and `plugins.Add`
    | Disposed(id: TaskId)       // a `Dispose` call
    | Executing(id: TaskId)      // the "Executing" log line, then `Execute`
    | FailureLogged(id: TaskId)  // a failure of a plugin without `ThrowOnError`, logged
    | Rethrown(id: TaskId)       // a failure of a `ThrowOnError` plugin, wrapped and thrown
    | Completed(id: TaskId)      // the "Completed executing" line of the `finally`
    | ErrorLogged(id: TaskId)    // the outer catch of `PluginProxyDomain.ExecutePlugins`

  // ---------------------------------------------------------------------------
  // The order of `plugins.OrderBy(p => p.Priority)`

  /** Plugin `i` comes before plugin `j` in a stable ascending sort by priority:
      a lower priority, or the same priority and an earlier discovery index. */
  predicate Before(tasks: seq<Task>, i: nat, j: nat)
    requires i < |tasks| && j < |tasks|
  {
    tasks[i].priority < tasks[j].priority || (tasks[i].priority == tasks[j].priority && i < j)
  }

  predicate InRange(tasks: seq<Task>, order: seq<nat>) {
    forall k :: 0 <= k < |order| ==> order[k] < |tasks|
  }

  /** The plugins at positions `a` and `b` of `order` are in `Before` order. */
  predicate InOrder(tasks: seq<Task>, order: seq<nat>, a: nat, b: nat) {
    a < |order| && b < |order| && order[a] < |tasks| && order[b] < |tasks| && Before(tasks, order[a], order[b])
  }

  /** `order` lists plugin indices strictly ordered by `Before`. */
  predicate Sorted(tasks: seq<Task>, order: seq<nat>)
    requires InRange(tasks, order)
  {
    forall a, b :: 0 <= a < b < |order| ==> InOrder(tasks, order, a, b)
  }

  lemma SortedTail(tasks: seq<Task>, order: seq<nat>)
    requires order != [] && InRange(tasks, order)
    ensures InRange(tasks, order[1..])
    ensures Sorted(tasks, order) ==> Sorted(tasks, order[1..])
  {
    var tail := order[1..];
    if Sorted(tasks, order) {
      forall a, b | 0 <= a < b < |tail| ensures InOrder(tasks, tail, a, b) {
        assert InOrder(tasks, order, a + 1, b + 1);
      }
    }
  }

  /** The indices `0 .. n-1` as a multiset. */
  function Indices(n: nat): multiset<nat> {
    if n == 0 then multiset{} else Indices(n - 1) + multiset{n - 1}
  }

  lemma {:induction false} IndicesMembership(n: nat, k: nat)
    ensures k in Indices(n) <==> k < n
  {
    if n > 0 {
      IndicesMembership(n - 1, k);
    }
  }

  function Insert(tasks: seq<Task>, i: nat, order: seq<nat>): (r: seq<nat>)
    requires i < |tasks| && InRange(tasks, order)
    ensures InRange(tasks, r) && multiset(r) == multiset(order) + multiset{i}
  {
    if order == [] then [i]
    else if Before(tasks, i, order[0]) then [i] + order
    else
      assert order == [order[0]] + order[1..];
      [order[0]] + Insert(tasks, i, order[1..])
  }

  lemma {:induction false} InsertSorted(tasks: seq<Task>, i: nat, order: seq<nat>)
    requires i < |tasks| && InRange(tasks, order) && i !in multiset(order)
    ensures Sorted(tasks, order) ==> Sorted(tasks, Insert(tasks, i, order))
  {
    var r := Insert(tasks, i, order);
    if !Sorted(tasks, order) {
    } else if order == [] {
      assert r == [i];
    } else if Before(tasks, i, order[0]) {
      assert r == [i] + order;
      forall a, b | 0 <= a < b < |r| ensures InOrder(tasks, r, a, b) {
        if a == 0 {
          if b > 1 {
            assert InOrder(tasks, order, 0, b - 1);
          }
        } else {
          assert InOrder(tasks, order, a - 1, b - 1);
        }
      }
    } else {
      var tail := order[1..];
      assert order == [order[0]] + tail;
      assert multiset(order) == multiset{order[0]} + multiset(tail);
      SortedTail(tasks, order);
      InsertSorted(tasks, i, tail);
      var rest := Insert(tasks, i, tail);
      assert r == [order[0]] + rest;
      assert i != order[0];
      forall a, b | 0 <= a < b < |r| ensures InOrder(tasks, r, a, b) {
        if a == 0 {
          var x := rest[b - 1];
          assert x in multiset(rest);
          if x != i {
            assert x in multiset(tail);
            var k :| 0 <= k < |tail| && tail[k] == x;
            assert InOrder(tasks, order, 0, k + 1);
          }
        } else {
          assert InOrder(tasks, rest, a - 1, b - 1);
        }
      }
    }
  }

  /** The discovery indices `0 .. n-1`, inserted one after the other into a
      listing ordered by `Before`. */
  function SortedPrefix(tasks: seq<Task>, n: nat): (r: seq<nat>)
    requires n <= |tasks|
    ensures InRange(tasks, r) && Sorted(tasks, r) && multiset(r) == Indices(n)
  {
    if n == 0 then []
    else
      var prev := SortedPrefix(tasks, n - 1);
      InsertNext(tasks, n - 1, prev);
      Insert(tasks, n - 1, prev)
  }

  /** Inserting index `n` into a sorted listing of `0 .. n-1` gives a sorted
      listing of `0 .. n`. */
  lemma InsertNext(tasks: seq<Task>, n: nat, prev: seq<nat>)
    requires n < |tasks| && InRange(tasks, prev) && multiset(prev) == Indices(n)
    ensures var r := Insert(tasks, n, prev);
            multiset(r) == Indices(n + 1) && (Sorted(tasks, prev) ==> Sorted(tasks, r))
  {
    IndicesMembership(n, n);
    InsertSorted(tasks, n, prev);
  }

  /** `plugins.OrderBy(p => p.Priority)`, as discovery indices: every plugin
      exactly once, ascending by priority, equal priorities in discovery order. */
  function SortedOrder(tasks: seq<Task>): (order: seq<nat>)
    ensures InRange(tasks, order) && Sorted(tasks, order) && multiset(order) == Indices(|tasks|)
  {
    SortedPrefix(tasks, |tasks|)
  }

  /** `SortedOrder` lists every plugin exactly once. */
  lemma SortedOrderIsPermutation(tasks: seq<Task>, i: nat)
    ensures i < |tasks| <==> i in SortedOrder(tasks)
    ensures i < |tasks| ==> multiset(SortedOrder(tasks))[i] == 1
  {
    IndicesMembership(|tasks|, i);
    if i < |tasks| {
      IndexOccursOnce(|tasks|, i);
    }
  }

  lemma {:induction false} IndexOccursOnce(n: nat, i: nat)
    requires i < n
    ensures Indices(n)[i] == 1
  {
    if i < n - 1 {
      IndexOccursOnce(n - 1, i);
    } else {
      IndicesMembership(n - 1, i);
    }
  }

  /** The head of a sorted listing comes before every other member. */
  lemma FirstIsLeast(tasks: seq<Task>, p: seq<nat>, x: nat)
    requires InRange(tasks, p) && x in multiset(p)
    ensures Sorted(tasks, p) ==> x == p[0] || (x < |tasks| && p[0] < |tasks| && Before(tasks, p[0], x))
  {
    var k :| 0 <= k < |p| && p[k] == x;
    if Sorted(tasks, p) && k > 0 {
      assert InOrder(tasks, p, 0, k);
    }
  }

  /** Any listing of the plugins that is ordered by `Before` is the one
      `SortedOrder` gives: the stable order is unique. */
  lemma {:induction false} SortedIsUnique(tasks: seq<Task>, p: seq<nat>, q: seq<nat>)
    requires InRange(tasks, p) && InRange(tasks, q) && multiset(p) == multiset(q)
    ensures Sorted(tasks, p) && Sorted(tasks, q) ==> p == q
  {
    if p != [] && Sorted(tasks, p) && Sorted(tasks, q) {
      assert q != [] by { assert p[0] in multiset(q); }
      assert p[0] in multiset(q) && q[0] in multiset(p);
      FirstIsLeast(tasks, q, p[0]);
      FirstIsLeast(tasks, p, q[0]);
      assert p[0] == q[0];
      assert p == [p[0]] + p[1..] && q == [q[0]] + q[1..];
      assert multiset(p) == multiset{p[0]} + multiset(p[1..]);
      assert multiset(q) == multiset{q[0]} + multiset(q[1..]);
      assert multiset(p[1..]) == multiset(p) - multiset{p[0]};
      assert multiset(q[1..]) == multiset(q) - multiset{q[0]};
      SortedTail(tasks, p);
      SortedTail(tasks, q);
      SortedIsUnique(tasks, p[1..], q[1..]);
    }
  }

  function ExampleTasks(): seq<Task> {
    [Task(5, false, Succeeds), Task(1, false, Succeeds),
     Task(1, false, Succeeds), Task(3, false, Succeeds)]
  }

  lemma ExampleOrderSorted()
    ensures InRange(ExampleTasks(), [1, 2, 3, 0]) && Sorted(ExampleTasks(), [1, 2, 3, 0])
  {
  }

  lemma ExampleOrderComplete()
    ensures multiset([1, 2, 3, 0]) == Indices(4)
  {
    assert Indices(4) == multiset{0, 1, 2, 3};
  }

  /** The priorities 5, 1, 1, 3 run as the second, the third, the fourth and
      then the first plugin. */
  lemma SortExample()
    ensures SortedOrder(ExampleTasks()) == [1, 2, 3, 0]
  {
    ExampleOrderSorted();
    ExampleOrderComplete();
    SortedIsUnique(ExampleTasks(), SortedOrder(ExampleTasks()), [1, 2, 3, 0]);
  }

  // ---------------------------------------------------------------------------
  // The loops of one assembly (PluginProxyDomain.ExecutePlugins and the
  // per-assembly body of Pipeline.RunPlugins)

  /** The trace of a run and the plugin whose fail-fast failure ended it. */
  datatype RunResult = RunResult(events: seq<TaskEvent>, abortedAt: Option<TaskId>)

  function Prepend(events: seq<TaskEvent>, r: RunResult): RunResult {
    RunResult(events + r.events, r.abortedAt)
  }

  /** The discovery loop: each plugin is created, added to the list and
      disposed at the end of its `using` block, in discovery order. */
  function Instantiation(a: nat, n: nat): (events: seq<TaskEvent>)
    ensures |events| == 2 * n
  {
    if n == 0 then []
    else Instantiation(a, n - 1) + [Instantiated(TaskId(a, n - 1)), Disposed(TaskId(a, n - 1))]
  }

  /** The discovery loop creates plugin `j / 2` at even positions and disposes
      of it at the next one. */
  lemma {:induction false} InstantiationAt(a: nat, n: nat)
    ensures forall j :: 0 <= j < 2 * n ==>
              Instantiation(a, n)[j] == (if j % 2 == 0 then Instantiated(TaskId(a, j / 2)) else Disposed(TaskId(a, j / 2)))
  {
    if n > 0 {
      InstantiationAt(a, n - 1);
    }
  }

  /** One pass of the execution loop for plugin `i`. */
  function Step(a: nat, i: nat, t: Task): RunResult {
    var id := TaskId(a, i);
    if t.outcome.Succeeds? then RunResult([Executing(id), Completed(id), Disposed(id)], None)
    else if !t.throwOnError then RunResult([Executing(id), FailureLogged(id), Completed(id), Disposed(id)], None)
    else RunResult([Executing(id), Rethrown(id), Completed(id)], Some(id))
  }

  /** The execution loop over `order`: it stops after the first fail-fast failure. */
  function ExecuteInOrder(a: nat, tasks: seq<Task>, order: seq<nat>): RunResult
    requires InRange(tasks, order)
  {
    if order == [] then RunResult([], None)
    else
      var first := Step(a, order[0], tasks[order[0]]);
      if first.abortedAt.Some? then first
      else Prepend(first.events, ExecuteInOrder(a, tasks, order[1..]))
  }

  /** The plugins of assembly `a`: discovered, then run in priority order. */
  function RunAssembly(a: nat, tasks: seq<Task>): RunResult {
    Prepend(Instantiation(a, |tasks|), ExecuteInOrder(a, tasks, SortedOrder(tasks)))
  }

  /** A plugin whose failure aborts the run. */
  predicate FailsFast(t: Task) {
    t.throwOnError && t.outcome.Throws?
  }

  /** The number of plugins of `order` that execute: all of them, or up to and
      including the first that fails fast. */
  function ExecutedCount(tasks: seq<Task>, order: seq<nat>): (n: nat)
    requires InRange(tasks, order)
    ensures n <= |order|
    ensures order != [] ==> 0 < n
    ensures 0 < n < |order| ==> FailsFast(tasks[order[n - 1]])
    ensures forall k :: 0 <= k < n - 1 ==> !FailsFast(tasks[order[k]])
  {
    if order == [] then 0
    else if FailsFast(tasks[order[0]]) then 1
    else 1 + ExecutedCount(tasks, order[1..])
  }

  /** The plugins that were executed, in execution order. */
  function Executed(events: seq<TaskEvent>): seq<TaskId> {
    if events == [] then []
    else (if events[0].Executing? then [events[0].id] else []) + Executed(events[1..])
  }

  lemma {:induction false} ExecutedConcat(e1: seq<TaskEvent>, e2: seq<TaskEvent>)
    ensures Executed(e1 + e2) == Executed(e1) + Executed(e2)
  {
    if e1 != [] {
      var head := if e1[0].Executing? then [e1[0].id] else [];
      assert (e1 + e2)[0] == e1[0];
      assert (e1 + e2)[1..] == e1[1..] + e2;
      assert Executed(e1 + e2) == head + Executed(e1[1..] + e2);
      assert Executed(e1) == head + Executed(e1[1..]);
      ExecutedConcat(e1[1..], e2);
    } else {
      assert e1 + e2 == e2;
    }
  }

  lemma {:induction false} NoneExecuting(events: seq<TaskEvent>)
    requires forall k :: 0 <= k < |events| ==> !events[k].Executing?
    ensures Executed(events) == []
  {
    if events != [] {
      NoneExecuting(events[1..]);
    }
  }

  /** One pass of the loop executes exactly its own plugin. */
  lemma StepExecutesOne(a: nat, i: nat, t: Task)
    ensures Executed(Step(a, i, t).events) == [TaskId(a, i)]
  {
    var e := Step(a, i, t).events;
    assert e == [e[0]] + e[1..];
    NoneExecuting(e[1..]);
    ExecutedConcat([e[0]], e[1..]);
    assert Executed([e[0]]) == [TaskId(a, i)] by {
      assert [e[0]][1..] == [];
    }
  }

  function Ids(a: nat, order: seq<nat>): (ids: seq<TaskId>)
    ensures |ids| == |order|
    ensures forall k :: 0 <= k < |order| ==> ids[k] == TaskId(a, order[k])
  {
    if order == [] then [] else [TaskId(a, order[0])] + Ids(a, order[1..])
  }

  /** The plugins run in the order given, stopping exactly after the first
      fail-fast failure. */
  lemma {:induction false} ExecuteInOrderRunsPrefix(a: nat, tasks: seq<Task>, order: seq<nat>)
    requires InRange(tasks, order)
    ensures Executed(ExecuteInOrder(a, tasks, order).events) == Ids(a, order[..ExecutedCount(tasks, order)])
  {
    if order != [] {
      var first := Step(a, order[0], tasks[order[0]]);
      StepExecutesOne(a, order[0], tasks[order[0]]);
      if !FailsFast(tasks[order[0]]) {
        var tail := order[1..];
        var rest := ExecuteInOrder(a, tasks, tail);
        assert ExecuteInOrder(a, tasks, order).events == first.events + rest.events;
        ExecuteInOrderRunsPrefix(a, tasks, tail);
        ExecutedConcat(first.events, rest.events);
        var n := ExecutedCount(tasks, tail);
        assert ExecutedCount(tasks, order) == n + 1;
        IdsCons(a, order[0], tail[..n]);
        assert order[..n + 1] == [order[0]] + tail[..n];
      } else {
        assert ExecuteInOrder(a, tasks, order) == first;
        assert ExecutedCount(tasks, order) == 1;
        assert order[..1] == [order[0]] + [];
        IdsCons(a, order[0], []);
      }
    }
  }

  lemma IdsCons(a: nat, x: nat, s: seq<nat>)
    ensures Ids(a, [x] + s) == [TaskId(a, x)] + Ids(a, s)
  {
    assert ([x] + s)[1..] == s;
  }

  /** The run is aborted exactly when some plugin of the order fails fast, and
      then `abortedAt` names the last plugin that executed. */
  lemma {:induction false} ExecuteInOrderAborts(a: nat, tasks: seq<Task>, order: seq<nat>)
    requires InRange(tasks, order)
    ensures ExecuteInOrder(a, tasks, order).abortedAt.Some?
            <==> exists k :: 0 <= k < |order| && FailsFast(tasks[order[k]])
    ensures ExecuteInOrder(a, tasks, order).abortedAt.Some? ==>
            ExecuteInOrder(a, tasks, order).abortedAt
            == Some(TaskId(a, order[ExecutedCount(tasks, order) - 1]))
  {
    if order != [] && !FailsFast(tasks[order[0]]) {
      var tail := order[1..];
      ExecuteInOrderAborts(a, tasks, tail);
      if exists k :: 0 <= k < |order| && FailsFast(tasks[order[k]]) {
        var k :| 0 <= k < |order| && FailsFast(tasks[order[k]]);
        assert tail[k - 1] == order[k];
      }
      if exists k :: 0 <= k < |tail| && FailsFast(tasks[tail[k]]) {
        var k :| 0 <= k < |tail| && FailsFast(tasks[tail[k]]);
        assert order[k + 1] == tail[k];
      }
    }
  }

  /** Running `p` and then `x`, when `p` does not abort, is the trace of `p`
      followed by the pass for `x`. */
  lemma {:induction false} ExecuteInOrderSnoc(a: nat, tasks: seq<Task>, p: seq<nat>, x: nat)
    requires InRange(tasks, p) && x < |tasks|
    requires ExecuteInOrder(a, tasks, p).abortedAt.None?
    ensures InRange(tasks, p + [x])
    ensures ExecuteInOrder(a, tasks, p + [x])
            == Prepend(ExecuteInOrder(a, tasks, p).events, Step(a, x, tasks[x]))
  {
    if p == [] {
      assert p + [x] == [x];
      assert [x][1..] == [];
    } else {
      assert (p + [x])[0] == p[0];
      assert (p + [x])[1..] == p[1..] + [x];
      ExecuteInOrderSnoc(a, tasks, p[1..], x);
    }
  }

  /** The loops of one assembly: the discovery loop with its `using` blocks,
      then the execution loop over `plugins.OrderBy(p => p.Priority)`. The
      list the discovery loop fills holds the plugins in discovery order,
      which is `tasks` itself, so the sort ranges over `tasks`. */
  method ExecuteAssembly(a: nat, tasks: seq<Task>) returns (events: seq<TaskEvent>, abortedAt: Option<TaskId>)
    ensures RunResult(events, abortedAt) == RunAssembly(a, tasks)
  {
    events := [];
    var k := 0;
    while k < |tasks|
      invariant 0 <= k <= |tasks|
      invariant events == Instantiation(a, k)
    {
      events := events + [Instantiated(TaskId(a, k))];
      events := events + [Disposed(TaskId(a, k))];
      k := k + 1;
    }
    var order := SortedOrder(tasks);
    var executed;
    executed, abortedAt := ExecuteSorted(a, tasks, order);
    events := events + executed;
  }

  /** The execution loop of `ExecutePlugins`: each plugin of `order` runs in
      its own `try`/`catch`/`finally`; a failure of a fail-fast plugin leaves
      the loop, any other failure is logged and the plugin is disposed. */
  method ExecuteSorted(a: nat, tasks: seq<Task>, order: seq<nat>) returns (events: seq<TaskEvent>, abortedAt: Option<TaskId>)
    requires InRange(tasks, order)
    ensures RunResult(events, abortedAt) == ExecuteInOrder(a, tasks, order)
  {
    events := [];
    var j := 0;
    while j < |order|
      invariant 0 <= j <= |order|
      invariant ExecuteInOrder(a, tasks, order[..j]) == RunResult(events, None)
    {
      var i := order[j];
      var id := TaskId(a, i);
      ghost var before := events;
      ghost var step := Step(a, i, tasks[i]);
      ExecuteOneMore(a, tasks, order, j);
      events := events + [Executing(id)];
      if tasks[i].outcome.Throws? {
        if tasks[i].throwOnError {
          events := events + [Rethrown(id), Completed(id)];
          assert step.events == [Executing(id), Rethrown(id), Completed(id)];
          assert events == before + step.events;
          return events, Some(id);
        }
        events := events + [FailureLogged(id)];
        assert step.events == [Executing(id), FailureLogged(id), Completed(id), Disposed(id)];
      } else {
        assert step.events == [Executing(id), Completed(id), Disposed(id)];
      }
      events := events + [Completed(id)];
      events := events + [Disposed(id)];
      assert events == before + step.events;
      j := j + 1;
    }
    assert order[..j] == order;
    abortedAt := None;
  }

  /** One more pass of the execution loop extends the run of the prefix
      `order[..j]` by the pass for `order[j]`; a pass that fails fast ends the
      run of the whole order. */
  lemma ExecuteOneMore(a: nat, tasks: seq<Task>, order: seq<nat>, j: nat)
    requires InRange(tasks, order) && j < |order|
    requires ExecuteInOrder(a, tasks, order[..j]).abortedAt.None?
    ensures ExecuteInOrder(a, tasks, order[..j + 1])
            == Prepend(ExecuteInOrder(a, tasks, order[..j]).events, Step(a, order[j], tasks[order[j]]))
    ensures FailsFast(tasks[order[j]]) ==> ExecuteInOrder(a, tasks, order) == ExecuteInOrder(a, tasks, order[..j + 1])
  {
    ExecuteInOrderSnoc(a, tasks, order[..j], order[j]);
    assert order[..j + 1] == order[..j] + [order[j]];
    if FailsFast(tasks[order[j]]) {
      assert order[..|order|] == order;
      PrefixAbortsWhole(a, tasks, order, j + 1);
    }
  }

  /** A prefix of the order that aborts is where the whole run ends. */
  lemma {:induction false} PrefixAbortsWhole(a: nat, tasks: seq<Task>, order: seq<nat>, n: nat)
    requires InRange(tasks, order) && n <= |order|
    requires ExecuteInOrder(a, tasks, order[..n]).abortedAt.Some?
    ensures ExecuteInOrder(a, tasks, order) == ExecuteInOrder(a, tasks, order[..n])
  {
    if n > 0 {
      assert order[..n][0] == order[0];
      var first := Step(a, order[0], tasks[order[0]]);
      if first.abortedAt.None? {
        assert order[..n][1..] == order[1..][..n - 1];
        PrefixAbortsWhole(a, tasks, order[1..], n - 1);
      }
    }
  }

  /** The discovery loop executes nothing: every plugin is created and
      disposed before the first one runs. */
  lemma DiscoveryExecutesNothing(a: nat, n: nat)
    ensures Executed(Instantiation(a, n)) == []
  {
    InstantiationAt(a, n);
    NoneExecuting(Instantiation(a, n));
  }

  /** `Execute` and the rest of the execution loop run on plugins that were
      already disposed: a plugin's `Dispose` is called at load and again after
      it ran, unless it failed fast. */
  lemma DisposedBeforeExecute(a: nat, tasks: seq<Task>, i: nat)
    requires i < |tasks|
    ensures Disposed(TaskId(a, i)) in RunAssembly(a, tasks).events[..2 * |tasks|]
  {
    var inst := Instantiation(a, |tasks|);
    InstantiationAt(a, |tasks|);
    var run := ExecuteInOrder(a, tasks, SortedOrder(tasks));
    assert RunAssembly(a, tasks).events == inst + run.events;
    assert (inst + run.events)[..2 * |tasks|] == inst;
    assert (2 * i + 1) % 2 == 1 && (2 * i + 1) / 2 == i;
    assert inst[2 * i + 1] == Disposed(TaskId(a, i));
  }

  /** A plugin that executed and did not fail fast is disposed after it ran. */
  lemma {:induction false} ExecutedPluginDisposed(a: nat, tasks: seq<Task>, order: seq<nat>, k: nat)
    requires InRange(tasks, order) && k < ExecutedCount(tasks, order)
    requires !FailsFast(tasks[order[k]])
    ensures Disposed(TaskId(a, order[k])) in ExecuteInOrder(a, tasks, order).events
  {
    var first := Step(a, order[0], tasks[order[0]]);
    if k == 0 {
      assert first.events[|first.events| - 1] == Disposed(TaskId(a, order[0]));
    } else {
      assert order[1..][k - 1] == order[k];
      ExecutedPluginDisposed(a, tasks, order[1..], k - 1);
    }
  }

  predicate Distinct(order: seq<nat>) {
    forall i, j :: 0 <= i < j < |order| ==> order[i] != order[j]
  }

  /** The plugin named by an aborted run is one of the order, and the run
      ends with its "Executing", its rethrown failure and the line of the
      `finally`. */
  lemma {:induction false} AbortEndsRun(a: nat, tasks: seq<Task>, order: seq<nat>, id: TaskId)
    requires InRange(tasks, order)
    requires ExecuteInOrder(a, tasks, order).abortedAt == Some(id)
    ensures exists k :: 0 <= k < |order| && id == TaskId(a, order[k])
    ensures |ExecuteInOrder(a, tasks, order).events| >= 3
    ensures var e := ExecuteInOrder(a, tasks, order).events;
            e[|e| - 3..] == [Executing(id), Rethrown(id), Completed(id)]
  {
    var first := Step(a, order[0], tasks[order[0]]);
    if first.abortedAt.None? {
      var tail := order[1..];
      var rest := ExecuteInOrder(a, tasks, tail);
      AbortEndsRun(a, tasks, tail, id);
      var k :| 0 <= k < |tail| && id == TaskId(a, tail[k]);
      assert order[k + 1] == tail[k];
      var e := first.events + rest.events;
      assert e[|e| - 3..] == rest.events[|rest.events| - 3..];
    }
  }

  /** After a fail-fast failure nothing else happens: no other plugin's
      failure was rethrown, and the failing plugin's `Dispose` after execution
      is skipped. */
  lemma {:induction false} AbortSkipsDispose(a: nat, tasks: seq<Task>, order: seq<nat>, id: TaskId)
    requires InRange(tasks, order) && Distinct(order)
    requires ExecuteInOrder(a, tasks, order).abortedAt == Some(id)
    ensures Disposed(id) !in ExecuteInOrder(a, tasks, order).events
    ensures var e := ExecuteInOrder(a, tasks, order).events;
            forall k :: 0 <= k < |e| ==> e[k].Rethrown? ==> e[k].id == id
  {
    var first := Step(a, order[0], tasks[order[0]]);
    if first.abortedAt.None? {
      var tail := order[1..];
      var rest := ExecuteInOrder(a, tasks, tail);
      assert Distinct(tail) by {
        forall i, j | 0 <= i < j < |tail| ensures tail[i] != tail[j] {
          assert tail[i] == order[i + 1] && tail[j] == order[j + 1];
        }
      }
      AbortSkipsDispose(a, tasks, tail, id);
      AbortEndsRun(a, tasks, tail, id);
      var k :| 0 <= k < |tail| && id == TaskId(a, tail[k]);
      assert order[k + 1] == tail[k];
      assert id != TaskId(a, order[0]);
      assert Disposed(id) !in first.events;
      var e := first.events + rest.events;
      forall j | 0 <= j < |e| && e[j].Rethrown? ensures e[j].id == id {
        assert j >= |first.events|;
        assert e[j] == rest.events[j - |first.events|];
      }
    }
  }

  /** The stable order lists each plugin once. */
  lemma SortedOrderDistinct(tasks: seq<Task>)
    ensures Distinct(SortedOrder(tasks))
  {
    var order := SortedOrder(tasks);
    forall i, j | 0 <= i < j < |order| ensures order[i] != order[j] {
      assert InOrder(tasks, order, i, j);
    }
  }

  /** A run without fail-fast plugins executes every plugin, in priority
      order, and disposes each after it ran. */
  lemma RunWithoutFailFast(a: nat, tasks: seq<Task>)
    requires forall i :: 0 <= i < |tasks| ==> !FailsFast(tasks[i])
    ensures RunAssembly(a, tasks).abortedAt.None?
    ensures Executed(RunAssembly(a, tasks).events) == Ids(a, SortedOrder(tasks))
    ensures forall i :: 0 <= i < |tasks| ==> Disposed(TaskId(a, i)) in RunAssembly(a, tasks).events[2 * |tasks|..]
  {
    var order := SortedOrder(tasks);
    var run := ExecuteInOrder(a, tasks, order);
    ExecuteInOrderAborts(a, tasks, order);
    ExecuteInOrderRunsPrefix(a, tasks, order);
    var n := ExecutedCount(tasks, order);
    assert n == |order| by {
      if 0 < n {
        assert !FailsFast(tasks[order[n - 1]]);
      }
    }
    assert order[..n] == order;
    ExecutedConcat(Instantiation(a, |tasks|), run.events);
    DiscoveryExecutesNothing(a, |tasks|);
    var events := RunAssembly(a, tasks).events;
    assert events[2 * |tasks|..] == run.events;
    forall i | 0 <= i < |tasks| ensures Disposed(TaskId(a, i)) in events[2 * |tasks|..] {
      SortedOrderIsPermutation(tasks, i);
      var k :| 0 <= k < |order| && order[k] == i;
      ExecutedPluginDisposed(a, tasks, order, k);
    }
  }

  // ---------------------------------------------------------------------------
  // PluginProxyDomain

  /** The object created in the plugin `AppDomain`; `log` is what its loops
      write to the logger. */
  class PluginProxyDomain {
    var log: seq<TaskEvent>

    constructor()
      ensures log == []
    {
      log := [];
    }

    /** `ExecutePlugins`: runs one assembly's plugins; a fail-fast failure is
        logged again by the outer catch and rethrown. */
    method ExecutePlugins(a: nat, tasks: seq<Task>) returns (r: Outcome)
      modifies this`log
      ensures var run := RunAssembly(a, tasks);
              log == old(log) + run.events + (if run.abortedAt.Some? then [ErrorLogged(run.abortedAt.value)] else [])
      ensures r == (if RunAssembly(a, tasks).abortedAt.Some? then Fail(InvalidOperation) else Pass)
    {
      var events, abortedAt := ExecuteAssembly(a, tasks);
      log := log + events;
      if abortedAt.Some? {
        log := log + [ErrorLogged(abortedAt.value)];
        return Fail(InvalidOperation);
      }
      return Pass;
    }
  }

  /** `ExecutePlugins` raises exactly when a plugin with `ThrowOnError` fails. */
  lemma ExecutePluginsFailsIffFailFast(a: nat, tasks: seq<Task>)
    ensures RunAssembly(a, tasks).abortedAt.Some? <==> exists i :: 0 <= i < |tasks| && FailsFast(tasks[i])
  {
    var order := SortedOrder(tasks);
    ExecuteInOrderAborts(a, tasks, order);
    if exists i :: 0 <= i < |tasks| && FailsFast(tasks[i]) {
      var i :| 0 <= i < |tasks| && FailsFast(tasks[i]);
      SortedOrderIsPermutation(tasks, i);
      var k :| 0 <= k < |order| && order[k] == i;
    }
  }

  // ---------------------------------------------------------------------------
  // Every assembly of the plugin folder (Pipeline.RunPlugins)

  /** The runs of successive assemblies chained: a run that aborts ends the
      loop, and later runs do not happen. */
  function RunAll(runs: seq<RunResult>): RunResult
  {
    if runs == [] then RunResult([], None)
    else if runs[0].abortedAt.Some? then runs[0]
    else Prepend(runs[0].events, RunAll(runs[1..]))
  }

  /** The run of every assembly, by its index in the enumeration. */
  function AssemblyRuns(assemblies: seq<seq<Task>>): (runs: seq<RunResult>)
    ensures |runs| == |assemblies|
    ensures forall k :: 0 <= k < |runs| ==> runs[k] == RunAssembly(k, assemblies[k])
  {
    seq(|assemblies|, k requires 0 <= k < |assemblies| => RunAssembly(k, assemblies[k]))
  }

  /** The loop of `Pipeline.RunPlugins` over the plugin assemblies. */
  function RunAssemblies(assemblies: seq<seq<Task>>): RunResult {
    RunAll(AssemblyRuns(assemblies))
  }

  lemma {:induction false} RunAllSnoc(runs: seq<RunResult>, x: RunResult)
    requires RunAll(runs).abortedAt.None?
    ensures RunAll(runs + [x]) == Prepend(RunAll(runs).events, x)
  {
    if runs == [] {
      assert runs + [x] == [x];
      assert [x][1..] == [];
      assert x.events + [] == x.events;
      assert [] + x.events == x.events;
    } else {
      assert (runs + [x])[0] == runs[0];
      assert (runs + [x])[1..] == runs[1..] + [x];
      RunAllSnoc(runs[1..], x);
    }
  }

  lemma {:induction false} RunAllPrefixAborts(runs: seq<RunResult>, n: nat)
    requires n <= |runs|
    requires RunAll(runs[..n]).abortedAt.Some?
    ensures RunAll(runs) == RunAll(runs[..n])
  {
    if n > 0 {
      assert runs[..n][0] == runs[0];
      if runs[0].abortedAt.None? {
        assert runs[..n][1..] == runs[1..][..n - 1];
        RunAllPrefixAborts(runs[1..], n - 1);
      }
    }
  }

  /** Run `k` of `runs` belongs to assembly `from + k`. */
  predicate Numbered(runs: seq<RunResult>, from: nat) {
    forall k :: 0 <= k < |runs| ==>
      (forall x :: x in runs[k].events ==> x.id.assembly == from + k) &&
      (runs[k].abortedAt.Some? ==> runs[k].abortedAt.value.assembly == from + k)
  }

  /** Every event of an assembly's run is about one of its own plugins. */
  lemma RunAssemblyOwnEvents(a: nat, tasks: seq<Task>)
    ensures forall e :: e in RunAssembly(a, tasks).events ==> e.id.assembly == a
    ensures RunAssembly(a, tasks).abortedAt.Some? ==> RunAssembly(a, tasks).abortedAt.value.assembly == a
  {
    var run := ExecuteInOrder(a, tasks, SortedOrder(tasks));
    ExecuteInOrderOwnEvents(a, tasks, SortedOrder(tasks));
    InstantiationOwnEvents(a, |tasks|);
    assert RunAssembly(a, tasks).events == Instantiation(a, |tasks|) + run.events;
  }

  lemma {:induction false} InstantiationOwnEvents(a: nat, n: nat)
    ensures forall e :: e in Instantiation(a, n) ==> e.id.assembly == a
  {
    if n > 0 {
      InstantiationOwnEvents(a, n - 1);
      assert Instantiation(a, n) == Instantiation(a, n - 1) + [Instantiated(TaskId(a, n - 1)), Disposed(TaskId(a, n - 1))];
    }
  }

  lemma {:induction false} ExecuteInOrderOwnEvents(a: nat, tasks: seq<Task>, order: seq<nat>)
    requires InRange(tasks, order)
    ensures forall e :: e in ExecuteInOrder(a, tasks, order).events ==> e.id.assembly == a
    ensures ExecuteInOrder(a, tasks, order).abortedAt.Some? ==> ExecuteInOrder(a, tasks, order).abortedAt.value.assembly == a
  {
    if order != [] {
      var first := Step(a, order[0], tasks[order[0]]);
      assert forall e :: e in first.events ==> e.id.assembly == a;
      if first.abortedAt.None? {
        var rest := ExecuteInOrder(a, tasks, order[1..]);
        ExecuteInOrderOwnEvents(a, tasks, order[1..]);
        assert ExecuteInOrder(a, tasks, order) == RunResult(first.events + rest.events, rest.abortedAt);
      }
    }
  }

  lemma AssemblyRunsNumbered(assemblies: seq<seq<Task>>)
    ensures Numbered(AssemblyRuns(assemblies), 0)
  {
    var runs := AssemblyRuns(assemblies);
    forall k | 0 <= k < |runs|
      ensures forall x :: x in runs[k].events ==> x.id.assembly == k
      ensures runs[k].abortedAt.Some? ==> runs[k].abortedAt.value.assembly == k
    {
      RunAssemblyOwnEvents(k, assemblies[k]);
    }
  }

  /** The events are grouped by assembly, in ascending order. */
  predicate AssemblyOrdered(events: seq<TaskEvent>) {
    forall i, j :: 0 <= i < j < |events| ==> events[i].id.assembly <= events[j].id.assembly
  }

  /** Chained runs keep their order: the events are in assembly order, and
      once one aborts no later run contributes. */
  lemma {:induction false} RunAllInOrder(runs: seq<RunResult>, from: nat)
    requires Numbered(runs, from)
    ensures forall x :: x in RunAll(runs).events ==> from <= x.id.assembly < from + |runs|
    ensures AssemblyOrdered(RunAll(runs).events)
    ensures RunAll(runs).abortedAt.Some? ==>
            var id := RunAll(runs).abortedAt.value;
            from <= id.assembly < from + |runs| &&
            forall x :: x in RunAll(runs).events ==> x.id.assembly <= id.assembly
  {
    if runs != [] {
      var first := runs[0];
      if first.abortedAt.None? {
        var tail := runs[1..];
        assert Numbered(tail, from + 1) by {
          forall k | 0 <= k < |tail|
            ensures forall x :: x in tail[k].events ==> x.id.assembly == from + 1 + k
            ensures tail[k].abortedAt.Some? ==> tail[k].abortedAt.value.assembly == from + 1 + k
          {
            assert tail[k] == runs[k + 1];
          }
        }
        RunAllInOrder(tail, from + 1);
        var rest := RunAll(tail);
        var e := first.events + rest.events;
        assert AssemblyOrdered(rest.events);
        forall i, j | 0 <= i < j < |e| ensures e[i].id.assembly <= e[j].id.assembly {
          if j < |first.events| {
            assert e[i] == first.events[i] && e[j] == first.events[j];
            assert e[i] in first.events && e[j] in first.events;
            assert e[i].id.assembly == from && e[j].id.assembly == from;
          } else if i < |first.events| {
            assert e[i] == first.events[i];
            assert e[i] in first.events;
            assert e[j] == rest.events[j - |first.events|];
            assert e[j] in rest.events;
            assert e[i].id.assembly == from;
            assert e[j].id.assembly >= from + 1;
          } else {
            assert e[i] == rest.events[i - |first.events|];
            assert e[j] == rest.events[j - |first.events|];
            assert rest.events[i - |first.events|].id.assembly <= rest.events[j - |first.events|].id.assembly;
          }
        }
      }
    }
  }

  /** `Pipeline.RunPlugins` processes the assemblies one after the other, and
      a fail-fast failure in one means no later assembly is loaded. */
  lemma AssembliesInOrder(assemblies: seq<seq<Task>>)
    ensures AssemblyOrdered(RunAssemblies(assemblies).events)
    ensures RunAssemblies(assemblies).abortedAt.Some? ==>
            forall x :: x in RunAssemblies(assemblies).events ==>
              x.id.assembly <= RunAssemblies(assemblies).abortedAt.value.assembly
  {
    AssemblyRunsNumbered(assemblies);
    RunAllInOrder(AssemblyRuns(assemblies), 0);
  }

  // ---------------------------------------------------------------------------
  // Domain_ResourceResolve

  /** A manifest resource: its name and the stream `GetManifestResourceStream`
      returns for it (`None` for a null stream). */
  datatype Resource = Resource(name: string, stream: Option<seq<bv8>>)

  /** A file of the plugin folder as `Assembly.LoadFrom` sees it. */
  datatype FolderFile = NotAssembly | AssemblyFile(resources: seq<Resource>)

  /** The assembly `Assembly.Load(block)` returns for an image. */
  datatype LoadedAssembly = LoadedAssembly(image: seq<bv8>)

  /** `s.IndexOf(c)`: the first position of `c`, or -1. */
  function IndexOf(s: string, c: char): (r: int)
    ensures -1 <= r < |s|
    ensures r == -1 <==> c !in s
    ensures r >= 0 ==> s[r] == c && c !in s[..r]
  {
    if s == [] then -1
    else if s[0] == c then 0
    else
      var rest := IndexOf(s[1..], c);
      assert s[1..][..rest + 1] == s[1..rest + 2] || rest == -1;
      if rest == -1 then -1 else 1 + rest
  }

  lemma {:induction false} IndexOfIs(s: string, c: char, k: nat)
    requires k < |s| && s[k] == c && c !in s[..k]
    ensures IndexOf(s, c) == k
  {
    if k > 0 {
      assert s[0] in s[..k];
      assert s[1..][..k - 1] == s[1..k];
      assert forall j :: 1 <= j < k ==> s[j] == s[..k][j];
      IndexOfIs(s[1..], c, k - 1);
    }
  }

  /** The file name asked for: the simple name of `args.Name` (the text before
      its first comma) with ".dll"; `Substring(0, -1)` throws when there is
      no comma. */
  function RequestedFileName(argsName: string): (r: Result<string>)
    ensures r.Err? <==> ',' !in argsName
    ensures r.Err? ==> r.error == ArgumentOutOfRange
    ensures r.Ok? ==> exists k :: 0 <= k < |argsName| && argsName[k] == ',' && ',' !in argsName[..k]
                                  && r.value == argsName[..k] + ".dll"
  {
    var k := IndexOf(argsName, ',');
    if k < 0 then Err(ArgumentOutOfRange) else Ok(argsName[..k] + ".dll")
  }

  /** The first resource whose name ends with `name` (ordinal comparison). */
  function FirstMatch(resources: seq<Resource>, name: string): (r: Option<nat>)
    ensures r.None? <==> forall k :: 0 <= k < |resources| ==> !Text.EndsWith(resources[k].name, name, Text.Ordinal)
    ensures r.Some? ==> r.value < |resources| && Text.EndsWith(resources[r.value].name, name, Text.Ordinal)
    ensures r.Some? ==> forall k :: 0 <= k < r.value ==> !Text.EndsWith(resources[k].name, name, Text.Ordinal)
  {
    if resources == [] then None
    else if Text.EndsWith(resources[0].name, name, Text.Ordinal) then Some(0)
    else
      match FirstMatch(resources[1..], name)
      case None => None
      case Some(k) =>
        assert forall j :: 1 <= j < |resources| ==> resources[j] == resources[1..][j - 1];
        Some(k + 1)
  }

  /** Reading a matching resource: a null stream gives null, otherwise the
      assembly loaded from the stream's bytes. */
  function LoadResource(r: Resource): Option<LoadedAssembly> {
    match r.stream
    case None => None
    case Some(bytes) => Some(LoadedAssembly(bytes))
  }

  /** The second tier: the files of the plugin folder in order; the first
      assembly holding a matching resource decides. */
  function SearchFolder(files: seq<FolderFile>, name: string): Result<Option<LoadedAssembly>>
  {
    if files == [] then Ok(None)
    else
      match files[0]
      case NotAssembly => Err(BadImageFormat)
      case AssemblyFile(resources) =>
        match FirstMatch(resources, name)
        case Some(i) => Ok(LoadResource(resources[i]))
        case None => SearchFolder(files[1..], name)
  }

  /** The handler: the host assembly's own resources first, then the plugin
      folder. */
  function Resolve(argsName: string, host: seq<Resource>, files: seq<FolderFile>)
    : Result<Option<LoadedAssembly>>
  {
    var name :- RequestedFileName(argsName);
    match FirstMatch(host, name)
    case Some(i) => Ok(LoadResource(host[i]))
    case None => SearchFolder(files, name)
  }

  function ExampleArgsName(): string { "Dep, V1" }
  function ExampleHost(): seq<Resource> { [Resource("Host.Other.dll", Some([]))] }
  function ExampleFolder(): seq<FolderFile> { [AssemblyFile([Resource("Plugin.Dep.dll", Some([1]))])] }

  lemma ExampleRequestedName()
    ensures RequestedFileName(ExampleArgsName()) == Ok("Dep.dll")
  {
    var argsName := ExampleArgsName();
    assert argsName[3] == ',';
    assert argsName[..3] == "Dep";
    assert ',' !in argsName[..3];
    IndexOfIs(argsName, ',', 3);
    assert "Dep" + ".dll" == "Dep.dll";
  }

  lemma ExampleHostHasNoMatch()
    ensures FirstMatch(ExampleHost(), "Dep.dll") == None
  {
    var hostName := "Host.Other.dll";
    assert hostName[|hostName| - 7] != "Dep.dll"[0];
    assert !Text.EndsWith(hostName, "Dep.dll", Text.Ordinal);
  }

  lemma ExampleFolderMatches()
    ensures SearchFolder(ExampleFolder(), "Dep.dll") == Ok(Some(LoadedAssembly([1])))
  {
    var pluginName := "Plugin.Dep.dll";
    assert pluginName[|pluginName| - 7..] == "Dep.dll";
    assert Text.EndsWith(pluginName, "Dep.dll", Text.Ordinal);
    assert ExampleFolder()[1..] == [];
  }

  /** A dependency the host does not embed is found in the plugin folder. */
  lemma ResolveExample()
    ensures Resolve(ExampleArgsName(), ExampleHost(), ExampleFolder()) == Ok(Some(LoadedAssembly([1])))
  {
    ExampleRequestedName();
    ExampleHostHasNoMatch();
    ExampleFolderMatches();
  }

  /** A match among the host's resources decides: the folder is not read. */
  lemma HostResourceWins(argsName: string, host: seq<Resource>, files: seq<FolderFile>, name: string, i: nat)
    requires RequestedFileName(argsName) == Ok(name)
    requires i < |host| && Text.EndsWith(host[i].name, name, Text.Ordinal)
    requires forall k :: 0 <= k < i ==> !Text.EndsWith(host[k].name, name, Text.Ordinal)
    ensures Resolve(argsName, host, files) == Ok(LoadResource(host[i]))
  {
    var m := FirstMatch(host, name);
    assert m.Some?;
  }

  /** Without a host match, the first file that holds a match decides, provided
      every earlier file is an assembly without one. */
  lemma {:induction false} FirstFolderMatchWins(files: seq<FolderFile>, name: string, j: nat)
    requires j < |files| && files[j].AssemblyFile? && FirstMatch(files[j].resources, name).Some?
    requires forall k :: 0 <= k < j ==> files[k].AssemblyFile? && FirstMatch(files[k].resources, name).None?
    ensures SearchFolder(files, name)
            == Ok(LoadResource(files[j].resources[FirstMatch(files[j].resources, name).value]))
  {
    if j > 0 {
      forall k | 0 <= k < j - 1
        ensures files[1..][k].AssemblyFile? && FirstMatch(files[1..][k].resources, name).None?
      {
        assert files[1..][k] == files[k + 1];
      }
      FirstFolderMatchWins(files[1..], name, j - 1);
    }
  }

  /** A file that is not an assembly, met before any match, fails the search. */
  lemma {:induction false} NonAssemblyFails(files: seq<FolderFile>, name: string, j: nat)
    requires j < |files| && files[j].NotAssembly?
    requires forall k :: 0 <= k < j ==> files[k].AssemblyFile? && FirstMatch(files[k].resources, name).None?
    ensures SearchFolder(files, name) == Err(BadImageFormat)
  {
    if j > 0 {
      forall k | 0 <= k < j - 1
        ensures files[1..][k].AssemblyFile? && FirstMatch(files[1..][k].resources, name).None?
      {
        assert files[1..][k] == files[k + 1];
      }
      NonAssemblyFails(files[1..], name, j - 1);
    }
  }

  /** The search gives null when no assembly of the folder holds a match. */
  lemma {:induction false} NoMatchGivesNull(files: seq<FolderFile>, name: string)
    requires forall k :: 0 <= k < |files| ==> files[k].AssemblyFile? && FirstMatch(files[k].resources, name).None?
    ensures SearchFolder(files, name) == Ok(None)
  {
    if files != [] {
      assert forall k :: 0 <= k < |files| - 1 ==> files[1..][k] == files[k + 1];
      NoMatchGivesNull(files[1..], name);
    }
  }

  /** `Domain_ResourceResolve`, with the plugin folder listed in `files`. */
  method ResourceResolve(argsName: string, host: seq<Resource>, files: seq<FolderFile>)
    returns (r: Result<Option<LoadedAssembly>>)
    ensures r == Resolve(argsName, host, files)
  {
    var k := IndexOf(argsName, ',');
    if k < 0 {
      return Err(ArgumentOutOfRange);
    }
    var name := argsName[..k] + ".dll";
    var hostMatch := FirstMatch(host, name);
    if hostMatch.Some? {
      return Ok(LoadResource(host[hostMatch.value]));
    }
    var j := 0;
    while j < |files|
      invariant 0 <= j <= |files|
      invariant SearchFolder(files, name) == SearchFolder(files[j..], name)
    {
      assert files[j..][1..] == files[j + 1..];
      if files[j].NotAssembly? {
        return Err(BadImageFormat);
      }
      var found := FirstMatch(files[j].resources, name);
      if found.Some? {
        return Ok(LoadResource(files[j].resources[found.value]));
      }
      j := j + 1;
    }
    return Ok(None);
  }
}
