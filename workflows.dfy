/**
  The Workflow object of experiment.py:1-415: a named, ordered list of
  tasks that only grows through addTask, with the operations that build it
  (newTask, newSubWorkflow, load), look into it (getTask) and write it out
  (save).
 */
module Workflows {
  import opened Wrappers
  import opened Errors
  import opened Text
  import opened Arguments
  import opened Tasks
  import opened Attachment
  import opened Embedding
  import Documents

  /** The keyword arguments a workflow accepts (`Workflow.attributes`). */
  const WorkflowAttributes: set<string> := {
    "url", "sessionid", "exec_mode", "ncores", "nhost", "on_error", "on_exit", "run",
    "cwd", "cdd", "cube", "callback_url", "output_format", "host_partition", "nthreads"}

  /** The records of a list of tasks, as the heap holds them now. */
  function ValuesOf(ts: seq<Task>): (r: seq<TaskRecord>)
    reads ts
    ensures |r| == |ts|
    ensures forall i :: 0 <= i < |ts| ==> r[i] == ts[i].Value()
  {
    seq(|ts|, i reads ts requires 0 <= i < |ts| => ts[i].Value())
  }

  lemma ValuesOfAppend(a: seq<Task>, b: seq<Task>)
    ensures ValuesOf(a + b) == ValuesOf(a) + ValuesOf(b)
  {
    assert forall i :: 0 <= i < |a| ==> (a + b)[i] == a[i];
    assert forall i :: |a| <= i < |a| + |b| ==> (a + b)[i] == b[i - |a|];
  }

  /** Appending a task that passes addTask's checks to well-formed tasks keeps them well formed. */
  lemma AttachKeepsValues(ts: seq<Task>, task: Task)
    requires WellFormed(ValuesOf(ts)) && task.name.Some?
    requires AttachError(Names(ValuesOf(ts)), task.name, task.dependencies).None?
    ensures WellFormed(ValuesOf(ts + [task]))
  {
    ValuesOfAppend(ts, [task]);
    assert ValuesOf([task]) == [task.Value()];
    AttachPreservesWellFormed(ValuesOf(ts), task.Value());
  }

  /** One dependency entry of newTask: the key (a Task, or anything else) and its value, `None` when not a string. */
  type Entry = (TaskRef, Option<string>)

  /**
    What `t.addDependency(...)` raises for one entry: a falsy value calls it
    without an argument, which always raises; otherwise the key must be a Task.
   */
  function EntryError(e: Entry): (r: Option<Error>)
    ensures r.None? <==> e.0.Realized? && e.1.Some? && e.1.value != ""
  {
    if e.1.None? || e.1.value == "" then DependencyError(e.0, None) else DependencyError(e.0, e.1)
  }

  /** No entry makes addDependency raise. */
  predicate Accepted(entries: seq<Entry>) {
    forall i :: 0 <= i < |entries| ==> EntryError(entries[i]).None?
  }

  /** The first error of newTask's dependency loop, if any. */
  function EntriesError(entries: seq<Entry>): Option<Error>
    decreases |entries|
  {
    if |entries| == 0 then None
    else if EntryError(entries[0]).Some? then EntryError(entries[0])
    else EntriesError(entries[1..])
  }

  /** The loop raises exactly when some entry is not accepted, and then with that entry's error. */
  lemma {:induction false} EntriesErrorAccepted(entries: seq<Entry>)
    ensures EntriesError(entries).None? <==> Accepted(entries)
    ensures EntriesError(entries).Some? ==> exists i :: 0 <= i < |entries| && EntryError(entries[i]) == EntriesError(entries)
    decreases |entries|
  {
    if |entries| > 0 && EntryError(entries[0]).None? {
      EntriesErrorAccepted(entries[1..]);
      assert forall i :: 1 <= i < |entries| ==> entries[1..][i - 1] == entries[i];
    }
  }

  /** The Task objects among the entries' keys. */
  function EntryTasks(entries: seq<Entry>): set<Task> {
    set i | 0 <= i < |entries| && entries[i].0.Realized? :: entries[i].0.task
  }

  /** The edges newTask's loop adds when no entry raises: one "all" edge per entry, bound to its value. */
  function EntryEdges(entries: seq<Entry>): (r: seq<Dependency>)
    requires Accepted(entries)
    reads EntryTasks(entries)
    ensures |r| == |entries|
    ensures forall i :: 0 <= i < |r| ==> r[i].kind == "all" && r[i].argument == entries[i].1
  {
    seq(|entries|, i requires 0 <= i < |entries| && Accepted(entries) reads EntryTasks(entries) =>
      NewEdge(entries[i].1.value, entries[i].0.task.name))
  }

  /** newTask's dependency loop: one addDependency per entry, in order, stopping at the first that raises. */
  method AddEntries(t: Task, entries: seq<Entry>) returns (r: Option<Error>)
    modifies t`dependencies
    ensures r == EntriesError(entries)
    ensures r.None? ==> Accepted(entries) && t.dependencies == old(t.dependencies) + EntryEdges(entries)
  {
    var i := 0;
    while i < |entries|
      invariant 0 <= i <= |entries|
      invariant forall k :: 0 <= k < i ==> EntryError(entries[k]).None?
      invariant EntriesError(entries) == EntriesError(entries[i..])
      invariant |t.dependencies| == |old(t.dependencies)| + i
      invariant t.dependencies[..|old(t.dependencies)|] == old(t.dependencies)
      invariant forall k :: 0 <= k < i ==>
        t.dependencies[|old(t.dependencies)| + k] == NewEdge(entries[k].1.value, entries[k].0.task.name)
    {
      var (key, value) := entries[i];
      var o;
      if value.Some? && value.value != "" {
        o := t.AddDependency(key, value);
      } else {
        o := t.AddDependency(key, None);
      }
      if o.Fail? {
        return Some(o.error);
      }
      assert entries[i..][1..] == entries[i + 1..];
      i := i + 1;
    }
    assert Accepted(entries);
    assert t.dependencies == old(t.dependencies) + EntryEdges(entries);
    return None;
  }

  /** newTask up to addTask: the Task of the default type, its edges, then the options check. */
  method BuildTask(operator: string, arguments: Dict, dependencies: seq<Entry>, taskName: Option<string>,
                   taskOptions: map<string, string>) returns (r: Result<Task, Error>)
    requires WellOrdered(arguments)
    ensures EntriesError(dependencies).Some? ==> r == Err(EntriesError(dependencies).value)
    ensures Accepted(dependencies) && !(taskOptions.Keys <= TaskAttributes) ==> r == Err(UnknownTaskArgument)
    ensures r.Ok? <==> Accepted(dependencies) && taskOptions.Keys <= TaskAttributes
    ensures r.Ok? ==> fresh(r.value)
    ensures r.Ok? ==> r.value.Value() == TaskRecord(taskName, operator, DefaultType, Flatten(arguments),
                                                    EntryEdges(dependencies), taskOptions)
  {
    var t := new Task(operator, arguments, taskName, None);
    var failure := AddEntries(t, dependencies);
    EntriesErrorAccepted(dependencies);
    if failure.Some? {
      return Err(failure.value);
    }
    if !(taskOptions.Keys <= TaskAttributes) {
      return Err(UnknownTaskArgument);
    }
    assert t !in EntryTasks(dependencies);
    t.options := taskOptions;
    return Ok(t);
  }

  /** The positions of the entries equal to `Some(taskname)`, in increasing order. */
  function Positions(names: seq<Option<string>>, taskname: string): (p: seq<nat>)
    ensures forall k :: 0 <= k < |p| ==> p[k] < |names| && names[p[k]] == Some(taskname)
    ensures forall i :: 0 <= i < |names| && names[i] == Some(taskname) ==> i in p
    ensures forall k, l :: 0 <= k < l < |p| ==> p[k] < p[l]
    decreases |names|
  {
    if |names| == 0 then []
    else
      var rest := Positions(names[..|names| - 1], taskname);
      if names[|names| - 1] == Some(taskname) then rest + [|names| - 1] else rest
  }

  /** A name that occurs nowhere has no positions. */
  lemma {:induction false} PositionsNone(names: seq<Option<string>>, taskname: string)
    requires forall j :: 0 <= j < |names| ==> names[j] != Some(taskname)
    ensures Positions(names, taskname) == []
    decreases |names|
  {
    if |names| > 0 {
      PositionsNone(names[..|names| - 1], taskname);
    }
  }

  /** A name that occurs exactly once, at `i`, has `i` as its only position. */
  lemma {:induction false} PositionsOne(names: seq<Option<string>>, taskname: string, i: nat)
    requires i < |names| && names[i] == Some(taskname)
    requires forall j :: 0 <= j < |names| && names[j] == Some(taskname) ==> j == i
    ensures Positions(names, taskname) == [i]
    decreases |names|
  {
    var prefix := names[..|names| - 1];
    if i == |names| - 1 {
      PositionsNone(prefix, taskname);
    } else {
      PositionsOne(prefix, taskname, i);
    }
  }

  /**
    The body of newSubWorkflow's loop up to addTask: the new name, the
    reverted and substituted arguments, a fresh Task, the root check and
    the re-targeted edges.
   */
  method CloneTask(task: Task, c: Call, position: nat) returns (r: Result<Task, Error>)
    ensures r.Err? ==> Clone(task.Value(), c, position) == Err(r.error)
    ensures r.Ok? ==> fresh(r.value) && Clone(task.Value(), c, position) == Ok(r.value.Value())
  {
    var newName := CloneName(c.prefix, c.hostName, position, task.name);
    var args := task.RevertedArguments();
    if args.Err? {
      return Err(args.error);
    }
    var newArguments := ReplaceArguments(c.params, args.value);
    ReplacedWellOrdered(c.params, args.value);
    var newTask := new Task(task.operator, newArguments, Some(newName), None);
    if |task.dependencies| == 0 && |c.dependency| > 0 {
      // iterating `dependency` yields its keys, and a key is never a dict
      var e := DependencyCheck(NotADict);
      return Err(e.value);
    }
    AddDependencies(task.dependencies, newTask, c.prefix);
    assert [] + Retarget(task.dependencies, c.prefix) == Retarget(task.dependencies, c.prefix);
    assert RootError(task.Value(), c.dependency).None?;
    assert newTask.Value() == TaskRecord(Some(newName), task.operator, DefaultType, Flatten(newArguments),
                                         Retarget(task.dependencies, c.prefix), map[]);
    return Ok(newTask);
  }

  /**
    start_workflow's `Task(...)` for one record, before addTask: the arguments
    through the `split("=")` dict comprehension (which may raise), flattened
    again by the constructor, and the other fields copied over.
   */
  method RecordTask(rec: TaskRecord) returns (r: Result<Task, Error>)
    ensures r.Err? ==> Unflatten(rec.arguments) == Err(r.error)
    ensures r.Ok? ==> fresh(r.value) && Unflatten(rec.arguments).Ok? &&
                      r.value.Value() == rec.(arguments := Flatten(Unflatten(rec.arguments).value))
  {
    var args := Unflatten(rec.arguments);
    if args.Err? {
      return Err(args.error);
    }
    UnflattenWellOrdered(rec.arguments);
    var t := new Task(rec.operator, args.value, rec.name, None);
    t.taskType := rec.taskType;
    t.dependencies := rec.dependencies;
    t.options := rec.options;
    return Ok(t);
  }

  class Workflow {
    var name: string
    var author: Option<string>
    var abstractText: Option<string>
    var options: map<string, string>
    var tasks: seq<Task>
    /** `task_name_counter`: the number the next unnamed task is named after. */
    var counter: nat

    /** What addTask keeps: the counter one past the number of tasks, and the task list well formed. */
    predicate Valid()
      reads this, tasks
    {
      counter == |tasks| + 1 && WellFormed(ValuesOf(tasks))
    }

    /** The workflow as save writes it: everything but the counter. */
    function Document(): (d: Documents.Document)
      reads this, tasks
      ensures d.name == Some(name) && d.tasks == ValuesOf(tasks)
    {
      Documents.Document(Some(name), author, abstractText, options, ValuesOf(tasks))
    }

    /** Workflow.__init__ without keyword arguments. */
    constructor (name: string, author: Option<string>, abstractText: Option<string>)
      ensures this.name == name && this.author == author && this.abstractText == abstractText
      ensures options == map[] && tasks == [] && counter == 1
      ensures Valid()
    {
      this.name := name;
      this.author := author;
      this.abstractText := abstractText;
      this.options := map[];
      this.tasks := [];
      this.counter := 1;
    }

    /** Workflow.__init__: a keyword argument outside the allow-list raises. */
    static method Create(name: string, author: Option<string>, abstractText: Option<string>,
                         options: map<string, string>) returns (r: Result<Workflow, Error>)
      ensures r.Ok? <==> options.Keys <= WorkflowAttributes
      ensures r.Err? ==> r.error == UnknownWorkflowArgument
      ensures r.Ok? ==> fresh(r.value)
      ensures r.Ok? ==> r.value.name == name && r.value.author == author && r.value.abstractText == abstractText
      ensures r.Ok? ==> r.value.options == options && r.value.tasks == [] && r.value.Valid()
    {
      if !(options.Keys <= WorkflowAttributes) {
        return Err(UnknownWorkflowArgument);
      }
      var w := new Workflow(name, author, abstractText);
      w.options := options;
      r := Ok(w);
    }

    /** addTask's first step: an unnamed task is named after the workflow and the counter. */
    method SettleName(task: Task)
      modifies task`name
      ensures task.name == SettledName(old(task.name), name, counter)
      ensures old(Valid()) ==> Valid()
    {
      if task.name.None? {
        if Valid() {
          forall i | 0 <= i < |tasks| ensures tasks[i] != task {
            assert ValuesOf(tasks)[i].name.Some?;
          }
        }
        task.name := Some(MintedName(name, counter));
      }
    }

    /**
      addTask: an unnamed task is named after the workflow and the counter
      (even when it is then refused); a taken name, then an edge to a task not
      in the workflow, is refused; otherwise the task is appended and the
      counter moves on.
     */
    method AddTask(task: Task) returns (r: Outcome<Error>)
      modifies this`tasks, this`counter, task`name
      ensures task.name == SettledName(old(task.name), name, old(counter))
      ensures var e := AttachError(Names(ValuesOf(old(tasks))), task.name, task.dependencies);
        (e.Some? ==> r == Fail(e.value)) && (e.None? ==> r == Pass)
      ensures r.Pass? ==> tasks == old(tasks) + [task] && counter == old(counter) + 1
      ensures r.Fail? ==> tasks == old(tasks) && counter == old(counter)
      ensures old(Valid()) ==> Valid()
    {
      SettleName(task);
      ghost var wasValid := Valid();
      ghost var before := tasks;
      r := Attach(task);
      if wasValid && r.Pass? {
        AttachKeepsValues(before, task);
      }
    }

    /** addTask's checks and the append, once the task is named. */
    method Attach(task: Task) returns (r: Outcome<Error>)
      requires task.name.Some?
      modifies this`tasks, this`counter
      ensures var e := AttachError(Names(ValuesOf(old(tasks))), task.name, task.dependencies);
        (e.Some? ==> r == Fail(e.value)) && (e.None? ==> r == Pass)
      ensures r.Pass? ==> tasks == old(tasks) + [task] && counter == old(counter) + 1
      ensures r.Fail? ==> tasks == old(tasks) && counter == old(counter)
    {
      var values := ValuesOf(tasks);
      var names := Names(values);
      if task.name in names {
        return Fail(TaskAlreadyExists);
      }
      var deps := task.dependencies;
      var i := 0;
      while i < |deps|
        invariant 0 <= i <= |deps|
        invariant forall k :: 0 <= k < i ==> deps[k].target in names
      {
        if deps[i].target !in names {
          return Fail(DependencyNotFulfilled);
        }
        i := i + 1;
      }
      counter := counter + 1;
      tasks := tasks + [task];
      r := Pass;
    }

    /**
      getTask as evidently intended: the task named `taskname` when exactly
      one task has that name; `None` when none has (and, falling off the
      end of the function, when several have).
     */
    function GetTask(taskname: string): (r: Option<Task>)
      reads this, tasks
      ensures r.Some? ==> r.value in tasks && r.value.name == Some(taskname)
    {
      var p := Positions(Names(ValuesOf(tasks)), taskname);
      if |p| == 1 then Some(tasks[p[0]]) else None
    }

    /**
      getTask as written: the comprehension subscripts a Task object
      (`t["name"]`), which raises TypeError as soon as there is any task.
     */
    function GetTaskAsWritten(taskname: string): (r: Result<Option<Task>, Error>)
      reads this
      ensures r.Ok? <==> |tasks| == 0
      ensures r.Ok? ==> r.value.None?
      ensures r.Err? ==> r.error == NotSubscriptable
    {
      if |tasks| == 0 then Ok(None) else Err(NotSubscriptable)
    }

    /** save: the file name with `.json` ensured and the workflow's document, or the file name's error. */
    function Save(workflowName: Option<string>): (r: Result<(string, Documents.Document), Error>)
      reads this, tasks
      ensures r.Ok? <==> workflowName.Some? && workflowName.value != ""
      ensures r.Ok? ==> r.value.0 == Documents.FileNameFor(workflowName.value) && r.value.1 == Document()
      ensures r.Err? ==> r == Documents.Save(workflowName, Document())
    {
      Documents.Save(workflowName, Document())
    }

    /**
      newTask: builds a Task of the default type, adds one edge per
      dependency entry (raising at the first bad one), checks the options,
      then hands the task to addTask.
     */
    method NewTask(operator: string, arguments: Dict, dependencies: seq<Entry>, taskName: Option<string>,
                   taskOptions: map<string, string>) returns (r: Result<Task, Error>)
      requires WellOrdered(arguments)
      modifies this`tasks, this`counter
      ensures EntriesError(dependencies).Some? ==> r == Err(EntriesError(dependencies).value)
      ensures Accepted(dependencies) && !(taskOptions.Keys <= TaskAttributes) ==> r == Err(UnknownTaskArgument)
      ensures Accepted(dependencies) && taskOptions.Keys <= TaskAttributes ==>
        var e := AttachError(Names(ValuesOf(old(tasks))), SettledName(taskName, name, old(counter)), EntryEdges(dependencies));
        (e.Some? ==> r == Err(e.value)) && (e.None? ==> r.Ok?)
      ensures r.Ok? ==> fresh(r.value) && tasks == old(tasks) + [r.value] && counter == old(counter) + 1
      ensures r.Ok? ==> Accepted(dependencies)
      ensures r.Ok? ==> r.value.Value() == TaskRecord(SettledName(taskName, name, old(counter)), operator, DefaultType,
                                                      Flatten(arguments), EntryEdges(dependencies), taskOptions)
      ensures r.Err? ==> tasks == old(tasks) && counter == old(counter)
      ensures old(Valid()) ==> Valid()
    {
      var built := BuildTask(operator, arguments, dependencies, taskName, taskOptions);
      if built.Err? {
        return Err(built.error);
      }
      var t := built.value;
      assert t !in EntryTasks(dependencies);
      ghost var edges := EntryEdges(dependencies);
      var o := AddTask(t);
      assert EntryEdges(dependencies) == edges;
      if o.Fail? {
        return Err(o.error);
      }
      r := Ok(t);
    }

    /**
      newSubWorkflow: after the name and the template are checked, every
      template task is cloned (renamed, arguments substituted, edges
      re-targeted) and attached in turn; the clones that no template edge
      pointed at (by original name) are returned.
     */
    method NewSubWorkflow(template: Workflow, params: map<string, string>, dependency: map<string, string>,
                          prefix: Option<string>) returns (r: Result<seq<Task>, Error>)
      modifies this`tasks, this`counter
      ensures prefix.None? ==> r == Err(NameNotString) && tasks == old(tasks) && counter == old(counter)
      ensures prefix.Some? && template.name == name ==> r == Err(WrongWorkflow) && tasks == old(tasks) && counter == old(counter)
      ensures prefix.Some? && template.name != name ==>
        var templ := old(ValuesOf(template.tasks));
        var run := AttachAll(Names(old(ValuesOf(tasks))), Clones(templ, Call(params, dependency, prefix.value, name)), 0);
        && ValuesOf(tasks) == old(ValuesOf(tasks)) + run.attached
        && tasks[..|old(tasks)|] == old(tasks)
        && counter == old(counter) + |run.attached|
        && (run.error.Some? ==> r == Err(run.error.value))
        && (run.error.None? ==> r.Ok? && ValuesOf(r.value) == Leaves(run.attached, Targets(templ)))
      ensures r.Ok? ==> forall t :: t in r.value ==> t in tasks
      ensures old(Valid()) ==> Valid()
    {
      if prefix.None? {
        return Err(NameNotString);
      }
      if template.name == name {
        return Err(WrongWorkflow);
      }
      var c := Call(params, dependency, prefix.value, name);
      ghost var wasValid := Valid();
      ghost var host := ValuesOf(tasks);
      ghost var clones := Clones(ValuesOf(template.tasks), c);
      var failure, allTasks, nonLeaf := EmbedAll(template.tasks, c);
      if wasValid {
        AttachAllKeepsWellFormed(host, clones, 0);
      }
      if failure.Some? {
        return Err(failure.value);
      }
      r := Ok(LeafTasks(allTasks, nonLeaf));
    }

    /**
      newSubWorkflow's loop: each template task cloned at its 1-based
      position and attached, stopping at the first that raises; it also
      collects the original targets of the template's edges.
     */
    method EmbedAll(templateTasks: seq<Task>, c: Call)
      returns (failure: Option<Error>, allTasks: seq<Task>, nonLeaf: seq<Option<string>>)
      requires c.hostName == name
      modifies this`tasks, this`counter
      ensures var run := AttachAll(Names(old(ValuesOf(tasks))), Clones(old(ValuesOf(templateTasks)), c), 0);
        && ValuesOf(tasks) == old(ValuesOf(tasks)) + run.attached
        && tasks == old(tasks) + allTasks
        && counter == old(counter) + |run.attached|
        && failure == run.error
        && (failure.None? ==> ValuesOf(allTasks) == run.attached)
      ensures failure.None? ==> nonLeaf == Targets(old(ValuesOf(templateTasks)))
    {
      ghost var host := ValuesOf(tasks);
      ghost var templ := ValuesOf(templateTasks);
      ghost var clones := Clones(templ, c);
      ghost var run := AttachAll(Names(host), clones, 0);
      ghost var values: seq<TaskRecord> := [];
      allTasks := [];
      nonLeaf := [];
      assert host + [] == host;
      var i := 0;
      while i < |templateTasks|
        invariant 0 <= i <= |templateTasks| && |clones| == |templateTasks|
        invariant tasks == old(tasks) + allTasks
        invariant ValuesOf(tasks) == host + values
        invariant counter == old(counter) + |values|
        invariant run == Prepend(values, AttachAll(Names(host + values), clones, i))
        invariant nonLeaf == Targets(templ[..i])
      {
        var task := templateTasks[i];
        var o := EmbedStep(task, c, i, host, values, clones);
        if o.Err? {
          return Some(o.error), allTasks, nonLeaf;
        }
        allTasks := allTasks + [o.value];
        values := values + [clones[i].value];
        TargetsStep(templ, i);
        nonLeaf := nonLeaf + TargetsOf(task.dependencies);
        i := i + 1;
      }
      assert templ[..i] == templ;
      assert values + [] == values;
      ValuesOfAppend(old(tasks), allTasks);
      assert ValuesOf(allTasks) == ValuesOf(tasks)[|old(tasks)|..];
      assert values == (host + values)[|host|..];
      return None, allTasks, nonLeaf;
    }

    /** One turn of EmbedAll's loop: the clone at `i` attached, and where that leaves the attachment run. */
    method EmbedStep(task: Task, c: Call, i: nat, ghost host: seq<TaskRecord>, ghost values: seq<TaskRecord>,
                     ghost clones: seq<Result<TaskRecord, Error>>) returns (o: Result<Task, Error>)
      requires i < |clones| && clones[i] == Clone(task.Value(), c, i + 1)
      requires ValuesOf(tasks) == host + values
      modifies this`tasks, this`counter
      ensures o.Err? ==> tasks == old(tasks) && counter == old(counter) &&
                         Prepend(values, AttachAll(Names(host + values), clones, i)) == Run(values, Some(o.error))
      ensures o.Ok? ==> fresh(o.value) && tasks == old(tasks) + [o.value] && counter == old(counter) + 1
      ensures o.Ok? ==> clones[i].Ok? && o.value.Value() == clones[i].value
      ensures o.Ok? ==> ValuesOf(tasks) == host + (values + [clones[i].value])
      ensures o.Ok? ==> Prepend(values, AttachAll(Names(host + values), clones, i)) ==
                        Prepend(values + [clones[i].value], AttachAll(Names(host + (values + [clones[i].value])), clones, i + 1))
    {
      o := AddClone(task, c, i + 1);
      if o.Err? {
        AttachAllStop(values, Names(host + values), clones, i);
        assert values + [] == values;
        return;
      }
      AttachAllStep(values, Names(host + values), clones, i);
      NamesAppend(host + values, clones[i].value);
      assert host + values + [clones[i].value] == host + (values + [clones[i].value]);
    }

    /** One turn of newSubWorkflow's loop: the template task cloned at `position`, then handed to addTask. */
    method AddClone(task: Task, c: Call, position: nat) returns (r: Result<Task, Error>)
      modifies this`tasks, this`counter
      ensures var b := Clone(old(task.Value()), c, position);
        && (b.Err? ==> r == Err(b.error))
        && (b.Ok? ==> var e := AttachError(Names(old(ValuesOf(tasks))), b.value.name, b.value.dependencies);
                      (e.Some? ==> r == Err(e.value)) && (e.None? ==> r.Ok?))
      ensures r.Err? ==> tasks == old(tasks) && counter == old(counter)
      ensures r.Ok? ==> fresh(r.value) && tasks == old(tasks) + [r.value] && counter == old(counter) + 1
      ensures r.Ok? ==> Clone(old(task.Value()), c, position) == Ok(r.value.Value())
      ensures r.Ok? ==> ValuesOf(tasks) == old(ValuesOf(tasks)) + [r.value.Value()]
      ensures old(Valid()) ==> Valid()
    {
      var clone := CloneTask(task, c, position);
      if clone.Err? {
        return Err(clone.error);
      }
      var newTask := clone.value;
      ghost var before := tasks;
      ghost var values := ValuesOf(tasks);
      assert values == old(ValuesOf(tasks));
      var o := AddTask(newTask);
      assert ValuesOf(before) == values;
      if o.Fail? {
        return Err(o.error);
      }
      ValuesOfAppend(before, [newTask]);
      assert ValuesOf([newTask]) == [newTask.Value()];
      return Ok(newTask);
    }

    /**
      One record of load's task loop: a Task built from the record (its
      arguments through the `split("=")` dict comprehension, its other fields
      copied), handed to addTask.
     */
    method AddRecord(rec: TaskRecord) returns (r: Outcome<Error>)
      modifies this`tasks, this`counter
      ensures var b := Documents.LoadedTask(name, old(counter), rec);
        && (b.Err? ==> r == Fail(b.error))
        && (b.Ok? ==> var e := AttachError(Names(old(ValuesOf(tasks))), b.value.name, b.value.dependencies);
                      (e.Some? ==> r == Fail(e.value)) && (e.None? ==> r == Pass))
      ensures r.Pass? ==> Documents.LoadedTask(name, old(counter), rec).Ok? && counter == old(counter) + 1 &&
                          ValuesOf(tasks) == old(ValuesOf(tasks)) + [Documents.LoadedTask(name, old(counter), rec).value]
      ensures r.Fail? ==> tasks == old(tasks) && counter == old(counter)
      ensures old(Valid()) ==> Valid()
    {
      var built := RecordTask(rec);
      if built.Err? {
        return Fail(built.error);
      }
      var t := built.value;
      ghost var before := tasks;
      ghost var values := ValuesOf(tasks);
      assert values == old(ValuesOf(tasks));
      r := AddTask(t);
      assert ValuesOf(before) == values;
      if r.Pass? {
        ValuesOfAppend(before, [t]);
        assert ValuesOf([t]) == [t.Value()];
      }
    }

    /** load's task loop (start_workflow): every record through AddRecord, in order, into this fresh workflow. */
    method AddRecords(recs: seq<TaskRecord>) returns (r: Option<Error>)
      requires Valid() && tasks == []
      modifies this`tasks, this`counter
      ensures r == Documents.LoadRun(name, recs).error
      ensures r.None? ==> Valid() && ValuesOf(tasks) == Documents.LoadRun(name, recs).attached
    {
      ghost var built := Documents.LoadedTasks(name, recs);
      ghost var run := Documents.LoadRun(name, recs);
      ghost var values: seq<TaskRecord> := [];
      assert Names([]) == [];
      var i := 0;
      while i < |recs|
        invariant 0 <= i <= |recs|
        invariant Valid() && |tasks| == i && ValuesOf(tasks) == values
        invariant run == Prepend(values, AttachAll(Names(values), built, i))
      {
        assert built[i] == Documents.LoadedTask(name, i + 1, recs[i]);
        var o := AddRecord(recs[i]);
        if o.Fail? {
          AttachAllStop(values, Names(values), built, i);
          return Some(o.error);
        }
        AttachAllStep(values, Names(values), built, i);
        NamesAppend(values, built[i].value);
        values := values + [built[i].value];
        i := i + 1;
      }
      assert values + [] == values;
      return None;
    }

    /**
      load: reads the file, checks that the document has a name, and fills
      a fresh workflow with a task per record through addTask.
     */
    static method Load(content: Documents.FileContent) returns (r: Result<Workflow, Error>)
      ensures r.Ok? <==> Documents.Load(content).Ok?
      ensures r.Err? ==> r.error == Documents.Load(content).error
      ensures r.Ok? ==> fresh(r.value) && r.value.Valid() && r.value.Document() == Documents.Load(content).value
    {
      if content.NoSuchFile? {
        return Err(FileNotFound);
      }
      if content.NotJson? {
        return Err(InvalidJson);
      }
      var doc := content.doc;
      if doc.name.None? {
        return Err(WorkflowWithoutName);
      }
      var w := new Workflow(doc.name.value, None, None);
      w.author := doc.author;
      w.abstractText := doc.abstractText;
      w.options := doc.options;
      var failure := w.AddRecords(doc.tasks);
      if failure.Some? {
        return Err(failure.value);
      }
      r := Ok(w);
    }
  }

  /** The return comprehension of newSubWorkflow: the tasks whose name is not among `targets`. */
  function LeafTasks(ts: seq<Task>, targets: seq<Option<string>>): (r: seq<Task>)
    reads ts
    ensures ValuesOf(r) == Leaves(ValuesOf(ts), targets)
    ensures forall t :: t in r ==> t in ts
    decreases |ts|
  {
    if |ts| == 0 then []
    else
      var rest := LeafTasks(ts[1..], targets);
      assert ValuesOf(ts)[1..] == ValuesOf(ts[1..]);
      if ts[0].name in targets then rest
      else
        ValuesOfAppend([ts[0]], rest);
        [ts[0]] + rest
  }

  /** getTask finds a task exactly when one task, and no other, has the name. */
  lemma GetTaskExactlyOne(w: Workflow, taskname: string)
    ensures w.GetTask(taskname).Some? <==>
              exists i :: 0 <= i < |w.tasks| && w.tasks[i].name == Some(taskname) &&
                          forall j :: 0 <= j < |w.tasks| && w.tasks[j].name == Some(taskname) ==> j == i
  {
    var names := Names(ValuesOf(w.tasks));
    var p := Positions(names, taskname);
    assert forall i :: 0 <= i < |w.tasks| ==> names[i] == w.tasks[i].name;
    if |p| == 1 {
      var i := p[0];
      assert w.tasks[i].name == Some(taskname);
      assert forall j :: 0 <= j < |w.tasks| && w.tasks[j].name == Some(taskname) ==> j == i by {
        forall j | 0 <= j < |w.tasks| && w.tasks[j].name == Some(taskname) ensures j == i {
          assert j in p;
        }
      }
    } else if |p| > 1 {
      assert p[0] < p[1];
    }
  }

  /** A task of a valid workflow is found by its name. */
  lemma GetTaskFindsAttached(w: Workflow, i: nat)
    requires w.Valid() && i < |w.tasks|
    ensures w.tasks[i].name.Some? && w.GetTask(w.tasks[i].name.value) == Some(w.tasks[i])
  {
    var values := ValuesOf(w.tasks);
    assert values[i].name.Some?;
    var names := Names(values);
    var taskname := w.tasks[i].name.value;
    assert names[i] == Some(taskname);
    forall j | 0 <= j < |names| && names[j] == Some(taskname) ensures j == i {
      assert names[j] == values[j].name;
      if j < i {
        WellFormedNamesUnique(values, j, i);
      } else if i < j {
        WellFormedNamesUnique(values, i, j);
      }
    }
    PositionsOne(names, taskname, i);
  }

  /** Where the two readings of getTask part: any workflow with a task, where only the intended one finds it. */
  lemma GetTaskAsWrittenFails(w: Workflow, i: nat)
    requires w.Valid() && i < |w.tasks|
    ensures w.tasks[i].name.Some?
    ensures w.GetTaskAsWritten(w.tasks[i].name.value) == Err(NotSubscriptable)
    ensures w.GetTask(w.tasks[i].name.value) == Some(w.tasks[i])
  {
    GetTaskFindsAttached(w, i);
  }

  /**
    Saving a valid workflow whose arguments are canonical and loading the
    file again gives a workflow with the same document.
   */
  lemma WorkflowSaveLoad(w: Workflow, workflowName: string)
    requires w.Valid() && Documents.AllCanonical(ValuesOf(w.tasks)) && workflowName != ""
    ensures w.Save(Some(workflowName)).Ok?
    ensures Documents.Load(Documents.Parsed(w.Save(Some(workflowName)).value.1)) == Ok(w.Document())
  {
    Documents.SaveLoadRoundTrip(workflowName, w.Document());
  }
}
