/**
  The Task node of experiment.py:418-526: an operator invocation with its
  flattened arguments, its dependency records and its pass-through options.
 */
module Tasks {
  import opened Wrappers
  import opened Errors
  import opened Arguments

  /** The type a task gets when none (or an empty one) is given. */
  const DefaultType: string := "ophidia"

  /** The allow-list of task options (`Task.attributes`, `Workflow.task_attributes`). */
  const TaskAttributes: set<string> := {"run", "on_exit", "on_error"}

  /**
    One dependency record, the dict `{"task": ..., "argument": ..., "type": ...}`;
    an absent "argument" key is `None`. `target` is the name the edge points at,
    which is `None` when the target task had no name yet.
   */
  datatype Dependency = Dependency(target: Option<string>, argument: Option<string>, kind: string)

  /** The fields of a task (its `__dict__`), which is also the record `save` writes for it. */
  datatype TaskRecord = TaskRecord(
    name: Option<string>,
    operator: string,
    taskType: string,
    arguments: seq<string>,
    dependencies: seq<Dependency>,
    options: map<string, string>)

  /** What `addDependency` receives as `task`: a Task object, or a bare name standing for anything else. */
  datatype TaskRef = Realized(task: Task) | BareName(name: string)

  /** `type if type else "ophidia"`. */
  function TypeOrDefault(taskType: Option<string>): string {
    if taskType.Some? && taskType.value != "" then taskType.value else DefaultType
  }

  /** The record addDependency builds from a string argument and the target's name. */
  function NewEdge(argument: string, target: Option<string>): Dependency {
    if argument == "" then Dependency(target, None, "embedded")
    else Dependency(target, Some(argument), "all")
  }

  /** addDependency's parameter_check: the argument is checked first, then the target. */
  function DependencyError(target: TaskRef, argument: Option<string>): Option<Error> {
    if argument.None? then Some(ArgumentNotString)
    else if target.BareName? then Some(TargetNotTask)
    else None
  }

  class Task {
    var name: Option<string>
    var operator: string
    var taskType: string
    var arguments: seq<string>
    var dependencies: seq<Dependency>
    var options: map<string, string>

    /** The task's fields as a value. */
    function Value(): TaskRecord
      reads this
    {
      TaskRecord(name, operator, taskType, arguments, dependencies, options)
    }

    /** Task.__init__ without options: the arguments are flattened in dict order, there are no edges. */
    constructor (operator: string, arguments: Dict, name: Option<string>, taskType: Option<string>)
      requires WellOrdered(arguments)
      ensures Value() == TaskRecord(name, operator, TypeOrDefault(taskType), Flatten(arguments), [], map[])
    {
      this.taskType := TypeOrDefault(taskType);
      this.name := name;
      this.operator := operator;
      this.arguments := Flatten(arguments);
      this.dependencies := [];
      this.options := map[];
    }

    /** Task.__init__ with options: an option outside the allow-list raises before anything is built. */
    static method Create(operator: string, arguments: Dict, name: Option<string>, taskType: Option<string>,
                         options: map<string, string>) returns (r: Result<Task, Error>)
      requires WellOrdered(arguments)
      ensures r.Ok? <==> options.Keys <= TaskAttributes
      ensures r.Err? ==> r.error == UnknownTaskArgument
      ensures r.Ok? ==> fresh(r.value)
      ensures r.Ok? ==> r.value.Value() == TaskRecord(name, operator, TypeOrDefault(taskType), Flatten(arguments), [], options)
    {
      if !(options.Keys <= TaskAttributes) {
        return Err(UnknownTaskArgument);
      }
      var t := new Task(operator, arguments, name, taskType);
      t.options := options;
      r := Ok(t);
    }

    /**
      addDependency: raises unless `argument` is a string and `target` a Task;
      otherwise appends an "embedded" edge for the empty argument and an "all"
      edge bound to the argument for any other, pointing at the target's name.
     */
    method AddDependency(target: TaskRef, argument: Option<string>) returns (r: Outcome<Error>)
      modifies this`dependencies
      ensures DependencyError(target, argument).Some? ==>
        r == Fail(DependencyError(target, argument).value) && dependencies == old(dependencies)
      ensures DependencyError(target, argument).None? ==>
        r == Pass && dependencies == old(dependencies) + [NewEdge(argument.value, target.task.name)]
    {
      if argument.None? {
        return Fail(ArgumentNotString);
      }
      if target.BareName? {
        return Fail(TargetNotTask);
      }
      var edge := if argument.value == "" then Dependency(target.task.name, None, "embedded")
                  else Dependency(target.task.name, Some(argument.value), "all");
      dependencies := dependencies + [edge];
      r := Pass;
    }

    /** copyDependency: the record is appended as it is. */
    method CopyDependency(d: Dependency)
      modifies this`dependencies
      ensures dependencies == old(dependencies) + [d]
    {
      dependencies := dependencies + [d];
    }

    /** reverted_arguments: the loop that turns the flattened list back into a dict. */
    method RevertedArguments() returns (r: Result<Dict, Error>)
      ensures r == Unflatten(arguments)
    {
      var d: Dict := Empty;
      var i := 0;
      while i < |arguments|
        invariant 0 <= i <= |arguments|
        invariant Unflatten(arguments[..i]) == Ok(d)
      {
        var a := arguments[i];
        if Separator !in a {
          UnflattenFails(arguments);
          return Err(MalformedArgument);
        }
        assert arguments[..i + 1][..i] == arguments[..i];
        d := Put(d, KeyOf(a), ValueOf(a));
        i := i + 1;
      }
      assert arguments[..i] == arguments;
      r := Ok(d);
    }
  }
}
