/**
  The rules `Workflow.addTask` enforces (experiment.py:98-109), stated on
  task records: how an unnamed task is named, the two rejections, and the
  shape of a task list built only by successful attachments.
 */
module Attachment {
  import opened Wrappers
  import opened Errors
  import opened Tasks
  import Text

  /** The names of the tasks, in order (`[t.name for t in self.tasks]`). */
  function Names(ts: seq<TaskRecord>): seq<Option<string>> {
    seq(|ts|, i requires 0 <= i < |ts| => ts[i].name)
  }

  /** `self.name + "_{0}".format(self.task_name_counter)`. */
  function MintedName(workflowName: string, counter: nat): string {
    workflowName + "_" + Text.NatToString(counter)
  }

  /** Distinct counters mint distinct names in one workflow. */
  lemma MintedNamesDiffer(workflowName: string, m: nat, n: nat)
    requires m != n
    ensures MintedName(workflowName, m) != MintedName(workflowName, n)
  {
    var p := workflowName + "_";
    if MintedName(workflowName, m) == MintedName(workflowName, n) {
      assert (p + Text.NatToString(m))[|p|..] == Text.NatToString(m);
      assert (p + Text.NatToString(n))[|p|..] == Text.NatToString(n);
      Text.NatToStringInjective(m, n);
    }
  }

  /** The name addTask settles on before its checks: the task's own, or a minted one. */
  function SettledName(name: Option<string>, workflowName: string, counter: nat): (r: Option<string>)
    ensures r.Some?
    ensures name.Some? ==> r == name
  {
    if name.None? then Some(MintedName(workflowName, counter)) else name
  }

  /** addTask's checks once the name is settled: a taken name first, then an edge to no attached task. */
  function AttachError(names: seq<Option<string>>, name: Option<string>, deps: seq<Dependency>): Option<Error> {
    if name in names then Some(TaskAlreadyExists)
    else if exists i :: 0 <= i < |deps| && deps[i].target !in names then Some(DependencyNotFulfilled)
    else None
  }

  /**
    A task list that successful attachments build: every task is named, no
    earlier task has its name, and each of its edges points at an earlier task.
   */
  predicate WellFormed(ts: seq<TaskRecord>) {
    forall i :: 0 <= i < |ts| ==> ts[i].name.Some? && AttachError(Names(ts[..i]), ts[i].name, ts[i].dependencies).None?
  }

  /** Attaching a task that passes addTask's checks keeps the list well formed. */
  lemma AttachPreservesWellFormed(ts: seq<TaskRecord>, t: TaskRecord)
    requires WellFormed(ts) && t.name.Some?
    requires AttachError(Names(ts), t.name, t.dependencies).None?
    ensures WellFormed(ts + [t])
  {
    var ts' := ts + [t];
    forall i | 0 <= i < |ts'|
      ensures ts'[i].name.Some? && AttachError(Names(ts'[..i]), ts'[i].name, ts'[i].dependencies).None?
    {
      if i < |ts| {
        assert ts'[..i] == ts[..i];
        assert ts'[i] == ts[i];
      } else {
        assert ts'[..i] == ts;
      }
    }
  }

  /** In a well-formed list no two tasks share a name. */
  lemma WellFormedNamesUnique(ts: seq<TaskRecord>, i: nat, j: nat)
    requires WellFormed(ts) && i < j < |ts|
    ensures ts[i].name != ts[j].name
  {
    assert AttachError(Names(ts[..j]), ts[j].name, ts[j].dependencies).None?;
    assert Names(ts[..j])[i] == ts[i].name;
  }

  /** In a well-formed list every edge points at a task earlier in the list: no forward edge, no cycle. */
  lemma WellFormedEdgesBackward(ts: seq<TaskRecord>, i: nat, k: nat)
    requires WellFormed(ts) && i < |ts| && k < |ts[i].dependencies|
    ensures exists j :: 0 <= j < i && ts[j].name == ts[i].dependencies[k].target
  {
    var names := Names(ts[..i]);
    assert AttachError(names, ts[i].name, ts[i].dependencies).None?;
    assert ts[i].dependencies[k].target in names;
    var j :| 0 <= j < |names| && names[j] == ts[i].dependencies[k].target;
    assert ts[..i][j] == ts[j];
  }

  /** What such a loop attaches, and the exception that stops it, if any. */
  datatype Run = Run(attached: seq<TaskRecord>, error: Option<Error>)

  /** The tasks attached in earlier rounds come first. */
  function Prepend(done: seq<TaskRecord>, rest: Run): Run {
    Run(done + rest.attached, rest.error)
  }

  /** Names of a list grown by one task. */
  lemma NamesAppend(ts: seq<TaskRecord>, t: TaskRecord)
    ensures Names(ts + [t]) == Names(ts) + [t.name]
  {
    assert forall i :: 0 <= i < |ts| ==> (ts + [t])[i] == ts[i];
  }

  /**
    A loop that builds one task per position and hands it to addTask, from
    position `i` on, given the names of the tasks attached so far: the first
    task that cannot be built (`Err`) or attached stops it.
   */
  function AttachAll(names: seq<Option<string>>, built: seq<Result<TaskRecord, Error>>, i: nat): Run
    decreases |built| - i
  {
    if i >= |built| then Run([], None)
    else match built[i]
      case Err(e) => Run([], Some(e))
      case Ok(t) =>
        match AttachError(names, t.name, t.dependencies)
        case Some(e) => Run([], Some(e))
        case None =>
          var rest := AttachAll(names + [t.name], built, i + 1);
          Run([t] + rest.attached, rest.error)
  }

  /** One step of the loop: a built task that passes the checks is attached, then the loop goes on. */
  lemma AttachAllStep(done: seq<TaskRecord>, names: seq<Option<string>>, built: seq<Result<TaskRecord, Error>>, i: nat)
    requires i < |built| && built[i].Ok?
    requires AttachError(names, built[i].value.name, built[i].value.dependencies).None?
    ensures Prepend(done, AttachAll(names, built, i)) ==
            Prepend(done + [built[i].value], AttachAll(names + [built[i].value.name], built, i + 1))
  {
    var rest := AttachAll(names + [built[i].value.name], built, i + 1);
    assert done + ([built[i].value] + rest.attached) == done + [built[i].value] + rest.attached;
  }

  /** The loop stops where a task fails to build or to pass the checks, with that error. */
  lemma AttachAllStop(done: seq<TaskRecord>, names: seq<Option<string>>, built: seq<Result<TaskRecord, Error>>, i: nat)
    requires i < |built|
    ensures built[i].Err? ==> Prepend(done, AttachAll(names, built, i)).error == Some(built[i].error)
    ensures built[i].Ok? && AttachError(names, built[i].value.name, built[i].value.dependencies).Some? ==>
              Prepend(done, AttachAll(names, built, i)).error == AttachError(names, built[i].value.name, built[i].value.dependencies)
  {
  }

  /**
    What the loop attaches: the task built at each position from `i` on, in
    order; it stops early exactly when something raises.
   */
  lemma {:induction false} AttachAllTakesBuilt(names: seq<Option<string>>, built: seq<Result<TaskRecord, Error>>, i: nat)
    requires i <= |built|
    ensures |AttachAll(names, built, i).attached| <= |built| - i
    ensures forall k :: 0 <= k < |AttachAll(names, built, i).attached| ==>
      built[i + k] == Ok(AttachAll(names, built, i).attached[k])
    ensures AttachAll(names, built, i).error.None? <==> |AttachAll(names, built, i).attached| == |built| - i
    decreases |built| - i
  {
    if i < |built| {
      var r := built[i];
      if r.Ok? && AttachError(names, r.value.name, r.value.dependencies).None? {
        var t := r.value;
        var rest := AttachAll(names + [t.name], built, i + 1);
        assert AttachAll(names, built, i) == Run([t] + rest.attached, rest.error);
        AttachAllTakesBuilt(names + [t.name], built, i + 1);
        var all := [t] + rest.attached;
        forall k | 0 <= k < |all| ensures built[i + k] == Ok(all[k]) {
          if k > 0 {
            assert all[k] == rest.attached[k - 1];
            assert i + k == (i + 1) + (k - 1);
          }
        }
      }
    }
  }

  /** Whatever the loop attaches, a well-formed list stays well formed, even when the loop then raises. */
  lemma {:induction false} AttachAllKeepsWellFormed(host: seq<TaskRecord>, built: seq<Result<TaskRecord, Error>>, i: nat)
    requires WellFormed(host)
    requires forall k :: 0 <= k < |built| && built[k].Ok? ==> built[k].value.name.Some?
    ensures WellFormed(host + AttachAll(Names(host), built, i).attached)
    decreases |built| - i
  {
    if i < |built| {
      var r := built[i];
      if r.Ok? && AttachError(Names(host), r.value.name, r.value.dependencies).None? {
        var t := r.value;
        AttachPreservesWellFormed(host, t);
        assert Names(host + [t]) == Names(host) + [t.name];
        var rest := AttachAll(Names(host + [t]), built, i + 1);
        assert AttachAll(Names(host), built, i).attached == [t] + rest.attached;
        AttachAllKeepsWellFormed(host + [t], built, i + 1);
        assert host + ([t] + rest.attached) == (host + [t]) + rest.attached;
      } else {
        assert host + [] == host;
      }
    } else {
      assert host + [] == host;
    }
  }
}
