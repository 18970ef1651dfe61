/**
  `Workflow.save` and `Workflow.load` (experiment.py:138-171, 357-415) on an
  abstract document: the JSON object a workflow is written as, with the file
  system and the JSON parser replaced by what they hand back.
 */
module Documents {
  import opened Wrappers
  import opened Errors
  import opened Text
  import opened Arguments
  import opened Tasks
  import opened Attachment

  /**
    The JSON object of a saved workflow: its name (`None` when the key is
    absent), author, abstract, its options (the accepted keyword arguments)
    and one record per task.
   */
  datatype Document = Document(
    name: Option<string>,
    author: Option<string>,
    abstractText: Option<string>,
    options: map<string, string>,
    tasks: seq<TaskRecord>)

  /** What reading a file yields: no file, a file that is not JSON, or a parsed document. */
  datatype FileContent = NoSuchFile | NotJson | Parsed(doc: Document)

  // ---------------------------------------------------------------------------
  // save (experiment.py:138-171)

  const Extension: string := ".json"

  /** The file name save writes to: `.json` is appended unless the name already ends with it. */
  function FileNameFor(workflowName: string): (r: string)
    ensures EndsWith(r, Extension)
    ensures |r| >= |workflowName| && r[..|workflowName|] == workflowName
    ensures EndsWith(workflowName, Extension) <==> r == workflowName
  {
    if EndsWith(workflowName, Extension) then workflowName else workflowName + Extension
  }

  /**
    save: a file name that is not a string, then an empty one, is refused;
    otherwise the document goes to the file name with `.json` ensured.
   */
  function Save(workflowName: Option<string>, doc: Document): (r: Result<(string, Document), Error>)
    ensures workflowName.None? ==> r == Err(FileNameNotString)
    ensures workflowName == Some("") ==> r == Err(FileNameEmpty)
    ensures r.Ok? <==> workflowName.Some? && workflowName.value != ""
    ensures r.Ok? ==> EndsWith(r.value.0, Extension) && r.value.1 == doc
  {
    if workflowName.None? then Err(FileNameNotString)
    else if |workflowName.value| == 0 then Err(FileNameEmpty)
    else Ok((FileNameFor(workflowName.value), doc))
  }

  // ---------------------------------------------------------------------------
  // load (experiment.py:357-415)

  /**
    The task start_workflow builds from one record, when the workflow's
    counter is `counter`: the arguments go through the `split("=")` dict
    comprehension (which raises on a line without '='), are flattened again
    by the Task constructor, the other fields are copied over, and addTask
    mints a name for a record without one.
   */
  function LoadedTask(workflowName: string, counter: nat, rec: TaskRecord): (r: Result<TaskRecord, Error>)
    ensures r.Ok? ==> r.value.name.Some?
  {
    match Unflatten(rec.arguments)
    case Err(e) => Err(e)
    case Ok(args) =>
      Ok(TaskRecord(SettledName(rec.name, workflowName, counter), rec.operator, rec.taskType,
                    Flatten(args), rec.dependencies, rec.options))
  }

  /**
    The task built from each record. The workflow loaded into is fresh and
    every earlier record was attached (or the load stopped), so the counter
    at record `i` is `i + 1`.
   */
  function LoadedTasks(workflowName: string, recs: seq<TaskRecord>): (r: seq<Result<TaskRecord, Error>>)
    ensures |r| == |recs|
    ensures forall k :: 0 <= k < |r| && r[k].Ok? ==> r[k].value.name.Some?
  {
    seq(|recs|, i requires 0 <= i < |recs| => LoadedTask(workflowName, i + 1, recs[i]))
  }

  /** The loop of start_workflow: every record built and attached in turn to the fresh workflow. */
  function LoadRun(workflowName: string, recs: seq<TaskRecord>): Run {
    AttachAll([], LoadedTasks(workflowName, recs), 0)
  }

  /**
    load: a missing file, a file that is not JSON, a document without a
    name, and any failure of the task loop raise; otherwise the loaded
    workflow is the document with its tasks as the loop built them.
   */
  function Load(content: FileContent): (r: Result<Document, Error>)
    ensures content == NoSuchFile ==> r == Err(FileNotFound)
    ensures content == NotJson ==> r == Err(InvalidJson)
    ensures content.Parsed? && content.doc.name.None? ==> r == Err(WorkflowWithoutName)
    ensures r.Ok? ==> content.Parsed? && r.value == content.doc.(tasks := r.value.tasks)
    ensures r.Ok? ==> WellFormed(r.value.tasks)
  {
    match content
    case NoSuchFile => Err(FileNotFound)
    case NotJson => Err(InvalidJson)
    case Parsed(doc) =>
      if doc.name.None? then Err(WorkflowWithoutName)
      else
        var run := LoadRun(doc.name.value, doc.tasks);
        if run.error.Some? then Err(run.error.value)
        else
          AttachAllKeepsWellFormed([], LoadedTasks(doc.name.value, doc.tasks), 0);
          assert [] + run.attached == run.attached;
          Ok(doc.(tasks := run.attached))
  }

  // ---------------------------------------------------------------------------
  // The save/load round trip

  /** Every task's arguments are in the canonical `key=value` form. */
  predicate AllCanonical(recs: seq<TaskRecord>) {
    forall i :: 0 <= i < |recs| ==> Canonical(recs[i].arguments)
  }

  /** A task of a well-formed list with canonical arguments is rebuilt as it was. */
  lemma LoadedTaskSame(workflowName: string, recs: seq<TaskRecord>, i: nat)
    requires WellFormed(recs) && AllCanonical(recs) && i < |recs|
    ensures LoadedTasks(workflowName, recs)[i] == Ok(recs[i])
  {
    CanonicalRoundTrip(recs[i].arguments);
  }

  /** From record `i` on, the loop re-attaches exactly the remaining records. */
  lemma {:induction false} LoadRunFrom(workflowName: string, recs: seq<TaskRecord>, i: nat)
    requires WellFormed(recs) && AllCanonical(recs) && i <= |recs|
    ensures AttachAll(Names(recs[..i]), LoadedTasks(workflowName, recs), i) == Run(recs[i..], None)
    decreases |recs| - i
  {
    if i < |recs| {
      var built := LoadedTasks(workflowName, recs);
      LoadedTaskSame(workflowName, recs, i);
      var t := recs[i];
      var names := Names(recs[..i]);
      assert AttachError(names, t.name, t.dependencies).None?;
      assert names + [t.name] == Names(recs[..i + 1]) by {
        assert recs[..i + 1] == recs[..i] + [t];
      }
      LoadRunFrom(workflowName, recs, i + 1);
      var rest := AttachAll(names + [t.name], built, i + 1);
      assert AttachAll(names, built, i) == Run([t] + rest.attached, rest.error);
      assert recs[i..] == [t] + recs[i + 1..];
    }
  }

  /**
    Loading what save wrote gives back the same workflow: same name, author,
    abstract, options and task records, provided the tasks were well formed
    (as addTask keeps them) and their arguments canonical.
   */
  lemma SaveLoadRoundTrip(workflowName: string, doc: Document)
    requires workflowName != "" && doc.name.Some?
    requires WellFormed(doc.tasks) && AllCanonical(doc.tasks)
    ensures Save(Some(workflowName), doc).Ok?
    ensures Load(Parsed(Save(Some(workflowName), doc).value.1)) == Ok(doc)
  {
    LoadRunFrom(doc.name.value, doc.tasks, 0);
    assert doc.tasks[..0] == [] && doc.tasks[0..] == doc.tasks;
    assert Names([]) == [];
    assert LoadRun(doc.name.value, doc.tasks) == Run(doc.tasks, None);
  }

  /** A task made from a dict whose keys and values hold no '=' has canonical arguments. */
  lemma FlattenCanonical(d: Dict)
    requires WellOrdered(d) && NoSeparator(d)
    ensures Canonical(Flatten(d))
  {
    var args := Flatten(d);
    forall i | 0 <= i < |args| ensures |Split(args[i], Separator)| == 2 && KeyOf(args[i]) == d.order[i] {
      SplitPair(d.order[i], d.values[d.order[i]], Separator);
    }
  }
}
