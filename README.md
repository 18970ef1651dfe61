# A verified model of the esdm-pav-client workflow builder

`experiment.py` builds Ophidia workflows as graphs of operator invocations.
A `Workflow` owns an ordered list of `Task` objects and a naming counter.
It grows only through `addTask`, which
- names an unnamed task after the workflow and the counter,
- refuses a taken name,
- refuses an edge to a task that is not attached yet.

Everything else builds on `addTask`:
- `newTask` builds a task from plain values and attaches it.
- `newSubWorkflow` clones every task of a template workflow under new names,
  substitutes `$` placeholders in the arguments, re-targets the template's
  edges, attaches the clones, and returns the clones whose new name is not among
  the original target names of the template's edges.
- `save` writes the workflow (minus the counter) as a document.
- `load` rebuilds a workflow from such a document, again through `addTask`.

A task stores its arguments as a list of `"key=value"` strings.
`reverted_arguments` splits them back into a dict.

The project has one Dafny module per concern:

| file | module | what it holds |
|---|---|---|
| wrappers.dfy | `Wrappers` | `Option`, `Result`, `Outcome` |
| errors.dfy | `Errors` | one constructor per exception the source raises |
| text.dfy | `Text` | `str(n)`, `split`, `join`, `endswith`, the first `$` of a string |
| arguments.dfy | `Arguments` | ordered dicts, flattening to `"k=v"` lines and splitting them back |
| tasks.dfy | `Tasks` | the `Task` class and its record value `TaskRecord` |
| attachment.dfy | `Attachment` | addTask's rules on records, and the attachment loop as a function |
| embedding.dfy | `Embedding` | the pure parts of newSubWorkflow: naming, re-targeting, substitution, the clone of a task, the leaf filter |
| documents.dfy | `Documents` | the saved document, save and load as functions, and their round trip |
| workflows.dfy | `Workflows` | the `Workflow` class with addTask, getTask, save, newTask, newSubWorkflow and load as methods |

`Task` and `Workflow` are classes, because the source changes them in place.
For example, addTask renames the caller's task even when it then refuses it.
Each method that changes a workflow is proved against a function on task
records:
- `AddTask`, `Attach` and `NewTask` against addTask's rules,
  `Attachment.SettledName` and `Attachment.AttachError`;
- the loop of newSubWorkflow against the attachment loop `Attachment.AttachAll`
  over `Embedding.Clones`;
- the loop of `load` against `Documents.LoadRun`.
The invariant every method keeps is `Workflow.Valid()`:
- the counter is one past the number of tasks;
- the task list is `WellFormed`: every task is named, no name repeats, and
  every edge points at an earlier task.

Python dicts are modelled as `Arguments.Dict`: the keys in iteration order,
plus a map. `Put` keeps the position of a key that is already there.
A file on disk is modelled as `Documents.FileContent`: no file, a file that is
not JSON, or a parsed document.

### Behaviour of the code the model keeps

- **The leaf list of newSubWorkflow.** A leaf of a workflow graph is a task that
  no edge points at. Embedding the template `A`, `B` (with `B` depending on `A`)
  under the name `sub` therefore has the single leaf `sub_B`. The code returns
  `[sub_A, sub_B]` (experiment.py:353-355): it compares the clones' new names
  with the template's original target names, not with the re-targeted ones. A clone is dropped only when its new name equals one of
  those original names, as `Embedding.LeavesMembers` states. In the two-task
  example no new name is an original name, so nothing is dropped;
  `Embedding.TwoTaskExample` proves this outcome for exactly that template.
- **Non-empty `dependency` in newSubWorkflow.** Iterating the `dependency` dict
  yields its keys (experiment.py:294), and a key is never a dict. So
  `dependency_check` raises at the first root task whenever `dependency` is not
  empty. `Embedding.RootError` models this. `Embedding.NoRootWithDependency`
  proves that no root task is then attached. `Embedding.FirstRootStops` proves
  that a well-formed template, whose first task is always a root, then attaches
  nothing: the loop raises `DependencyNotDict` at once. This needs the first
  task's arguments to split; otherwise the `MalformedArgument` of that split is
  raised first. Arguments set by `Task.__init__` always split, since every line
  is `k=v` (experiment.py:454).
- **Dependency values in newTask.** A falsy dependency value calls
  `addDependency` without an argument, and that always raises
  (experiment.py:224-227, 488). So newTask never creates an "embedded" edge.
- **Names in newSubWorkflow.** `name=None` is refused (experiment.py:273).
  The positional naming `<host>_<i>_<orig>` therefore happens only for `name == ""`.
  Under that name the copied edges still go through `fix_dependency_name`
  (experiment.py:305, 308-309), so they point at `_<orig>`, not at the clone
  `<host>_<j>_<orig>`. A template task with an edge is then refused with
  `DependencyNotFulfilled`, unless the host already holds a task named `_<orig>`.
  `Embedding.RetargetedMissesPositionalClone` proves that such an edge never
  names a positional clone, and `Embedding.PositionalEdgeUnresolved` proves the
  outcome for the template `A`, `B`
  (with `B` depending on `A`) embedded into a host `h` without tasks: `h_1_A` is
  attached and the loop raises at `h_2_B`. Which naming was meant for these edges
  is not evident from the code, so the model keeps the code's behaviour.

## Model

| member | source | states |
|---|---|---|
| `Text.NatToString` | experiment.py:99 | the decimal text of a counter is non-empty and all digits |
| `Text.ParseNatToString` | experiment.py:99 | the decimal text of `n` reads back as `n` |
| `Text.NatToStringInjective` | experiment.py:99 | different counters have different texts |
| `Text.Split` | experiment.py:525 | `split` gives at least one field and no field holds the separator |
| `Text.JoinSplit` | experiment.py:525 | joining the fields of a split with the separator gives the string back |
| `Text.SplitPair` | experiment.py:454 | `k + "=" + v` splits into exactly `[k, v]` when neither holds '=' |
| `Text.SplitMore` | experiment.py:525 | a string has a second field (no IndexError at `[1]`) exactly when it holds the separator |
| `Text.SplitTwo` | experiment.py:407 | a string with exactly two fields is `field0 + "=" + field1` |
| `Text.FirstIndex` | experiment.py:321-322 | the first `$`: absent exactly when the string has none; otherwise its index, with no `$` before it |
| `Arguments.Flatten` | experiment.py:454 | definition, no ensures: one `k=v` line per key, in the dict's order |
| `Arguments.Unflatten` | experiment.py:523-526 | the reverted dict, or the IndexError of a line without '='; a result it returns covers all its keys (the lemmas below state the rest) |
| `Arguments.Put` | experiment.py:525 | `d[k] = v` sets the entry and keeps every key in the order |
| `Arguments.PutWellOrdered` | experiment.py:525 | assignment keeps a dict a dict: keys in order, each once, all with entries |
| `Arguments.UnflattenWellOrdered` | experiment.py:523-526 | reverting a flattened list always builds a proper dict |
| `Arguments.UnflattenFails` | experiment.py:523-526 | reverting raises exactly when some line has no '=', and then with the IndexError |
| `Arguments.UnflattenKeys` | experiment.py:523-526 | the keys of the reverted dict are exactly the texts before the first '=' of the lines |
| `Arguments.UnflattenLastWins` | experiment.py:525 | a key that repeats keeps the value of its last line, the text between the first and second '=' |
| `Arguments.FlattenPutNew` | experiment.py:454 | a new key adds its `k=v` line at the end of the flattened list |
| `Arguments.ArgumentsRoundTrip` | experiment.py:514-526 | when no key or value holds '=', reverting the flattened arguments gives the same dict, order included |
| `Arguments.CanonicalRoundTrip` | experiment.py:405-409 | a list with one '=' per line and distinct keys survives load's split and the flattening unchanged |
| `Tasks.Task.constructor` | experiment.py:447-456 | a new task has the given name and operator, the type or "ophidia", the flattened arguments, no edges, no options |
| `Tasks.Task.Create` | experiment.py:447-456 | an option outside run/on_exit/on_error raises; otherwise the task as above with those options |
| `Tasks.Task.AddDependency` | experiment.py:465-501 | a non-str argument raises, then a non-Task target; otherwise exactly one edge is appended: "embedded" for "", else "all" bound to the argument, pointing at the target's name |
| `Tasks.Task.CopyDependency` | experiment.py:503-512 | the record is appended as it is and nothing else changes |
| `Tasks.Task.RevertedArguments` | experiment.py:514-526 | the loop returns exactly the reverted dict of `Unflatten`, or its error |
| `Tasks.NewEdge` | experiment.py:494-500 | definition, no ensures: an "embedded" edge for an empty argument, else an "all" edge bound to the argument |
| `Tasks.DependencyError` | experiment.py:487-491 | definition, no ensures: a non-str argument raises first, then a target that is not a Task |
| `Attachment.SettledName` | experiment.py:97-98 | the settled name is always present, and a task's own name is kept |
| `Attachment.AttachError` | experiment.py:99-104 | definition, no ensures: a taken name raises first, then any edge whose target no attached task holds |
| `Attachment.AttachAll` | experiment.py:342-353 | definition, no ensures: the attachment loop from position `i`, stopping at the first build or addTask error; its lemmas below state what it attaches |
| `Attachment.MintedNamesDiffer` | experiment.py:98-99 | different counters mint different names in one workflow |
| `Attachment.AttachPreservesWellFormed` | experiment.py:100-109 | appending a named task that passes addTask's checks keeps the list well formed |
| `Attachment.WellFormedNamesUnique` | experiment.py:100-101 | in a well-formed list no two tasks share a name |
| `Attachment.WellFormedEdgesBackward` | experiment.py:102-106 | in a well-formed list every edge points at an earlier task, so there is no forward edge and no cycle |
| `Attachment.AttachAllTakesBuilt` | experiment.py:342-353 | the loop attaches the built tasks in order, with no gap, and stops early exactly when something raises |
| `Attachment.AttachAllKeepsWellFormed` | experiment.py:342-353 | whatever the loop attaches keeps a well-formed list well formed, even when it then raises |
| `Embedding.DependencyCheck` | experiment.py:280-290 | definition, no ensures: a non-dict raises, then more than two keys, then a key set other than {"task"} or {"task", "argument"} |
| `Embedding.RootError` | experiment.py:292-296 | a template task raises exactly when it has no edges and `dependency` is not empty, and then with `DependencyNotDict` |
| `Embedding.CloneName` | experiment.py:311-315 | the clone's name ends with the original name, printed as `format` prints it |
| `Embedding.DependencyCheckAccepts` | experiment.py:279-290 | dependency_check accepts a dict exactly when its keys are {"task"} or {"task", "argument"} |
| `Embedding.PrefixedNamesDistinct` | experiment.py:311-313 | with a prefix, two clones share a name exactly when their original names print the same |
| `Embedding.PositionalNamesDistinct` | experiment.py:314-315 | without a prefix, clones at different positions never share a name |
| `Embedding.Retargeted` | experiment.py:303-309 | a copied edge keeps its argument and type, and its target becomes `<prefix>_` followed by the original target as `format` prints it |
| `Embedding.RetargetedNamesClone` | experiment.py:301-315 | with a non-empty name, a copied edge names the clone its original target gets, at any position |
| `Embedding.RetargetedMissesPositionalClone` | experiment.py:301-315 | under the empty name, a copied edge never names the positional clone of its original target |
| `Embedding.Retarget` | experiment.py:301-306 | definition, no ensures: every template edge re-targeted, in order |
| `Embedding.AddDependencies` | experiment.py:301-306 | the loop appends every template edge, re-targeted, in order |
| `Embedding.Substitute` | experiment.py:321-332 | definition, no ensures: the suffix from the first `$` is replaced by its parameter when it is a key of `params` |
| `Embedding.SubstituteOnce` | experiment.py:321-323 | substitution is single-shot: a second pass changes nothing when no parameter value holds '$' |
| `Embedding.ReplaceArguments` | experiment.py:317-338 | the two loops build exactly `ReplacedArguments` |
| `Embedding.ReplacedWellOrdered` | experiment.py:317-338 | the substituted arguments always form a proper dict |
| `Embedding.ReplacedOriginalKeys` | experiment.py:328-336 | every original key survives, carrying its value substituted |
| `Embedding.ReplacedNewKeys` | experiment.py:320-325 | a substituted key that is not an original one carries the original value of the last key that substitutes to it |
| `Embedding.ReplacedKeys` | experiment.py:317-338 | the result's keys are the original keys together with their substitutions |
| `Embedding.Clone` | experiment.py:344-350 | definition, no ensures: the split error, then the root check, otherwise the renamed task with substituted arguments and re-targeted edges |
| `Embedding.Clones` | experiment.py:342-350 | one clone per template task, at its 1-based position, and every clone built is named |
| `Embedding.Targets` | experiment.py:353 | definition, no ensures: the original targets of every template edge, in order |
| `Embedding.Leaves` | experiment.py:355 | definition, no ensures: the clones whose name is not among the targets, in order |
| `Embedding.TargetsStep` | experiment.py:353 | the targets collected after one more task are the earlier ones followed by that task's targets |
| `Embedding.LeavesAppend` | experiment.py:355 | the filter over one more clone keeps it exactly when its name is not a target |
| `Embedding.LeavesMembers` | experiment.py:355 | a clone is returned exactly when its new name is not among the original targets; no more clones than attached |
| `Embedding.NoRootWithDependency` | experiment.py:292-299 | with a non-empty `dependency`, every attached clone comes from a template task that has edges |
| `Embedding.FirstRootStops` | experiment.py:292-299 | with a non-empty `dependency`, a well-formed template attaches nothing and the loop raises `DependencyNotDict` at its first task |
| `Embedding.TwoTaskExample` | experiment.py:339-355 | the two-task template under "sub": `sub_A`, `sub_B` attached, the edge re-targeted to `sub_A`, both returned |
| `Embedding.PositionalEdgeUnresolved` | experiment.py:301-315 | the two-task template under "" into host `h`: `h_1_A` attached, then `DependencyNotFulfilled`, since the copied edge points at `_A` |
| `Documents.FileNameFor` | experiment.py:167-168 | the file name ends in `.json`, extends the given name, and equals it exactly when it already ended in `.json` |
| `Documents.Save` | experiment.py:160-169 | a non-str file name raises, then an empty one; otherwise the document goes to the name with `.json` ensured |
| `Documents.LoadedTask` | experiment.py:405-409 | the task built from a record is named (its own name or a minted one) |
| `Documents.LoadedTasks` | experiment.py:405-409 | one built task per record, every one built named |
| `Documents.LoadRun` | experiment.py:405-409 | definition, no ensures: the attachment loop over the loaded tasks, into a workflow without tasks |
| `Documents.Load` | experiment.py:384-415 | no file, bad JSON and no name raise in that order; a loaded document keeps every field but the tasks, and its tasks are well formed |
| `Documents.LoadRunFrom` | experiment.py:405-409 | from record `i` on, the loop re-attaches exactly the remaining records of a well-formed canonical list |
| `Documents.SaveLoadRoundTrip` | experiment.py:138-171 | loading what save wrote gives back the same document when the tasks are well formed and their arguments canonical |
| `Documents.FlattenCanonical` | experiment.py:454 | a task built from a dict whose keys and values hold no '=' has canonical arguments |
| `Workflows.EntryError` | experiment.py:224-227 | one dependency entry raises unless its key is a Task and its value a non-empty string |
| `Workflows.EntriesError` | experiment.py:222-227 | definition, no ensures: the error of the first rejected entry, if any |
| `Workflows.EntriesErrorAccepted` | experiment.py:222-227 | newTask's loop raises exactly when some entry is not accepted, and then with that entry's error |
| `Workflows.EntryEdges` | experiment.py:224-225 | an accepted entry list adds one "all" edge per entry, bound to its value |
| `Workflows.AddEntries` | experiment.py:222-227 | the loop raises with the first failing entry's error; otherwise it appends exactly the entries' edges |
| `Workflows.BuildTask` | experiment.py:221-231 | a bad entry raises first, then an unknown option; otherwise a fresh task of type "ophidia" with its edges and options |
| `Workflows.Positions` | experiment.py:132 | the indices of the tasks with the name, increasing, each one listed |
| `Workflows.PositionsOne` | experiment.py:132-134 | a name held by exactly one task has that task as its only position |
| `Workflows.CloneTask` | experiment.py:343-350 | the task the loop builds is a fresh object whose fields are exactly `Clone` of the template task, or `Clone`'s error |
| `Workflows.RecordTask` | experiment.py:405-408 | the task load builds from one record is a fresh object with the record's fields and its arguments split and re-flattened, or the split's error |
| `Workflows.Workflow.Document` | experiment.py:164-169 | the document has the workflow's name and its task records in order |
| `Workflows.Workflow.constructor` | experiment.py:61-70 | a new workflow has the given fields, no tasks, counter 1, and is valid |
| `Workflows.Workflow.Create` | experiment.py:61-70 | an option outside the workflow allow-list raises; otherwise a fresh valid workflow with those options |
| `Workflows.Workflow.SettleName` | experiment.py:98-99 | an unnamed task is named `<workflow>_<counter>`, a named one keeps its name |
| `Workflows.Workflow.AddTask` | experiment.py:79-109 | the name is settled even when the task is then refused; a taken name, then an edge to no attached task, raises and leaves tasks and counter alone; otherwise the task is appended and the counter moves on by one; validity is kept |
| `Workflows.Workflow.Attach` | experiment.py:100-109 | addTask's two checks and the append, once the task is named |
| `Workflows.Workflow.GetTask` | experiment.py:111-136 | a task found is in the workflow and has the name |
| `Workflows.Workflow.GetTaskAsWritten` | experiment.py:132 | the comprehension as written raises for every workflow that has a task |
| `Workflows.Workflow.Save` | experiment.py:138-171 | save succeeds exactly for a non-empty str file name, and then writes the workflow's document |
| `Workflows.Workflow.NewTask` | experiment.py:173-233 | a bad entry raises first, then an unknown option, then addTask's checks, leaving the workflow unchanged; otherwise one fresh task is appended whose fields are fixed, with its settled name |
| `Workflows.Workflow.NewSubWorkflow` | experiment.py:235-355 | a None name raises, then a template with the host's name; otherwise the host gains exactly the tasks of the attachment loop over the clones, raises its error if any, and returns the clones whose names are not original targets; validity is kept |
| `Workflows.Workflow.EmbedAll` | experiment.py:342-353 | the loop appends exactly what `AttachAll` attaches over the clones, stops with its error, and collects the template's targets |
| `Workflows.Workflow.EmbedStep` | experiment.py:344-352 | one turn of the loop moves the attachment run on by one clone, or stops it with the error raised |
| `Workflows.Workflow.AddClone` | experiment.py:344-352 | one clone is built and handed to addTask: `Clone`'s error, addTask's error, or the clone appended |
| `Workflows.Workflow.AddRecord` | experiment.py:405-409 | one record is rebuilt and handed to addTask: the split error, addTask's error (tasks and counter unchanged on either), or the task `LoadedTask` appended |
| `Workflows.Workflow.AddRecords` | experiment.py:405-409 | the loop into a fresh workflow raises exactly `LoadRun`'s error, and otherwise leaves exactly its tasks, valid |
| `Workflows.Workflow.Load` | experiment.py:357-415 | load succeeds exactly when `Documents.Load` does, with the same error, and gives a fresh valid workflow whose document is its result |
| `Workflows.LeafTasks` | experiment.py:355 | the returned tasks are workflow tasks, and their records are exactly the filter `Leaves` of the clones' records |
| `Workflows.GetTaskExactlyOne` | experiment.py:111-136 | getTask finds a task exactly when one task, and no other, has the name |
| `Workflows.GetTaskFindsAttached` | experiment.py:111-134 | every task of a valid workflow is found by its own name |
| `Workflows.GetTaskAsWrittenFails` | experiment.py:132 | for every task of a valid workflow, getTask as written raises where the intended lookup finds it |
| `Workflows.WorkflowSaveLoad` | experiment.py:138-171 | saving a valid workflow with canonical arguments and loading the file gives a workflow with the same document |

## Left out

- File and JSON I/O (experiment.py:158-171, 384-394): `os.getcwd`, `open`,
  `json.dump` and `json.loads` are not modelled. `save` returns the file name and
  the document it would write. `load` takes what reading the file yields.
- `deinit` (experiment.py:72-77, 458-463): it deletes attributes by reflection,
  driven by class-level lists.
- The class-level lists `Workflow.active_attributes` and
  `Workflow.subworkflow_names` (experiment.py:56, 59). `Workflow.__init__`
  appends every accepted keyword to the shared `active_attributes` list
  (experiment.py:65); only `deinit` reads it. `subworkflow_names` is never
  written or read.
- Python's dynamic typing: an `isinstance` check is modelled only where it
  changes behaviour. These are `None` against `str` for a name or an argument
  (`Option`), a Task against anything else (`TaskRef`), and save's file name.
  The other checks (operator, arguments, dependencies and params must have the
  right type; the template must be a Workflow) hold by the Dafny types.
- A `dependencies` argument of newTask is taken as a sequence of entries in dict
  order. A Python dict has distinct keys; the model does not need that.
- Regular-expression details in check_replace_args (experiment.py:321-332): the
  match is taken as the suffix from the first `$`. That is exact only when the
  string holds no newline and no parameter value holds a backslash escape.
- `__dict__.update` with arbitrary keys (experiment.py:70, 231, 404, 408): extra
  workflow and task fields are modelled as an `options` map. A hand-written
  document that sets, say, `task_name_counter` is not modelled; the document
  has exactly the fields save writes.
- Workflows.Workflow.GetTask: its own contract states only that a found task
  has the name; the full statement (found exactly when one task has it) is the
  lemma `Workflows.GetTaskExactlyOne`.

## Findings

| source | as written | input that shows it | evidently intended | confidence | as-written member | corrected member |
|---|---|---|---|---|---|---|
| experiment.py:132 | `[t for t in self.tasks if t["name"] == taskname]` subscripts Task objects, which raises TypeError | any workflow with at least one task, for any name | `t.name == taskname`, so that the task with the name is returned | not executed | `Workflows.Workflow.GetTaskAsWritten` (with `Workflows.GetTaskAsWrittenFails`) | `Workflows.Workflow.GetTask` (with `Workflows.GetTaskExactlyOne`, `Workflows.GetTaskFindsAttached`) |
