/**
  The pure parts of `Workflow.newSubWorkflow` (experiment.py:235-355): the
  descriptor check, clone naming, edge re-targeting, the single-shot `$`
  substitution of `check_replace_args`, and the embedding loop stated as a
  function of the host's task names and the template's task records.
 */
module Embedding {
  import opened Wrappers
  import opened Errors
  import opened Text
  import opened Arguments
  import opened Tasks
  import opened Attachment

  // ---------------------------------------------------------------------------
  // dependency_check (experiment.py:280-290)

  /** What dependency_check is handed: a dict with the given key set, or a value that is not a dict. */
  datatype Descriptor = NotADict | DictWithKeys(keys: set<string>)

  function DependencyCheck(d: Descriptor): Option<Error> {
    match d
    case NotADict => Some(DependencyNotDict)
    case DictWithKeys(keys) =>
      if |keys| > 2 then Some(WrongDependencyArguments)
      else if |keys| == 2 then
        (if "task" !in keys || "argument" !in keys then Some(WrongDependencyArguments) else None)
      else if "task" !in keys then Some(WrongDependencyArguments)
      else None
  }

  /** dependency_check accepts a dict exactly when its keys are {"task"} or {"task", "argument"}. */
  lemma DependencyCheckAccepts(keys: set<string>)
    ensures DependencyCheck(DictWithKeys(keys)).None? <==> keys == {"task"} || keys == {"task", "argument"}
  {
    var one: set<string> := {"task"};
    var two: set<string> := {"task", "argument"};
    assert |one| == 1;
    assert |two| == 2;
    if DependencyCheck(DictWithKeys(keys)).None? {
      if |keys| == 2 {
        assert two <= keys;
        assert keys - two == {} by {
          assert |keys - two| == |keys| - |two|;
        }
      } else {
        assert one <= keys;
        assert keys - one == {} by {
          assert |keys - one| == |keys| - |one|;
        }
      }
    }
  }

  /**
    find_root_tasks_add_dependencies (292-299): for a template task without
    edges it iterates the caller's `dependency` dict, which yields its KEYS,
    and hands each key to dependency_check; a key is never a dict, so a
    non-empty `dependency` raises at the first root.
   */
  function RootError(t: TaskRecord, dependency: map<string, string>): (r: Option<Error>)
    ensures r.Some? <==> |t.dependencies| == 0 && |dependency| > 0
    ensures r.Some? ==> r == Some(DependencyNotDict)
  {
    if |t.dependencies| == 0 && |dependency| > 0 then DependencyCheck(NotADict) else None
  }

  // ---------------------------------------------------------------------------
  // Naming and re-targeting (experiment.py:301-315)

  /** add_task_name: `<prefix>_<orig>` for a non-empty prefix, else `<host>_<position>_<orig>`. */
  function CloneName(prefix: string, hostName: string, position: nat, original: Option<string>): (r: string)
    ensures |r| > |Display(original)| && r[|r| - |Display(original)|..] == Display(original)
  {
    if prefix != "" then prefix + "_" + Display(original)
    else hostName + "_" + NatToString(position) + "_" + Display(original)
  }

  /** With a prefix, two clones get the same name exactly when their originals print the same. */
  lemma PrefixedNamesDistinct(prefix: string, host: string, i: nat, j: nat, o1: Option<string>, o2: Option<string>)
    requires prefix != ""
    ensures CloneName(prefix, host, i, o1) == CloneName(prefix, host, j, o2) <==> Display(o1) == Display(o2)
  {
    var p := prefix + "_";
    assert CloneName(prefix, host, i, o1)[|p|..] == Display(o1);
    assert CloneName(prefix, host, j, o2)[|p|..] == Display(o2);
  }

  /** Without a prefix, clones at different positions never share a name, whatever the originals are. */
  lemma PositionalNamesDistinct(host: string, i: nat, j: nat, o1: Option<string>, o2: Option<string>)
    requires i != j
    ensures CloneName("", host, i, o1) != CloneName("", host, j, o2)
  {
    var a, b := NatToString(i), NatToString(j);
    if a == b {
      NatToStringInjective(i, j);
    }
    PrefixedDigitsDiffer(host + "_", a, b, Display(o1), Display(o2));
  }

  /** fix_dependency_name applied to one copied edge: only `task` becomes `<prefix>_<target>`. */
  function Retargeted(d: Dependency, prefix: string): (r: Dependency)
    ensures r.argument == d.argument && r.kind == d.kind
    ensures r.target.Some? && |r.target.value| > |prefix| && r.target.value[..|prefix| + 1] == prefix + "_"
    ensures r.target.value[|prefix| + 1..] == Display(d.target)
  {
    d.(target := Some(prefix + "_" + Display(d.target)))
  }

  /** With a prefix, a re-targeted edge names the clone its original target gets, wherever that clone sits. */
  lemma RetargetedNamesClone(d: Dependency, prefix: string, host: string, position: nat)
    requires prefix != ""
    ensures Retargeted(d, prefix).target == Some(CloneName(prefix, host, position, d.target))
  {
  }

  /**
    Under the empty name a re-targeted edge names `_<target>`, which is never
    the positional clone `<host>_<position>_<target>`: that name is longer.
   */
  lemma RetargetedMissesPositionalClone(d: Dependency, host: string, position: nat)
    ensures Retargeted(d, "").target != Some(CloneName("", host, position, d.target))
  {
    assert |Retargeted(d, "").target.value| == 1 + |Display(d.target)|;
    assert |CloneName("", host, position, d.target)| == |host| + |NatToString(position)| + 2 + |Display(d.target)|;
  }

  /** add_dependencies: each template edge copied and re-targeted, in order. */
  function Retarget(ds: seq<Dependency>, prefix: string): seq<Dependency> {
    seq(|ds|, i requires 0 <= i < |ds| => Retargeted(ds[i], prefix))
  }

  /** add_dependencies: the loop that copies the template task's edges onto the new task. */
  method AddDependencies(ds: seq<Dependency>, newTask: Task, prefix: string)
    modifies newTask`dependencies
    ensures newTask.dependencies == old(newTask.dependencies) + Retarget(ds, prefix)
  {
    ghost var before := newTask.dependencies;
    var j := 0;
    while j < |ds|
      invariant 0 <= j <= |ds|
      invariant newTask.dependencies == before + Retarget(ds[..j], prefix)
    {
      assert Retarget(ds[..j + 1], prefix) == Retarget(ds[..j], prefix) + [Retargeted(ds[j], prefix)];
      newTask.CopyDependency(Retargeted(ds[j], prefix));
      j := j + 1;
    }
    assert ds[..j] == ds;
  }

  // ---------------------------------------------------------------------------
  // check_replace_args (experiment.py:317-338)

  /**
    One `re.sub("(\$.*)", params[m], s)` guarded by `re.findall(...)[0] in params`:
    the match is the suffix from the first '$' (no newlines assumed), and it
    is replaced only when it is a key of `params`.
   */
  function Substitute(params: map<string, string>, s: string): string {
    match FirstIndex(s, '$')
    case None => s
    case Some(i) => if s[i..] in params then s[..i] + params[s[i..]] else s
  }

  /** Substitution is single-shot: applying it again changes nothing when no parameter value holds '$'. */
  lemma SubstituteOnce(params: map<string, string>, s: string)
    requires forall k :: k in params ==> '$' !in params[k]
    ensures Substitute(params, Substitute(params, s)) == Substitute(params, s)
  {
    match FirstIndex(s, '$')
    case None =>
    case Some(i) =>
      if s[i..] in params {
        var r := s[..i] + params[s[i..]];
        assert forall k :: 0 <= k < |r| ==> r[k] != '$' by {
          forall k | 0 <= k < |r| ensures r[k] != '$' {
            if k < i {
              assert r[k] == s[..i][k];
            } else {
              assert r[k] == params[s[i..]][k - i];
            }
          }
        }
        assert FirstIndex(r, '$').None?;
      }
  }

  /** The first loop over the first `n` keys: each key, substituted, gets its original value. */
  function SubstitutedKeys(params: map<string, string>, args: Dict, n: nat): (r: Dict)
    requires Covered(args) && n <= |args.order|
    ensures Covered(r)
    decreases n
  {
    if n == 0 then Empty
    else
      var k := args.order[n - 1];
      Put(SubstitutedKeys(params, args, n - 1), Substitute(params, k), args.values[k])
  }

  /** The second loop over the first `n` keys: each original key gets its substituted value. */
  function SubstitutedValues(params: map<string, string>, args: Dict, acc: Dict, n: nat): (r: Dict)
    requires Covered(args) && n <= |args.order|
    ensures Covered(acc) ==> Covered(r)
    decreases n
  {
    if n == 0 then acc
    else
      var k := args.order[n - 1];
      Put(SubstitutedValues(params, args, acc, n - 1), k, Substitute(params, args.values[k]))
  }

  /** The dict check_replace_args returns. */
  function ReplacedArguments(params: map<string, string>, args: Dict): (r: Dict)
    requires Covered(args)
    ensures Covered(r)
  {
    SubstitutedValues(params, args, SubstitutedKeys(params, args, |args.order|), |args.order|)
  }

  /** check_replace_args: the two loops that fill `new_task_arguments`. */
  method ReplaceArguments(params: map<string, string>, args: Dict) returns (r: Dict)
    requires Covered(args)
    ensures r == ReplacedArguments(params, args)
  {
    r := Empty;
    var i := 0;
    while i < |args.order|
      invariant 0 <= i <= |args.order|
      invariant r == SubstitutedKeys(params, args, i)
    {
      var k := args.order[i];
      r := Put(r, Substitute(params, k), args.values[k]);
      i := i + 1;
    }
    ghost var first := r;
    i := 0;
    while i < |args.order|
      invariant 0 <= i <= |args.order|
      invariant r == SubstitutedValues(params, args, first, i)
    {
      var k := args.order[i];
      r := Put(r, k, Substitute(params, args.values[k]));
      i := i + 1;
    }
  }

  /** Both loops build proper dicts. */
  lemma {:induction false} SubstitutedKeysWellOrdered(params: map<string, string>, args: Dict, n: nat)
    requires Covered(args) && n <= |args.order|
    ensures WellOrdered(SubstitutedKeys(params, args, n))
    decreases n
  {
    if n > 0 {
      SubstitutedKeysWellOrdered(params, args, n - 1);
      var k := args.order[n - 1];
      PutWellOrdered(SubstitutedKeys(params, args, n - 1), Substitute(params, k), args.values[k]);
    }
  }

  lemma {:induction false} SubstitutedValuesWellOrdered(params: map<string, string>, args: Dict, acc: Dict, n: nat)
    requires Covered(args) && n <= |args.order| && WellOrdered(acc)
    ensures WellOrdered(SubstitutedValues(params, args, acc, n))
    decreases n
  {
    if n > 0 {
      SubstitutedValuesWellOrdered(params, args, acc, n - 1);
      var k := args.order[n - 1];
      PutWellOrdered(SubstitutedValues(params, args, acc, n - 1), k, Substitute(params, args.values[k]));
    }
  }

  /** The substituted arguments form a proper dict, whatever the arguments were. */
  lemma ReplacedWellOrdered(params: map<string, string>, args: Dict)
    requires Covered(args)
    ensures WellOrdered(ReplacedArguments(params, args))
  {
    SubstitutedKeysWellOrdered(params, args, |args.order|);
    SubstitutedValuesWellOrdered(params, args, SubstitutedKeys(params, args, |args.order|), |args.order|);
  }

  lemma {:induction false} SubstitutedValuesAt(params: map<string, string>, args: Dict, acc: Dict, n: nat, x: string)
    requires Covered(args) && n <= |args.order|
    ensures x in SubstitutedValues(params, args, acc, n).values <==> x in acc.values || x in args.order[..n]
    ensures x in args.order[..n] ==> SubstitutedValues(params, args, acc, n).values[x] == Substitute(params, args.values[x])
    ensures x !in args.order[..n] && x in acc.values ==> SubstitutedValues(params, args, acc, n).values[x] == acc.values[x]
    decreases n
  {
    if n > 0 {
      SubstitutedValuesAt(params, args, acc, n - 1, x);
      assert args.order[..n] == args.order[..n - 1] + [args.order[n - 1]];
    }
  }

  /** A key is set by the first loop exactly when some original key among the first `n` substitutes to it. */
  lemma {:induction false} SubstitutedKeysHas(params: map<string, string>, args: Dict, n: nat, x: string)
    requires Covered(args) && n <= |args.order|
    ensures x in SubstitutedKeys(params, args, n).values <==>
      exists j :: 0 <= j < n && Substitute(params, args.order[j]) == x
    decreases n
  {
    if n > 0 {
      SubstitutedKeysHas(params, args, n - 1, x);
      if exists j :: 0 <= j < n - 1 && Substitute(params, args.order[j]) == x {
        var j :| 0 <= j < n - 1 && Substitute(params, args.order[j]) == x;
        assert 0 <= j < n;
      }
    }
  }

  /** Position `j` is the last among the first `n` keys that substitutes to the same text. */
  predicate LastSubstitution(params: map<string, string>, args: Dict, n: nat, j: nat)
    requires j < n <= |args.order|
  {
    forall j' :: j < j' < n ==> Substitute(params, args.order[j']) != Substitute(params, args.order[j])
  }

  /** In the first loop, the last key that substitutes to a text decides that text's value. */
  lemma {:induction false} SubstitutedKeysLastWins(params: map<string, string>, args: Dict, n: nat, j: nat)
    requires Covered(args) && j < n <= |args.order| && LastSubstitution(params, args, n, j)
    ensures Substitute(params, args.order[j]) in SubstitutedKeys(params, args, n).values
    ensures SubstitutedKeys(params, args, n).values[Substitute(params, args.order[j])] == args.values[args.order[j]]
    decreases n
  {
    if j < n - 1 {
      assert LastSubstitution(params, args, n - 1, j);
      SubstitutedKeysLastWins(params, args, n - 1, j);
    }
  }

  /** Every original key survives and carries its value, substituted. */
  lemma ReplacedOriginalKeys(params: map<string, string>, args: Dict, k: string)
    requires WellOrdered(args) && k in args.values
    ensures k in ReplacedArguments(params, args).values
    ensures ReplacedArguments(params, args).values[k] == Substitute(params, args.values[k])
  {
    var n := |args.order|;
    assert args.order[..n] == args.order;
    SubstitutedValuesAt(params, args, SubstitutedKeys(params, args, n), n, k);
  }

  /**
    A substituted key that is not an original one carries the ORIGINAL value
    of the last original key that substitutes to it.
   */
  lemma ReplacedNewKeys(params: map<string, string>, args: Dict, j: nat)
    requires Covered(args) && j < |args.order| && LastSubstitution(params, args, |args.order|, j)
    requires Substitute(params, args.order[j]) !in args.values
    ensures Substitute(params, args.order[j]) in ReplacedArguments(params, args).values
    ensures ReplacedArguments(params, args).values[Substitute(params, args.order[j])] == args.values[args.order[j]]
  {
    var n := |args.order|;
    var x := Substitute(params, args.order[j]);
    assert args.order[..n] == args.order;
    var first := SubstitutedKeys(params, args, n);
    SubstitutedKeysHas(params, args, n, x);
    SubstitutedValuesAt(params, args, first, n, x);
    SubstitutedKeysLastWins(params, args, n, j);
  }

  /** Some position of the key order substitutes to `x` exactly when some key does. */
  lemma SomeKeySubstitutesTo(params: map<string, string>, args: Dict, x: string)
    requires WellOrdered(args)
    ensures (exists j :: 0 <= j < |args.order| && Substitute(params, args.order[j]) == x) <==>
      exists k :: k in args.values && Substitute(params, k) == x
  {
    if exists j :: 0 <= j < |args.order| && Substitute(params, args.order[j]) == x {
      var j :| 0 <= j < |args.order| && Substitute(params, args.order[j]) == x;
      assert args.order[j] in args.values;
    }
    if exists k :: k in args.values && Substitute(params, k) == x {
      var k :| k in args.values && Substitute(params, k) == x;
      var j :| 0 <= j < |args.order| && args.order[j] == k;
    }
  }

  /** The keys of the result are the original keys together with their substitutions. */
  lemma ReplacedKeys(params: map<string, string>, args: Dict, x: string)
    requires WellOrdered(args)
    ensures x in ReplacedArguments(params, args).values <==>
      x in args.values || exists k :: k in args.values && Substitute(params, k) == x
  {
    var n := |args.order|;
    assert args.order[..n] == args.order;
    var first := SubstitutedKeys(params, args, n);
    SubstitutedValuesAt(params, args, first, n, x);
    SubstitutedKeysHas(params, args, n, x);
    SomeKeySubstitutesTo(params, args, x);
    assert x in args.order <==> x in args.values;
  }

  // ---------------------------------------------------------------------------
  // The embedding loop (experiment.py:339-355)

  /** The inputs of one newSubWorkflow call that shape every clone, after the name check. */
  datatype Call = Call(params: map<string, string>, dependency: map<string, string>, prefix: string, hostName: string)

  /**
    The task the loop builds for template task `t` at 1-based `position`,
    before attaching it: reverted arguments (may raise), substitution, a new
    Task of the default type without options, the root check, copied edges.
   */
  function Clone(t: TaskRecord, c: Call, position: nat): Result<TaskRecord, Error> {
    match Unflatten(t.arguments)
    case Err(e) => Err(e)
    case Ok(args) =>
      match RootError(t, c.dependency)
      case Some(e) => Err(e)
      case None =>
        Ok(TaskRecord(Some(CloneName(c.prefix, c.hostName, position, t.name)), t.operator, DefaultType,
                      Flatten(ReplacedArguments(c.params, args)), Retarget(t.dependencies, c.prefix), map[]))
  }

  /** The clone of every template task, each at its 1-based position; cloning reads nothing the loop changes. */
  function Clones(template: seq<TaskRecord>, c: Call): (r: seq<Result<TaskRecord, Error>>)
    ensures |r| == |template|
    ensures forall k :: 0 <= k < |r| && r[k].Ok? ==> r[k].value.name.Some?
  {
    seq(|template|, i requires 0 <= i < |template| => Clone(template[i], c, i + 1))
  }

  /** The targets of a list of edges. */
  function TargetsOf(ds: seq<Dependency>): seq<Option<string>> {
    seq(|ds|, i requires 0 <= i < |ds| => ds[i].target)
  }

  /** `non_leaf_tasks`: the original targets of every template edge, in order. */
  function Targets(template: seq<TaskRecord>): seq<Option<string>>
    decreases |template|
  {
    if |template| == 0 then []
    else Targets(template[..|template| - 1]) + TargetsOf(template[|template| - 1].dependencies)
  }

  /** The targets of a template grown by one task. */
  lemma TargetsStep(template: seq<TaskRecord>, i: nat)
    requires i < |template|
    ensures Targets(template[..i + 1]) == Targets(template[..i]) + TargetsOf(template[i].dependencies)
  {
    assert template[..i + 1][..i] == template[..i];
  }

  /** The return filter: the clones whose (new) name is not among `targets`. */
  function Leaves(clones: seq<TaskRecord>, targets: seq<Option<string>>): seq<TaskRecord>
    decreases |clones|
  {
    if |clones| == 0 then []
    else (if clones[0].name in targets then [] else [clones[0]]) + Leaves(clones[1..], targets)
  }

  /** The filter over a list grown by one clone. */
  lemma {:induction false} LeavesAppend(clones: seq<TaskRecord>, x: TaskRecord, targets: seq<Option<string>>)
    ensures Leaves(clones + [x], targets) == Leaves(clones, targets) + (if x.name in targets then [] else [x])
    decreases |clones|
  {
    if |clones| > 0 {
      assert (clones + [x])[1..] == clones[1..] + [x];
      LeavesAppend(clones[1..], x, targets);
    } else {
      assert clones + [x] == [x];
    }
  }

  /** A clone is returned exactly when its new name is not an original target. */
  lemma {:induction false} LeavesMembers(clones: seq<TaskRecord>, targets: seq<Option<string>>, x: TaskRecord)
    ensures x in Leaves(clones, targets) <==> x in clones && x.name !in targets
    ensures |Leaves(clones, targets)| <= |clones|
    decreases |clones|
  {
    if |clones| > 0 {
      LeavesMembers(clones[1..], targets, x);
      assert clones == [clones[0]] + clones[1..];
    }
  }

  /** With a non-empty `dependency`, no template root is ever cloned into the host. */
  lemma NoRootWithDependency(names: seq<Option<string>>, template: seq<TaskRecord>, c: Call, k: nat)
    requires |c.dependency| > 0 && k < |AttachAll(names, Clones(template, c), 0).attached|
    ensures k < |template| && |template[k].dependencies| > 0
  {
    AttachAllTakesBuilt(names, Clones(template, c), 0);
    var attached := AttachAll(names, Clones(template, c), 0).attached;
    assert Clones(template, c)[0 + k] == Ok(attached[k]);
    var r := Clone(template[k], c, k + 1);
    assert r.Ok?;
    assert RootError(template[k], c.dependency).None?;
  }

  /**
    The visible effect of the quirk: the first task of a well-formed
    template has no edges, so with a non-empty `dependency` the loop raises
    at that first task and attaches nothing.
   */
  lemma FirstRootStops(names: seq<Option<string>>, template: seq<TaskRecord>, c: Call)
    requires |c.dependency| > 0 && |template| > 0 && WellFormed(template)
    requires Unflatten(template[0].arguments).Ok?
    ensures AttachAll(names, Clones(template, c), 0) == Run([], Some(DependencyNotDict))
  {
    var ds := template[0].dependencies;
    assert Names(template[..0]) == [];
    assert AttachError([], template[0].name, ds).None?;
    // the first edge, if there is one, is `(ds + [_])[0]`, and it has to point into []
    var padded := ds + [Dependency(None, None, "all")];
    assert padded[0].target !in [];
    assert |ds| == 0;
  }


  /** A template task without arguments that passes the root check is cloned without arguments. */
  lemma CloneWithoutArguments(t: TaskRecord, c: Call, position: nat)
    requires t.arguments == [] && RootError(t, c.dependency).None?
    ensures Clone(t, c, position) ==
      Ok(TaskRecord(Some(CloneName(c.prefix, c.hostName, position, t.name)), t.operator, DefaultType,
                    [], Retarget(t.dependencies, c.prefix), map[]))
  {
    assert Unflatten([]) == Ok(Empty);
    assert Flatten(ReplacedArguments(c.params, Empty)) == [];
  }

  /**
    A two-task template, `A` and then `B` with an "all" edge to `A` bound
    to `x`, embedded under the prefix "sub" into a host without tasks:
    `sub_A` and `sub_B` are attached, `sub_B`'s edge is re-targeted to
    `sub_A`, and both are returned, since the filter compares the new names
    with the original target `A`.
   */
  lemma TwoTaskExample()
    ensures var a := TaskRecord(Some("A"), "op", DefaultType, [], [], map[]);
      var b := TaskRecord(Some("B"), "op", DefaultType, [], [Dependency(Some("A"), Some("x"), "all")], map[]);
      var subA := a.(name := Some("sub_A"));
      var subB := b.(name := Some("sub_B"), dependencies := [Dependency(Some("sub_A"), Some("x"), "all")]);
      var run := AttachAll([], Clones([a, b], Call(map[], map[], "sub", "host")), 0);
      run == Run([subA, subB], None) && Leaves(run.attached, Targets([a, b])) == [subA, subB]
  {
    var a := TaskRecord(Some("A"), "op", DefaultType, [], [], map[]);
    var b := TaskRecord(Some("B"), "op", DefaultType, [], [Dependency(Some("A"), Some("x"), "all")], map[]);
    var c := Call(map[], map[], "sub", "host");
    var subA := a.(name := Some("sub_A"));
    var subB := b.(name := Some("sub_B"), dependencies := [Dependency(Some("sub_A"), Some("x"), "all")]);
    CloneWithoutArguments(a, c, 1);
    CloneWithoutArguments(b, c, 2);
    assert CloneName("sub", "host", 1, a.name) == "sub_A" by {
      assert "sub" + "_" + "A" == "sub_A";
    }
    assert CloneName("sub", "host", 2, b.name) == "sub_B" by {
      assert "sub" + "_" + "B" == "sub_B";
    }
    assert Retarget(b.dependencies, "sub") == subB.dependencies by {
      assert Retargeted(b.dependencies[0], "sub") == subB.dependencies[0];
    }
    assert Retarget(a.dependencies, "sub") == [];
    var clones := Clones([a, b], c);
    assert clones[0] == Clone(a, c, 1) && clones[1] == Clone(b, c, 2);
    assert clones[0] == Ok(subA) && clones[1] == Ok(subB);
    TwoTasksAttached([], subA, subB, clones);
    assert Leaves([subA, subB], [Some("A")]) == [subA, subB] by {
      assert subA.name !in [Some("A")] && subB.name !in [Some("A")];
      assert [subB][1..] == [];
      assert Leaves([subB], [Some("A")]) == [subB];
      assert [subA, subB][1..] == [subB];
    }
    assert Targets([a, b]) == [Some("A")] by {
      assert [a, b][..1] == [a];
      assert [a][..0] == [];
      assert Targets([a]) == [];
      assert TargetsOf(b.dependencies) == [Some("A")];
    }
  }

  /** Two built tasks whose names are free and whose edges resolve are both attached. */
  lemma TwoTasksAttached(names: seq<Option<string>>, t1: TaskRecord, t2: TaskRecord, built: seq<Result<TaskRecord, Error>>)
    requires |built| == 2 && built[0] == Ok(t1) && built[1] == Ok(t2)
    requires AttachError(names, t1.name, t1.dependencies).None?
    requires AttachError(names + [t1.name], t2.name, t2.dependencies).None?
    ensures AttachAll(names, built, 0) == Run([t1, t2], None)
  {
    assert AttachAll(names + [t1.name, t2.name], built, 2) == Run([], None);
    assert names + [t1.name] + [t2.name] == names + [t1.name, t2.name];
    assert AttachAll(names + [t1.name], built, 1) == Run([t2], None);
  }

  /**
    The same template embedded under the empty name into a host `h` without
    tasks: the clones are named positionally (`h_1_A`, `h_2_B`), but the copied
    edge of `B` is re-targeted to `_A`, which no task holds, so `h_1_A` is
    attached and the loop then raises at `h_2_B`.
   */
  lemma PositionalEdgeUnresolved()
    ensures var a := TaskRecord(Some("A"), "op", DefaultType, [], [], map[]);
      var b := TaskRecord(Some("B"), "op", DefaultType, [], [Dependency(Some("A"), Some("x"), "all")], map[]);
      AttachAll([], Clones([a, b], Call(map[], map[], "", "h")), 0) ==
        Run([a.(name := Some("h_1_A"))], Some(DependencyNotFulfilled))
  {
    var a := TaskRecord(Some("A"), "op", DefaultType, [], [], map[]);
    var b := TaskRecord(Some("B"), "op", DefaultType, [], [Dependency(Some("A"), Some("x"), "all")], map[]);
    var c := Call(map[], map[], "", "h");
    var hA := a.(name := Some("h_1_A"));
    var edge := Dependency(Some("_A"), Some("x"), "all");
    var hB := b.(name := Some("h_2_B"), dependencies := [edge]);
    CloneWithoutArguments(a, c, 1);
    CloneWithoutArguments(b, c, 2);
    assert CloneName("", "h", 1, a.name) == "h_1_A" by {
      assert NatToString(1) == "1";
      assert "h" + "_" + "1" + "_" + "A" == "h_1_A";
    }
    assert CloneName("", "h", 2, b.name) == "h_2_B" by {
      assert NatToString(2) == "2";
      assert "h" + "_" + "2" + "_" + "B" == "h_2_B";
    }
    assert Retarget(b.dependencies, "") == [edge] by {
      assert "" + "_" + "A" == "_A";
      assert Retargeted(b.dependencies[0], "") == edge;
    }
    assert Retarget(a.dependencies, "") == [];
    var clones := Clones([a, b], c);
    assert clones[0] == Clone(a, c, 1) && clones[1] == Clone(b, c, 2);
    assert clones[0] == Ok(hA) && clones[1] == Ok(hB);
    assert AttachError([], hA.name, hA.dependencies).None?;
    assert [] + [hA.name] == [Some("h_1_A")];
    assert AttachError([Some("h_1_A")], hB.name, hB.dependencies) == Some(DependencyNotFulfilled) by {
      assert Some("h_2_B") != Some("h_1_A");
      assert hB.dependencies[0].target !in [Some("h_1_A")];
    }
    assert AttachAll([Some("h_1_A")], clones, 1) == Run([], Some(DependencyNotFulfilled));
  }
}
