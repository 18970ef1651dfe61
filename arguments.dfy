/**
  Task arguments. The source keeps them as a Python dict (insertion
  ordered) at the interface and stores them in the task as the flattened
  list of `"key=value"` strings (experiment.py:454); `reverted_arguments`
  and `load` turn such a list back into a dict by splitting each string on
  '=' and taking fields 0 and 1 (experiment.py:407, 525).
 */
module Arguments {
  import opened Wrappers
  import opened Errors
  import Text

  const Separator: char := '='

  /** A Python dict from strings to strings: its keys in iteration order, and its entries. */
  datatype Dict = Dict(order: seq<string>, values: map<string, string>)

  /** Every key in the order has an entry. */
  predicate Covered(d: Dict) {
    forall i :: 0 <= i < |d.order| ==> d.order[i] in d.values
  }

  /** The keys in iteration order are exactly the keys of the entries, each once: what every Python dict is. */
  predicate WellOrdered(d: Dict) {
    && Covered(d)
    && (forall k :: k in d.values ==> k in d.order)
    && (forall i, j :: 0 <= i < j < |d.order| ==> d.order[i] != d.order[j])
  }

  const Empty: Dict := Dict([], map[])

  /** `d[k] = v`: a new key goes to the end, an existing key keeps its place. */
  function Put(d: Dict, k: string, v: string): (r: Dict)
    ensures r.values == d.values[k := v]
    ensures Covered(d) ==> Covered(r)
  {
    if k in d.values then Dict(d.order, d.values[k := v])
    else Dict(d.order + [k], d.values[k := v])
  }

  /** Assignment keeps a dict a dict. */
  lemma PutWellOrdered(d: Dict, k: string, v: string)
    requires WellOrdered(d)
    ensures WellOrdered(Put(d, k, v))
  {
    var r := Put(d, k, v);
    if k !in d.values {
      assert k !in d.order;
      forall i | 0 <= i < |r.order| ensures r.order[i] in r.values {
        if i < |d.order| {
          assert r.order[i] == d.order[i];
        }
      }
      forall x | x in r.values ensures x in r.order {
        if x != k {
          var i :| 0 <= i < |d.order| && d.order[i] == x;
          assert r.order[i] == x;
        } else {
          assert r.order[|d.order|] == k;
        }
      }
    }
  }

  /** One flattened argument, `"{0}={1}".format(k, v)`. */
  function Line(k: string, v: string): string {
    k + [Separator] + v
  }

  /** The flattening comprehension of Task.__init__: one `"k=v"` line per key, in dict order. */
  function Flatten(d: Dict): seq<string>
    requires Covered(d)
  {
    seq(|d.order|, i requires 0 <= i < |d.order| => Line(d.order[i], d.values[d.order[i]]))
  }

  /** `a.split("=")[0]`: the text before the first '='. */
  function KeyOf(a: string): string {
    Text.Split(a, Separator)[0]
  }

  /** `a.split("=")[1]`: the text between the first and the second '='. */
  function ValueOf(a: string): string
    requires Separator in a
  {
    Text.SplitMore(a, Separator);
    Text.Split(a, Separator)[1]
  }

  /**
    The loop of `reverted_arguments` (and the dict comprehension of `load`):
    each line in turn sets `d[KeyOf(a)] = ValueOf(a)`; a line without '='
    raises IndexError.
   */
  function Unflatten(args: seq<string>): (r: Result<Dict, Error>)
    ensures r.Ok? ==> Covered(r.value)
    decreases |args|
  {
    if |args| == 0 then Ok(Empty)
    else match Unflatten(args[..|args| - 1])
      case Err(e) => Err(e)
      case Ok(d) =>
        var a := args[|args| - 1];
        if Separator in a then Ok(Put(d, KeyOf(a), ValueOf(a))) else Err(MalformedArgument)
  }

  /** Reverting always builds a proper dict. */
  lemma {:induction false} UnflattenWellOrdered(args: seq<string>)
    requires Unflatten(args).Ok?
    ensures WellOrdered(Unflatten(args).value)
    decreases |args|
  {
    if |args| > 0 {
      var init := args[..|args| - 1];
      UnflattenWellOrdered(init);
      var a := args[|args| - 1];
      PutWellOrdered(Unflatten(init).value, KeyOf(a), ValueOf(a));
    }
  }

  /** No key and no value holds the separator. */
  predicate NoSeparator(d: Dict) {
    forall k :: k in d.values ==> Separator !in k && Separator !in d.values[k]
  }

  /** Unflattening fails exactly when some line has no '='. */
  lemma {:induction false} UnflattenFails(args: seq<string>)
    ensures Unflatten(args).Err? <==> exists i :: 0 <= i < |args| && Separator !in args[i]
    ensures Unflatten(args).Err? ==> Unflatten(args).error == MalformedArgument
    decreases |args|
  {
    if |args| > 0 {
      var init := args[..|args| - 1];
      UnflattenFails(init);
      if exists i :: 0 <= i < |init| && Separator !in init[i] {
        var i :| 0 <= i < |init| && Separator !in init[i];
        assert args[i] == init[i];
      }
      if exists i :: 0 <= i < |args| && Separator !in args[i] {
        var i :| 0 <= i < |args| && Separator !in args[i];
        if i < |init| {
          assert init[i] == args[i];
        }
      }
    }
  }

  /** The keys of the result are the texts before the first '=' of the lines. */
  lemma {:induction false} UnflattenKeys(args: seq<string>)
    requires Unflatten(args).Ok?
    ensures Unflatten(args).value.values.Keys == set i | 0 <= i < |args| :: KeyOf(args[i])
    decreases |args|
  {
    if |args| > 0 {
      var init := args[..|args| - 1];
      UnflattenKeys(init);
      var last := |args| - 1;
      var lhs := Unflatten(args).value.values.Keys;
      var rhs := set i | 0 <= i < |args| :: KeyOf(args[i]);
      forall k | k in rhs ensures k in lhs {
        var i :| 0 <= i < |args| && KeyOf(args[i]) == k;
        if i < last {
          assert init[i] == args[i];
        }
      }
      forall k | k in lhs ensures k in rhs {
        if k != KeyOf(args[last]) {
          var i :| 0 <= i < |init| && KeyOf(init[i]) == k;
          assert args[i] == init[i];
        }
      }
    }
  }

  /** A repeated key keeps the value of its last line. */
  lemma {:induction false} UnflattenLastWins(args: seq<string>, i: nat)
    requires Unflatten(args).Ok? && i < |args|
    requires forall j :: i < j < |args| ==> KeyOf(args[j]) != KeyOf(args[i])
    ensures Separator in args[i]
    ensures KeyOf(args[i]) in Unflatten(args).value.values
    ensures Unflatten(args).value.values[KeyOf(args[i])] == ValueOf(args[i])
    decreases |args|
  {
    var last := |args| - 1;
    var init := args[..last];
    if i < last {
      forall j | i < j < |init| ensures KeyOf(init[j]) != KeyOf(init[i]) {
        assert init[j] == args[j];
      }
      UnflattenLastWins(init, i);
      assert init[i] == args[i];
    }
  }

  /** Putting a new key appends its line to the flattened list. */
  lemma FlattenPutNew(d: Dict, k: string, v: string)
    requires Covered(d) && k !in d.values
    ensures Flatten(Put(d, k, v)) == Flatten(d) + [Line(k, v)]
  {
    var r := Put(d, k, v);
    assert r.order == d.order + [k];
    forall i | 0 <= i < |d.order| ensures Flatten(r)[i] == Flatten(d)[i] {
      assert r.order[i] == d.order[i] && d.order[i] != k;
    }
  }

  /** The prefix of a dict made of its first `n` keys. */
  function Take(d: Dict, n: nat): (r: Dict)
    requires Covered(d) && n <= |d.order|
    ensures r.order == d.order[..n] && Covered(r)
    ensures forall k :: k in r.values ==> k in d.values && r.values[k] == d.values[k]
  {
    var m := map k | k in d.order[..n] :: d.values[k];
    assert forall i :: 0 <= i < n ==> d.order[..n][i] in m;
    Dict(d.order[..n], m)
  }

  /** One step of the unflattening loop. */
  lemma UnflattenStep(args: seq<string>)
    requires |args| > 0 && Unflatten(args[..|args| - 1]).Ok? && Separator in args[|args| - 1]
    ensures Unflatten(args) == Ok(Put(Unflatten(args[..|args| - 1]).value, KeyOf(args[|args| - 1]), ValueOf(args[|args| - 1])))
  {
  }

  /** Adding the next key of `d` to its prefix of `n - 1` keys gives the prefix of `n` keys. */
  lemma PutTake(d: Dict, n: nat)
    requires Covered(d) && 0 < n <= |d.order|
    requires forall i :: 0 <= i < n - 1 ==> d.order[i] != d.order[n - 1]
    ensures Put(Take(d, n - 1), d.order[n - 1], d.values[d.order[n - 1]]) == Take(d, n)
  {
    var k := d.order[n - 1];
    var prev := Take(d, n - 1);
    var next := Take(d, n);
    assert k !in d.order[..n - 1];
    assert k !in prev.values;
    assert prev.order + [k] == next.order;
    forall x ensures x in prev.values[k := d.values[k]] <==> x in next.values {
      assert x in d.order[..n] <==> x in d.order[..n - 1] || x == k;
    }
    assert prev.values[k := d.values[k]] == next.values;
  }

  lemma {:induction false} FlattenRoundTripPrefix(d: Dict, n: nat)
    requires WellOrdered(d) && NoSeparator(d) && n <= |d.order|
    ensures Unflatten(Flatten(d)[..n]) == Ok(Take(d, n))
    decreases n
  {
    var args := Flatten(d)[..n];
    if n == 0 {
      assert Take(d, 0).values == map[];
    } else {
      assert args[..n - 1] == Flatten(d)[..n - 1];
      FlattenRoundTripPrefix(d, n - 1);
      var k := d.order[n - 1];
      var v := d.values[k];
      assert args[n - 1] == Line(k, v);
      assert Separator !in k && Separator !in v;
      Text.SplitPair(k, v, Separator);
      Text.SplitMore(args[n - 1], Separator);
      assert KeyOf(args[n - 1]) == k && ValueOf(args[n - 1]) == v;
      UnflattenStep(args);
      PutTake(d, n);
    }
  }

  /**
    The flatten/unflatten round trip: when no key or value holds '=',
    reverting the flattened arguments gives the same dict, order included.
   */
  lemma ArgumentsRoundTrip(d: Dict)
    requires WellOrdered(d) && NoSeparator(d)
    ensures Unflatten(Flatten(d)) == Ok(d)
  {
    FlattenRoundTripPrefix(d, |d.order|);
    assert Flatten(d)[..|d.order|] == Flatten(d);
    assert d.order[..|d.order|] == d.order;
    assert Take(d, |d.order|).values == d.values;
  }

  /** A flattened list in canonical form: one '=' per line and no key twice. */
  predicate Canonical(args: seq<string>) {
    && (forall i :: 0 <= i < |args| ==> |Text.Split(args[i], Separator)| == 2)
    && (forall i, j :: 0 <= i < j < |args| ==> KeyOf(args[i]) != KeyOf(args[j]))
  }

  /** The last key of a canonical list is new to the dict of the lines before it. */
  lemma CanonicalLastKeyNew(args: seq<string>)
    requires |args| > 0 && Canonical(args) && Unflatten(args[..|args| - 1]).Ok?
    ensures KeyOf(args[|args| - 1]) !in Unflatten(args[..|args| - 1]).value.values
  {
    var last := |args| - 1;
    var init := args[..last];
    UnflattenKeys(init);
    assert forall i :: 0 <= i < |init| ==> KeyOf(init[i]) != KeyOf(args[last]) by {
      forall i | 0 <= i < |init| ensures KeyOf(init[i]) != KeyOf(args[last]) {
        assert init[i] == args[i];
      }
    }
  }

  /** Appending a line with one '=' and a new key appends that very line to the flattened result. */
  lemma UnflattenAppendNew(init: seq<string>, a: string)
    requires Unflatten(init).Ok? && |Text.Split(a, Separator)| == 2
    requires KeyOf(a) !in Unflatten(init).value.values
    ensures Unflatten(init + [a]).Ok?
    ensures Flatten(Unflatten(init + [a]).value) == Flatten(Unflatten(init).value) + [a]
  {
    var args := init + [a];
    assert args[..|args| - 1] == init;
    var d := Unflatten(init).value;
    Text.SplitMore(a, Separator);
    UnflattenStep(args);
    FlattenPutNew(d, KeyOf(a), ValueOf(a));
    Text.SplitTwo(a, Separator);
  }

  /** A canonical list survives unflattening and flattening again unchanged. */
  lemma {:induction false} CanonicalRoundTrip(args: seq<string>)
    requires Canonical(args)
    ensures Unflatten(args).Ok? && Flatten(Unflatten(args).value) == args
    decreases |args|
  {
    if |args| > 0 {
      var init := args[..|args| - 1];
      assert Canonical(init) by {
        forall i | 0 <= i < |init| ensures init[i] == args[i] { }
      }
      CanonicalRoundTrip(init);
      CanonicalLastKeyNew(args);
      UnflattenAppendNew(init, args[|args| - 1]);
      assert init + [args[|args| - 1]] == args;
    }
  }
}
