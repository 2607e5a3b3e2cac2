/** Dotted-path resolution: `HomeDataBinder.getNestedValue(obj, path)`, which
    splits `path` on `.` and reduces over the keys, keeping the current node
    only while it is truthy and has the next key. */
module Path {
  import opened Maybe
  import opened Json
  import Strings

  /** One step of the reduce: `current && current[key] !== undefined ? current[key] : undefined`. */
  function Step(current: Option<Json>, key: string): (r: Option<Json>)
    ensures r.Some? <==> current.Some? && Truthy(current.value) && current.value.Obj? && key in current.value.fields
    ensures r.Some? ==> r.value == current.value.fields[key]
  {
    if current.Some? && Truthy(current.value) then Get(current.value, key) else None
  }

  /** `keys.reduce(Step, current)`: a left fold, one key at a time. Once the
      reduce reaches `undefined` it stays there. */
  function Fold(current: Option<Json>, keys: seq<string>): (r: Option<Json>)
    ensures current.None? ==> r.None?
    ensures r.Some? ==> current.Some?
    ensures |keys| == 0 ==> r == current
    decreases |keys|
  {
    if |keys| == 0 then current else Fold(Step(current, keys[0]), keys[1..])
  }

  /** The keys a binding path names. */
  function Keys(path: string): seq<string>
  {
    Strings.Split(path, '.')
  }

  /** `getNestedValue(obj, path)`: a path without a dot is one property
      lookup on a truthy root; any path resolves exactly when every node met
      along it is truthy and has the next key. */
  function GetNestedValue(obj: Json, path: string): (r: Option<Json>)
    ensures '.' !in path ==> r == Step(Some(obj), path)
    ensures r.Some? <==> DescendsAll(obj, Keys(path))
  {
    assert '.' !in path ==> Keys(path) == [path] by {
      if '.' !in path { Strings.SplitWithoutSeparator(path, '.'); }
    }
    ResolvesIff(obj, Keys(path));
    Fold(Some(obj), Keys(path))
  }

  /** Reference definition: descend into the child named by the first key
      while the node is truthy and has it. */
  function Descend(node: Json, keys: seq<string>): Option<Json>
    decreases |keys|
  {
    if |keys| == 0 then Some(node)
    else if Truthy(node) && node.Obj? && keys[0] in node.fields then
      Descend(node.fields[keys[0]], keys[1..])
    else None
  }

  /** The left fold agrees with the top-down descent. */
  lemma {:induction false} FoldIsDescend(node: Json, keys: seq<string>)
    ensures Fold(Some(node), keys) == Descend(node, keys)
    decreases |keys|
  {
    if |keys| > 0 {
      if Truthy(node) && node.Obj? && keys[0] in node.fields {
        FoldIsDescend(node.fields[keys[0]], keys[1..]);
      }
    }
  }

  /** Folding over `ks1 + ks2` is folding over `ks1`, then over `ks2`. */
  lemma {:induction false} FoldAppend(current: Option<Json>, ks1: seq<string>, ks2: seq<string>)
    ensures Fold(current, ks1 + ks2) == Fold(Fold(current, ks1), ks2)
    decreases |ks1|
  {
    if |ks1| > 0 {
      assert (ks1 + ks2)[0] == ks1[0];
      assert (ks1 + ks2)[1..] == ks1[1..] + ks2;
      FoldAppend(Step(current, ks1[0]), ks1[1..], ks2);
    } else {
      assert ks1 + ks2 == ks2;
    }
  }

  /** The node reached after `keys[..i]` is truthy and has the key `keys[i]`. */
  ghost predicate StepsAt(node: Json, keys: seq<string>, i: nat)
    requires i < |keys|
  {
    var here := Fold(Some(node), keys[..i]);
    here.Some? && Truthy(here.value) && here.value.Obj? && keys[i] in here.value.fields
  }

  /** Every node met along the way is truthy and has the next key. */
  ghost predicate DescendsAll(node: Json, keys: seq<string>)
  {
    forall i :: 0 <= i < |keys| ==> StepsAt(node, keys, i)
  }

  /** The last step of the reduce: the path resolves exactly when the path
      without its last key resolves to a truthy object holding that key, and
      the value is that property, even when the property itself is falsy. */
  lemma LastStep(node: Json, keys: seq<string>)
    requires |keys| > 0
    ensures var before := Fold(Some(node), keys[..|keys| - 1]);
            var last := keys[|keys| - 1];
            Fold(Some(node), keys) ==
              if before.Some? && Truthy(before.value) && before.value.Obj? && last in before.value.fields
              then Some(before.value.fields[last]) else None
  {
    var n := |keys| - 1;
    assert keys == keys[..n] + [keys[n]];
    FoldAppend(Some(node), keys[..n], [keys[n]]);
  }

  /** The path resolves if and only if every intermediate node is truthy and
      has the next key. */
  lemma {:induction false} ResolvesIff(node: Json, keys: seq<string>)
    ensures Fold(Some(node), keys).Some? <==> DescendsAll(node, keys)
    decreases |keys|
  {
    if |keys| > 0 {
      var n := |keys| - 1;
      var pre := keys[..n];
      ResolvesIff(node, pre);
      LastStep(node, keys);
      forall i | 0 <= i < n
        ensures StepsAt(node, keys, i) == StepsAt(node, pre, i)
      {
        assert pre[..i] == keys[..i];
      }
      assert Fold(Some(node), keys).Some? == StepsAt(node, keys, n);
    }
  }

  /** Short circuit: a falsy node, or one lacking the next key, met before the
      last key makes the whole path `undefined`. */
  lemma ShortCircuit(node: Json, keys: seq<string>, i: nat)
    requires i < |keys|
    requires var here := Fold(Some(node), keys[..i]);
             here.Some? ==> !Truthy(here.value) || Get(here.value, keys[i]).None?
    ensures Fold(Some(node), keys) == None
  {
    assert keys == keys[..i] + keys[i..];
    FoldAppend(Some(node), keys[..i], keys[i..]);
    var here := Fold(Some(node), keys[..i]);
    assert keys[i..] == [keys[i]] + keys[i + 1..];
    FoldAppend(here, [keys[i]], keys[i + 1..]);
  }

  /** Path composition: resolving `p.q` is resolving `p`, then `q` from there. */
  lemma PathComposition(obj: Json, p: string, q: string)
    ensures GetNestedValue(obj, p + "." + q) ==
              match GetNestedValue(obj, p)
              case None => None
              case Some(v) => GetNestedValue(v, q)
  {
    Strings.SplitConcat(p, q, '.');
    assert p + "." + q == p + ['.'] + q;
    FoldAppend(Some(obj), Keys(p), Keys(q));
  }

  /** `getNestedValue` on a non-truthy root is `undefined` for every path. */
  lemma FalsyRootUndefined(obj: Json, path: string)
    requires !Truthy(obj)
    ensures GetNestedValue(obj, path) == None
  {
  }
}
