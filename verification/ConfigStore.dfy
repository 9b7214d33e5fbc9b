/**
 The configuration as it is in memory: dictionary objects that hold scalars or references to other
 dictionary objects, and are updated in place.
 */
module ConfigStore {
  import opened Collections
  import opened ConfigTree

  datatype Cell<V> = Scalar(value: V) | Ref(index: nat)

  /** References lead to later objects only, so there are no cycles. */
  ghost predicate Forward<K(!new), V>(dicts: seq<map<K, Cell<V>>>) {
    forall r, k :: 0 <= r < |dicts| && k in dicts[r] && dicts[r][k].Ref? ==> r < dicts[r][k].index < |dicts|
  }

  /** Every object is known under one path only, so no two ways lead to the same object. */
  ghost predicate Labelled<K(!new), V>(dicts: seq<map<K, Cell<V>>>, paths: seq<seq<K>>) {
    && |paths| == |dicts|
    && Forward(dicts)
    && forall r, k :: 0 <= r < |dicts| && k in dicts[r] && dicts[r][k].Ref? ==>
         paths[dicts[r][k].index] == paths[r] + [k]
  }

  /** The nested dictionary that starts at an object. */
  ghost function View<K(!new), V>(dicts: seq<map<K, Cell<V>>>, r: nat): map<K, Tree<K, V>>
    requires Forward(dicts) && r < |dicts|
    decreases |dicts| - r
  {
    map k | k in dicts[r] :: if dicts[r][k].Scalar? then Leaf(dicts[r][k].value)
    else Dict(View(dicts, dicts[r][k].index))
  }

  /** The object at the end of a path. */
  ghost function Follow<K(!new), V>(dicts: seq<map<K, Cell<V>>>, r: nat, path: seq<K>): Option<nat>
    requires Forward(dicts) && r < |dicts|
    decreases |path|
  {
    if path == [] then Some(r)
    else if path[0] in dicts[r] && dicts[r][path[0]].Ref? then Follow(dicts, dicts[r][path[0]].index, path[1..])
    else None
  }

  /** Only object `x` changed, and objects may have been added. */
  ghost predicate Changed<K, V>(d: seq<map<K, Cell<V>>>, d': seq<map<K, Cell<V>>>, x: nat) {
    x < |d| <= |d'| && forall r :: 0 <= r < |d| && r != x ==> d'[r] == d[r]
  }

  lemma PrefixOfPrefix<K>(p: seq<K>, k: K, q: seq<K>)
    requires IsPrefix(p + [k], q)
    ensures IsPrefix(p, q) && |q| > |p| && q[|p|] == k
  {
    assert q[..|p|] == q[..|p| + 1][..|p|] == p;
    assert q[..|p| + 1][|p|] == k;
  }

  /** An object off the way to the changed one looks as before. */
  lemma {:induction false} Untouched<K(!new), V>(
      d: seq<map<K, Cell<V>>>, d': seq<map<K, Cell<V>>>, paths: seq<seq<K>>, r: nat, x: nat)
    requires Labelled(d, paths) && Forward(d') && Changed(d, d', x) && r < |d| && !IsPrefix(paths[r], paths[x])
    ensures View(d', r) == View(d, r)
    decreases |d| - r
  {
    assert r != x by { assert paths[r][..|paths[r]|] == paths[r]; }
    forall k | k in d[r] && d[r][k].Ref? ensures View(d', d[r][k].index) == View(d, d[r][k].index) {
      var c := d[r][k].index;
      if IsPrefix(paths[c], paths[x]) { PrefixOfPrefix(paths[r], k, paths[x]); }
      Untouched(d, d', paths, c, x);
    }
  }

  /** An object above the changed one differs in the one key that leads there. */
  lemma OneKeyDiffers<K(!new), V>(
      d: seq<map<K, Cell<V>>>, d': seq<map<K, Cell<V>>>, paths: seq<seq<K>>, r: nat, k: K, x: nat)
    requires Labelled(d, paths) && Forward(d') && Changed(d, d', x) && r < |d| && r != x
    requires k in d[r] && d[r][k].Ref? && IsPrefix(paths[r] + [k], paths[x])
    ensures View(d', r) == View(d, r)[k := Dict(View(d', d[r][k].index))]
  {
    PrefixOfPrefix(paths[r], k, paths[x]);
    forall k' | k' in d[r] && d[r][k'].Ref? && k' != k ensures View(d', d[r][k'].index) == View(d, d[r][k'].index) {
      var c := d[r][k'].index;
      if IsPrefix(paths[c], paths[x]) { PrefixOfPrefix(paths[r], k', paths[x]); }
      Untouched(d, d', paths, c, x);
    }
  }

  /** `x` is the object at the end of `way` from `r`. */
  ghost predicate OnWay<K(!new), V>(d: seq<map<K, Cell<V>>>, paths: seq<seq<K>>, r: nat, way: seq<K>, x: nat) {
    Labelled(d, paths) && r < |d| && x < |d| && Follow(d, r, way) == Some(x) && paths[x] == paths[r] + way
  }

  lemma NextOnWay<K(!new), V>(d: seq<map<K, Cell<V>>>, paths: seq<seq<K>>, r: nat, way: seq<K>, x: nat)
    requires OnWay(d, paths, r, way, x) && way != []
    ensures way[0] in d[r] && d[r][way[0]].Ref? && OnWay(d, paths, d[r][way[0]].index, way[1..], x)
    ensures r != x && IsPrefix(paths[r] + [way[0]], paths[x])
  {
    assert paths[r] + way == paths[r] + [way[0]] + way[1..];
  }

  /** An update of the object at the end of a way is an update of the whole at the longer path. */
  lemma {:induction false} UpdateShowsAbove<K(!new), V>(
    d: seq<map<K, Cell<V>>>, d': seq<map<K, Cell<V>>>, paths: seq<seq<K>>, r: nat, way: seq<K>, x: nat, rest: seq<K>,
      u: Update<V>)
    requires OnWay(d, paths, r, way, x) && Forward(d') && Changed(d, d', x) && rest != []
    requires View(d', x) == Modify(View(d, x), rest, u)
    ensures View(d', r) == Modify(View(d, r), way + rest, u)
    decreases |way|
  {
    if way == [] {
      assert way + rest == rest;
    } else {
      NextOnWay(d, paths, r, way, x);
      UpdateShowsAbove(d, d', paths, d[r][way[0]].index, way[1..], x, rest, u);
      OneKeyDiffers(d, d', paths, r, way[0], x);
      assert (way + rest)[1..] == way[1..] + rest;
    }
  }

  /** A change of the object at the end of a way that the update to come makes anyway. */
  lemma {:induction false} PreparationIsHidden<K(!new), V>(
    d: seq<map<K, Cell<V>>>, d': seq<map<K, Cell<V>>>, paths: seq<seq<K>>, r: nat, way: seq<K>, x: nat, rest: seq<K>,
      u: Update<V>)
    requires OnWay(d, paths, r, way, x) && Forward(d') && Changed(d, d', x) && rest != []
    requires Modify(View(d', x), rest, u) == Modify(View(d, x), rest, u)
    ensures Modify(View(d', r), way + rest, u) == Modify(View(d, r), way + rest, u)
    decreases |way|
  {
    if way == [] {
      assert way + rest == rest;
    } else {
      NextOnWay(d, paths, r, way, x);
      PreparationIsHidden(d, d', paths, d[r][way[0]].index, way[1..], x, rest, u);
      OneKeyDiffers(d, d', paths, r, way[0], x);
      assert (way + rest)[1..] == way[1..] + rest;
    }
  }

  lemma {:induction false} FollowSnoc<K(!new), V>(d: seq<map<K, Cell<V>>>, r: nat, way: seq<K>, k: K)
    requires Forward(d) && r < |d| && Follow(d, r, way).Some?
    ensures Follow(d, r, way).value < |d|
    ensures var x := Follow(d, r, way).value;
            k in d[x] && d[x][k].Ref? ==> Follow(d, r, way + [k]) == Some(d[x][k].index)
    decreases |way|
  {
    if way == [] {
      assert way + [k] == [k] && [k][1..] == [];
    } else {
      assert (way + [k])[1..] == way[1..] + [k];
      FollowSnoc(d, d[r][way[0]].index, way[1..], k);
    }
  }

  /** A new empty dictionary under a key of `x`. */
  function AddDict<K, V>(d: seq<map<K, Cell<V>>>, x: nat, k: K): seq<map<K, Cell<V>>>
    requires x < |d|
  {
    d[x := d[x][k := Ref(|d|)]] + [map[]]
  }

  lemma {:induction false} FollowKept<K(!new), V>(
      d: seq<map<K, Cell<V>>>, d': seq<map<K, Cell<V>>>, paths: seq<seq<K>>, r: nat, way: seq<K>, x: nat)
    requires OnWay(d, paths, r, way, x) && Forward(d') && Changed(d, d', x)
    ensures Follow(d', r, way) == Some(x)
    decreases |way|
  {
    if way != [] {
      NextOnWay(d, paths, r, way, x);
      FollowKept(d, d', paths, d[r][way[0]].index, way[1..], x);
    }
  }

  lemma AddDictFacts<K(!new), V>(d: seq<map<K, Cell<V>>>, paths: seq<seq<K>>, x: nat, k: K)
    requires Labelled(d, paths) && x < |d|
    ensures Labelled(AddDict(d, x, k), paths + [paths[x] + [k]]) && Changed(d, AddDict(d, x, k), x)
  {
    var d': seq<map<K, Cell<V>>> := AddDict(d, x, k);
    var paths': seq<seq<K>> := paths + [paths[x] + [k]];
    forall r: nat, k': K | r < |d'| && k' in d'[r] && d'[r][k'].Ref?
      ensures r < d'[r][k'].index < |d'| && paths'[d'[r][k'].index] == paths'[r] + [k']
    {
      if r == x && k' == k {
      } else {
        assert k' in d[r] && d'[r][k'] == d[r][k'];
      }
    }
  }

  /** The new dictionary is what the update would have put there. */
  lemma AddDictIsPreparation<K(!new), V>(
      d: seq<map<K, Cell<V>>>, paths: seq<seq<K>>, x: nat, rest: seq<K>, u: Update<V>)
    requires Labelled(d, paths) && x < |d| && |rest| > 1
    requires rest[0] in d[x] ==> d[x][rest[0]].Scalar?
    ensures Forward(AddDict(d, x, rest[0])) &&
            Modify(View(AddDict(d, x, rest[0]), x), rest, u) == Modify(View(d, x), rest, u)
  {
    var k := rest[0];
    var d' := AddDict(d, x, k);
    AddDictFacts(d, paths, x, k);
    forall k' | k' in d[x] && d[x][k'].Ref? ensures View(d', d[x][k'].index) == View(d, d[x][k'].index) {
      ChildIsOff(d, d', paths, x, k');
    }
    assert View(d', |d|) == map[];
    assert View(d', x) == View(d, x)[k := Dict(map[])];
    assert Child(View(d', x), k) == map[] == Child(View(d, x), k);
  }

  lemma ChildIsOff<K(!new), V>(d: seq<map<K, Cell<V>>>, d': seq<map<K, Cell<V>>>, paths: seq<seq<K>>, x: nat, k: K)
    requires Labelled(d, paths) && Forward(d') && Changed(d, d', x) && k in d[x] && d[x][k].Ref?
    ensures View(d', d[x][k].index) == View(d, d[x][k].index)
  {
    assert paths[d[x][k].index] == paths[x] + [k];
    Untouched(d, d', paths, d[x][k].index, x);
  }

  lemma AssignFacts<K(!new), V>(d: seq<map<K, Cell<V>>>, paths: seq<seq<K>>, x: nat, k: K, v: V)
    requires Labelled(d, paths) && x < |d|
    ensures var d' := d[x := d[x][k := Scalar(v)]];
            Labelled(d', paths) && Changed(d, d', x) && View(d', x) == Modify(View(d, x), [k], Assign(v))
  {
    var d' := d[x := d[x][k := Scalar(v)]];
    forall k' | k' in d[x] && d[x][k'].Ref? ensures View(d', d[x][k'].index) == View(d, d[x][k'].index) {
      ChildIsOff(d, d', paths, x, k');
    }
  }

  /** Adding a missing dictionary on the way keeps the way, and the outcome of the update to come. */
  lemma AddDictOnWay<K(!new), V>(
      d: seq<map<K, Cell<V>>>, paths: seq<seq<K>>, x: nat, path: seq<K>, i: nat, u: Update<V>)
    requires i < |path| - 1 && OnWay(d, paths, 0, path[..i], x) && (path[i] in d[x] ==> d[x][path[i]].Scalar?)
    ensures OnWay(AddDict(d, x, path[i]), paths + [paths[x] + [path[i]]], 0, path[..i], x)
    ensures Modify(View(AddDict(d, x, path[i]), 0), path, u) == Modify(View(d, 0), path, u)
  {
    var d' := AddDict(d, x, path[i]);
    AddDictFacts(d, paths, x, path[i]);
    AddDictIsPreparation(d, paths, x, path[i..], u);
    PreparationIsHidden(d, d', paths, 0, path[..i], x, path[i..], u);
    assert path == path[..i] + path[i..];
    FollowKept(d, d', paths, 0, path[..i], x);
  }

  lemma StepOnWay<K(!new), V>(d: seq<map<K, Cell<V>>>, paths: seq<seq<K>>, x: nat, way: seq<K>, k: K)
    requires OnWay(d, paths, 0, way, x) && k in d[x] && d[x][k].Ref?
    ensures OnWay(d, paths, 0, way + [k], d[x][k].index)
  {
    FollowSnoc(d, 0, way, k);
  }

  class ConfigFile<K(==, !new), V(!new)> {
    var dicts: seq<map<K, Cell<V>>>
    ghost var paths: seq<seq<K>>

    ghost predicate Valid()
      reads this
    {
      Labelled(dicts, paths) && |dicts| > 0 && paths[0] == []
    }

    ghost function Entries(): map<K, Tree<K, V>>
      reads this
      requires Valid()
    {
      View(dicts, 0)
    }

    constructor ()
      ensures Valid() && Entries() == map[]
    {
      dicts, paths := [map[]], [[]];
    }

    /** Walks down the dictionaries, creating missing ones, and assigns the last key. */
    method ModifyVariable(path: seq<K>, u: Update<V>)
      requires Valid() && path != []
      modifies this
      ensures Valid() && Entries() == Modify(old(Entries()), path, u)
    {
      var sub: nat, i: nat := 0, 0;
      while i < |path| - 1
        invariant 0 <= i <= |path| - 1
        invariant Valid() && OnWay(dicts, paths, 0, path[..i], sub)
        invariant Modify(Entries(), path, u) == Modify(old(Entries()), path, u)
      {
        sub := Descend(sub, path, i, u);
        i := i + 1;
      }
      var k := path[i];
      assert path == path[..i] + [k];
      if u.Assign? {
        AssignFacts(dicts, paths, sub, k, u.value);
        UpdateShowsAbove(dicts, dicts[sub := dicts[sub][k := Scalar(u.value)]], paths, 0, path[..i], sub, [k], u);
        dicts := dicts[sub := dicts[sub][k := Scalar(u.value)]];
      } else {
        assert Modify(View(dicts, sub), [k], u) == View(dicts, sub);
        UpdateShowsAbove(dicts, dicts, paths, 0, path[..i], sub, [k], u);
      }
    }

    /** One step down, to the dictionary under the next key. */
    method Descend(sub: nat, path: seq<K>, i: nat, ghost u: Update<V>) returns (next: nat)
      requires Valid() && i < |path| - 1 && OnWay(dicts, paths, 0, path[..i], sub)
      modifies this
      ensures Valid() && OnWay(dicts, paths, 0, path[..i + 1], next)
      ensures Modify(Entries(), path, u) == Modify(old(Entries()), path, u)
    {
      var k := path[i];
      assert path[..i + 1] == path[..i] + [k];
      if k !in dicts[sub] || dicts[sub][k].Scalar? {
        AddDictOnWay(dicts, paths, sub, path, i, u);
        paths := paths + [paths[sub] + [k]];
        dicts := AddDict(dicts, sub, k);
      }
      StepOnWay(dicts, paths, sub, path[..i], k);
      next := dicts[sub][k].index;
    }
  }
}
