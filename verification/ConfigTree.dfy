/**
 Updating nested dictionaries along a path: missing or scalar intermediate values become
 dictionaries, the last key is assigned.
 */
module ConfigTree {
  import opened Collections

  datatype Tree<K, V> = Leaf(value: V) | Dict(entries: map<K, Tree<K, V>>)

  /** What happens at the end of the path: an assignment, or nothing for an array that cannot be decoded. */
  datatype Update<V> = Assign(value: V) | Undecodable

  /** The dictionary of a tree; anything else is replaced by an empty one. */
  function EntriesOf<K, V>(t: Tree<K, V>): map<K, Tree<K, V>> {
    if t.Dict? then t.entries else map[]
  }

  function Child<K, V>(entries: map<K, Tree<K, V>>, k: K): map<K, Tree<K, V>> {
    if k in entries then EntriesOf(entries[k]) else map[]
  }

  function Modify<K, V>(entries: map<K, Tree<K, V>>, path: seq<K>, u: Update<V>): map<K, Tree<K, V>>
    requires path != []
    decreases |path|
  {
    if |path| > 1 then entries[path[0] := Dict(Modify(Child(entries, path[0]), path[1..], u))]
    else if u.Assign? then entries[path[0] := Leaf(u.value)]
    else entries
  }

  function Get<K, V>(entries: map<K, Tree<K, V>>, path: seq<K>): Option<Tree<K, V>>
    requires path != []
    decreases |path|
  {
    if path[0] !in entries then None
    else if |path| == 1 then Some(entries[path[0]])
    else Get(EntriesOf(entries[path[0]]), path[1..])
  }

  ghost predicate IsPrefix<K>(p: seq<K>, q: seq<K>) {
    |p| <= |q| && q[..|p|] == p
  }

  ghost predicate Incomparable<K>(p: seq<K>, q: seq<K>) {
    !IsPrefix(p, q) && !IsPrefix(q, p)
  }

  lemma PrefixTail<K>(p: seq<K>, q: seq<K>)
    requires p != [] && q != [] && p[0] == q[0]
    ensures IsPrefix(p, q) <==> IsPrefix(p[1..], q[1..])
  {
    if IsPrefix(p[1..], q[1..]) {
      assert q[..|p|] == [q[0]] + q[1..][..|p| - 1];
      assert p == [p[0]] + p[1..];
    }
    if IsPrefix(p, q) {
      assert q[1..][..|p| - 1] == q[..|p|][1..];
    }
  }

  // ----- one update ---------------------------------------------------------------------------

  /** An assigned path reads back its value. */
  lemma {:induction false} AssignedIsRead<K, V>(entries: map<K, Tree<K, V>>, path: seq<K>, value: V)
    requires path != []
    ensures Get(Modify(entries, path, Assign(value)), path) == Some(Leaf(value))
    decreases |path|
  {
    if |path| > 1 {
      AssignedIsRead(Child(entries, path[0]), path[1..], value);
    }
  }

  /** A path that is no prefix of the updated one, nor the other way round, reads as before. */
  lemma {:induction false} OthersUnchanged<K, V>(entries: map<K, Tree<K, V>>, path: seq<K>, u: Update<V>, other: seq<K>)
    requires path != [] && other != [] && Incomparable(path, other)
    ensures Get(Modify(entries, path, u), other) == Get(entries, other)
    decreases |path|
  {
    if path[0] == other[0] {
      PrefixTail(path, other);
      PrefixTail(other, path);
      if |path| > 1 && |other| > 1 {
        OthersUnchanged(Child(entries, path[0]), path[1..], u, other[1..]);
        NothingInEmpty<K, V>(other[1..]);
      }
    }
  }

  lemma NothingInEmpty<K, V>(path: seq<K>)
    requires path != []
    ensures Get<K, V>(map[], path) == None
  {
  }

  /** All values above the last key are dictionaries. */
  ghost predicate Walkable<K, V>(entries: map<K, Tree<K, V>>, path: seq<K>)
    decreases |path|
  {
    |path| > 1 ==> path[0] in entries && entries[path[0]].Dict? && Walkable(entries[path[0]].entries, path[1..])
  }

  /** An array that cannot be decoded leaves no trace exactly if the whole way was there before. */
  lemma {:induction false} UndecodableChangesNothingIff<K, V>(entries: map<K, Tree<K, V>>, path: seq<K>)
    requires path != []
    ensures Modify(entries, path, Undecodable) == entries <==> Walkable(entries, path)
    decreases |path|
  {
    if |path| > 1 {
      var k := path[0];
      UndecodableChangesNothingIff(Child(entries, k), path[1..]);
      var changed := entries[k := Dict(Modify(Child(entries, k), path[1..], Undecodable))];
      assert changed == entries <==> k in entries && entries[k] == changed[k];
    }
  }

  // ----- two updates --------------------------------------------------------------------------

  /** Updates of incomparable paths commute. */
  lemma {:induction false} IncomparableCommute<K, V>(
      entries: map<K, Tree<K, V>>, p: seq<K>, u: Update<V>, q: seq<K>, w: Update<V>)
    requires p != [] && q != [] && Incomparable(p, q)
    ensures Modify(Modify(entries, p, u), q, w) == Modify(Modify(entries, q, w), p, u)
    decreases |p|
  {
    if p[0] == q[0] {
      PrefixTail(p, q);
      PrefixTail(q, p);
      IncomparableCommute(Child(entries, p[0]), p[1..], u, q[1..], w);
      BelowTheSameKey(entries, p, u, q, w);
      BelowTheSameKey(entries, q, w, p, u);
    } else {
      AtOtherKeys(entries, p, u, q, w);
    }
  }

  lemma BelowTheSameKey<K, V>(entries: map<K, Tree<K, V>>, p: seq<K>, u: Update<V>, q: seq<K>, w: Update<V>)
    requires |p| > 1 && |q| > 1 && p[0] == q[0]
    ensures Modify(Modify(entries, p, u), q, w) ==
              entries[p[0] := Dict(Modify(Modify(Child(entries, p[0]), p[1..], u), q[1..], w))]
  {
    var once := Modify(entries, p, u);
    assert Child(once, q[0]) == Modify(Child(entries, p[0]), p[1..], u);
  }

  /** What an update leaves at its first key, if anything. */
  function AtKey<K, V>(entries: map<K, Tree<K, V>>, path: seq<K>, u: Update<V>): Option<Tree<K, V>>
    requires path != []
  {
    if |path| > 1 then Some(Dict(Modify(Child(entries, path[0]), path[1..], u)))
    else if u.Assign? then Some(Leaf(u.value))
    else None
  }

  function Put<K, V>(entries: map<K, Tree<K, V>>, k: K, t: Option<Tree<K, V>>): map<K, Tree<K, V>> {
    if t.Some? then entries[k := t.value] else entries
  }

  lemma AtOtherKeys<K, V>(entries: map<K, Tree<K, V>>, p: seq<K>, u: Update<V>, q: seq<K>, w: Update<V>)
    requires p != [] && q != [] && p[0] != q[0]
    ensures Modify(Modify(entries, p, u), q, w) == Modify(Modify(entries, q, w), p, u)
  {
    var once, once' := Modify(entries, p, u), Modify(entries, q, w);
    assert once == Put(entries, p[0], AtKey(entries, p, u)) && once' == Put(entries, q[0], AtKey(entries, q, w));
    assert Modify(once, q, w) == Put(once, q[0], AtKey(once, q, w)) &&
           Modify(once', p, u) == Put(once', p[0], AtKey(once', p, u));
    assert Child(once, q[0]) == Child(entries, q[0]) && Child(once', p[0]) == Child(entries, p[0]);
  }

  /** Two assignments commute exactly if the paths are incomparable, or they assign the same to the same path. */
  lemma AssignmentsCommuteIff<K, V>(entries: map<K, Tree<K, V>>, p: seq<K>, v: V, q: seq<K>, w: V)
    requires p != [] && q != []
    ensures Modify(Modify(entries, p, Assign(v)), q, Assign(w)) == Modify(Modify(entries, q, Assign(w)), p, Assign(v))
       <==> Incomparable(p, q) || (p == q && v == w)
  {
    if Incomparable(p, q) {
      IncomparableCommute(entries, p, Assign(v), q, Assign(w));
    } else {
      AssignedIsRead(Modify(entries, p, Assign(v)), q, w);
      AssignedIsRead(Modify(entries, q, Assign(w)), p, v);
      if p == q {
      } else if IsPrefix(p, q) {
        ProperPrefixIsDict(Modify(entries, p, Assign(v)), p, q, Assign(w));
      } else {
        ProperPrefixIsDict(Modify(entries, q, Assign(w)), q, p, Assign(v));
      }
    }
  }

  /** Above the end of an updated path there are only dictionaries. */
  lemma {:induction false} ProperPrefixIsDict<K, V>(entries: map<K, Tree<K, V>>, p: seq<K>, q: seq<K>, u: Update<V>)
    requires p != [] && IsPrefix(p, q) && p != q
    ensures Get(Modify(entries, q, u), p).Some? && Get(Modify(entries, q, u), p).value.Dict?
    decreases |p|
  {
    assert p[0] == q[..|p|][0];
    assert q[..|q|] == q;
    if |p| > 1 {
      PrefixTail(p, q);
      assert p == [p[0]] + p[1..] && q == [q[0]] + q[1..];
      ProperPrefixIsDict(Child(entries, p[0]), p[1..], q[1..], u);
    }
  }

  // ----- many updates -------------------------------------------------------------------------

  datatype Override<K, V> = Override(path: seq<K>, update: Update<V>)

  ghost predicate WellFormed<K, V>(os: seq<Override<K, V>>) {
    forall i :: 0 <= i < |os| ==> os[i].path != []
  }

  /** An assignment on the way of another update, or of another value to the same path. */
  ghost predicate Clash<K, V>(o: Override<K, V>, o': Override<K, V>) {
    && o.update.Assign? && IsPrefix(o.path, o'.path)
    && (o.path != o'.path || (o'.update.Assign? && o'.update.value != o.update.value))
  }

  ghost predicate NoClash<K(!new), V(!new)>(os: seq<Override<K, V>>) {
    forall i, j :: 0 <= i < |os| && 0 <= j < |os| && i != j ==> !Clash(os[i], os[j])
  }

  /** An undecodable array on the way of another update is absorbed by it. */
  lemma {:induction false} UndecodableAbsorbed<K, V>(entries: map<K, Tree<K, V>>, p: seq<K>, q: seq<K>, u: Update<V>)
    requires p != [] && IsPrefix(p, q)
    ensures Modify(Modify(entries, p, Undecodable), q, u) == Modify(entries, q, u)
    ensures Modify(Modify(entries, q, u), p, Undecodable) == Modify(entries, q, u)
    decreases |p|
  {
    if |p| > 1 {
      assert p[0] == q[..|p|][0];
      PrefixTail(p, q);
      UndecodableAbsorbed(Child(entries, p[0]), p[1..], q[1..], u);
      BelowTheSameKey(entries, p, Undecodable, q, u);
      BelowTheSameKey(entries, q, u, p, Undecodable);
    }
  }

  lemma PrefixBothWays<K>(p: seq<K>, q: seq<K>)
    requires IsPrefix(p, q) && IsPrefix(q, p)
    ensures p == q
  {
    assert q[..|p|] == q;
  }

  /** Two updates that do not clash commute. */
  lemma NoClashCommute<K, V>(entries: map<K, Tree<K, V>>, o: Override<K, V>, o': Override<K, V>)
    requires o.path != [] && o'.path != [] && !Clash(o, o') && !Clash(o', o)
    ensures Modify(Modify(entries, o.path, o.update), o'.path, o'.update) ==
              Modify(Modify(entries, o'.path, o'.update), o.path, o.update)
  {
    if Incomparable(o.path, o'.path) {
      IncomparableCommute(entries, o.path, o.update, o'.path, o'.update);
    } else if IsPrefix(o.path, o'.path) && o.update.Undecodable? {
      UndecodableAbsorbed(entries, o.path, o'.path, o'.update);
    } else if IsPrefix(o'.path, o.path) && o'.update.Undecodable? {
      UndecodableAbsorbed(entries, o'.path, o.path, o.update);
    } else {
      if IsPrefix(o.path, o'.path) && IsPrefix(o'.path, o.path) { PrefixBothWays(o.path, o'.path); }
      assert o == o';
    }
  }

  /** Two updates that clash never commute. */
  lemma ClashDiffers<K, V>(entries: map<K, Tree<K, V>>, o: Override<K, V>, o': Override<K, V>)
    requires o.path != [] && Clash(o, o')
    ensures Modify(Modify(entries, o.path, o.update), o'.path,
                o'.update) != Modify(Modify(entries, o'.path, o'.update), o.path, o.update)
  {
    if o'.update.Assign? {
      AssignmentsCommuteIff(entries, o.path, o.update.value, o'.path, o'.update.value);
    } else {
      ProperPrefixIsDict(Modify(entries, o.path, o.update), o.path, o'.path, o'.update);
      AssignedIsRead(Modify(entries, o'.path, o'.update), o.path, o.update.value);
    }
  }

  function ModifyAll<K, V>(entries: map<K, Tree<K, V>>, os: seq<Override<K, V>>): map<K, Tree<K, V>>
    requires WellFormed(os)
    decreases |os|
  {
    if os == [] then entries
    else Modify(ModifyAll(entries, os[..|os| - 1]), os[|os| - 1].path, os[|os| - 1].update)
  }

  lemma ModifySnoc<K, V>(entries: map<K, Tree<K, V>>, os: seq<Override<K, V>>, o: Override<K, V>)
    requires WellFormed(os) && o.path != []
    ensures WellFormed(os + [o]) && ModifyAll(entries, os + [o]) == Modify(ModifyAll(entries, os), o.path, o.update)
  {
    assert (os + [o])[..|os|] == os;
  }

  lemma SwapLast<K, V>(entries: map<K, Tree<K, V>>, rest: seq<Override<K, V>>, o: Override<K, V>, last: Override<K, V>)
    requires WellFormed(rest) && o.path != [] && last.path != [] && !Clash(o, last) && !Clash(last, o)
    ensures WellFormed(rest + [last])
    ensures Modify(Modify(ModifyAll(entries, rest), o.path, o.update), last.path, last.update)
         == Modify(ModifyAll(entries, rest + [last]), o.path, o.update)
  {
    ModifySnoc(entries, rest, last);
    NoClashCommute(ModifyAll(entries, rest), o, last);
  }

  lemma {:induction false} MayPass<K, V>(
      entries: map<K, Tree<K, V>>, before: seq<Override<K, V>>, o: Override<K, V>, behind: seq<Override<K, V>>)
    requires WellFormed(before) && WellFormed(behind) && o.path != []
    requires forall i :: 0 <= i < |behind| ==> !Clash(o, behind[i]) && !Clash(behind[i], o)
    ensures ModifyAll(entries, before + [o] + behind) == Modify(ModifyAll(entries, before + behind), o.path, o.update)
    decreases |behind|
  {
    if behind == [] {
      assert before + [o] + behind == before + [o] && before + behind == before;
      ModifySnoc(entries, before, o);
    } else {
      var middle, last := behind[..|behind| - 1], behind[|behind| - 1];
      assert before + [o] + behind == before + [o] + middle + [last] && before + behind == before + middle + [last];
      MayPass(entries, before, o, middle);
      ModifySnoc(entries, before + [o] + middle, last);
      SwapLast(entries, before + middle, o, last);
    }
  }

  /** Any of several updates that do not clash may as well come last. */
  lemma MayComeLast<K(!new), V(!new)>(entries: map<K, Tree<K, V>>, os: seq<Override<K, V>>, k: nat)
    requires WellFormed(os) && NoClash(os) && k < |os|
    ensures WellFormed(Without(os, k)) &&
            ModifyAll(entries, os) == Modify(ModifyAll(entries, Without(os, k)), os[k].path, os[k].update)
  {
    assert os == os[..k] + [os[k]] + os[k + 1..];
    var behind := os[k + 1..];
    assert forall i :: 0 <= i < |behind| ==> behind[i] == os[k + 1 + i];
    MayPass(entries, os[..k], os[k], os[k + 1..]);
  }

  lemma NoClashWithout<K(!new), V(!new)>(os: seq<Override<K, V>>, k: nat)
    requires NoClash(os) && k < |os|
    ensures NoClash(Without(os, k))
  {
    var s := Without(os, k);
    forall i, j | 0 <= i < |s| && 0 <= j < |s| && i != j ensures !Clash(s[i], s[j]) {
      var i', j' := if i < k then i else i + 1, if j < k then j else j + 1;
      assert s[i] == os[i'] && s[j] == os[j'];
    }
  }

  /** The order of updates that do not clash does not matter. */
  lemma {:induction false} OrderDoesNotMatter<K(!new), V(!new)>(
      entries: map<K, Tree<K, V>>, os: seq<Override<K, V>>, os': seq<Override<K, V>>)
    requires WellFormed(os) && WellFormed(os') && NoClash(os) && multiset(os) == multiset(os')
    ensures ModifyAll(entries, os) == ModifyAll(entries, os')
    decreases |os'|
  {
    if os' == [] {
      assert |multiset(os)| == |multiset(os')|;
    } else {
      var k := FindLast(os, os');
      MayComeLast(entries, os, k);
      NoClashWithout(os, k);
      OrderDoesNotMatter(entries, Without(os, k), os'[..|os'| - 1]);
    }
  }

  ghost predicate AnyOrderAgrees<K(!new), V(!new)>(entries: map<K, Tree<K, V>>, os: seq<Override<K, V>>)
    requires WellFormed(os)
  {
    forall os' :: WellFormed(os') && multiset(os') == multiset(os) ==> ModifyAll(entries, os') == ModifyAll(entries, os)
  }

  /** All but two elements. */
  function AllBut<T>(s: seq<T>, lo: nat, hi: nat): seq<T>
    requires lo < hi < |s|
  {
    s[..lo] + s[lo + 1..hi] + s[hi + 1..]
  }

  /** Two elements moved to the end. */
  function TwoLast<T>(s: seq<T>, i: nat, j: nat): seq<T>
    requires i < |s| && j < |s| && i != j
  {
    (if i < j then AllBut(s, i, j) else AllBut(s, j, i)) + [s[i]] + [s[j]]
  }

  lemma AllButTwo<T>(s: seq<T>, lo: nat, hi: nat)
    requires lo < hi < |s|
    ensures multiset(s) == multiset(AllBut(s, lo, hi)) + multiset{s[lo]} + multiset{s[hi]}
  {
    assert s == s[..lo] + [s[lo]] + s[lo + 1..hi] + [s[hi]] + s[hi + 1..];
  }

  lemma TwoLastIsPermutation<T>(s: seq<T>, i: nat, j: nat)
    requires i < |s| && j < |s| && i != j
    ensures multiset(TwoLast(s, i, j)) == multiset(s)
  {
    if i < j { AllButTwo(s, i, j); } else { AllButTwo(s, j, i); }
  }

  /** The order of updates matters exactly if two of them clash. */
  lemma OrderDoesNotMatterIff<K(!new), V(!new)>(entries: map<K, Tree<K, V>>, os: seq<Override<K, V>>)
    requires WellFormed(os)
    ensures AnyOrderAgrees(entries, os) <==> NoClash(os)
  {
    if NoClash(os) {
      forall os' | WellFormed(os') && multiset(os') == multiset(os)
        ensures ModifyAll(entries, os') == ModifyAll(entries, os)
      {
        OrderDoesNotMatter(entries, os, os');
      }
    } else {
      var i, j :| 0 <= i < |os| && 0 <= j < |os| && i != j && Clash(os[i], os[j]);
      TwoLastDiffer(entries, os, i, j);
    }
  }

  lemma TwoLastDiffer<K(!new), V(!new)>(entries: map<K, Tree<K, V>>, os: seq<Override<K, V>>, i: nat, j: nat)
    requires WellFormed(os) && i < |os| && j < |os| && i != j && Clash(os[i], os[j])
    ensures var a, b := TwoLast(os, i, j), TwoLast(os, j, i);
            && multiset(a) == multiset(os) && multiset(b) == multiset(os) && WellFormed(a) && WellFormed(b)
            && ModifyAll(entries, a) != ModifyAll(entries, b)
  {
    TwoLastIsPermutation(os, i, j);
    TwoLastIsPermutation(os, j, i);
    var rest := if i < j then AllBut(os, i, j) else AllBut(os, j, i);
    TwoMore(entries, rest, os[i], os[j]);
    TwoMore(entries, rest, os[j], os[i]);
    ClashDiffers(ModifyAll(entries, rest), os[i], os[j]);
  }

  lemma TwoMore<K, V>(entries: map<K, Tree<K, V>>, rest: seq<Override<K, V>>, o: Override<K, V>, o': Override<K, V>)
    requires WellFormed(rest) && o.path != [] && o'.path != []
    ensures WellFormed(rest + [o] + [o'])
    ensures ModifyAll(entries, rest + [o] + [o']) ==
              Modify(Modify(ModifyAll(entries, rest), o.path, o.update), o'.path, o'.update)
  {
    ModifySnoc(entries, rest, o);
    ModifySnoc(entries, rest + [o], o');
  }

  /** After updates that do not clash every assigned path reads its value. */
  lemma EveryAssignmentIsRead<K(!new), V(!new)>(entries: map<K, Tree<K, V>>, os: seq<Override<K, V>>, k: nat)
    requires WellFormed(os) && NoClash(os) && k < |os| && os[k].update.Assign?
    ensures Get(ModifyAll(entries, os), os[k].path) == Some(Leaf(os[k].update.value))
  {
    MayComeLast(entries, os, k);
    AssignedIsRead(ModifyAll(entries, Without(os, k)), os[k].path, os[k].update.value);
  }

  /** A path incomparable with all updated ones reads as before. */
  lemma {:induction false} AllOthersUnchanged<K(!new), V(!new)>(
      entries: map<K, Tree<K, V>>, os: seq<Override<K, V>>, path: seq<K>)
    requires WellFormed(os) && path != [] && forall i :: 0 <= i < |os| ==> Incomparable(os[i].path, path)
    ensures Get(ModifyAll(entries, os), path) == Get(entries, path)
    decreases |os|
  {
    if os != [] {
      var n := |os| - 1;
      AllOthersUnchanged(entries, os[..n], path);
      OthersUnchanged(ModifyAll(entries, os[..n]), os[n].path, os[n].update, path);
    }
  }
}
