/** Optional values, sequences without repetition or without one element, and sums over maps. */
module Collections {

  datatype Option<+T> = None | Some(value: T)

  ghost predicate NoRepetition<T>(s: seq<T>) {
    forall i, j :: 0 <= i < j < |s| ==> s[i] != s[j]
  }

  /** The values of a sequence without repetitions, in order of first appearance. */
  function Distinct<T(==)>(s: seq<T>): seq<T> {
    if s == [] then []
    else
      var d := Distinct(s[..|s| - 1]);
      if s[|s| - 1] in d then d else d + [s[|s| - 1]]
  }

  lemma {:induction false} DistinctFacts<T>(s: seq<T>)
    ensures forall x :: x in Distinct(s) <==> x in s
    ensures NoRepetition(Distinct(s))
  {
    if s != [] {
      DistinctFacts(s[..|s| - 1]);
      assert s == s[..|s| - 1] + [s[|s| - 1]];
    }
  }

  lemma DistinctSnoc<T>(s: seq<T>, x: T)
    ensures Distinct(s + [x]) == if x in s then Distinct(s) else Distinct(s) + [x]
  {
    assert (s + [x])[..|s|] == s;
    DistinctFacts(s);
  }

  lemma {:induction false} DistinctOccurs<T>(s: seq<T>, i: nat)
    requires i < |Distinct(s)|
    ensures Distinct(s)[i] in s
    decreases |s|
  {
    var front := s[..|s| - 1];
    if i < |Distinct(front)| {
      DistinctOccurs(front, i);
    }
  }

  lemma {:induction false} DistinctKeeps<T>(s: seq<T>, x: T)
    ensures x in s ==> x in Distinct(s)
    decreases |s|
  {
    if s != [] {
      DistinctKeeps(s[..|s| - 1], x);
    }
  }

  /** The first place of `x`. */
  ghost predicate FirstAt<T>(s: seq<T>, x: T, n: nat) {
    n < |s| && s[n] == x && x !in s[..n]
  }

  /** Distinct values come in the order of their first places. */
  lemma {:induction false} DistinctInOrder<T>(s: seq<T>, i: nat, j: nat) returns (m: nat, n: nat)
    requires i < j < |Distinct(s)|
    ensures m < n && FirstAt(s, Distinct(s)[i], m) && FirstAt(s, Distinct(s)[j], n)
    decreases |s|
  {
    var front := s[..|s| - 1];
    if j < |Distinct(front)| {
      m, n := DistinctInOrder(front, i, j);
      assert s[..m] == front[..m] && s[..n] == front[..n];
    } else {
      n := |s| - 1;
      DistinctOccurs(front, i);
      DistinctKeeps(front, s[n]);
      m := FirstPlace(front, Distinct(front)[i]);
      assert s[..m] == front[..m];
    }
  }

  lemma {:induction false} FirstPlace<T>(s: seq<T>, x: T) returns (n: nat)
    requires x in s
    ensures FirstAt(s, x, n)
    decreases |s|
  {
    var front := s[..|s| - 1];
    if x in front {
      n := FirstPlace(front, x);
      assert s[..n] == front[..n];
    } else {
      n := |s| - 1;
    }
  }

  /** The sum of the values whose keys satisfy `keep`. */
  ghost function SumWhere<K(!new)>(m: map<K, int>, keep: K -> bool): int
    decreases |m|
  {
    if m == map[] then 0
    else
      var k :| k in m;
      (if keep(k) then m[k] else 0) + SumWhere(m - {k}, keep)
  }

  lemma {:induction false} SumWithout<K(!new)>(m: map<K, int>, keep: K -> bool, k: K)
    requires k in m
    ensures SumWhere(m, keep) == (if keep(k) then m[k] else 0) + SumWhere(m - {k}, keep)
    decreases |m|
  {
    var p :| p in m && SumWhere(m, keep) == (if keep(p) then m[p] else 0) + SumWhere(m - {p}, keep);
    if p != k {
      SumWithout(m - {p}, keep, k);
      SumWithout(m - {k}, keep, p);
      assert m - {p} - {k} == m - {k} - {p};
    }
  }

  /** The value of a key, a missing one counting as 0. */
  function ValueOr0<K>(m: map<K, int>, k: K): int {
    if k in m then m[k] else 0
  }

  lemma SumUpdate<K(!new)>(m: map<K, int>, keep: K -> bool, k: K, amount: int)
    ensures SumWhere(m[k := ValueOr0(m, k) + amount], keep) == SumWhere(m, keep) + if keep(k) then amount else 0
  {
    var updated := m[k := ValueOr0(m, k) + amount];
    SumWithout(updated, keep, k);
    assert updated - {k} == m - {k};
    if k in m {
      SumWithout(m, keep, k);
    } else {
      assert m - {k} == m;
    }
  }

  // ----- sequences without one element --------------------------------------------------------

  function Without<T>(s: seq<T>, k: nat): seq<T>
    requires k < |s|
  {
    s[..k] + s[k + 1..]
  }

  lemma MultisetSnoc<T>(s: seq<T>, x: T)
    ensures multiset(s + [x]) == multiset(s) + multiset{x}
  {
  }

  lemma Removed<T>(s: seq<T>, k: nat)
    requires k < |s|
    ensures multiset(s) == multiset(Without(s, k)) + multiset{s[k]}
    ensures multiset(Without(s, k)) == multiset(s) - multiset{s[k]}
  {
    assert s == s[..k] + [s[k]] + s[k + 1..];
  }

  /** Where the last of a permutation is. */
  lemma FindLast<T>(s: seq<T>, t: seq<T>) returns (k: nat)
    requires multiset(s) == multiset(t) && t != []
    ensures k < |s| && s[k] == t[|t| - 1] && multiset(Without(s, k)) == multiset(t[..|t| - 1])
  {
    var n := |t| - 1;
    assert t[n] in multiset(s);
    k :| 0 <= k < |s| && s[k] == t[n];
    Removed(s, k);
    Removed(t, n);
    assert Without(t, n) == t[..n];
  }

  lemma NoRepetitionConcat<T>(a: seq<T>, b: seq<T>)
    requires NoRepetition(a) && NoRepetition(b) && forall j :: 0 <= j < |b| ==> b[j] !in a
    ensures NoRepetition(a + b)
  {
    var s := a + b;
    forall i, j | 0 <= i < j < |s| ensures s[i] != s[j] {
      if i < |a| <= j { assert s[j] == b[j - |a|] && s[i] in a; }
    }
  }
}
