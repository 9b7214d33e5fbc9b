/** A stake distribution told from the providers of the nodes. */
module StakeProviders {
  import opened Collections
  import opened StakeShares

  /** The providers of the nodes; the empty string stands for none. */
  function Providers(nodes: seq<Node>): (providers: seq<string>)
    ensures |providers| == |nodes| && forall i :: 0 <= i < |nodes| ==> providers[i] == nodes[i].provider
  {
    seq(|nodes|, i requires 0 <= i < |nodes| => nodes[i].provider)
  }

  /** What the nodes with a given provider have locked. */
  function LockedAt(nodes: seq<Node>, provider: string): nat {
    if nodes == [] then 0
    else
      var n := nodes[|nodes| - 1];
      LockedAt(nodes[..|nodes| - 1], provider) + if n.provider == provider then n.stake + n.topUp else 0
  }

  /** The key of a provider. */
  function Named(provider: string): Key {
    if provider == "" then Direct else Provider(provider)
  }

  lemma KeysAreNamed(nodes: seq<Node>)
    ensures forall i :: 0 <= i < |nodes| ==> Keys(nodes)[i] == Named(nodes[i].provider)
  {
  }

  lemma NamedIsInjective(p: string, q: string)
    ensures Named(p) == Named(q) ==> p == q
  {
  }

  lemma {:induction false} LockedAtExactly(nodes: seq<Node>, provider: string)
    ensures LockedWith(nodes, Named(provider)) == LockedAt(nodes, provider)
  {
    if nodes != [] {
      var n := |nodes| - 1;
      LockedAtExactly(nodes[..n], provider);
      KeysAreNamed(nodes);
      assert Keys(nodes)[n] == KeyOf(nodes[n]);
      NamedIsInjective(nodes[n].provider, provider);
    }
  }

  lemma {:induction false} DistinctNamed(nodes: seq<Node>)
    ensures |Distinct(Keys(nodes))| == |Distinct(Providers(nodes))|
    ensures forall i :: 0 <= i < |Distinct(Keys(nodes))| ==>
              Distinct(Keys(nodes))[i] == Named(Distinct(Providers(nodes))[i])
  {
    if nodes != [] {
      var front, p := nodes[..|nodes| - 1], nodes[|nodes| - 1].provider;
      DistinctNamed(front);
      KeysAreNamed(nodes);
      KeysAreNamed(front);
      assert Keys(nodes) == Keys(front) + [Named(p)] && Providers(nodes) == Providers(front) + [p];
      DistinctSnoc(Keys(front), Named(p));
      DistinctSnoc(Providers(front), p);
      NamedTogether(front, p);
    }
  }

  lemma NamedTogether(nodes: seq<Node>, p: string)
    ensures Named(p) in Keys(nodes) <==> p in Providers(nodes)
  {
    KeysAreNamed(nodes);
    if i :| 0 <= i < |nodes| && Keys(nodes)[i] == Named(p) {
      NamedIsInjective(nodes[i].provider, p);
      assert Providers(nodes)[i] == p;
    }
    if i :| 0 <= i < |nodes| && Providers(nodes)[i] == p {
      assert Keys(nodes)[i] == Named(p);
    }
  }

  // ----- the keys -----------------------------------------------------------------------------

  /** The keys of the entries come in the order of the distinct keys. */
  lemma {:induction false} EntryPlace(keys: seq<Key>, shares: seq<Option<int>>, a: nat) returns (i: nat)
    requires |keys| == |shares| && a < |WithoutZeros(keys, shares)|
    ensures i < |keys| && WithoutZeros(keys, shares)[a] == Entry(keys[i], shares[i])
    decreases |keys|
  {
    var n := |keys| - 1;
    if a < |WithoutZeros(keys[..n], shares[..n])| {
      i := EntryPlace(keys[..n], shares[..n], a);
    } else {
      i := n;
    }
  }

  lemma {:induction false} EntryPlaces(
      keys: seq<Key>, shares: seq<Option<int>>, a: nat, b: nat) returns (i: nat, j: nat)
    requires |keys| == |shares| && a < b < |WithoutZeros(keys, shares)|
    ensures i < j < |keys| && WithoutZeros(keys, shares)[a].key == keys[i] &&
            WithoutZeros(keys, shares)[b].key == keys[j]
    decreases |keys|
  {
    var n := |keys| - 1;
    if b < |WithoutZeros(keys[..n], shares[..n])| {
      i, j := EntryPlaces(keys[..n], shares[..n], a, b);
    } else {
      i := EntryPlace(keys[..n], shares[..n], a);
      j := n;
    }
  }

  function SharesOf(nodes: seq<Node>): (shares: seq<Option<int>>)
    ensures |shares| == |Distinct(Keys(nodes))|
  {
    Shares(Amounts(nodes, Distinct(Keys(nodes))), Locked(nodes))
  }

  /** An entry is of the provider of some node; direct entries are of nodes without one. */
  lemma EntriesAreOfProviders(nodes: seq<Node>, a: nat)
    requires a < |Distribution(nodes)|
    ensures match Distribution(nodes)[a].key
            case Direct => exists i :: 0 <= i < |nodes| && nodes[i].provider == ""
            case Provider(address) => address != "" && exists i :: 0 <= i < |nodes| && nodes[i].provider == address
  {
    var k := EntryPlace(Distinct(Keys(nodes)), SharesOf(nodes), a);
    DistinctNamed(nodes);
    var p := Distinct(Providers(nodes))[k];
    DistinctOccurs(Providers(nodes), k);
    var i :| 0 <= i < |nodes| && Providers(nodes)[i] == p;
    assert nodes[i].provider == p;
  }

  /** Entries come in the order in which their providers first appear. */
  lemma EntriesInOrder(nodes: seq<Node>, a: nat, b: nat) returns (p: string, q: string, m: nat, n: nat)
    requires a < b < |Distribution(nodes)|
    ensures Distribution(nodes)[a].key == (if p == "" then Direct else Provider(p))
    ensures Distribution(nodes)[b].key == (if q == "" then Direct else Provider(q))
    ensures m < n < |nodes| && nodes[m].provider == p && nodes[n].provider == q
    ensures (forall l :: 0 <= l < m ==> nodes[l].provider != p) && (forall l :: 0 <= l < n ==> nodes[l].provider != q)
  {
    var i, j := EntryPlaces(Distinct(Keys(nodes)), SharesOf(nodes), a, b);
    var providers := Providers(nodes);
    DistinctNamed(nodes);
    p, q := Distinct(providers)[i], Distinct(providers)[j];
    m, n := DistinctInOrder(providers, i, j);
    NotBefore(providers, p, m);
    NotBefore(providers, q, n);
  }

  lemma NotBefore(s: seq<string>, x: string, n: nat)
    requires FirstAt(s, x, n)
    ensures forall l :: 0 <= l < n ==> s[l] != x
  {
    forall l | 0 <= l < n ensures s[l] != x { assert s[..n][l] in s[..n]; }
  }

  // ----- the shares ---------------------------------------------------------------------------

  /** The provider of the first node comes first; any other comes later. */
  lemma LaterPlace(nodes: seq<Node>, i: nat) returns (k: nat)
    requires i < |nodes| && nodes[i].provider != nodes[0].provider
    ensures 0 < k < |Distinct(Keys(nodes))| && Distinct(Keys(nodes))[k] == Named(nodes[i].provider)
  {
    var providers := Providers(nodes);
    DistinctNamed(nodes);
    FirstComesFirst(providers);
    DistinctFacts(providers);
    assert providers[i] in providers;
    k :| 0 <= k < |Distinct(providers)| && Distinct(providers)[k] == providers[i];
  }

  lemma {:induction false} FirstComesFirst(s: seq<string>)
    requires s != []
    ensures |Distinct(s)| > 0 && Distinct(s)[0] == s[0]
  {
    if |s| > 1 {
      FirstComesFirst(s[..|s| - 1]);
    } else {
      assert s[..0] == [];
    }
  }

  /** The provider has the share as its entry, or no entry if that is zero. */
  ghost predicate HasShare(nodes: seq<Node>, provider: string, share: int) {
    forall e: Entry :: e.key == (if provider == "" then Direct else Provider(provider)) ==>
      (e in Distribution(nodes) <==> share > 0 && e.share == Some(share))
  }

  /**
   A provider other than that of the first node has an entry exactly if its part of what is locked is
   at least a hundredth, and then its share is that part rounded down.
   */
  lemma {:induction false} LaterShares(nodes: seq<Node>, i: nat)
    requires Locked(nodes) > 0 && i < |nodes| && nodes[i].provider != nodes[0].provider
    ensures var p := nodes[i].provider;
            var floor := 100 * LockedAt(nodes, p) / Locked(nodes);
            HasShare(nodes, p, floor)
  {
    var k := LaterPlace(nodes, i);
    LaterEntries(nodes, k);
    LockedAtExactly(nodes, nodes[i].provider);
  }

  /**
   The provider of the first node has what is left of the whole: at least its part rounded down, and
   more than that by less than the number of providers.
   */
  lemma {:induction false} FirstShare(nodes: seq<Node>)
    requires Locked(nodes) > 0
    ensures var p, n := nodes[0].provider, |Distinct(Providers(nodes))|;
            var floor := 100 * LockedAt(nodes, p) / Locked(nodes);
            exists first: int :: floor <= first <= floor + n - 1 && HasShare(nodes, p, first)
  {
    FirstKey(nodes);
    LockedAtExactly(nodes, nodes[0].provider);
    var first := FirstEntry(nodes);
    assert HasShare(nodes, nodes[0].provider, first);
  }

  lemma FirstKey(nodes: seq<Node>)
    requires nodes != []
    ensures var keys := Distinct(Keys(nodes));
            |keys| == |Distinct(Providers(nodes))| > 0 && keys[0] == Named(nodes[0].provider)
  {
    DistinctNamed(nodes);
    FirstComesFirst(Providers(nodes));
  }
}
