/**
 Identities: nodes grouped under the identities known from keybase, all other nodes on their own,
 and the groups with validators ranked by their number of validators.
 */
module IdentityGroups {
  import opened Collections
  import opened StakeShares

  /** A keybase profile. The empty string is a missing identity or name. */
  datatype Profile = Profile(identity: string, name: string)

  datatype Group = Group(identity: string, name: string, nodes: seq<Node>)

  // ----- what the grouping is -----------------------------------------------------------------

  /** The profile of an identity: the first in the list. */
  function ProfileOf(profiles: seq<Profile>, identity: string): Option<Profile> {
    if profiles == [] then None
    else if profiles[0].identity == identity then Some(profiles[0])
    else ProfileOf(profiles[1..], identity)
  }

  function Identities(nodes: seq<Node>): seq<string> {
    if nodes == [] then []
    else Identities(nodes[..|nodes| - 1]) + if nodes[|nodes| - 1].identity != "" then [nodes[|nodes| - 1].identity]
    else []
  }

  /** Those of the given identities that have a profile, in order. */
  function WithProfile(identities: seq<string>, profiles: seq<Profile>): seq<string> {
    if identities == [] then []
    else
      var last := identities[|identities| - 1];
      WithProfile(identities[..|identities| - 1], profiles) + if ProfileOf(profiles, last).Some? then [last] else []
  }

  /** The identities that become groups: named by some node, with a profile, in order of first appearance. */
  function Known(nodes: seq<Node>, profiles: seq<Profile>): seq<string> {
    WithProfile(Distinct(Identities(nodes)), profiles)
  }

  function NodesOf(nodes: seq<Node>, identity: string): seq<Node> {
    if nodes == [] then []
    else
      NodesOf(nodes[..|nodes| - 1], identity)
      + if nodes[|nodes| - 1].identity == identity then [nodes[|nodes| - 1]] else []
  }

  function Others(nodes: seq<Node>, known: seq<string>): seq<Node> {
    if nodes == [] then []
    else Others(nodes[..|nodes| - 1], known) + if nodes[|nodes| - 1].identity in known then [] else [nodes[|nodes| - 1]]
  }

  /** The name a group starts with, or else the first key that is no empty string. */
  function NameOf(start: string, nodes: seq<Node>): string {
    if nodes == [] then start
    else
      var name := NameOf(start, nodes[..|nodes| - 1]);
      if name != "" then name else nodes[|nodes| - 1].bls
  }

  function ProfileName(profiles: seq<Profile>, identity: string): string {
    if ProfileOf(profiles, identity).Some? then ProfileOf(profiles, identity).value.name else ""
  }

  function KnownGroup(identity: string, profiles: seq<Profile>, nodes: seq<Node>): Group {
    Group(identity, NameOf(ProfileName(profiles, identity), NodesOf(nodes, identity)), NodesOf(nodes, identity))
  }

  function Singleton(n: Node): Group {
    Group("", n.bls, [n])
  }

  function KnownGroups(known: seq<string>, profiles: seq<Profile>, nodes: seq<Node>): (groups: seq<Group>)
    ensures |groups| == |known|
    ensures forall i :: 0 <= i < |known| ==> groups[i] == KnownGroup(known[i], profiles, nodes)
  {
    seq(|known|, i requires 0 <= i < |known| => KnownGroup(known[i], profiles, nodes))
  }

  function Singletons(nodes: seq<Node>): (groups: seq<Group>)
    ensures |groups| == |nodes|
    ensures forall i :: 0 <= i < |nodes| ==> groups[i] == Singleton(nodes[i])
  {
    seq(|nodes|, i requires 0 <= i < |nodes| => Singleton(nodes[i]))
  }

  /** Groups of the known identities with their nodes in order, then all other nodes on their own. */
  function GroupsUnder(known: seq<string>, profiles: seq<Profile>, nodes: seq<Node>): seq<Group> {
    KnownGroups(known, profiles, nodes) + Singletons(Others(nodes, known))
  }

  function Groups(nodes: seq<Node>, profiles: seq<Profile>): seq<Group> {
    GroupsUnder(Known(nodes, profiles), profiles, nodes)
  }

  /** All nodes of the groups, group after group. */
  function Flat(groups: seq<Group>): seq<Node> {
    if groups == [] then [] else Flat(groups[..|groups| - 1]) + groups[|groups| - 1].nodes
  }

  /** The weight of nodes under any measure, be it stake, top-up, or one per node. */
  function Weight(nodes: seq<Node>, measure: Node -> int): int {
    if nodes == [] then 0 else Weight(nodes[..|nodes| - 1], measure) + measure(nodes[|nodes| - 1])
  }

  function GroupWeight(groups: seq<Group>, measure: Node -> int): int {
    if groups == [] then 0
    else GroupWeight(groups[..|groups| - 1], measure) + Weight(groups[|groups| - 1].nodes, measure)
  }

  // ----- the grouping is a partition ----------------------------------------------------------

  lemma {:induction false} WithProfileFacts(identities: seq<string>, profiles: seq<Profile>)
    requires NoRepetition(identities)
    ensures NoRepetition(WithProfile(identities, profiles))
    ensures forall x :: x in WithProfile(identities, profiles) <==> x in identities && ProfileOf(profiles, x).Some?
  {
    if identities != [] {
      var n := |identities| - 1;
      WithProfileFacts(identities[..n], profiles);
      assert identities == identities[..n] + [identities[n]];
    }
  }

  lemma {:induction false} IdentitiesFacts(nodes: seq<Node>)
    ensures forall x :: x in Identities(nodes) <==> x != "" && exists i :: 0 <= i < |nodes| && nodes[i].identity == x
  {
    if nodes != [] {
      var n := |nodes| - 1;
      IdentitiesFacts(nodes[..n]);
      forall x ensures x in Identities(nodes) <==> x != "" && exists i :: 0 <= i < |nodes| && nodes[i].identity == x {
        if i :| 0 <= i < n && nodes[..n][i].identity == x { assert nodes[i].identity == x; }
        if i :| 0 <= i < |nodes| && nodes[i].identity == x { assert i < n ==> nodes[..n][i].identity == x; }
      }
    }
  }

  lemma KnownFacts(nodes: seq<Node>, profiles: seq<Profile>)
    ensures NoRepetition(Known(nodes, profiles))
    ensures forall x :: x in Known(nodes, profiles)
              <==> x != "" && ProfileOf(profiles, x).Some? && exists i :: 0 <= i < |nodes| && nodes[i].identity == x
  {
    IdentitiesFacts(nodes);
    DistinctFacts(Identities(nodes));
    WithProfileFacts(Distinct(Identities(nodes)), profiles);
  }

  lemma {:induction false} WeightOfParts(a: seq<Node>, b: seq<Node>, measure: Node -> int)
    ensures Weight(a + b, measure) == Weight(a, measure) + Weight(b, measure)
  {
    if b == [] {
      assert a + b == a;
    } else {
      assert (a + b)[..|a + b| - 1] == a + b[..|b| - 1];
      WeightOfParts(a, b[..|b| - 1], measure);
    }
  }

  lemma {:induction false} GroupWeightOfParts(a: seq<Group>, b: seq<Group>, measure: Node -> int)
    ensures GroupWeight(a + b, measure) == GroupWeight(a, measure) + GroupWeight(b, measure)
  {
    if b == [] {
      assert a + b == a;
    } else {
      assert (a + b)[..|a + b| - 1] == a + b[..|b| - 1];
      GroupWeightOfParts(a, b[..|b| - 1], measure);
    }
  }

  lemma {:induction false} FlatWeight(groups: seq<Group>, measure: Node -> int)
    ensures Weight(Flat(groups), measure) == GroupWeight(groups, measure)
  {
    if groups != [] {
      FlatWeight(groups[..|groups| - 1], measure);
      WeightOfParts(Flat(groups[..|groups| - 1]), groups[|groups| - 1].nodes, measure);
    }
  }

  lemma {:induction false} SingletonsWeight(nodes: seq<Node>, measure: Node -> int)
    ensures GroupWeight(Singletons(nodes), measure) == Weight(nodes, measure)
  {
    if nodes != [] {
      var n := |nodes| - 1;
      SingletonsWeight(nodes[..n], measure);
      assert Singletons(nodes)[..n] == Singletons(nodes[..n]);
      WeightOfOne(nodes[n], measure);
    }
  }

  lemma WeightOfOne(n: Node, measure: Node -> int)
    ensures Weight([n], measure) == measure(n)
  {
    assert [n][..0] == [];
  }

  /** The weight of the nodes under known identities. */
  function KnownWeight(nodes: seq<Node>, known: seq<string>, measure: Node -> int): int {
    if known == [] then 0
    else KnownWeight(nodes, known[..|known| - 1], measure) + Weight(NodesOf(nodes, known[|known| - 1]), measure)
  }

  lemma {:induction false} KnownGroupsWeight(
      known: seq<string>, profiles: seq<Profile>, nodes: seq<Node>, measure: Node -> int)
    ensures GroupWeight(KnownGroups(known, profiles, nodes), measure) == KnownWeight(nodes, known, measure)
  {
    if known != [] {
      var n := |known| - 1;
      KnownGroupsWeight(known[..n], profiles, nodes, measure);
      assert KnownGroups(known, profiles, nodes)[..n] == KnownGroups(known[..n], profiles, nodes);
    }
  }

  lemma {:induction false} NoNodesWeighNothing(known: seq<string>, measure: Node -> int)
    ensures KnownWeight([], known, measure) == 0
  {
    if known != [] {
      NoNodesWeighNothing(known[..|known| - 1], measure);
    }
  }

  lemma NodesOfSnoc(nodes: seq<Node>, n: Node, identity: string, measure: Node -> int)
    ensures Weight(NodesOf(nodes + [n], identity), measure)
         == Weight(NodesOf(nodes, identity), measure) + if n.identity == identity then measure(n) else 0
  {
    OneMore(nodes, n, identity, []);
    if n.identity == identity {
      WeightSnoc(NodesOf(nodes, identity), n, measure);
    }
  }

  lemma OneMore(nodes: seq<Node>, n: Node, identity: string, known: seq<string>)
    ensures NodesOf(nodes + [n], identity) == if n.identity == identity then NodesOf(nodes, identity) + [n]
            else NodesOf(nodes, identity)
    ensures Others(nodes + [n], known) == if n.identity in known then Others(nodes, known)
            else Others(nodes, known) + [n]
  {
    assert (nodes + [n])[..|nodes|] == nodes;
  }

  lemma WeightSnoc(nodes: seq<Node>, n: Node, measure: Node -> int)
    ensures Weight(nodes + [n], measure) == Weight(nodes, measure) + measure(n)
  {
    assert (nodes + [n])[..|nodes|] == nodes;
  }

  /** A further node weighs in under exactly one known identity, or none. */
  lemma {:induction false} KnownWeightSnoc(nodes: seq<Node>, n: Node, known: seq<string>, measure: Node -> int)
    requires NoRepetition(known)
    ensures KnownWeight(nodes + [n], known, measure) == KnownWeight(nodes, known, measure) +
            if n.identity in known then measure(n) else 0
  {
    if known != [] {
      var front, last := known[..|known| - 1], known[|known| - 1];
      assert known == front + [last];
      KnownWeightSnoc(nodes, n, front, measure);
      NodesOfSnoc(nodes, n, last, measure);
    }
  }

  lemma {:induction false} WeightSplits(nodes: seq<Node>, known: seq<string>, measure: Node -> int)
    requires NoRepetition(known)
    ensures KnownWeight(nodes, known, measure) + Weight(Others(nodes, known), measure) == Weight(nodes, measure)
    decreases |nodes|
  {
    if nodes == [] {
      NoNodesWeighNothing(known, measure);
    } else {
      var front, last := nodes[..|nodes| - 1], nodes[|nodes| - 1];
      assert nodes == front + [last];
      WeightSplits(front, known, measure);
      WeightSnoc(front, last, measure);
      OneMore(front, last, "", known);
      KnownWeightSnoc(front, last, known, measure);
      WeightSnoc(Others(front, known), last, measure);
    }
  }

  /** Whatever is measured, the groups together have exactly what the nodes have. */
  lemma GroupingConserves(nodes: seq<Node>, profiles: seq<Profile>, measure: Node -> int)
    ensures GroupWeight(Groups(nodes, profiles), measure) == Weight(nodes, measure)
  {
    var known := Known(nodes, profiles);
    KnownFacts(nodes, profiles);
    GroupWeightOfParts(KnownGroups(known, profiles, nodes), Singletons(Others(nodes, known)), measure);
    KnownGroupsWeight(known, profiles, nodes, measure);
    SingletonsWeight(Others(nodes, known), measure);
    WeightSplits(nodes, known, measure);
  }

  function One(x: Node): Node -> int {
    n => if n == x then 1 else 0
  }

  lemma {:induction false} CountIsWeight(nodes: seq<Node>, x: Node)
    ensures multiset(nodes)[x] == Weight(nodes, One(x))
  {
    if nodes != [] {
      CountIsWeight(nodes[..|nodes| - 1], x);
      assert nodes == nodes[..|nodes| - 1] + [nodes[|nodes| - 1]];
    }
  }

  /** Every node is in exactly one group, as often as it is in the list of nodes. */
  lemma GroupingPartitions(nodes: seq<Node>, profiles: seq<Profile>)
    ensures multiset(Flat(Groups(nodes, profiles))) == multiset(nodes)
  {
    forall x ensures multiset(Flat(Groups(nodes, profiles)))[x] == multiset(nodes)[x] {
      CountIsWeight(Flat(Groups(nodes, profiles)), x);
      CountIsWeight(nodes, x);
      FlatWeight(Groups(nodes, profiles), One(x));
      GroupingConserves(nodes, profiles, One(x));
    }
  }

  lemma {:induction false} NodesOfHasSome(nodes: seq<Node>, identity: string)
    requires exists i :: 0 <= i < |nodes| && nodes[i].identity == identity
    ensures NodesOf(nodes, identity) != []
  {
    var i :| 0 <= i < |nodes| && nodes[i].identity == identity;
    if i < |nodes| - 1 {
      assert nodes[..|nodes| - 1][i].identity == identity;
      NodesOfHasSome(nodes[..|nodes| - 1], identity);
    }
  }

  /** No group is empty, and a group has an identity exactly if that identity is known. */
  lemma NoGroupIsEmpty(nodes: seq<Node>, profiles: seq<Profile>)
    ensures forall g: Group :: g in Groups(nodes, profiles) ==>
              g.nodes != [] && (g.identity != "" <==> g.identity in Known(nodes, profiles))
  {
    var known := Known(nodes, profiles);
    KnownFacts(nodes, profiles);
    forall x | x in known ensures NodesOf(nodes, x) != [] {
      NodesOfHasSome(nodes, x);
    }
  }

  // ----- what is locked -----------------------------------------------------------------------

  function LockedIn(n: Node): int {
    n.stake + n.topUp
  }

  /** What is counted as the total: validators only. */
  function LockedByValidators(n: Node): int {
    if n.isValidator then n.stake + n.topUp else 0
  }

  function LockedByOthers(n: Node): int {
    if n.isValidator then 0 else n.stake + n.topUp
  }

  lemma {:induction false} LockedSplits(nodes: seq<Node>)
    ensures Weight(nodes, LockedIn) == Weight(nodes, LockedByValidators) + Weight(nodes, LockedByOthers)
    ensures Weight(nodes, LockedByOthers) >= 0
    ensures Weight(nodes, LockedByOthers) == 0 <==>
              forall i :: 0 <= i < |nodes| && !nodes[i].isValidator ==> nodes[i].stake + nodes[i].topUp == 0
  {
    if nodes != [] {
      var n := |nodes| - 1;
      LockedSplits(nodes[..n]);
      assert forall i :: 0 <= i < n ==> nodes[..n][i] == nodes[i];
    }
  }

  /**
   The groups together have locked what all nodes have locked; that is the total the percentages
   are taken of exactly if nodes that are no validators have nothing locked.
   */
  lemma TotalCoversGroupsIff(nodes: seq<Node>, profiles: seq<Profile>)
    ensures GroupWeight(Groups(nodes, profiles), LockedIn) ==
              Weight(nodes, LockedByValidators) + Weight(nodes, LockedByOthers)
    ensures GroupWeight(Groups(nodes, profiles), LockedIn) == Weight(nodes, LockedByValidators)
       <==> forall i :: 0 <= i < |nodes| && !nodes[i].isValidator ==> nodes[i].stake + nodes[i].topUp == 0
  {
    GroupingConserves(nodes, profiles, LockedIn);
    LockedSplits(nodes);
  }

  // ----- the code -----------------------------------------------------------------------------

  method GetDistinctIdentities(nodes: seq<Node>) returns (identities: seq<string>)
    ensures identities == Distinct(Identities(nodes))
  {
    identities := [];
    for i := 0 to |nodes|
      invariant identities == Distinct(Identities(nodes[..i]))
    {
      assert nodes[..i + 1][..i] == nodes[..i];
      assert Identities(nodes[..i + 1]) == Identities(nodes[..i]) +
             if nodes[i].identity != "" then [nodes[i].identity] else [];
      assert Identities(nodes[..i]) + [] == Identities(nodes[..i]);
      DistinctSnoc(Identities(nodes[..i]), nodes[i].identity);
      DistinctFacts(Identities(nodes[..i]));
      if nodes[i].identity != "" && nodes[i].identity !in identities {
        identities := identities + [nodes[i].identity];
      }
    }
    assert nodes[..|nodes|] == nodes;
  }

  /** The groups of known identities, before they are given their nodes. */
  method StartGroups(identities: seq<string>, profiles: seq<Profile>) returns (groups: seq<Group>)
    ensures groups == KnownGroups(WithProfile(identities, profiles), profiles, [])
  {
    groups := [];
    for i := 0 to |identities|
      invariant groups == KnownGroups(WithProfile(identities[..i], profiles), profiles, [])
    {
      assert identities[..i + 1][..i] == identities[..i];
      var profile := ProfileOf(profiles, identities[i]);
      if profile.Some? {
        groups := groups + [Group(identities[i], profile.value.name, [])];
      }
    }
    assert identities[..|identities|] == identities;
  }

  /** The first group of an identity, or the number of groups. */
  method FindGroup(groups: seq<Group>, identity: string) returns (k: nat)
    ensures k <= |groups| && (k < |groups| ==> groups[k].identity == identity)
    ensures forall j :: 0 <= j < k ==> groups[j].identity != identity
  {
    k := 0;
    while k < |groups| && groups[k].identity != identity
      invariant k <= |groups|
      invariant forall j :: 0 <= j < k ==> groups[j].identity != identity
    {
      k := k + 1;
    }
  }

  lemma NodeJoins(known: seq<string>, profiles: seq<Profile>, nodes: seq<Node>, n: Node, k: nat)
    requires NoRepetition(known) && k < |known| && known[k] == n.identity
    ensures GroupsUnder(known, profiles, nodes + [n]) ==
              GroupsUnder(known, profiles, nodes)[k := KnownGroup(n.identity, profiles, nodes + [n])]
  {
    KnownNodeJoins(known, profiles, nodes, n, k);
    OneMore(nodes, n, n.identity, known);
    UpdateInFirst(KnownGroups(known, profiles, nodes), Singletons(Others(nodes, known)), k,
        KnownGroup(n.identity, profiles, nodes + [n]));
  }

  lemma UpdateInFirst(a: seq<Group>, b: seq<Group>, k: nat, g: Group)
    requires k < |a|
    ensures (a + b)[k := g] == a[k := g] + b
  {
  }

  lemma KnownNodeJoins(known: seq<string>, profiles: seq<Profile>, nodes: seq<Node>, n: Node, k: nat)
    requires NoRepetition(known) && k < |known| && known[k] == n.identity
    ensures KnownGroups(known, profiles, nodes + [n]) ==
              KnownGroups(known, profiles, nodes)[k := KnownGroup(n.identity, profiles, nodes + [n])]
  {
    forall i | 0 <= i < |known| && i != k
      ensures KnownGroup(known[i], profiles, nodes + [n]) == KnownGroup(known[i], profiles, nodes)
    {
      OneMore(nodes, n, known[i], known);
    }
  }

  lemma NodeAlone(known: seq<string>, profiles: seq<Profile>, nodes: seq<Node>, n: Node)
    requires n.identity !in known
    ensures GroupsUnder(known, profiles, nodes + [n]) == GroupsUnder(known, profiles, nodes) + [Singleton(n)]
  {
    forall i | 0 <= i < |known|
      ensures KnownGroup(known[i], profiles, nodes + [n]) == KnownGroup(known[i], profiles, nodes)
    {
      OneMore(nodes, n, known[i], known);
    }
    OneMore(nodes, n, "", known);
  }

  lemma NameSnoc(start: string, nodes: seq<Node>, n: Node)
    ensures NameOf(start, nodes + [n]) == if NameOf(start, nodes) != "" then NameOf(start, nodes) else n.bls
  {
    assert (nodes + [n])[..|nodes|] == nodes;
  }

  /** Puts a node into the group of its identity, or on its own. */
  method AddNode(
      groups: seq<Group>, node: Node, ghost known: seq<string>, ghost profiles: seq<Profile>, ghost nodes: seq<Node>)
      returns (updated: seq<Group>)
    requires NoRepetition(known) && "" !in known && groups == GroupsUnder(known, profiles, nodes)
    ensures updated == GroupsUnder(known, profiles, nodes + [node])
  {
    var k := FindGroup(groups, node.identity);
    if k < |groups| && node.identity != "" {
      var found := groups[k];
      assert k < |known|;
      NodeJoins(known, profiles, nodes, node, k);
      OneMore(nodes, node, node.identity, known);
      NameSnoc(ProfileName(profiles, node.identity), found.nodes, node);
      found := found.(nodes := found.nodes + [node]);
      if found.name == "" {
        found := found.(name := node.bls);
      }
      updated := groups[k := found];
    } else {
      assert node.identity !in known by {
        forall j | 0 <= j < |known| ensures known[j] != node.identity { assert groups[j].identity == known[j]; }
      }
      NodeAlone(known, profiles, nodes, node);
      updated := groups + [Singleton(node)];
    }
  }

  method GroupNodes(nodes: seq<Node>, profiles: seq<Profile>) returns (groups: seq<Group>)
    ensures groups == Groups(nodes, profiles)
  {
    var identities := GetDistinctIdentities(nodes);
    ghost var known := Known(nodes, profiles);
    KnownFacts(nodes, profiles);
    groups := StartGroups(identities, profiles);
    assert groups == GroupsUnder(known, profiles, []);
    for i := 0 to |nodes|
      invariant groups == GroupsUnder(known, profiles, nodes[..i])
    {
      assert nodes[..i + 1] == nodes[..i] + [nodes[i]];
      groups := AddNode(groups, nodes[i], known, profiles, nodes[..i]);
    }
    assert nodes[..|nodes|] == nodes;
  }

  /** What the nodes that are validators have locked. */
  method ComputeTotalLocked(nodes: seq<Node>) returns (total: nat)
    ensures total == Weight(nodes, LockedByValidators)
  {
    var totalStake: nat, totalTopUp: nat := 0, 0;
    for i := 0 to |nodes|
      invariant totalStake + totalTopUp == Weight(nodes[..i], LockedByValidators)
    {
      assert nodes[..i + 1][..i] == nodes[..i];
      if nodes[i].isValidator {
        totalStake := totalStake + nodes[i].stake;
        totalTopUp := totalTopUp + nodes[i].topUp;
      }
    }
    assert nodes[..|nodes|] == nodes;
    total := totalStake + totalTopUp;
  }
}
