/** Groups, identities and their comparison told from the fields of nodes and profiles. */
module IdentityFields {
  import opened Collections
  import opened StakeShares
  import opened IdentityGroups
  import opened IdentityRanking

  // ----- groups -------------------------------------------------------------------------------

  ghost predicate HasProfile(profiles: seq<Profile>, identity: string) {
    exists i :: 0 <= i < |profiles| && profiles[i].identity == identity
  }

  ghost predicate FirstProfile(profiles: seq<Profile>, identity: string, i: int) {
    0 <= i < |profiles| && profiles[i].identity == identity && forall j :: 0 <= j < i ==>
      profiles[j].identity != identity
  }

  /** The profile of an identity is the first with that identity, if any has it. */
  lemma {:induction false} ProfileIsFirst(profiles: seq<Profile>, identity: string)
    ensures match ProfileOf(profiles, identity)
            case None => !HasProfile(profiles, identity)
            case Some(p) => exists i :: FirstProfile(profiles, identity, i) && profiles[i] == p
    decreases |profiles|
  {
    if profiles != [] {
      if profiles[0].identity == identity {
        assert FirstProfile(profiles, identity, 0);
      } else {
        ProfileIsFirst(profiles[1..], identity);
        if i :| FirstProfile(profiles[1..], identity, i) && ProfileOf(profiles, identity) == Some(profiles[1..][i]) {
          LaterProfile(profiles, identity, i);
        }
      }
    }
  }

  lemma LaterProfile(profiles: seq<Profile>, identity: string, i: int)
    requires profiles != [] && profiles[0].identity != identity && FirstProfile(profiles[1..], identity, i)
    ensures FirstProfile(profiles, identity, i + 1) && profiles[1..][i] == profiles[i + 1]
  {
    forall j | 0 <= j < i + 1 ensures profiles[j].identity != identity {
      if j > 0 { assert profiles[1..][j - 1].identity != identity; }
    }
  }

  lemma HasProfileExactly(profiles: seq<Profile>, identity: string)
    ensures HasProfile(profiles, identity) <==> ProfileOf(profiles, identity).Some?
  {
    ProfileIsFirst(profiles, identity);
  }

  /** The first of `start` and the keys of the nodes that is not empty. */
  ghost predicate FirstName(start: string, nodes: seq<Node>, name: string) {
    if start != "" then name == start
    else if forall i :: 0 <= i < |nodes| ==> nodes[i].bls == "" then name == ""
    else exists i :: FirstKeyed(nodes, i) && name == nodes[i].bls
  }

  ghost predicate FirstKeyed(nodes: seq<Node>, i: int) {
    0 <= i < |nodes| && nodes[i].bls != "" && forall j :: 0 <= j < i ==> nodes[j].bls == ""
  }

  lemma {:induction false} NameIsFirst(start: string, nodes: seq<Node>)
    ensures FirstName(start, nodes, NameOf(start, nodes))
  {
    if nodes != [] {
      var n := |nodes| - 1;
      NameIsFirst(start, nodes[..n]);
      if start == "" {
        if forall i :: 0 <= i < n ==> nodes[..n][i].bls == "" {
          assert nodes[n].bls != "" ==> FirstKeyed(nodes, n);
        } else {
          var i :| FirstKeyed(nodes[..n], i) && NameOf(start, nodes[..n]) == nodes[..n][i].bls;
          assert FirstKeyed(nodes, i);
        }
      }
    }
  }

  /** Its nodes are those of the identity, each as often as it occurs. */
  ghost predicate HoldsNodes(group: seq<Node>, nodes: seq<Node>, identity: string) {
    forall n :: multiset(group)[n] == if n.identity == identity then multiset(nodes)[n] else 0
  }

  lemma {:induction false} NodesOfExactly(nodes: seq<Node>, identity: string)
    ensures HoldsNodes(NodesOf(nodes, identity), nodes, identity)
  {
    if nodes != [] {
      var front, last := nodes[..|nodes| - 1], nodes[|nodes| - 1];
      NodesOfExactly(front, identity);
      assert nodes == front + [last];
      MultisetSnoc(front, last);
      MultisetSnoc(NodesOf(front, identity), last);
    }
  }

  ghost predicate IsNamed(nodes: seq<Node>, identity: string) {
    exists i :: 0 <= i < |nodes| && nodes[i].identity == identity
  }

  /** A group under an identity: its nodes, and the name of its profile or else of its first named node. */
  ghost predicate IsGroupOf(g: Group, nodes: seq<Node>, profiles: seq<Profile>) {
    && IsNamed(nodes, g.identity)
    && (exists i :: FirstProfile(profiles, g.identity, i) && FirstName(profiles[i].name, g.nodes, g.name))
    && HoldsNodes(g.nodes, nodes, g.identity)
  }

  /** A node that names no identity with a profile stands alone, under its key. */
  ghost predicate IsAlone(n: Node, nodes: seq<Node>, profiles: seq<Profile>) {
    n in nodes && (n.identity == "" || !HasProfile(profiles, n.identity))
  }

  lemma KnownExactly(nodes: seq<Node>, profiles: seq<Profile>, identity: string)
    ensures identity in Known(nodes, profiles) <==>
            identity != "" && HasProfile(profiles, identity) && IsNamed(nodes, identity)
  {
    KnownFacts(nodes, profiles);
    HasProfileExactly(profiles, identity);
  }

  lemma KnownGroupExactly(nodes: seq<Node>, profiles: seq<Profile>, identity: string)
    requires identity in Known(nodes, profiles)
    ensures IsGroupOf(KnownGroup(identity, profiles, nodes), nodes, profiles)
  {
    KnownExactly(nodes, profiles, identity);
    ProfileIsFirst(profiles, identity);
    NodesOfExactly(nodes, identity);
    NameIsFirst(ProfileName(profiles, identity), NodesOf(nodes, identity));
  }

  lemma {:induction false} OthersExactly(nodes: seq<Node>, known: seq<string>)
    ensures forall n :: n in Others(nodes, known) <==> n in nodes && n.identity !in known
  {
    if nodes != [] {
      OthersExactly(nodes[..|nodes| - 1], known);
      assert nodes == nodes[..|nodes| - 1] + [nodes[|nodes| - 1]];
    }
  }

  lemma AloneExactly(nodes: seq<Node>, profiles: seq<Profile>, n: Node)
    ensures n in Others(nodes, Known(nodes, profiles)) <==> IsAlone(n, nodes, profiles)
  {
    OthersExactly(nodes, Known(nodes, profiles));
    KnownExactly(nodes, profiles, n.identity);
    if n in nodes {
      var i :| 0 <= i < |nodes| && nodes[i] == n;
      assert nodes[i].identity == n.identity;
    }
  }

  /**
   Every group is either of an identity, with the first profile of that identity and all its nodes, or
   of one node alone that has no such identity.
   */
  lemma GroupsHold(nodes: seq<Node>, profiles: seq<Profile>, g: Group)
    requires g in Groups(nodes, profiles)
    ensures if g.identity != "" then IsGroupOf(g, nodes, profiles)
            else exists n :: IsAlone(n, nodes, profiles) && g == Group("", n.bls, [n])
  {
    var known := Known(nodes, profiles);
    var others := Others(nodes, known);
    var a :| 0 <= a < |Groups(nodes, profiles)| && Groups(nodes, profiles)[a] == g;
    if a < |known| {
      assert g == KnownGroup(known[a], profiles, nodes);
      KnownExactly(nodes, profiles, known[a]);
      KnownGroupExactly(nodes, profiles, known[a]);
    } else {
      var n := others[a - |known|];
      assert g == Singleton(n);
      AloneExactly(nodes, profiles, n);
    }
  }

  /** Every identity that a node names and a profile has gets its group, and every other node its own. */
  lemma EveryNodeIsHeld(nodes: seq<Node>, profiles: seq<Profile>, n: Node)
    requires n in nodes
    ensures if IsAlone(n, nodes, profiles) then Group("", n.bls, [n]) in Groups(nodes, profiles)
            else exists g :: g in Groups(nodes, profiles) && g.identity == n.identity
  {
    var known := Known(nodes, profiles);
    var others := Others(nodes, known);
    AloneExactly(nodes, profiles, n);
    if IsAlone(n, nodes, profiles) {
      var i :| 0 <= i < |others| && others[i] == n;
      assert Groups(nodes, profiles)[|known| + i] == Singleton(n);
    } else {
      OthersExactly(nodes, known);
      var i :| 0 <= i < |known| && known[i] == n.identity;
      assert Groups(nodes, profiles)[i].identity == n.identity;
    }
  }

  // ----- identities ---------------------------------------------------------------------------

  function Stakes(nodes: seq<Node>): (stakes: seq<int>)
    ensures |stakes| == |nodes| && forall i :: 0 <= i < |nodes| ==> stakes[i] == nodes[i].stake
  {
    seq(|nodes|, i requires 0 <= i < |nodes| => nodes[i].stake)
  }

  function TopUps(nodes: seq<Node>): (topUps: seq<int>)
    ensures |topUps| == |nodes| && forall i :: 0 <= i < |nodes| ==> topUps[i] == nodes[i].topUp
  {
    seq(|nodes|, i requires 0 <= i < |nodes| => nodes[i].topUp)
  }

  /** Where the validators that are not inactive are. */
  ghost function ActiveValidators(nodes: seq<Node>): set<int> {
    set i | 0 <= i < |nodes| && nodes[i].isValidator && !nodes[i].isInactive
  }

  lemma {:induction false} FieldsOfNodes(nodes: seq<Node>)
    ensures Weight(nodes, Active) == |ActiveValidators(nodes)|
    ensures Weight(nodes, StakeIn) == Sum(Stakes(nodes)) && Weight(nodes, TopUpIn) == Sum(TopUps(nodes))
  {
    if nodes != [] {
      var n := |nodes| - 1;
      FieldsOfNodes(nodes[..n]);
      assert Stakes(nodes)[..n] == Stakes(nodes[..n]) && TopUps(nodes)[..n] == TopUps(nodes[..n]);
      assert ActiveValidators(nodes) == ActiveValidators(nodes[..n]) +
          if nodes[n].isValidator && !nodes[n].isInactive then {n} else {};
    }
  }

  /** An identity counts the validators of its group that are not inactive, and sums stake and top-up. */
  lemma FieldsOfIdentity(g: Group)
    ensures var x := IdentityOf(g);
            && x.identity == g.identity && x.name == g.name
            && x.validators == |ActiveValidators(g.nodes)|
            && x.stake == Sum(Stakes(g.nodes)) && x.topUp == Sum(TopUps(g.nodes))
  {
    FieldsOfNodes(g.nodes);
  }

  // ----- the order callers ask for ------------------------------------------------------------

  /** `a` has more of what the criterion names. */
  predicate HasMore(a: Identity, b: Identity, c: Criterion) {
    match c
    case ByValidators => a.validators > b.validators
    case ByStake => a.stake > b.stake
    case ByLocked => a.stake + a.topUp > b.stake + b.topUp
    case Unknown => false
  }

  ghost predicate DecidesFor(a: Identity, b: Identity, criteria: seq<Criterion>, k: int) {
    && 0 <= k < |criteria| && HasMore(a, b, criteria[k])
    && forall j :: 0 <= j < k ==> !HasMore(a, b, criteria[j]) && !HasMore(b, a, criteria[j])
  }

  lemma MeasuresMore(a: Identity, b: Identity, c: Criterion)
    ensures HasMore(a, b, c) <==> Measure(a, c) > Measure(b, c)
  {
  }

  /** The identity with more validators, stake or locked value comes first, as the first deciding criterion has it. */
  lemma FirstCriterionDecides(a: Identity, b: Identity, criteria: seq<Criterion>)
    ensures CompareWithCriteria(a, b, criteria, 0) < 0 <==> exists k :: DecidesFor(a, b, criteria, k)
    ensures CompareWithCriteria(a, b, criteria, 0) > 0 <==> exists k :: DecidesFor(b, a, criteria, k)
  {
    CompareIsLexicographic(a, b, criteria, 0);
    CompareIsLexicographic(b, a, criteria, 0);
    AheadExactly(a, b, criteria);
    AheadExactly(b, a, criteria);
  }

  lemma AheadExactly(a: Identity, b: Identity, criteria: seq<Criterion>)
    ensures Ahead(a, b, criteria, 0) <==> exists k :: DecidesFor(a, b, criteria, k)
  {
    forall k | 0 <= k < |criteria| ensures AheadAt(a, b, criteria, 0, k) <==> DecidesFor(a, b, criteria, k) {
      forall j | 0 <= j < |criteria|
        ensures HasMore(a, b, criteria[j]) <==> Measure(a, criteria[j]) > Measure(b, criteria[j])
        ensures HasMore(b, a, criteria[j]) <==> Measure(b, criteria[j]) > Measure(a, criteria[j])
      {
        MeasuresMore(a, b, criteria[j]);
        MeasuresMore(b, a, criteria[j]);
      }
    }
  }
}
