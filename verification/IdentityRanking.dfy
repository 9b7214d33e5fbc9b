/** The list of identities, ranked by validators, and the order callers may ask for. */
module IdentityRanking {
  import opened Collections
  import opened StakeShares
  import opened IdentityGroups

  datatype Identity = Identity(
    identity: string,
    name: string,
    validators: nat,
    stake: nat,
    topUp: nat,
    distribution: seq<Entry>,
    rank: nat)

  function Active(n: Node): int {
    if n.isValidator && !n.isInactive then 1 else 0
  }

  function StakeIn(n: Node): int {
    n.stake
  }

  function TopUpIn(n: Node): int {
    n.topUp
  }

  lemma {:induction false} WeightIsNat(nodes: seq<Node>)
    ensures Weight(nodes, Active) >= 0 && Weight(nodes, StakeIn) >= 0 && Weight(nodes, TopUpIn) >= 0
    ensures Locked(nodes) == Weight(nodes, StakeIn) + Weight(nodes, TopUpIn) == Weight(nodes, LockedIn)
  {
    if nodes != [] {
      WeightIsNat(nodes[..|nodes| - 1]);
    }
  }

  function IdentityOf(g: Group): Identity {
    WeightIsNat(g.nodes);
    Identity(g.identity, g.name, Weight(g.nodes, Active), Weight(g.nodes, StakeIn), Weight(g.nodes, TopUpIn),
        Distribution(g.nodes), 0)
  }

  /** The identities with validators, in the order of their groups. */
  function Eligible(groups: seq<Group>): seq<Identity> {
    if groups == [] then []
    else
      var last := IdentityOf(groups[|groups| - 1]);
      Eligible(groups[..|groups| - 1]) + if last.validators > 0 then [last] else []
  }

  // ----- sorting ------------------------------------------------------------------------------

  ghost predicate Descending(s: seq<Identity>) {
    forall i, j :: 0 <= i < j < |s| ==> s[i].validators >= s[j].validators
  }

  /** Those with a given number of validators, in order. */
  function WithCount(s: seq<Identity>, v: nat): seq<Identity> {
    if s == [] then [] else WithCount(s[..|s| - 1], v) + if s[|s| - 1].validators == v then [s[|s| - 1]] else []
  }

  /** Puts `x` behind all that have at least as many validators. */
  function Insert(s: seq<Identity>, x: Identity): seq<Identity> {
    if s == [] || s[|s| - 1].validators >= x.validators then s + [x]
    else Insert(s[..|s| - 1], x) + [s[|s| - 1]]
  }

  function SortDescending(s: seq<Identity>): seq<Identity> {
    if s == [] then [] else Insert(SortDescending(s[..|s| - 1]), s[|s| - 1])
  }

  lemma {:induction false} InsertKeepsMultiset(s: seq<Identity>, x: Identity)
    ensures multiset(Insert(s, x)) == multiset(s) + multiset{x}
  {
    MultisetSnoc(s, x);
    if s != [] && s[|s| - 1].validators < x.validators {
      var front, last := s[..|s| - 1], s[|s| - 1];
      assert s == front + [last];
      MultisetSnoc(front, last);
      MultisetSnoc(Insert(front, x), last);
      InsertKeepsMultiset(front, x);
    }
  }

  lemma {:induction false} InsertKeepsAll(s: seq<Identity>, x: Identity)
    ensures forall y :: y in Insert(s, x) <==> y == x || y in s
  {
    if s != [] {
      var front, last := s[..|s| - 1], s[|s| - 1];
      assert s == front + [last];
      if last.validators < x.validators {
        InsertKeepsAll(front, x);
      }
    }
  }

  lemma {:induction false} InsertKeepsOrder(s: seq<Identity>, x: Identity)
    requires Descending(s)
    ensures Descending(Insert(s, x))
  {
    if s != [] && s[|s| - 1].validators < x.validators {
      var front, last := s[..|s| - 1], s[|s| - 1];
      InsertKeepsOrder(front, x);
      InsertKeepsAll(front, x);
      forall i | 0 <= i < |Insert(front, x)| ensures Insert(front, x)[i].validators >= last.validators {
        assert Insert(front, x)[i] in Insert(front, x);
      }
    }
  }

  lemma WithCountSnoc(s: seq<Identity>, x: Identity, v: nat)
    ensures WithCount(s + [x], v) == if x.validators == v then WithCount(s, v) + [x] else WithCount(s, v)
  {
    assert (s + [x])[..|s|] == s;
  }

  lemma {:induction false} InsertIsStable(s: seq<Identity>, x: Identity, v: nat)
    requires Descending(s)
    ensures WithCount(Insert(s, x), v) == WithCount(s + [x], v)
  {
    if s == [] || s[|s| - 1].validators >= x.validators {
    } else {
      var front, last := s[..|s| - 1], s[|s| - 1];
      assert s == front + [last];
      InsertIsStable(front, x, v);
      WithCountSnoc(Insert(front, x), last, v);
      WithCountSnoc(front, x, v);
      WithCountSnoc(s, x, v);
    }
  }

  lemma {:induction false} SortKeepsAll(s: seq<Identity>)
    ensures multiset(SortDescending(s)) == multiset(s)
  {
    if s != [] {
      var front, last := s[..|s| - 1], s[|s| - 1];
      SortKeepsAll(front);
      InsertKeepsMultiset(SortDescending(front), last);
      MultisetSnoc(front, last);
      assert s == front + [last];
    }
  }

  /** Sorting is a permutation into non-increasing order. */
  lemma {:induction false} SortOrders(s: seq<Identity>)
    ensures Descending(SortDescending(s)) && multiset(SortDescending(s)) == multiset(s)
  {
    SortKeepsAll(s);
    if s != [] {
      SortOrders(s[..|s| - 1]);
      InsertKeepsOrder(SortDescending(s[..|s| - 1]), s[|s| - 1]);
    }
  }

  /** Sorting is stable. */
  lemma {:induction false} SortIsStable(s: seq<Identity>, v: nat)
    ensures WithCount(SortDescending(s), v) == WithCount(s, v)
  {
    if s != [] {
      var front, last := s[..|s| - 1], s[|s| - 1];
      SortOrders(front);
      SortIsStable(front, v);
      InsertIsStable(SortDescending(front), last, v);
      WithCountSnoc(SortDescending(front), last, v);
    }
  }

  lemma {:induction false} WithCountFacts(s: seq<Identity>, v: nat)
    ensures WithCount(s, v) == [] <==> forall i :: 0 <= i < |s| ==> s[i].validators != v
  {
    if s != [] {
      WithCountFacts(s[..|s| - 1], v);
      assert s == s[..|s| - 1] + [s[|s| - 1]];
    }
  }

  /** Whatever the sort, if it is stable and descending it gives the same list. */
  lemma {:induction false} SortIsUnique(s: seq<Identity>, t: seq<Identity>)
    requires Descending(s) && Descending(t) && forall v: nat :: WithCount(s, v) == WithCount(t, v)
    ensures s == t
  {
    if s == [] || t == [] {
      EmptyIfNoCounts(s);
      EmptyIfNoCounts(t);
    } else {
      var a, b := s[|s| - 1], t[|t| - 1];
      var s', t' := s[..|s| - 1], t[..|t| - 1];
      assert s == s' + [a] && t == t' + [b];
      WithCountFacts(s, a.validators);
      WithCountFacts(t, a.validators);
      WithCountFacts(s, b.validators);
      WithCountFacts(t, b.validators);
      assert a.validators == b.validators;
      forall v: nat ensures WithCount(s', v) == WithCount(t', v) && a == b {
        WithCountSnoc(s', a, v);
        WithCountSnoc(t', b, v);
        WithCountSnoc(s', a, a.validators);
        WithCountSnoc(t', b, a.validators);
        SameEnds(WithCount(s', a.validators), a, WithCount(t', a.validators), b);
      }
      assert WithCount(s', 0) == WithCount(t', 0) && a == b;
      SortIsUnique(s', t');
    }
  }

  lemma SameEnds(s: seq<Identity>, a: Identity, t: seq<Identity>, b: Identity)
    requires s + [a] == t + [b]
    ensures s == t && a == b
  {
    assert |s| + 1 == |s + [a]| == |t + [b]|;
    assert s == (s + [a])[..|s|] == t;
    assert a == (s + [a])[|s|] == b;
  }

  lemma EmptyIfNoCounts(s: seq<Identity>)
    ensures s == [] <==> forall v: nat :: WithCount(s, v) == []
  {
    if s != [] {
      WithCountFacts(s, s[0].validators);
    }
  }

  // ----- ranks --------------------------------------------------------------------------------

  function Ranked(s: seq<Identity>): (ranked: seq<Identity>)
    ensures |ranked| == |s| && forall i :: 0 <= i < |s| ==> ranked[i] == s[i].(rank := i + 1)
  {
    seq(|s|, i requires 0 <= i < |s| => s[i].(rank := i + 1))
  }

  /** What is asked of the library's sort: a permutation in descending order. Ties may come out in any order. */
  ghost predicate SortsDescending(sort: seq<Identity> -> seq<Identity>) {
    forall s :: Descending(sort(s)) && multiset(sort(s)) == multiset(s)
  }

  function AllIdentities(
      nodes: seq<Node>, profiles: seq<Profile>, sort: seq<Identity> -> seq<Identity>): seq<Identity> {
    Ranked(sort(Eligible(Groups(nodes, profiles))))
  }

  /** A group with validators, described. */
  ghost predicate Describes(x: Identity, groups: seq<Group>) {
    x.validators > 0 && exists g: Group :: g in groups && x == IdentityOf(g)
  }

  lemma EligibleSnoc(groups: seq<Group>, g: Group)
    ensures Eligible(groups + [g]) == if IdentityOf(g).validators > 0 then Eligible(groups) + [IdentityOf(g)]
            else Eligible(groups)
  {
    assert (groups + [g])[..|groups|] == groups;
  }

  lemma {:induction false} EligibleFacts(groups: seq<Group>)
    ensures forall x :: x in Eligible(groups) <==> Describes(x, groups)
    ensures forall x :: x in Eligible(groups) ==> x.rank == 0
  {
    if groups != [] {
      var front, last := groups[..|groups| - 1], groups[|groups| - 1];
      assert groups == front + [last];
      EligibleFacts(front);
      EligibleSnoc(front, last);
    }
  }

  /** A ranked identity apart from its rank. */
  ghost predicate IsRanked(x: Identity, ranked: seq<Identity>) {
    exists i :: 0 <= i < |ranked| && ranked[i].(rank := 0) == x
  }

  /**
   Ranks are 1, 2, … in order of non-increasing validators; more validators mean a better rank;
   the list holds the groups with validators and no others.
   */
  lemma RanksFollowValidators(nodes: seq<Node>, profiles: seq<Profile>, sort: seq<Identity> -> seq<Identity>)
    requires SortsDescending(sort)
    ensures var all := AllIdentities(nodes, profiles, sort);
            && (forall i :: 0 <= i < |all| ==> all[i].rank == i + 1)
            && (forall a, b :: a in all && b in all && a.validators > b.validators ==> a.rank < b.rank)
            && (forall x: Identity :: IsRanked(x, all) <==> Describes(x, Groups(nodes, profiles)))
  {
    var eligible := Eligible(Groups(nodes, profiles));
    EligibleFacts(Groups(nodes, profiles));
    RanksOf(eligible, sort(eligible));
  }

  lemma RanksOf(eligible: seq<Identity>, sorted: seq<Identity>)
    requires (forall x :: x in eligible ==> x.rank == 0) && Descending(sorted) && multiset(sorted) == multiset(eligible)
    ensures var all := Ranked(sorted);
            && (forall a, b :: a in all && b in all && a.validators > b.validators ==> a.rank < b.rank)
            && (forall x: Identity :: IsRanked(x, all) <==> x in eligible)
  {
    SameMembers(sorted, eligible);
    RanksOfSorted(sorted);
  }

  /** Sorting by insertion is such a sort. */
  lemma InsertionSorts()
    ensures SortsDescending(SortDescending)
  {
    forall s ensures Descending(SortDescending(s)) && multiset(SortDescending(s)) == multiset(s) { SortOrders(s); }
  }

  lemma SameMembers(s: seq<Identity>, t: seq<Identity>)
    requires multiset(s) == multiset(t)
    ensures forall x :: x in s <==> x in t
  {
    forall x ensures x in s <==> x in t {
      assert x in s <==> x in multiset(s);
    }
  }

  lemma RanksOfSorted(sorted: seq<Identity>)
    requires Descending(sorted) && forall x :: x in sorted ==> x.rank == 0
    ensures forall a, b :: a in Ranked(sorted) && b in Ranked(sorted) && a.validators > b.validators ==> a.rank < b.rank
    ensures forall x: Identity :: IsRanked(x, Ranked(sorted)) <==> x in sorted
  {
    assert forall i :: 0 <= i < |sorted| ==> sorted[i] in sorted && Ranked(sorted)[i].(rank := 0) == sorted[i];
  }

  // ----- the order callers ask for ------------------------------------------------------------

  datatype Criterion = ByValidators | ByStake | ByLocked | Unknown

  function Measure(x: Identity, c: Criterion): int {
    match c
    case ByValidators => x.validators
    case ByStake => x.stake
    case ByLocked => x.stake + x.topUp
    case Unknown => 0
  }

  function CompareWithCriteria(a: Identity, b: Identity, criteria: seq<Criterion>, current: nat): int
    decreases |criteria| - current
  {
    if current >= |criteria| then 0
    else
      var comparison := Measure(b, criteria[current]) - Measure(a, criteria[current]);
      if comparison == 0 && current < |criteria| - 1 then CompareWithCriteria(a, b, criteria, current + 1)
      else comparison
  }

  ghost predicate SameUpTo(a: Identity, b: Identity, criteria: seq<Criterion>, current: nat, k: int) {
    forall j :: current <= j < k && j < |criteria| ==> Measure(a, criteria[j]) == Measure(b, criteria[j])
  }

  /** `a` beats `b` in the first criterion in which they differ. */
  ghost predicate Ahead(a: Identity, b: Identity, criteria: seq<Criterion>, current: nat) {
    exists k :: AheadAt(a, b, criteria, current, k)
  }

  ghost predicate AheadAt(a: Identity, b: Identity, criteria: seq<Criterion>, current: nat, k: int) {
    && current <= k < |criteria| && SameUpTo(a, b, criteria, current, k)
    && Measure(a, criteria[k]) > Measure(b, criteria[k])
  }

  /** The comparison puts `a` first exactly if it is ahead, and calls a tie exactly if all criteria agree. */
  lemma {:induction false} CompareIsLexicographic(a: Identity, b: Identity, criteria: seq<Criterion>, current: nat)
    ensures CompareWithCriteria(a, b, criteria, current) < 0 <==> Ahead(a, b, criteria, current)
    ensures CompareWithCriteria(a, b, criteria, current) == 0 <==> SameUpTo(a, b, criteria, current, |criteria|)
    ensures CompareWithCriteria(b, a, criteria, current) == -CompareWithCriteria(a, b, criteria, current)
    decreases |criteria| - current
  {
    if current < |criteria| {
      CompareIsLexicographic(a, b, criteria, current + 1);
      if Measure(a, criteria[current]) > Measure(b, criteria[current]) {
        assert AheadAt(a, b, criteria, current, current);
      } else if Measure(a, criteria[current]) == Measure(b, criteria[current]) {
        var next := current + 1;
        if k :| AheadAt(a, b, criteria, next, k) {
          assert AheadAt(a, b, criteria, current, k);
        }
        if k :| AheadAt(a, b, criteria, current, k) {
          assert AheadAt(a, b, criteria, current + 1, k);
        }
      }
    }
  }

  /** The comparison is a strict weak order, whatever the criteria: it can be sorted by. */
  lemma CompareIsAnOrder(a: Identity, b: Identity, c: Identity, criteria: seq<Criterion>)
    ensures CompareWithCriteria(a, a, criteria, 0) == 0
    ensures CompareWithCriteria(a, b, criteria, 0) <= 0 && CompareWithCriteria(b, c, criteria, 0) <= 0 ==>
              CompareWithCriteria(a, c, criteria, 0) <= 0
    ensures CompareWithCriteria(a, b, criteria, 0) == 0 ==>
              CompareWithCriteria(a, c, criteria, 0) == CompareWithCriteria(b, c, criteria, 0)
  {
    CompareChains(a, b, c, criteria, 0);
    CompareIsLexicographic(a, a, criteria, 0);
  }

  lemma {:induction false} CompareChains(a: Identity, b: Identity, c: Identity, criteria: seq<Criterion>, current: nat)
    ensures CompareWithCriteria(a, b, criteria, current) <= 0 && CompareWithCriteria(b, c, criteria, current) <= 0 ==>
              CompareWithCriteria(a, c, criteria, current) <= 0
    ensures CompareWithCriteria(a, b, criteria, current) == 0 ==>
              CompareWithCriteria(a, c, criteria, current) == CompareWithCriteria(b, c, criteria, current)
    decreases |criteria| - current
  {
    if current < |criteria| {
      CompareChains(a, b, c, criteria, current + 1);
    }
  }

  // ----- the code -----------------------------------------------------------------------------

  method CountActive(nodes: seq<Node>) returns (stake: int, topUp: int, validators: int)
    ensures stake == Weight(nodes, StakeIn) && topUp == Weight(nodes, TopUpIn) && validators == Weight(nodes, Active)
  {
    stake, topUp, validators := 0, 0, 0;
    for i := 0 to |nodes|
      invariant stake == Weight(nodes[..i], StakeIn) && topUp == Weight(nodes[..i], TopUpIn) &&
                validators == Weight(nodes[..i], Active)
    {
      assert nodes[..i + 1][..i] == nodes[..i];
      stake, topUp := stake + nodes[i].stake, topUp + nodes[i].topUp;
      if nodes[i].isValidator && !nodes[i].isInactive {
        validators := validators + 1;
      }
    }
    assert nodes[..|nodes|] == nodes;
  }

  method Describe(g: Group) returns (identity: Identity)
    ensures identity == IdentityOf(g)
  {
    WeightIsNat(g.nodes);
    var stake, topUp, validators := CountActive(g.nodes);
    var distribution := GetStakeDistribution(stake + topUp, g.nodes);
    identity := Identity(g.identity, g.name, validators, stake, topUp, distribution, 0);
  }

  method SelectEligible(groups: seq<Group>) returns (identities: seq<Identity>)
    ensures identities == Eligible(groups)
  {
    identities := [];
    for i := 0 to |groups|
      invariant identities == Eligible(groups[..i])
    {
      assert groups[..i + 1] == groups[..i] + [groups[i]];
      EligibleSnoc(groups[..i], groups[i]);
      var identity := Describe(groups[i]);
      if identity.validators > 0 {
        identities := identities + [identity];
      }
    }
    assert groups[..|groups|] == groups;
  }

  method AssignRanks(sorted: seq<Identity>) returns (identities: seq<Identity>)
    ensures identities == Ranked(sorted)
  {
    identities := sorted;
    for i := 0 to |identities|
      invariant |identities| == |sorted|
      invariant forall j :: 0 <= j < |sorted| ==>
                  identities[j] == if j < i then sorted[j].(rank := j + 1) else sorted[j]
    {
      identities := identities[i := identities[i].(rank := i + 1)];
    }
  }

  method GetAllIdentities(
      nodes: seq<Node>, profiles: seq<Profile>, sort: seq<Identity> -> seq<Identity>)
      returns (identities: seq<Identity>)
    ensures identities == AllIdentities(nodes, profiles, sort)
  {
    var groups := GroupNodes(nodes, profiles);
    identities := SelectEligible(groups);
    identities := AssignRanks(sort(identities));
  }
}
