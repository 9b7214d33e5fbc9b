/**
 How the stake of an identity is spread over its providers, in hundredths. All shares but the first
 are rounded down; the first takes what is left of the whole; shares of zero are deleted.
 */
module StakeShares {
  import opened Collections

  /** A node. The empty string is a missing identity or provider. */
  datatype Node = Node(
    bls: string,
    identity: string,
    provider: string,
    stake: nat,
    topUp: nat,
    isValidator: bool,
    isInactive: bool)

  /** The keys of a distribution: the provider of a node, or the literal key for direct staking. */
  datatype Key = Direct | Provider(address: string)

  /** A share in hundredths; `None` is the null share. */
  datatype Entry = Entry(key: Key, share: Option<int>)

  function KeyOf(n: Node): Key {
    if n.provider != "" then Provider(n.provider) else Direct
  }

  function Keys(nodes: seq<Node>): (keys: seq<Key>)
    ensures |keys| == |nodes|
  {
    seq(|nodes|, i requires 0 <= i < |nodes| => KeyOf(nodes[i]))
  }

  function Locked(nodes: seq<Node>): nat {
    if nodes == [] then 0 else Locked(nodes[..|nodes| - 1]) + nodes[|nodes| - 1].stake + nodes[|nodes| - 1].topUp
  }

  function LockedWith(nodes: seq<Node>, key: Key): nat {
    if nodes == [] then 0
    else
      var n := nodes[|nodes| - 1];
      LockedWith(nodes[..|nodes| - 1], key) + if KeyOf(n) == key then n.stake + n.topUp else 0
  }

  /** The amounts behind the keys, in the order of the keys. */
  function Amounts(nodes: seq<Node>, keys: seq<Key>): (amounts: seq<nat>)
    ensures |amounts| == |keys|
  {
    if keys == [] then [] else Amounts(nodes, keys[..|keys| - 1]) + [LockedWith(nodes, keys[|keys| - 1])]
  }

  function Sum(s: seq<int>): int {
    if s == [] then 0 else Sum(s[..|s| - 1]) + s[|s| - 1]
  }

  /** `amount` as a part of `whole`, in units of one in `scale`, rounded down. */
  function Floor(scale: nat, amount: nat, whole: nat): nat
    requires whole > 0
  {
    scale * amount / whole
  }

  function Floors(scale: nat, amounts: seq<nat>, whole: nat): (floors: seq<nat>)
    requires whole > 0
    ensures |floors| == |amounts| && forall i :: 0 <= i < |floors| ==> floors[i] == Floor(scale, amounts[i], whole)
  {
    if amounts == [] then []
    else Floors(scale, amounts[..|amounts| - 1], whole) + [Floor(scale, amounts[|amounts| - 1], whole)]
  }

  /** The rounded parts; nothing locked leaves only null shares. */
  function Rounded(amounts: seq<nat>, locked: nat): (rounded: seq<Option<int>>)
    ensures |rounded| == |amounts|
    ensures forall i :: 0 <= i < |amounts| ==>
              rounded[i] == if locked > 0 then Some(Floor(100, amounts[i], locked)) else None
  {
    seq(|amounts|, i requires 0 <= i < |amounts| => if locked > 0 then Some(Floor(100, amounts[i], locked)) else None)
  }

  /** The shares of the keys of an identity before zeros are deleted. */
  function Shares(amounts: seq<nat>, locked: nat): (shares: seq<Option<int>>)
    ensures |shares| == |amounts|
  {
    var rounded := Rounded(amounts, locked);
    if |amounts| > 1 then rounded[0 := Some(100 - Worth(rounded[1..]))] else rounded
  }

  /** What shares add up to; the null share adds nothing. */
  function Worth(shares: seq<Option<int>>): int {
    if shares == [] then 0
    else Worth(shares[..|shares| - 1]) + if shares[|shares| - 1].Some? then shares[|shares| - 1].value else 0
  }

  function WithoutZeros(keys: seq<Key>, shares: seq<Option<int>>): seq<Entry>
    requires |keys| == |shares|
  {
    if keys == [] then []
    else
      var n := |keys| - 1;
      WithoutZeros(keys[..n], shares[..n]) + if shares[n] == Some(0) then [] else [Entry(keys[n], shares[n])]
  }

  function EntryShares(entries: seq<Entry>): (shares: seq<Option<int>>)
    ensures |shares| == |entries|
  {
    seq(|entries|, i requires 0 <= i < |entries| => entries[i].share)
  }

  function Distribution(nodes: seq<Node>): seq<Entry> {
    var keys := Distinct(Keys(nodes));
    WithoutZeros(keys, Shares(Amounts(nodes, keys), Locked(nodes)))
  }

  // ----- arithmetic ---------------------------------------------------------------------------

  lemma FloorBounds(scale: nat, amount: nat, whole: nat)
    requires whole > 0
    ensures Floor(scale, amount, whole) * whole <= scale * amount < Floor(scale, amount, whole) * whole + whole
  {
    var q, r := scale * amount / whole, scale * amount % whole;
    assert scale * amount == whole * q + r;
  }

  lemma Distribute(a: int, b: int, whole: int)
    ensures (a + b) * whole == a * whole + b * whole && whole * (a + b) == whole * a + whole * b
  {
  }

  lemma SmallerFactor(a: int, b: int, whole: nat)
    requires whole > 0
    ensures a * whole < b * whole + whole ==> a <= b
  {
    if a > b {
      Distribute(b + 1, a - b - 1, whole);
      Distribute(b, 1, whole);
    }
  }

  /**
   The floors of parts are together at most the whole they are parts of, and fall short of it by
   less than one each.
   */
  lemma {:induction false} FloorsOfParts(scale: nat, amounts: seq<nat>, whole: nat)
    requires whole > 0
    ensures var sum := Sum(Floors(scale, amounts, whole));
            sum * whole <= scale * Sum(amounts) && scale * Sum(amounts) + |amounts| <= sum * whole + |amounts| * whole
  {
    if amounts != [] {
      var n := |amounts| - 1;
      var front, f := Sum(Floors(scale, amounts[..n], whole)), Floor(scale, amounts[n], whole);
      FloorsOfParts(scale, amounts[..n], whole);
      FloorBounds(scale, amounts[n], whole);
      SumOfFloors(scale, amounts, whole);
      Distribute(front, f, whole);
      Distribute(n, 1, whole);
      Distribute(Sum(amounts[..n]), amounts[n], scale);
    }
  }

  lemma SumOfFloors(scale: nat, amounts: seq<nat>, whole: nat)
    requires whole > 0 && amounts != []
    ensures Sum(Floors(scale, amounts, whole)) ==
              Sum(Floors(scale, amounts[..|amounts| - 1], whole)) + Floor(scale, amounts[|amounts| - 1], whole)
  {
    assert Floors(scale, amounts, whole)[..|amounts| - 1] == Floors(scale, amounts[..|amounts| - 1], whole);
  }

  lemma {:induction false} AmountsAt(nodes: seq<Node>, keys: seq<Key>)
    ensures forall i :: 0 <= i < |keys| ==> Amounts(nodes, keys)[i] == LockedWith(nodes, keys[i])
  {
    if keys != [] {
      AmountsAt(nodes, keys[..|keys| - 1]);
    }
  }

  lemma {:induction false} NoAmounts(keys: seq<Key>)
    ensures Sum(Amounts([], keys)) == 0
  {
    if keys != [] {
      NoAmounts(keys[..|keys| - 1]);
    }
  }

  lemma {:induction false} AmountsAddNode(nodes: seq<Node>, n: Node, keys: seq<Key>)
    requires NoRepetition(keys)
    ensures Sum(Amounts(nodes + [n], keys)) == Sum(Amounts(nodes, keys)) +
            if KeyOf(n) in keys then n.stake + n.topUp else 0
  {
    if keys != [] {
      var front, last := keys[..|keys| - 1], keys[|keys| - 1];
      AmountsAddNode(nodes, n, front);
      assert (nodes + [n])[..|nodes|] == nodes;
      assert keys == front + [last];
    }
  }

  /** The amounts of the keys add up to what the nodes have locked. */
  lemma {:induction false} AmountsAddUp(nodes: seq<Node>, keys: seq<Key>)
    requires NoRepetition(keys) && forall i :: 0 <= i < |nodes| ==> KeyOf(nodes[i]) in keys
    ensures Sum(Amounts(nodes, keys)) == Locked(nodes)
  {
    if nodes == [] {
      NoAmounts(keys);
    } else {
      var front, last := nodes[..|nodes| - 1], nodes[|nodes| - 1];
      assert nodes == front + [last];
      AmountsAddUp(front, keys);
      AmountsAddNode(front, last, keys);
    }
  }

  lemma {:induction false} SumFromFirst(s: seq<int>)
    requires s != []
    ensures Sum(s) == s[0] + Sum(s[1..])
  {
    var n := |s| - 1;
    if n > 0 {
      SumFromFirst(s[..n]);
      assert s[..n][1..] == s[1..][..n - 1];
    }
  }

  // ----- results ------------------------------------------------------------------------------

  /**
   With something locked, every share but the first is the floor of the true part, and the first is
   at least its floor and exceeds it by less than the number of keys.
   */
  lemma SharesAreFloors(amounts: seq<nat>, locked: nat)
    requires locked > 0 && Sum(amounts) == locked
    ensures Worth(Shares(amounts, locked)) == 100
    ensures forall i :: 0 < i < |amounts| ==> Shares(amounts, locked)[i] == Some(Floor(100, amounts[i], locked))
    ensures var first, floor := Shares(amounts, locked)[0], Floor(100, amounts[0], locked);
            first.Some? && floor <= first.value <= floor + |amounts| - 1
  {
    NotEmpty(amounts);
    RoundedSum(amounts, locked);
    if |amounts| > 1 {
      SharesOfMany(amounts, locked);
    } else {
      assert amounts[..0] == [] && amounts[0] == locked;
    }
  }

  lemma NotEmpty(amounts: seq<nat>)
    requires Sum(amounts) > 0
    ensures amounts != []
  {
  }

  lemma RoundedSum(amounts: seq<nat>, locked: nat)
    requires locked > 0 && Sum(amounts) == locked && amounts != []
    ensures Worth(Rounded(amounts, locked)) <= 100 <= Worth(Rounded(amounts, locked)) + |amounts| - 1
  {
    var floors := Floors(100, amounts, locked);
    FloorsOfParts(100, amounts, locked);
    WorthOfNumbers(Rounded(amounts, locked), floors);
    NatSum(floors);
    HundredBetween(Sum(floors), |amounts|, locked);
  }

  lemma {:induction false} NatSum(s: seq<nat>)
    ensures Sum(s) >= 0
  {
    if s != [] {
      NatSum(s[..|s| - 1]);
    }
  }

  lemma SharesOfMany(amounts: seq<nat>, locked: nat)
    requires locked > 0 && |amounts| > 1
    ensures Worth(Shares(amounts, locked)) == 100
    ensures Shares(amounts, locked)[0] == Some(100 - Worth(Rounded(amounts, locked)) + Floor(100, amounts[0], locked))
  {
    var shares, rounded := Shares(amounts, locked), Rounded(amounts, locked);
    WorthFromFirst(rounded);
    WorthFromFirst(shares);
    assert shares[1..] == rounded[1..];
  }

  lemma HundredBetween(sum: nat, n: nat, whole: nat)
    requires whole > 0 && n > 0 && sum * whole <= 100 * whole && 100 * whole + n <= sum * whole + n * whole
    ensures sum <= 100 <= sum + n - 1
  {
    SmallerFactor(sum, 100, whole);
    Distribute(sum, n, whole);
    Distribute(sum + n - 1, 1, whole);
    SmallerFactor(100, sum + n - 1, whole);
  }

  lemma {:induction false} WorthOfNumbers(shares: seq<Option<int>>, numbers: seq<int>)
    requires |shares| == |numbers| && forall i :: 0 <= i < |shares| ==> shares[i] == Some(numbers[i])
    ensures Worth(shares) == Sum(numbers)
  {
    if shares != [] {
      WorthOfNumbers(shares[..|shares| - 1], numbers[..|numbers| - 1]);
    }
  }

  lemma {:induction false} WorthFromFirst(shares: seq<Option<int>>)
    requires shares != []
    ensures Worth(shares) == (if shares[0].Some? then shares[0].value else 0) + Worth(shares[1..])
  {
    var n := |shares| - 1;
    if n > 0 {
      WorthFromFirst(shares[..n]);
      assert shares[..n][1..] == shares[1..][..n - 1];
    }
  }

  /** The entry at a key, unless its share is zero. */
  ghost predicate Survives(keys: seq<Key>, shares: seq<Option<int>>, e: Entry)
    requires |keys| == |shares|
  {
    e.share != Some(0) && exists i :: 0 <= i < |keys| && keys[i] == e.key && shares[i] == e.share
  }

  lemma SurvivesSnoc(keys: seq<Key>, shares: seq<Option<int>>, e: Entry)
    requires |keys| == |shares| > 0
    ensures var n := |keys| - 1;
            Survives(keys, shares, e) <==>
              Survives(keys[..n], shares[..n], e) || (e.share != Some(0) && e == Entry(keys[n], shares[n]))
  {
    var n := |keys| - 1;
    if i :| 0 <= i < n && keys[..n][i] == e.key && shares[..n][i] == e.share {
      assert keys[i] == e.key && shares[i] == e.share;
    }
    if i :| 0 <= i < |keys| && keys[i] == e.key && shares[i] == e.share {
      assert i < n ==> keys[..n][i] == e.key && shares[..n][i] == e.share;
    }
  }

  /** Deleting zeros keeps all other entries. */
  lemma {:induction false} DeletionKeepsTheRest(keys: seq<Key>, shares: seq<Option<int>>)
    requires |keys| == |shares|
    ensures forall e: Entry :: e in WithoutZeros(keys, shares) <==> Survives(keys, shares, e)
  {
    if keys != [] {
      var n := |keys| - 1;
      DeletionKeepsTheRest(keys[..n], shares[..n]);
      forall e: Entry ensures e in WithoutZeros(keys, shares) <==> Survives(keys, shares, e) {
        SurvivesSnoc(keys, shares, e);
      }
    }
  }

  /** Deleting zeros keeps the sum. */
  lemma {:induction false} DeletionKeepsTheSum(keys: seq<Key>, shares: seq<Option<int>>)
    requires |keys| == |shares|
    ensures Worth(EntryShares(WithoutZeros(keys, shares))) == Worth(shares)
  {
    if keys != [] {
      var n := |keys| - 1;
      var front, all := WithoutZeros(keys[..n], shares[..n]), WithoutZeros(keys, shares);
      DeletionKeepsTheSum(keys[..n], shares[..n]);
      if shares[n] != Some(0) {
        assert EntryShares(all)[..|front|] == EntryShares(front);
        assert EntryShares(all)[|front|] == shares[n];
      } else {
        assert all == front;
      }
    }
  }

  lemma KeysOfNodes(nodes: seq<Node>)
    ensures NoRepetition(Distinct(Keys(nodes)))
    ensures forall i :: 0 <= i < |nodes| ==> KeyOf(nodes[i]) in Distinct(Keys(nodes))
  {
    DistinctFacts(Keys(nodes));
    forall i | 0 <= i < |nodes| ensures KeyOf(nodes[i]) in Distinct(Keys(nodes)) {
      assert Keys(nodes)[i] in Keys(nodes);
    }
  }

  lemma KeyAmounts(nodes: seq<Node>)
    ensures Sum(Amounts(nodes, Distinct(Keys(nodes)))) == Locked(nodes)
  {
    KeysOfNodes(nodes);
    AmountsAddUp(nodes, Distinct(Keys(nodes)));
  }

  /** With something locked, the distribution of an identity adds up to exactly one. */
  lemma DistributionIsWhole(nodes: seq<Node>)
    requires Locked(nodes) > 0
    ensures Worth(EntryShares(Distribution(nodes))) == 100
    ensures forall e: Entry :: e in Distribution(nodes) ==> e.share.Some? && 0 < e.share.value <= 100
  {
    KeyAmounts(nodes);
    SurvivorsAreWhole(Distinct(Keys(nodes)), Amounts(nodes, Distinct(Keys(nodes))), Locked(nodes));
  }

  lemma SurvivorsAreWhole(keys: seq<Key>, amounts: seq<nat>, locked: nat)
    requires |keys| == |amounts| && locked > 0 && Sum(amounts) == locked
    ensures var entries := WithoutZeros(keys, Shares(amounts, locked));
            Worth(EntryShares(entries)) == 100 && forall e: Entry :: e in entries ==>
              e.share.Some? && 0 < e.share.value <= 100
  {
    var shares := Shares(amounts, locked);
    SharesAreFloors(amounts, locked);
    DeletionKeepsTheSum(keys, shares);
    NoShareAboveWorth(shares);
    SurvivorsAreNumbers(keys, shares);
  }

  lemma SurvivorsAreNumbers(keys: seq<Key>, shares: seq<Option<int>>)
    requires |keys| == |shares| && forall i :: 0 <= i < |shares| ==> shares[i].Some? && 0 <= shares[i].value <= 100
    ensures forall e: Entry :: e in WithoutZeros(keys, shares) ==> e.share.Some? && 0 < e.share.value <= 100
  {
    DeletionKeepsTheRest(keys, shares);
    forall e: Entry | e in WithoutZeros(keys, shares) ensures e.share.Some? && 0 < e.share.value <= 100 {
      assert Survives(keys, shares, e);
    }
  }

  lemma {:induction false} NoShareAboveWorth(shares: seq<Option<int>>)
    requires forall i :: 0 <= i < |shares| ==> shares[i].Some? && 0 <= shares[i].value
    ensures Worth(shares) >= 0 && forall i :: 0 <= i < |shares| ==> shares[i].value <= Worth(shares)
  {
    if shares != [] {
      NoShareAboveWorth(shares[..|shares| - 1]);
    }
  }

  /**
   What a caller sees of a key: with something locked, the entry of a later key is missing exactly
   when its part is below one hundredth, and else is the floor of its part.
   */
  lemma LaterEntries(nodes: seq<Node>, i: nat)
    requires Locked(nodes) > 0 && 0 < i < |Distinct(Keys(nodes))|
    ensures var key := Distinct(Keys(nodes))[i];
            var floor := Floor(100, LockedWith(nodes, key), Locked(nodes));
            forall e: Entry :: e.key == key ==> (e in Distribution(nodes) <==> floor > 0 && e.share == Some(floor))
  {
    var keys := Distinct(Keys(nodes));
    KeysOfNodes(nodes);
    KeyAmounts(nodes);
    AmountsAt(nodes, keys);
    LaterSurvivors(keys, Amounts(nodes, keys), Locked(nodes), i);
  }

  lemma LaterSurvivors(keys: seq<Key>, amounts: seq<nat>, locked: nat, i: nat)
    requires |keys| == |amounts| && locked > 0 && Sum(amounts) == locked && NoRepetition(keys) && 0 < i < |keys|
    ensures var floor := Floor(100, amounts[i], locked);
            forall e: Entry :: e.key == keys[i] ==>
              (e in WithoutZeros(keys, Shares(amounts, locked)) <==> floor > 0 && e.share == Some(floor))
  {
    var shares := Shares(amounts, locked);
    SharesAreFloors(amounts, locked);
    DeletionKeepsTheRest(keys, shares);
    OnlyEntry(keys, shares, i);
  }

  /**
   What a caller sees of the first key: what is left of the whole, which is its floor or more than
   that by less than the number of keys.
   */
  lemma FirstEntry(nodes: seq<Node>) returns (first: int)
    requires Locked(nodes) > 0 && Distinct(Keys(nodes)) != []
    ensures var keys := Distinct(Keys(nodes));
            var floor := Floor(100, LockedWith(nodes, keys[0]), Locked(nodes));
            && floor <= first <= floor + |keys| - 1
            && forall e: Entry :: e.key == keys[0] ==>
                 (e in Distribution(nodes) <==> first > 0 && e.share == Some(first))
  {
    var keys := Distinct(Keys(nodes));
    KeysOfNodes(nodes);
    KeyAmounts(nodes);
    AmountsAt(nodes, keys);
    first := FirstSurvivor(keys, Amounts(nodes, keys), Locked(nodes));
  }

  lemma FirstSurvivor(keys: seq<Key>, amounts: seq<nat>, locked: nat) returns (first: int)
    requires |keys| == |amounts| > 0 && locked > 0 && Sum(amounts) == locked && NoRepetition(keys)
    ensures Floor(100, amounts[0], locked) <= first <= Floor(100, amounts[0], locked) + |keys| - 1
    ensures forall e: Entry :: e.key == keys[0] ==>
              (e in WithoutZeros(keys, Shares(amounts, locked)) <==> first > 0 && e.share == Some(first))
  {
    var shares := Shares(amounts, locked);
    SharesAreFloors(amounts, locked);
    DeletionKeepsTheRest(keys, shares);
    OnlyEntry(keys, shares, 0);
    first := shares[0].value;
    assert Floor(100, amounts[0], locked) >= 0;
  }

  lemma OnlyEntry(keys: seq<Key>, shares: seq<Option<int>>, i: nat)
    requires |keys| == |shares| && NoRepetition(keys) && i < |keys|
    ensures forall e: Entry :: e.key == keys[i] ==>
              (Survives(keys, shares, e) <==> e.share != Some(0) && e.share == shares[i])
  {
  }

  /** With nothing locked, a single key gets the null share; of more keys the first gets everything. */
  lemma NothingLocked(nodes: seq<Node>)
    requires Locked(nodes) == 0 && nodes != []
    ensures var keys := Distinct(Keys(nodes));
            |Distribution(nodes)| == |keys| > 0
            && forall i :: 0 <= i < |keys| ==>
                 Distribution(nodes)[i] == Entry(keys[i], if i == 0 && |keys| > 1 then Some(100) else None)
  {
    var keys := Distinct(Keys(nodes));
    var shares := Shares(Amounts(nodes, keys), 0);
    KeysOfNodes(nodes);
    assert KeyOf(nodes[0]) in keys;
    if |keys| > 1 {
      NullsAreWorthless(shares[1..]);
    }
    NothingDeleted(keys, shares);
  }

  lemma {:induction false} NullsAreWorthless(shares: seq<Option<int>>)
    requires forall i :: 0 <= i < |shares| ==> shares[i].None?
    ensures Worth(shares) == 0
  {
    if shares != [] {
      NullsAreWorthless(shares[..|shares| - 1]);
    }
  }

  lemma {:induction false} NothingDeleted(keys: seq<Key>, shares: seq<Option<int>>)
    requires |keys| == |shares| && forall i :: 0 <= i < |shares| ==> shares[i] != Some(0)
    ensures |WithoutZeros(keys, shares)| == |keys|
    ensures forall i :: 0 <= i < |keys| ==> WithoutZeros(keys, shares)[i] == Entry(keys[i], shares[i])
  {
    if keys != [] {
      NothingDeleted(keys[..|keys| - 1], shares[..|keys| - 1]);
    }
  }

  // ----- the code -----------------------------------------------------------------------------

  lemma OneMoreNode(nodes: seq<Node>, n: Node)
    ensures var keys := Distinct(Keys(nodes));
            Distinct(Keys(nodes + [n])) == if KeyOf(n) in keys then keys else keys + [KeyOf(n)]
    ensures forall key ::
              var more := if key == KeyOf(n) then n.stake + n.topUp else 0;
              LockedWith(nodes + [n], key) == LockedWith(nodes, key) + more
  {
    assert (nodes + [n])[..|nodes|] == nodes;
    assert Keys(nodes + [n]) == Keys(nodes) + [KeyOf(n)];
    DistinctSnoc(Keys(nodes), KeyOf(n));
    DistinctFacts(Keys(nodes));
  }

  /** The record built by the reduce: keys in insertion order, and their amounts. */
  method SumByProvider(nodes: seq<Node>) returns (keys: seq<Key>, amounts: map<Key, nat>)
    ensures keys == Distinct(Keys(nodes))
    ensures forall key :: key in amounts <==> key in keys
    ensures forall key :: LockedWith(nodes, key) == if key in amounts then amounts[key] else 0
  {
    keys, amounts := [], map[];
    for i := 0 to |nodes|
      invariant keys == Distinct(Keys(nodes[..i]))
      invariant forall key :: key in amounts <==> key in keys
      invariant forall key :: LockedWith(nodes[..i], key) == if key in amounts then amounts[key] else 0
    {
      assert nodes[..i + 1] == nodes[..i] + [nodes[i]];
      OneMoreNode(nodes[..i], nodes[i]);
      var key := KeyOf(nodes[i]);
      if key !in amounts {
        keys := keys + [key];
        amounts := amounts[key := 0];
      }
      amounts := amounts[key := amounts[key] + (nodes[i].stake + nodes[i].topUp)];
    }
    assert nodes[..|nodes|] == nodes;
  }

  method ToShares(keys: seq<Key>, amounts: map<Key, nat>, locked: nat) returns (shares: seq<Option<int>>)
    requires forall key :: key in keys ==> key in amounts
    ensures |shares| == |keys|
    ensures forall i :: 0 <= i < |keys| ==>
              keys[i] in amounts && shares[i] == if locked > 0 then Some(Floor(100, amounts[keys[i]], locked)) else None
  {
    shares := [];
    for i := 0 to |keys|
      invariant |shares| == i
      invariant forall j :: 0 <= j < i ==>
                  keys[j] in amounts && shares[j] == if locked > 0 then Some(Floor(100, amounts[keys[j]], locked))
                  else None
    {
      var key := keys[i];
      assert key in keys;
      shares := shares + [if locked > 0 then Some(Floor(100, amounts[key], locked)) else None];
    }
  }

  method SumShares(shares: seq<Option<int>>) returns (sum: int)
    ensures sum == Worth(shares)
  {
    sum := 0;
    for i := 0 to |shares|
      invariant sum == Worth(shares[..i])
    {
      assert shares[..i + 1][..i] == shares[..i];
      sum := sum + if shares[i].Some? then shares[i].value else 0;
    }
    assert shares[..|shares|] == shares;
  }

  method DeleteZeros(keys: seq<Key>, shares: seq<Option<int>>) returns (entries: seq<Entry>)
    requires |keys| == |shares|
    ensures entries == WithoutZeros(keys, shares)
  {
    entries := [];
    for i := 0 to |keys|
      invariant entries == WithoutZeros(keys[..i], shares[..i])
    {
      assert keys[..i + 1][..i] == keys[..i] && shares[..i + 1][..i] == shares[..i];
      if shares[i] != Some(0) {
        entries := entries + [Entry(keys[i], shares[i])];
      }
    }
    assert keys[..|keys|] == keys && shares[..|shares|] == shares;
  }

  method GetStakeDistribution(locked: nat, nodes: seq<Node>) returns (distribution: seq<Entry>)
    requires locked == Locked(nodes)
    ensures distribution == Distribution(nodes)
  {
    var keys, amounts := SumByProvider(nodes);
    var shares := ToShares(keys, amounts, locked);
    AmountsAt(nodes, keys);
    assert shares == Rounded(Amounts(nodes, keys), locked);
    if |keys| > 1 {
      var rest := SumShares(shares[1..]);
      shares := shares[0 := Some(100 - rest)];
    }
    distribution := DeleteZeros(keys, shares);
  }
}
