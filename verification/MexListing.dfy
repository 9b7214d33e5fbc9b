/** Which tokens the exchange lists, told from the pairs and their symbols. */
module MexListing {
  import opened Collections
  import opened MexTokens

  /**
   A pair lists its base if its quote is WEGLD or USDC. It lists its quote if its base is WEGLD or
   USDC, unless the quote is one of them too and the pair is not WEGLD/USDC.
   */
  ghost predicate Lists(p: Pair, side: Side) {
    || (side == p.base && (p.quote.symbol == WEGLD || p.quote.symbol == USDC))
    || (side == p.quote && p.base.symbol == WEGLD && p.quote.symbol == USDC)
    || (side == p.quote && (p.base.symbol == WEGLD || p.base.symbol == USDC)
        && p.quote.symbol != WEGLD && p.quote.symbol != USDC)
  }

  ghost predicate ListsId(p: Pair, id: string) {
    exists side :: Lists(p, side) && side.id == id
  }

  lemma QualifyingExactly(p: Pair)
    ensures forall c :: c in Qualifying(p) <==> c.value == p.totalValue && Lists(p, c.side)
    ensures |Qualifying(p)| <= 2
    ensures |Qualifying(p)| == 2 ==> Qualifying(p)[0].side == p.base && Qualifying(p)[1].side == p.quote
  {
  }

  /** The pair candidate `k` comes from. */
  function PairIndex(pairs: seq<Pair>, k: nat): (n: nat)
    requires k < |Candidates(pairs)|
    ensures n < |pairs|
  {
    var n := |pairs| - 1;
    if k < |Candidates(pairs[..n])| then PairIndex(pairs[..n], k) else n
  }

  lemma {:induction false} CandidateOf(pairs: seq<Pair>, k: nat)
    requires k < |Candidates(pairs)|
    ensures var c, p := Candidates(pairs)[k], pairs[PairIndex(pairs, k)]; Lists(p, c.side) && c.value == p.totalValue
  {
    var n := |pairs| - 1;
    QualifyingExactly(pairs[n]);
    if k < |Candidates(pairs[..n])| {
      CandidateOf(pairs[..n], k);
    } else {
      assert Candidates(pairs)[k] in Qualifying(pairs[n]);
    }
  }

  lemma {:induction false} PairsInOrder(pairs: seq<Pair>, k: nat, l: nat)
    requires k < l < |Candidates(pairs)|
    ensures PairIndex(pairs, k) <= PairIndex(pairs, l)
    ensures PairIndex(pairs, k) == PairIndex(pairs, l) ==>
              var p := pairs[PairIndex(pairs, k)];
              Candidates(pairs)[k].side == p.base && Candidates(pairs)[l].side == p.quote
  {
    var n := |pairs| - 1;
    QualifyingExactly(pairs[n]);
    if l < |Candidates(pairs[..n])| {
      PairsInOrder(pairs[..n], k, l);
    }
  }

  /** Every side a pair lists is a candidate. */
  lemma {:induction false} CandidateAt(pairs: seq<Pair>, n: nat, side: Side) returns (k: nat)
    requires n < |pairs| && Lists(pairs[n], side)
    ensures k < |Candidates(pairs)| && PairIndex(pairs, k) == n
    ensures Candidates(pairs)[k] == Candidate(side, pairs[n].totalValue)
    decreases |pairs|
  {
    var m := |pairs| - 1;
    var front := Candidates(pairs[..m]);
    if n < m {
      k := CandidateAt(pairs[..m], n, side);
    } else {
      QualifyingExactly(pairs[m]);
      assert Candidate(side, pairs[m].totalValue) in Qualifying(pairs[m]);
      var i :| 0 <= i < |Qualifying(pairs[m])| && Qualifying(pairs[m])[i] == Candidate(side, pairs[m].totalValue);
      k := |front| + i;
    }
  }

  ghost predicate HasToken(tokens: seq<Token>, id: string) {
    exists i :: 0 <= i < |tokens| && tokens[i].side.id == id
  }

  /** An id is listed exactly if some pair lists it. */
  lemma ListedExactly(tokens: seq<Token>, pairs: seq<Pair>, id: string)
    requires Listed(tokens, pairs)
    ensures HasToken(tokens, id) <==> exists n :: 0 <= n < |pairs| && ListsId(pairs[n], id)
  {
    var cs := Candidates(pairs);
    DistinctFacts(Ids(cs));
    if HasToken(tokens, id) {
      var i :| 0 <= i < |tokens| && tokens[i].side.id == id;
      var k :| Best(cs, k) && cs[k].side == tokens[i].side;
      CandidateOf(pairs, k);
      assert ListsId(pairs[PairIndex(pairs, k)], id);
    }
    if n: nat :| n < |pairs| && ListsId(pairs[n], id) {
      var side :| Lists(pairs[n], side) && side.id == id;
      var k := CandidateAt(pairs, n, side);
      assert Ids(cs)[k] == id && id in Distinct(Ids(cs));
      var i :| 0 <= i < |Distinct(Ids(cs))| && Distinct(Ids(cs))[i] == id;
      assert tokens[i].side.id == id;
    }
  }

  /** A token is described by the side of a pair of greatest value that lists it, the earliest of these. */
  lemma ListedFromGreatest(tokens: seq<Token>, pairs: seq<Pair>, i: nat) returns (n: nat)
    requires Listed(tokens, pairs) && i < |tokens|
    ensures n < |pairs| && Lists(pairs[n], tokens[i].side)
    ensures forall m :: 0 <= m < |pairs| && ListsId(pairs[m], tokens[i].side.id) ==>
              pairs[m].totalValue <= pairs[n].totalValue && (m < n ==> pairs[m].totalValue < pairs[n].totalValue)
  {
    var k := BestOf(tokens, pairs, i);
    var side := tokens[i].side;
    CandidateOf(pairs, k);
    n := PairIndex(pairs, k);
    forall m | 0 <= m < |pairs| && ListsId(pairs[m], side.id)
      ensures pairs[m].totalValue <= pairs[n].totalValue && (m < n ==> pairs[m].totalValue < pairs[n].totalValue)
    {
      var other :| Lists(pairs[m], other) && other.id == side.id;
      NoGreaterPair(pairs, k, m, other);
    }
  }

  lemma BestOf(tokens: seq<Token>, pairs: seq<Pair>, i: nat) returns (k: nat)
    requires Listed(tokens, pairs) && i < |tokens|
    ensures Best(Candidates(pairs), k) && Candidates(pairs)[k].side == tokens[i].side
  {
    var cs := Candidates(pairs);
    assert ListedAs(tokens[i], Distinct(Ids(cs))[i], cs, pairs);
    k := BestWith(cs, tokens[i].side);
  }

  lemma BestWith(cs: seq<Candidate>, side: Side) returns (k: nat)
    requires IsBestSide(cs, side)
    ensures Best(cs, k) && cs[k].side == side
  {
    k :| Best(cs, k) && cs[k].side == side;
  }

  lemma NoGreaterPair(pairs: seq<Pair>, k: nat, m: nat, side: Side)
    requires Best(Candidates(pairs), k) && m < |pairs| && Lists(pairs[m], side)
    requires side.id == Candidates(pairs)[k].side.id
    ensures pairs[m].totalValue <= Candidates(pairs)[k].value
    ensures m < PairIndex(pairs, k) ==> pairs[m].totalValue < Candidates(pairs)[k].value
  {
    var l := CandidateAt(pairs, m, side);
    if m < PairIndex(pairs, k) { EarlierPair(pairs, k, l); }
  }

  lemma EarlierPair(pairs: seq<Pair>, k: nat, l: nat)
    requires k < |Candidates(pairs)| && l < |Candidates(pairs)| && PairIndex(pairs, l) < PairIndex(pairs, k)
    ensures l < k
  {
    if k < l { PairsInOrder(pairs, k, l); }
  }

  /** The first pair that lists an id. */
  ghost predicate FirstLists(pairs: seq<Pair>, id: string, n: nat) {
    n < |pairs| && ListsId(pairs[n], id) && forall m :: 0 <= m < n ==> !ListsId(pairs[m], id)
  }

  lemma FirstCandidate(pairs: seq<Pair>, id: string, k: nat)
    requires FirstAt(Ids(Candidates(pairs)), id, k)
    ensures FirstLists(pairs, id, PairIndex(pairs, k))
  {
    var n := PairIndex(pairs, k);
    CandidateOf(pairs, k);
    assert ListsId(pairs[n], id);
    forall m, side | 0 <= m < n && Lists(pairs[m], side) ensures side.id != id {
      var l := CandidateAt(pairs, m, side);
      EarlierPair(pairs, k, l);
      var before := Ids(Candidates(pairs))[..k];
      assert before[l] in before;
    }
  }

  /** Tokens come in the order of the pairs that first list them, the base of a pair before its quote. */
  lemma ListedInOrder(tokens: seq<Token>, pairs: seq<Pair>, i: nat, j: nat) returns (m: nat, n: nat)
    requires Listed(tokens, pairs) && i < j < |tokens|
    ensures m <= n && FirstLists(pairs, tokens[i].side.id, m) && FirstLists(pairs, tokens[j].side.id, n)
    ensures m == n ==> pairs[m].base.id == tokens[i].side.id && pairs[m].quote.id == tokens[j].side.id
  {
    var ids := Ids(Candidates(pairs));
    var k, l := DistinctInOrder(ids, i, j);
    FirstCandidate(pairs, tokens[i].side.id, k);
    FirstCandidate(pairs, tokens[j].side.id, l);
    PairsInOrder(pairs, k, l);
    m, n := PairIndex(pairs, k), PairIndex(pairs, l);
  }

  /** What one more pair adds to the volume and the trades of a token. */
  lemma OneMorePair(pairs: seq<Pair>, p: Pair, id: string)
    ensures Volume([], id) == 0 && Trades([], id) == 0
    ensures var amount := match p.volume24h case None => 0 case Some(volume) => volume;
            var count := match p.tradesCount case None => 0 case Some(trades) => trades;
            var sides := (if p.base.id == id then 1 else 0) + (if p.quote.id == id then 1 else 0);
            && Volume(pairs + [p], id) == Volume(pairs, id) + sides * amount
            && Trades(pairs + [p], id) == Trades(pairs, id) + if sides > 0 then count else 0
  {
    assert (pairs + [p])[..|pairs|] == pairs;
  }
}
