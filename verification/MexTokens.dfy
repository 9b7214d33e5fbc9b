/**
 The token list of the exchange: every token traded against WEGLD or USDC, described by its most
 valuable pair, with volume and trades added up over all pairs.
 */
module MexTokens {
  import opened Collections

  datatype Symbol = WEGLD | USDC | Other(name: string)

  datatype Side = Side(id: string, symbol: Symbol, name: string, price: real, previous24hPrice: real)
  datatype Pair = Pair(base: Side, quote: Side, totalValue: real, volume24h: Option<nat>, tradesCount: Option<nat>)

  datatype Token = Token(side: Side, previous24hVolume: int, tradesCount: nat)

  /** One side of a pair that qualifies for the list, with the value of the pair. */
  datatype Candidate = Candidate(side: Side, value: real)

  function PairVolume(p: Pair): nat {
    if p.volume24h.Some? then p.volume24h.value else 0
  }

  function PairTrades(p: Pair): nat {
    if p.tradesCount.Some? then p.tradesCount.value else 0
  }

  /** The side a pair describes; the WEGLD/USDC pair describes its quote here. */
  function GetMexToken(p: Pair): Option<Side> {
    if p.base.symbol == WEGLD && p.quote.symbol == USDC then Some(p.quote)
    else if p.quote.symbol in {WEGLD, USDC} then Some(p.base)
    else if p.base.symbol in {WEGLD, USDC} then Some(p.quote)
    else None
  }

  /** The sides of a pair that qualify: both of WEGLD/USDC, else the one that faces WEGLD or USDC. */
  function Qualifying(p: Pair): seq<Candidate> {
    (if p.base.symbol == WEGLD && p.quote.symbol == USDC then [Candidate(p.base, p.totalValue)] else [])
    + (if GetMexToken(p).Some? then [Candidate(GetMexToken(p).value, p.totalValue)] else [])
  }

  function Candidates(pairs: seq<Pair>): seq<Candidate> {
    if pairs == [] then [] else Candidates(pairs[..|pairs| - 1]) + Qualifying(pairs[|pairs| - 1])
  }

  function Ids(cs: seq<Candidate>): (ids: seq<string>)
    ensures |ids| == |cs| && forall i :: 0 <= i < |ids| ==> ids[i] == cs[i].side.id
  {
    seq(|cs|, i requires 0 <= i < |cs| => cs[i].side.id)
  }

  /** The volume of a token: each pair counts once per side the token is on. */
  function Volume(pairs: seq<Pair>, id: string): nat {
    if pairs == [] then 0
    else
      var p := pairs[|pairs| - 1];
      Volume(pairs[..|pairs| - 1], id) + (if p.base.id == id then PairVolume(p) else 0) +
        (if p.quote.id == id then PairVolume(p) else 0)
  }

  function TotalVolume(pairs: seq<Pair>): nat {
    if pairs == [] then 0 else TotalVolume(pairs[..|pairs| - 1]) + PairVolume(pairs[|pairs| - 1])
  }

  /** The trades of a token: the sum over the pairs it is in. */
  function Trades(pairs: seq<Pair>, id: string): nat {
    if pairs == [] then 0
    else
      var p := pairs[|pairs| - 1];
      Trades(pairs[..|pairs| - 1], id) + if p.base.id == id || p.quote.id == id then PairTrades(p) else 0
  }

  /** Candidate `k` has the greatest value among those of its token, and is the earliest of these. */
  ghost predicate Best(cs: seq<Candidate>, k: int) {
    && 0 <= k < |cs|
    && (forall j :: 0 <= j < k && cs[j].side.id == cs[k].side.id ==> cs[j].value < cs[k].value)
    && (forall j :: k < j < |cs| && cs[j].side.id == cs[k].side.id ==> cs[j].value <= cs[k].value)
  }

  /** The side of some best candidate. */
  ghost predicate IsBestSide(cs: seq<Candidate>, side: Side) {
    exists k :: Best(cs, k) && cs[k].side == side
  }

  /** The token list: one token per qualifying id, in order of first appearance, from its best pair. */
  ghost predicate Listed(tokens: seq<Token>, pairs: seq<Pair>) {
    var cs := Candidates(pairs);
    var ids := Distinct(Ids(cs));
    |tokens| == |ids| && forall i :: 0 <= i < |tokens| ==> ListedAs(tokens[i], ids[i], cs, pairs)
  }

  ghost predicate ListedAs(token: Token, id: string, cs: seq<Candidate>, pairs: seq<Pair>) {
    && token.side.id == id && token.previous24hVolume == Volume(pairs, id) && token.tradesCount == Trades(pairs, id)
    && IsBestSide(cs, token.side)
  }

  // ----- results ------------------------------------------------------------------------------

  /** The best candidate of a token is unique, so the list is determined by the pairs. */
  lemma ListIsUnique(tokens: seq<Token>, tokens': seq<Token>, pairs: seq<Pair>)
    requires Listed(tokens, pairs) && Listed(tokens', pairs)
    ensures tokens == tokens'
  {
    var cs := Candidates(pairs);
    forall i | 0 <= i < |tokens| ensures tokens[i] == tokens'[i] {
      var k :| Best(cs, k) && cs[k].side == tokens[i].side;
      var k' :| Best(cs, k') && cs[k'].side == tokens'[i].side;
      BestIsUnique(cs, k, k');
    }
  }

  lemma BestIsUnique(cs: seq<Candidate>, k: int, k': int)
    requires Best(cs, k) && Best(cs, k') && cs[k].side.id == cs[k'].side.id
    ensures k == k'
  {
  }

  function Credit(volumes: map<string, int>, id: string, amount: nat): map<string, int> {
    volumes[id := ValueOr0(volumes, id) + amount]
  }

  function Volumes(pairs: seq<Pair>): map<string, int> {
    if pairs == [] then map[]
    else
      var p := pairs[|pairs| - 1];
      Credit(Credit(Volumes(pairs[..|pairs| - 1]), p.base.id, PairVolume(p)), p.quote.id, PairVolume(p))
  }

  lemma {:induction false} VolumesFacts(pairs: seq<Pair>)
    ensures forall id :: ValueOr0(Volumes(pairs), id) == Volume(pairs, id)
    ensures forall id :: id in Volumes(pairs) <==>
              exists i :: 0 <= i < |pairs| && (pairs[i].base.id == id || pairs[i].quote.id == id)
  {
    if pairs != [] {
      var n := |pairs| - 1;
      var p := pairs[n];
      VolumesFacts(pairs[..n]);
      forall id
        ensures id in Volumes(pairs) <==>
                  exists i :: 0 <= i < |pairs| && (pairs[i].base.id == id || pairs[i].quote.id == id)
      {
        if i :| 0 <= i < n && (pairs[..n][i].base.id == id || pairs[..n][i].quote.id == id) {
          assert pairs[i] == pairs[..n][i];
        }
        if i :| 0 <= i < |pairs| && (pairs[i].base.id == id || pairs[i].quote.id == id) {
          assert i < n ==> pairs[..n][i] == pairs[i];
        }
        if id == p.base.id || id == p.quote.id { assert pairs[n] == p; }
      }
    }
  }

  predicate AnyToken(id: string) {
    true
  }

  lemma CreditAdds(volumes: map<string, int>, id: string, amount: nat)
    ensures SumWhere(Credit(volumes, id, amount), AnyToken) == SumWhere(volumes, AnyToken) + amount
  {
    SumUpdate(volumes, AnyToken, id, amount);
  }

  /** The accumulated token volumes add up to twice the volume of all pairs. */
  lemma {:induction false} VolumesAddUpTwice(pairs: seq<Pair>)
    ensures SumWhere(Volumes(pairs), AnyToken) == 2 * TotalVolume(pairs)
  {
    if pairs != [] {
      var p, front := pairs[|pairs| - 1], Volumes(pairs[..|pairs| - 1]);
      VolumesAddUpTwice(pairs[..|pairs| - 1]);
      CreditAdds(front, p.base.id, PairVolume(p));
      CreditAdds(Credit(front, p.base.id, PairVolume(p)), p.quote.id, PairVolume(p));
    }
  }

  // ----- the code -----------------------------------------------------------------------------

  method AddVolume(volumes: map<string, int>, id: string, amount: nat) returns (tokenVolumes: map<string, int>)
    ensures tokenVolumes == Credit(volumes, id, amount)
  {
    tokenVolumes := volumes;
    if id !in tokenVolumes || tokenVolumes[id] == 0 {
      tokenVolumes := tokenVolumes[id := 0];
    }
    tokenVolumes := tokenVolumes[id := tokenVolumes[id] + amount];
  }

  method ComputeVolumes(pairs: seq<Pair>) returns (tokenVolumes: map<string, int>)
    ensures tokenVolumes == Volumes(pairs)
    ensures forall id :: id in tokenVolumes ==> tokenVolumes[id] == Volume(pairs, id)
    ensures forall i :: 0 <= i < |pairs| ==> pairs[i].base.id in tokenVolumes && pairs[i].quote.id in tokenVolumes
  {
    tokenVolumes := map[];
    for i := 0 to |pairs|
      invariant tokenVolumes == Volumes(pairs[..i])
    {
      assert pairs[..i + 1][..i] == pairs[..i];
      tokenVolumes := AddVolume(tokenVolumes, pairs[i].base.id, PairVolume(pairs[i]));
      tokenVolumes := AddVolume(tokenVolumes, pairs[i].quote.id, PairVolume(pairs[i]));
    }
    assert pairs[..|pairs|] == pairs;
    VolumesFacts(pairs);
    VolumesByKey(pairs);
  }

  lemma VolumesByKey(pairs: seq<Pair>)
    ensures forall id :: id in Volumes(pairs) ==> Volumes(pairs)[id] == Volume(pairs, id)
  {
    VolumesFacts(pairs);
    forall id | id in Volumes(pairs) ensures Volumes(pairs)[id] == Volume(pairs, id) {
      assert ValueOr0(Volumes(pairs), id) == Volumes(pairs)[id];
    }
  }

  datatype PoolEntry = PoolEntry(token: Token, liquidityValue: real)

  /** The record from token ids to entries, with the ids in insertion order. */
  datatype Pool = Pool(order: seq<string>, entries: map<string, PoolEntry>)

  /** The entry describes the best candidate of a token. */
  ghost predicate Carries(e: PoolEntry, cs: seq<Candidate>, id: string) {
    exists k :: Best(cs, k) && cs[k].side.id == id && e.token.side == cs[k].side && e.liquidityValue == cs[k].value
  }

  ghost predicate Totals(token: Token, pairs: seq<Pair>, id: string) {
    token.previous24hVolume == Volume(pairs, id) && token.tradesCount == Trades(pairs, id)
  }

  ghost predicate PoolOk(pool: Pool, cs: seq<Candidate>, pairs: seq<Pair>) {
    && pool.order == Distinct(Ids(cs))
    && (forall id :: id in pool.entries <==> id in Ids(cs))
    && (forall id :: id in pool.entries ==> Carries(pool.entries[id], cs, id))
    && (forall id :: id in pool.entries ==> Totals(pool.entries[id].token, pairs, id))
  }

  /** A further candidate of another token, or of no greater value, leaves the entry as it is. */
  lemma KeptBest(e: PoolEntry, cs: seq<Candidate>, id: string, c: Candidate)
    requires Carries(e, cs, id) && (c.side.id != id || c.value <= e.liquidityValue)
    ensures Carries(e, cs + [c], id)
  {
    var k :| Best(cs, k) && cs[k].side.id == id && e.token.side == cs[k].side && e.liquidityValue == cs[k].value;
    assert Best(cs + [c], k) && (cs + [c])[k] == cs[k];
  }

  /** A first candidate of its token, or one of greater value, becomes the best. */
  lemma NewBest(e: PoolEntry, cs: seq<Candidate>, c: Candidate, was: Option<PoolEntry>)
    requires e.token.side == c.side && e.liquidityValue == c.value
    requires if was.None? then c.side.id !in Ids(cs)
             else Carries(was.value, cs, c.side.id) && c.value > was.value.liquidityValue
    ensures Carries(e, cs + [c], c.side.id)
  {
    var next := cs + [c];
    if was.Some? {
      var k :| Best(cs, k) && cs[k].side.id == c.side.id && was.value.token.side == cs[k].side &&
      was.value.liquidityValue == cs[k].value;
    } else {
      forall j | 0 <= j < |cs| ensures cs[j].side.id != c.side.id { assert Ids(cs)[j] == cs[j].side.id; }
    }
    assert Best(next, |cs|) && next[|cs|] == c;
  }

  lemma IdsSnoc(cs: seq<Candidate>, c: Candidate)
    ensures Ids(cs + [c]) == Ids(cs) + [c.side.id]
    ensures Distinct(Ids(cs + [c])) == if c.side.id in Ids(cs) then Distinct(Ids(cs))
            else Distinct(Ids(cs)) + [c.side.id]
  {
    assert Ids(cs + [c]) == Ids(cs) + [c.side.id];
    DistinctSnoc(Ids(cs), c.side.id);
  }

  lemma OfferKept(pool: Pool, cs: seq<Candidate>, pairs: seq<Pair>, c: Candidate)
    requires PoolOk(pool, cs, pairs) && c.side.id in pool.entries && c.value <= pool.entries[c.side.id].liquidityValue
    ensures PoolOk(pool, cs + [c], pairs)
  {
    IdsSnoc(cs, c);
    forall id | id in pool.entries ensures Carries(pool.entries[id], cs + [c], id) {
      KeptBest(pool.entries[id], cs, id, c);
    }
  }

  lemma OfferTaken(pool: Pool, cs: seq<Candidate>, pairs: seq<Pair>, c: Candidate, e: PoolEntry)
    requires PoolOk(pool, cs, pairs) && (c.side.id in pool.entries ==> c.value > pool.entries[c.side.id].liquidityValue)
    requires e.token.side == c.side && e.liquidityValue == c.value && Totals(e.token, pairs, c.side.id)
    ensures var order := if c.side.id in pool.entries then pool.order else pool.order + [c.side.id];
            PoolOk(Pool(order, pool.entries[c.side.id := e]), cs + [c], pairs)
  {
    IdsSnoc(cs, c);
    TakenCarries(pool, cs, pairs, c, e);
  }

  lemma TakenCarries(pool: Pool, cs: seq<Candidate>, pairs: seq<Pair>, c: Candidate, e: PoolEntry)
    requires PoolOk(pool, cs, pairs) && (c.side.id in pool.entries ==> c.value > pool.entries[c.side.id].liquidityValue)
    requires e.token.side == c.side && e.liquidityValue == c.value
    ensures var entries := pool.entries[c.side.id := e];
            forall id :: id in entries ==> Carries(entries[id], cs + [c], id)
  {
    var entries := pool.entries[c.side.id := e];
    NewBest(e, cs, c, if c.side.id in pool.entries then Some(pool.entries[c.side.id]) else None);
    forall id | id in entries ensures Carries(entries[id], cs + [c], id) {
      if id != c.side.id {
        KeptBest(entries[id], cs, id, c);
      }
    }
  }

  /** Offers one side of a pair to the pool. */
  method Offer(
      pool: Pool, c: Candidate, pairs: seq<Pair>, tokenVolumes: map<string, int>, ghost cs: seq<Candidate>)
      returns (updated: Pool)
    requires PoolOk(pool, cs, pairs) && c.side.id in tokenVolumes && tokenVolumes[c.side.id] == Volume(pairs, c.side.id)
    ensures PoolOk(updated, cs + [c], pairs)
  {
    var trades := ComputeTradesCount(pairs, c.side.id);
    var token := Token(c.side, tokenVolumes[c.side.id], trades);
    updated := pool;
    if c.side.id !in pool.entries || c.value > pool.entries[c.side.id].liquidityValue {
      OfferTaken(pool, cs, pairs, c, PoolEntry(token, c.value));
      if c.side.id !in pool.entries {
        updated := updated.(order := updated.order + [c.side.id]);
      }
      updated := updated.(entries := updated.entries[c.side.id := PoolEntry(token, c.value)]);
    } else {
      OfferKept(pool, cs, pairs, c);
    }
  }

  method ComputeTradesCount(pairs: seq<Pair>, id: string) returns (count: nat)
    ensures count == Trades(pairs, id)
  {
    count := 0;
    for i := 0 to |pairs|
      invariant count == Trades(pairs[..i], id)
    {
      assert pairs[..i + 1][..i] == pairs[..i];
      if pairs[i].base.id == id || pairs[i].quote.id == id {
        count := count + PairTrades(pairs[i]);
      }
    }
    assert pairs[..|pairs|] == pairs;
  }

  /** Offers the qualifying sides of one pair. */
  method OfferPair(
      pool: Pool, p: Pair, pairs: seq<Pair>, tokenVolumes: map<string, int>, ghost cs: seq<Candidate>)
      returns (updated: Pool)
    requires PoolOk(pool, cs, pairs)
    requires p.base.id in tokenVolumes && tokenVolumes[p.base.id] == Volume(pairs, p.base.id)
    requires p.quote.id in tokenVolumes && tokenVolumes[p.quote.id] == Volume(pairs, p.quote.id)
    ensures PoolOk(updated, cs + Qualifying(p), pairs)
  {
    updated := pool;
    ghost var seen := cs;
    if p.base.symbol == WEGLD && p.quote.symbol == USDC {
      var c := Candidate(p.base, p.totalValue);
      updated := Offer(updated, c, pairs, tokenVolumes, seen);
      seen := seen + [c];
    }
    var side := GetMexToken(p);
    if side.Some? {
      var c := Candidate(side.value, p.totalValue);
      updated := Offer(updated, c, pairs, tokenVolumes, seen);
      seen := seen + [c];
    }
    assert seen == cs + Qualifying(p);
  }

  method BuildPool(pairs: seq<Pair>) returns (pool: Pool)
    ensures PoolOk(pool, Candidates(pairs), pairs)
  {
    var tokenVolumes := ComputeVolumes(pairs);
    pool := Pool([], map[]);
    for i := 0 to |pairs|
      invariant PoolOk(pool, Candidates(pairs[..i]), pairs)
    {
      assert pairs[..i + 1][..i] == pairs[..i];
      pool := OfferPair(pool, pairs[i], pairs, tokenVolumes, Candidates(pairs[..i]));
    }
    assert pairs[..|pairs|] == pairs;
  }

  method PoolTokens(pool: Pool) returns (tokens: seq<Token>)
    requires forall id :: id in pool.order ==> id in pool.entries
    ensures |tokens| == |pool.order|
    ensures forall j :: 0 <= j < |tokens| ==>
              pool.order[j] in pool.entries && tokens[j] == pool.entries[pool.order[j]].token
  {
    tokens := [];
    for i := 0 to |pool.order|
      invariant |tokens| == i
      invariant forall j :: 0 <= j < i ==>
                  pool.order[j] in pool.entries && tokens[j] == pool.entries[pool.order[j]].token
    {
      var id := pool.order[i];
      assert id in pool.order;
      tokens := tokens + [pool.entries[id].token];
    }
  }

  method GetAllMexTokens(pairs: seq<Pair>) returns (tokens: seq<Token>)
    ensures Listed(tokens, pairs)
  {
    var pool := BuildPool(pairs);
    DistinctFacts(Ids(Candidates(pairs)));
    tokens := PoolTokens(pool);
    PoolLists(pool, Candidates(pairs), pairs, tokens);
  }

  lemma PoolLists(pool: Pool, cs: seq<Candidate>, pairs: seq<Pair>, tokens: seq<Token>)
    requires PoolOk(pool, cs, pairs) && cs == Candidates(pairs) && |tokens| == |pool.order|
    requires forall j :: 0 <= j < |tokens| ==>
               pool.order[j] in pool.entries && tokens[j] == pool.entries[pool.order[j]].token
    ensures Listed(tokens, pairs)
  {
    forall i | 0 <= i < |tokens|
      ensures ListedAs(tokens[i], pool.order[i], cs, pairs)
    {
      var id := pool.order[i];
      assert Carries(pool.entries[id], cs, id);
    }
  }
}
