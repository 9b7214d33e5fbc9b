/**
 The backward walk over minted NFTs: pages of the newest items, each page ending where the next
 one starts, with a set of identifiers already handled.
 */
module NftPaging {

  datatype Nft = Nft(identifier: string, timestamp: nat)

  /** What the handler did with one NFT: it may fail, or report whether the NFT needed processing. */
  datatype Outcome = Failed | Handled(needed: bool)

  datatype Call = Call(identifier: string, outcome: Outcome)

  function Filter(s: seq<Nft>, keep: Nft -> bool): seq<Nft> {
    if s == [] then [] else (if keep(s[0]) then [s[0]] else []) + Filter(s[1..], keep)
  }

  /** The stored NFTs with `after <= timestamp <= before`; `after` 0 stands for no lower bound. */
  function Eligible(store: seq<Nft>, after: int, before: int): seq<Nft> {
    Filter(store, (x: Nft) => after <= x.timestamp <= before)
  }

  function MintedAt(s: seq<Nft>, t: int): seq<Nft> {
    Filter(s, (x: Nft) => x.timestamp == t)
  }

  /**
   One answer of the index: the newest `size` eligible NFTs, in descending order of time; ties are
   cut arbitrarily.
   */
  ghost predicate IsPage(store: seq<Nft>, after: int, before: int, size: nat, page: seq<Nft>) {
    var all := multiset(Eligible(store, after, before));
    && multiset(page) <= all
    && |page| == (if |all| < size then |all| else size)
    && (forall i, j :: 0 <= i < j < |page| ==> page[j].timestamp <= page[i].timestamp)
    && forall x, i :: x in all - multiset(page) && 0 <= i < |page| ==> x.timestamp <= page[i].timestamp
  }

  ghost predicate Answers(store: seq<Nft>, after: int, size: nat, fetch: int -> seq<Nft>) {
    forall before: int :: IsPage(store, after, before, size, fetch(before))
  }

  /** Fewer NFTs than a page share any timestamp in the range. */
  ghost predicate Sparse(store: seq<Nft>, after: int, before: int, size: nat) {
    forall t: int :: after <= t <= before ==> |MintedAt(store, t)| < size
  }

  lemma {:induction false} FilterCounts(s: seq<Nft>, keep: Nft -> bool, x: Nft)
    ensures multiset(Filter(s, keep))[x] == if keep(x) then multiset(s)[x] else 0
  {
    if s != [] {
      assert s == [s[0]] + s[1..];
      FilterCounts(s[1..], keep, x);
    }
  }

  lemma FilterMembers(s: seq<Nft>, keep: Nft -> bool)
    ensures forall x :: multiset(Filter(s, keep))[x] == if keep(x) then multiset(s)[x] else 0
    ensures forall x :: x in Filter(s, keep) <==> x in s && keep(x)
  {
    forall x ensures multiset(Filter(s, keep))[x] == if keep(x) then multiset(s)[x] else 0 { FilterCounts(s, keep, x); }
    forall x ensures x in Filter(s, keep) <==> x in s && keep(x) {
      assert x in multiset(Filter(s, keep)) <==> x in multiset(s) && keep(x);
    }
  }

  lemma SubsetSize(a: seq<Nft>, b: seq<Nft>)
    requires multiset(a) <= multiset(b)
    ensures |a| <= |b|
  {
    assert multiset(b) == multiset(a) + (multiset(b) - multiset(a));
    assert |multiset(b)| == |multiset(a)| + |multiset(b) - multiset(a)|;
  }

  /** The eligible NFTs of one timestamp are all the stored ones. */
  lemma EligibleAt(store: seq<Nft>, after: int, before: int, t: int)
    requires after <= t <= before
    ensures multiset(MintedAt(Eligible(store, after, before), t)) == multiset(MintedAt(store, t))
    ensures |MintedAt(Eligible(store, after, before), t)| == |MintedAt(store, t)|
  {
    forall x ensures multiset(MintedAt(Eligible(store, after, before), t))[x] == multiset(MintedAt(store, t))[x] {
      FilterCounts(store, (y: Nft) => after <= y.timestamp <= before, x);
      FilterCounts(Eligible(store, after, before), (y: Nft) => y.timestamp == t, x);
      FilterCounts(store, (y: Nft) => y.timestamp == t, x);
    }
    assert multiset(MintedAt(Eligible(store, after, before), t)) == multiset(MintedAt(store, t));
    assert |multiset(MintedAt(Eligible(store, after, before), t))| == |multiset(MintedAt(store, t))|;
  }

  lemma CrowdedRange(store: seq<Nft>, after: int, before: int, size: nat, t: int)
    requires after <= t <= before && |MintedAt(store, t)| >= size
    ensures |MintedAt(Eligible(store, after, before), t)| >= size && |Eligible(store, after, before)| >= size
  {
    var all := Eligible(store, after, before);
    EligibleAt(store, after, before, t);
    FilterMembers(all, (x: Nft) => x.timestamp == t);
    SubsetSize(MintedAt(all, t), all);
  }

  lemma OthersFit(page: seq<Nft>, t: int, last: Nft)
    requires last in page && last.timestamp != t
    ensures |MintedAt(page, t)| < |page|
  {
    var kept := MintedAt(page, t);
    FilterMembers(page, (x: Nft) => x.timestamp == t);
    assert multiset(kept)[last] == 0 && multiset(page)[last] > 0;
    SubsetSize(kept + [last], page);
  }

  /** A full page never ends below a timestamp that a whole page shares. */
  lemma FullPageStaysAbove(store: seq<Nft>, after: int, before: int, size: nat, page: seq<Nft>, t: int)
    requires size > 0 && IsPage(store, after, before, size, page)
    requires after <= t <= before && |MintedAt(store, t)| >= size
    ensures |page| == size && t <= page[size - 1].timestamp <= before
  {
    var all := Eligible(store, after, before);
    CrowdedRange(store, after, before, size, t);
    var last := page[size - 1];
    assert last in multiset(page) && last in all;
    FilterMembers(store, (x: Nft) => after <= x.timestamp <= before);
    if last.timestamp < t {
      OnlyNewerLeftOut(store, after, before, size, page, t);
      OthersFit(page, t, last);
    }
  }

  /** A page that ends below `t` holds every eligible NFT of time `t`. */
  lemma OnlyNewerLeftOut(store: seq<Nft>, after: int, before: int, size: nat, page: seq<Nft>, t: int)
    requires IsPage(store, after, before, size, page) && |page| > 0 && page[|page| - 1].timestamp < t
    ensures |MintedAt(Eligible(store, after, before), t)| <= |MintedAt(page, t)|
  {
    var all := Eligible(store, after, before);
    FilterMembers(all, (x: Nft) => x.timestamp == t);
    FilterMembers(page, (x: Nft) => x.timestamp == t);
    forall x ensures multiset(MintedAt(all, t))[x] <= multiset(MintedAt(page, t))[x] {
      if x.timestamp == t { assert x !in multiset(all) - multiset(page); }
    }
    SubsetSize(MintedAt(all, t), MintedAt(page, t));
  }

  lemma PageInRange(store: seq<Nft>, after: int, before: int, size: nat, page: seq<Nft>)
    requires IsPage(store, after, before, size, page)
    ensures forall i :: 0 <= i < |page| ==> after <= page[i].timestamp <= before
  {
    FilterMembers(store, (x: Nft) => after <= x.timestamp <= before);
    forall i | 0 <= i < |page| ensures after <= page[i].timestamp <= before {
      assert page[i] in multiset(page) && page[i] in multiset(Eligible(store, after, before));
    }
  }

  lemma OneTimeOnly(s: seq<Nft>, page: seq<Nft>, t: int)
    requires multiset(page) <= multiset(s) && forall i :: 0 <= i < |page| ==> page[i].timestamp == t
    ensures |page| <= |MintedAt(s, t)|
  {
    FilterMembers(s, (x: Nft) => x.timestamp == t);
    forall x ensures multiset(page)[x] <= multiset(MintedAt(s, t))[x] {
      if x in multiset(page) { assert x in page; }
    }
    SubsetSize(page, MintedAt(s, t));
  }

  /** A full page that fewer than a page of NFTs share a timestamp with ends strictly earlier. */
  lemma SparsePageEndsEarlier(store: seq<Nft>, after: int, before: int, size: nat, page: seq<Nft>)
    requires size > 0 && IsPage(store, after, before, size, page) && |page| == size
    requires Sparse(store, after, before, size)
    ensures after <= page[size - 1].timestamp < before
  {
    PageInRange(store, after, before, size, page);
    if page[size - 1].timestamp == before {
      assert forall i :: 0 <= i < size - 1 ==> page[size - 1].timestamp <= page[i].timestamp;
      OneTimeOnly(Eligible(store, after, before), page, before);
      EligibleAt(store, after, before, before);
    }
  }

  // ----- when the walk ends -------------------------------------------------------------------

  /** The walk from `before` has read its last page within `rounds` pages. */
  ghost predicate EndsWithin(fetch: int -> seq<Nft>, size: nat, before: int, rounds: nat)
    requires size > 0
    decreases rounds
  {
    rounds > 0 &&
    (|fetch(before)| < size || EndsWithin(fetch, size, fetch(before)[|fetch(before)| - 1].timestamp, rounds - 1))
  }

  /** From `before` on, every full page ends strictly earlier. */
  ghost predicate Descends(fetch: int -> seq<Nft>, size: nat, after: nat, before: int)
    requires size > 0
  {
    forall b :: b <= before && |fetch(b)| >= size ==> after <= fetch(b)[|fetch(b)| - 1].timestamp < b
  }

  lemma SparseDescends(store: seq<Nft>, after: nat, before: int, size: nat, fetch: int -> seq<Nft>)
    requires size > 0 && Answers(store, after, size, fetch) && Sparse(store, after, before, size)
    ensures Descends(fetch, size, after, before)
  {
    forall b | b <= before && |fetch(b)| >= size ensures after <= fetch(b)[|fetch(b)| - 1].timestamp < b {
      assert IsPage(store, after, b, size, fetch(b));
      SparsePageEndsEarlier(store, after, b, size, fetch(b));
    }
  }

  lemma {:induction false} DescendingEnds(fetch: int -> seq<Nft>, size: nat, after: nat, before: int, rounds: nat)
    requires size > 0 && Descends(fetch, size, after, before)
    requires rounds > 0 && rounds > before
    ensures EndsWithin(fetch, size, before, rounds)
    decreases rounds
  {
    var page := fetch(before);
    if |page| >= size {
      DescendingEnds(fetch, size, after, page[|page| - 1].timestamp, rounds - 1);
    }
  }

  lemma CrowdedStep(store: seq<Nft>, after: nat, before: int, size: nat, fetch: int -> seq<Nft>, t: int)
    requires size > 0 && Answers(store, after, size, fetch)
    requires after <= t <= before && |MintedAt(store, t)| >= size
    ensures |fetch(before)| == size && t <= fetch(before)[size - 1].timestamp <= before
  {
    assert IsPage(store, after, before, size, fetch(before));
    FullPageStaysAbove(store, after, before, size, fetch(before), t);
  }

  lemma {:induction false} CrowdedNeverEnds(
      store: seq<Nft>, after: nat, before: int, size: nat, fetch: int -> seq<Nft>, t: int, rounds: nat)
    requires size > 0 && Answers(store, after, size, fetch)
    requires after <= t <= before && |MintedAt(store, t)| >= size
    ensures !EndsWithin(fetch, size, before, rounds)
    decreases rounds
  {
    if rounds > 0 {
      CrowdedStep(store, after, before, size, fetch, t);
      CrowdedNeverEnds(store, after, fetch(before)[size - 1].timestamp, size, fetch, t, rounds - 1);
    }
  }

  ghost predicate Ends(fetch: int -> seq<Nft>, size: nat, before: int)
    requires size > 0
  {
    exists rounds: nat :: EndsWithin(fetch, size, before, rounds)
  }

  /** The walk ends exactly when fewer NFTs than a page share any timestamp in the range. */
  lemma EndsIffSparse(store: seq<Nft>, after: nat, before: int, size: nat, fetch: int -> seq<Nft>)
    requires size > 0 && Answers(store, after, size, fetch)
    ensures Ends(fetch, size, before) <==> Sparse(store, after, before, size)
  {
    if Sparse(store, after, before, size) {
      SparseDescends(store, after, before, size, fetch);
      DescendingEnds(fetch, size, after, before, if before < 0 then 1 else before + 1);
    }
    if Ends(fetch, size, before) {
      var rounds: nat :| EndsWithin(fetch, size, before, rounds);
      forall t: int | after <= t <= before ensures |MintedAt(store, t)| < size {
        if |MintedAt(store, t)| >= size { CrowdedNeverEnds(store, after, before, size, fetch, t, rounds); }
      }
    }
  }

  // ----- the code -----------------------------------------------------------------------------

  ghost predicate Offered(calls: seq<Call>, identifier: string) {
    exists c :: 0 <= c < |calls| && calls[c].identifier == identifier
  }

  /** Once an identifier was handled without a failure it is not offered again. */
  ghost predicate HandledOnce(calls: seq<Call>) {
    forall c, d :: 0 <= c < d < |calls| && calls[c].outcome.Handled? ==> calls[d].identifier != calls[c].identifier
  }

  ghost function Completed(calls: seq<Call>): set<string> {
    set c | 0 <= c < |calls| && calls[c].outcome.Handled? :: calls[c].identifier
  }

  function NeededCount(calls: seq<Call>): nat {
    if calls == [] then 0
    else NeededCount(calls[..|calls| - 1]) + if calls[|calls| - 1].outcome == Handled(true) then 1 else 0
  }

  ghost predicate NoFailure(calls: seq<Call>) {
    forall c :: 0 <= c < |calls| ==> calls[c].outcome.Handled?
  }

  /** Bookkeeping of the calls made so far. */
  ghost predicate Recorded(calls: seq<Call>, seen: set<string>, total: nat, needed: nat) {
    && HandledOnce(calls) && seen == Completed(calls) && total == |seen| && needed == NeededCount(calls)
    && (NoFailure(calls) ==> |calls| == |seen|)
  }

  lemma RecordedNext(calls: seq<Call>, seen: set<string>, total: nat, needed: nat, call: Call)
    requires Recorded(calls, seen, total, needed) && call.identifier !in seen
    ensures var next := calls + [call];
            if call.outcome.Handled? then Recorded(next, seen + {call.identifier}, total + 1, needed +
                if call.outcome.needed then 1 else 0)
            else Recorded(next, seen, total, needed)
  {
    var next := calls + [call];
    assert next[..|next| - 1] == calls;
    forall x ensures x in Completed(next) <==> x in seen || (call.outcome.Handled? && x == call.identifier) {
      if x in seen {
        var c :| 0 <= c < |calls| && calls[c].outcome.Handled? && calls[c].identifier == x;
        assert next[c] == calls[c];
      }
      if call.outcome.Handled? && x == call.identifier { assert next[|calls|] == call; }
    }
    assert NoFailure(next) ==> NoFailure(calls) by {
      assert forall c :: 0 <= c < |calls| ==> next[c] == calls[c];
      assert next[|calls|] == call;
    }
    forall c, d | 0 <= c < d < |next| && next[c].outcome.Handled? ensures next[d].identifier != next[c].identifier {
      assert calls[c].identifier in Completed(calls);
    }
  }

  /** Everything newer than a full page's end, or everything when the page is short, is on the page. */
  lemma PageCovers(store: seq<Nft>, after: int, before: int, size: nat, page: seq<Nft>, x: Nft)
    requires size > 0 && IsPage(store, after, before, size, page) && x in Eligible(store, after, before)
    requires |page| < size || page[|page| - 1].timestamp < x.timestamp
    ensures x in page
  {
    var all := multiset(Eligible(store, after, before));
    assert all == multiset(page) + (all - multiset(page));
    assert |all| == |multiset(page)| + |all - multiset(page)|;
    assert x !in page ==> x in all - multiset(page);
  }

  lemma EligibleWithin(store: seq<Nft>, after: int, low: int, high: int, x: Nft)
    requires low <= high
    ensures x in Eligible(store, after, low) <==> x in Eligible(store, after, high) && x.timestamp <= low
  {
    FilterMembers(store, (y: Nft) => after <= y.timestamp <= low);
    FilterMembers(store, (y: Nft) => after <= y.timestamp <= high);
  }

  /** Every call was for an eligible NFT with an identifier, and recorded what the handler did. */
  ghost predicate Genuine(calls: seq<Call>, store: seq<Nft>, after: int, before: int, handler: (Nft, nat) -> Outcome) {
    forall c :: 0 <= c < |calls| ==>
      exists x :: x in Eligible(store, after, before) && x.identifier == calls[c].identifier &&
        calls[c].identifier != "" && calls[c].outcome == handler(x, c)
  }

  /** Every eligible NFT newer than `b` has been offered. */
  ghost predicate Covered(calls: seq<Call>, store: seq<Nft>, after: int, before: int, b: int) {
    forall x :: x in Eligible(store, after, before) && x.timestamp > b && x.identifier != "" ==>
      Offered(calls, x.identifier)
  }

  ghost predicate OfferedAll(calls: seq<Call>, nfts: seq<Nft>) {
    forall i :: 0 <= i < |nfts| && nfts[i].identifier != "" ==> Offered(calls, nfts[i].identifier)
  }

  lemma OfferedOneMore(earlier: seq<Call>, calls: seq<Call>, nfts: seq<Nft>, index: nat)
    requires index < |nfts| && earlier <= calls && OfferedAll(earlier, nfts[..index])
    requires nfts[index].identifier != "" ==> Offered(calls, nfts[index].identifier)
    ensures OfferedAll(calls, nfts[..index + 1])
  {
    forall i | 0 <= i < index && nfts[i].identifier != "" ensures Offered(calls, nfts[i].identifier) {
      assert nfts[..index][i] == nfts[i];
      OfferedLater(earlier, calls, nfts[i].identifier);
    }
  }

  lemma SeenIsOffered(calls: seq<Call>, id: string)
    requires id in Completed(calls)
    ensures Offered(calls, id)
  {
  }

  /** The local variables of one walk; `calls` records the handler's invocations. */
  datatype Progress = Progress(calls: seq<Call>, nftIdentifiers: set<string>, totalNfts: nat, totalProcessedNfts: nat)

  ghost predicate Valid(p: Progress) {
    Recorded(p.calls, p.nftIdentifiers, p.totalNfts, p.totalProcessedNfts)
  }

  ghost predicate OfferedSince(calls: seq<Call>, start: nat, id: string) {
    exists c :: start <= c < |calls| && calls[c].identifier == id
  }

  /** Whatever was not handled before, be it that the handler failed, is offered anew. */
  ghost predicate OfferedAgain(p: Progress, calls: seq<Call>, nfts: seq<Nft>) {
    forall i :: 0 <= i < |nfts| && nfts[i].identifier != "" && nfts[i].identifier !in p.nftIdentifiers ==>
      OfferedSince(calls, |p.calls|, nfts[i].identifier)
  }

  lemma OfferedAgainOneMore(
      p: Progress, earlier: Progress, calls: seq<Call>, nfts: seq<Nft>, index: nat, handler: (Nft, nat) -> Outcome)
    requires index < |nfts| && Valid(p) && Valid(earlier) && p.calls <= earlier.calls <= calls
    requires OfferedAgain(p, earlier.calls, nfts[..index])
    requires var id := nfts[index].identifier;
             id == "" || id in earlier.nftIdentifiers ||
             calls == earlier.calls + [Call(id, handler(nfts[index], |earlier.calls|))]
    ensures OfferedAgain(p, calls, nfts[..index + 1])
  {
    forall i | 0 <= i <= index && nfts[i].identifier != "" && nfts[i].identifier !in p.nftIdentifiers
      ensures OfferedSince(calls, |p.calls|, nfts[i].identifier)
    {
      var id := nfts[i].identifier;
      if i < index {
        assert nfts[..index][i] == nfts[i];
        var c :| |p.calls| <= c < |earlier.calls| && earlier.calls[c].identifier == id;
        assert calls[c] == earlier.calls[c];
      } else if id in earlier.nftIdentifiers {
        HandledSince(p, earlier.calls, calls, id);
      } else {
        assert calls[|earlier.calls|].identifier == id;
      }
    }
  }

  /** What was handled since has been offered since. */
  lemma HandledSince(p: Progress, earlier: seq<Call>, calls: seq<Call>, id: string)
    requires Valid(p) && p.calls <= earlier <= calls && id in Completed(earlier) && id !in p.nftIdentifiers
    ensures OfferedSince(calls, |p.calls|, id)
  {
    assert forall c :: 0 <= c < |p.calls| ==> earlier[c] == p.calls[c];
    assert forall c :: 0 <= c < |p.calls| && p.calls[c].outcome.Handled? ==> p.calls[c].identifier != id;
    var c :| 0 <= c < |earlier| && earlier[c].outcome.Handled? && earlier[c].identifier == id;
    assert calls[c] == earlier[c];
  }

  /** Offers one NFT to the handler unless its identifier was handled before. */
  method OfferNft(
      p: Progress, nft: Nft, ghost store: seq<Nft>, after: int, before: int, handler: (Nft, nat) -> Outcome)
      returns (q: Progress)
    requires Valid(p) && Genuine(p.calls, store, after, before, handler) && nft in Eligible(store, after, before)
    ensures Valid(q) && Genuine(q.calls, store, after, before, handler)
    ensures nft.identifier == "" || nft.identifier in p.nftIdentifiers ==> q == p
    ensures nft.identifier != "" && nft.identifier !in p.nftIdentifiers ==>
              q.calls == p.calls + [Call(nft.identifier, handler(nft, |p.calls|))]
    ensures nft.identifier != "" ==> Offered(q.calls, nft.identifier)
    ensures p.calls <= q.calls
  {
    q := p;
    if nft.identifier != "" {
      if nft.identifier !in q.nftIdentifiers {
        var outcome := handler(nft, |q.calls|);
        RecordedNext(q.calls, q.nftIdentifiers, q.totalNfts, q.totalProcessedNfts, Call(nft.identifier, outcome));
        NowOffered(q.calls, Call(nft.identifier, outcome));
        GenuineNext(q.calls, store, after, before, handler, nft);
        q := q.(calls := q.calls + [Call(nft.identifier, outcome)]);
        if outcome.Handled? {
          if outcome.needed {
            q := q.(totalProcessedNfts := q.totalProcessedNfts + 1);
          }
          q := q.(totalNfts := q.totalNfts + 1);
          q := q.(nftIdentifiers := q.nftIdentifiers + {nft.identifier});
        }
      } else {
        SeenIsOffered(q.calls, nft.identifier);
      }
    }
  }

  /** Offers the NFTs of one page in order. */
  method ProcessPage(
      p: Progress, nfts: seq<Nft>, ghost store: seq<Nft>, after: int, before: int, handler: (Nft, nat) -> Outcome)
      returns (q: Progress)
    requires Valid(p) && Genuine(p.calls, store, after, before, handler)
    requires forall i :: 0 <= i < |nfts| ==> nfts[i] in Eligible(store, after, before)
    ensures Valid(q) && Genuine(q.calls, store, after, before, handler) && p.calls <= q.calls
    ensures OfferedAll(q.calls, nfts)
    ensures OfferedAgain(p, q.calls, nfts)
  {
    q := p;
    for index := 0 to |nfts|
      invariant Valid(q) && Genuine(q.calls, store, after, before, handler) && p.calls <= q.calls
      invariant OfferedAll(q.calls, nfts[..index])
      invariant OfferedAgain(p, q.calls, nfts[..index])
    {
      ghost var earlier := q;
      q := OfferNft(q, nfts[index], store, after, before, handler);
      OfferedOneMore(earlier.calls, q.calls, nfts, index);
      OfferedAgainOneMore(p, earlier, q.calls, nfts, index, handler);
    }
    assert nfts[..|nfts|] == nfts;
  }

  /**
   `fetch` answers the query over an unchanging store, `handler` is asked with the number of
   calls made before. It runs whenever the walk ends at all (see EndsIffSparse).
   */
  method ProcessNfts(
      ghost store: seq<Nft>, after: nat, before: int, size: nat, fetch: int -> seq<Nft>,
      handler: (Nft, nat) -> Outcome)
    returns (p: Progress)
    requires size > 0 && Answers(store, after, size, fetch) && Sparse(store, after, before, size)
    ensures forall x :: x in Eligible(store, after, before) && x.identifier != "" ==> Offered(p.calls, x.identifier)
    ensures Genuine(p.calls, store, after, before, handler)
    ensures HandledOnce(p.calls) && p.nftIdentifiers == Completed(p.calls)
    ensures p.totalNfts == |p.nftIdentifiers| && p.totalProcessedNfts == NeededCount(p.calls)
    ensures NoFailure(p.calls) ==> |p.calls| == |p.nftIdentifiers|
    ensures NoFailure(p.calls) ==>
              p.nftIdentifiers == set x | x in Eligible(store, after, before) && x.identifier != "" :: x.identifier
  {
    p := Progress([], {}, 0, 0);
    assert Completed([]) == {};
    var b := before;
    NothingNewer(p.calls, store, after, before);
    while true
      invariant b <= before && Valid(p)
      invariant Genuine(p.calls, store, after, before, handler) && Covered(p.calls, store, after, before, b)
      decreases if b < 0 then 0 else b + 1
    {
      var nfts := fetch(b);
      assert IsPage(store, after, b, size, nfts);
      OnPage(store, after, b, before, size, nfts);
      ghost var earlier := p.calls;
      p := ProcessPage(p, nfts, store, after, before, handler);
      CoveredMore(earlier, p.calls, store, after, b, before, size, nfts);
      if |nfts| < size {
        break;
      }
      SparsePageEndsEarlier(store, after, b, size, nfts);
      b := nfts[|nfts| - 1].timestamp;
    }
    if NoFailure(p.calls) {
      AllHandled(p.calls, store, after, before, handler);
    }
  }

  lemma GenuineNext(
      calls: seq<Call>, store: seq<Nft>, after: int, before: int, handler: (Nft, nat) -> Outcome, nft: Nft)
    requires Genuine(calls, store, after, before, handler) && nft in Eligible(store, after, before) &&
             nft.identifier != ""
    ensures Genuine(calls + [Call(nft.identifier, handler(nft, |calls|))], store, after, before, handler)
  {
    var next := calls + [Call(nft.identifier, handler(nft, |calls|))];
    forall c | 0 <= c < |next|
      ensures exists x :: x in Eligible(store, after, before) && x.identifier == next[c].identifier &&
                next[c].identifier != "" && next[c].outcome == handler(x, c)
    {
      if c < |calls| {
        assert next[c] == calls[c];
      } else {
        assert next[c].identifier == nft.identifier;
      }
    }
  }

  lemma NothingNewer(calls: seq<Call>, store: seq<Nft>, after: int, before: int)
    ensures Covered(calls, store, after, before, before)
  {
    FilterMembers(store, (y: Nft) => after <= y.timestamp <= before);
  }

  /** What a page adds to the coverage: everything above its end, or the whole range if it is short. */
  lemma CoveredMore(
      earlier: seq<Call>, calls: seq<Call>, store: seq<Nft>, after: int, b: int, before: int, size: nat,
      page: seq<Nft>)
    requires size > 0 && b <= before && IsPage(store, after, b, size, page) && earlier <= calls &&
             Covered(earlier, store, after, before, b)
    requires OfferedAll(calls, page)
    ensures |page| < size ==> forall x :: x in Eligible(store, after, before) && x.identifier != "" ==>
              Offered(calls, x.identifier)
    ensures |page| == size ==> Covered(calls, store, after, before, page[size - 1].timestamp)
  {
    forall x | x in Eligible(store, after, before) && x.identifier != "" &&
    (|page| < size || x.timestamp > page[|page| - 1].timestamp)
      ensures Offered(calls, x.identifier)
    {
      if x.timestamp > b {
        OfferedLater(earlier, calls, x.identifier);
      } else {
        EligibleWithin(store, after, b, before, x);
        PageCovers(store, after, b, size, page, x);
      }
    }
  }

  lemma AllHandled(calls: seq<Call>, store: seq<Nft>, after: int, before: int, handler: (Nft, nat) -> Outcome)
    requires NoFailure(calls) && Genuine(calls, store, after, before, handler)
    requires forall x :: x in Eligible(store, after, before) && x.identifier != "" ==> Offered(calls, x.identifier)
    ensures Completed(calls) == set x | x in Eligible(store, after, before) && x.identifier != "" :: x.identifier
  {
    var all := set x | x in Eligible(store, after, before) && x.identifier != "" :: x.identifier;
    forall id | id in all ensures id in Completed(calls) {
      var c :| 0 <= c < |calls| && calls[c].identifier == id;
    }
    forall id | id in Completed(calls) ensures id in all {
      var c :| 0 <= c < |calls| && calls[c].identifier == id;
    }
  }

  lemma OnPage(store: seq<Nft>, after: int, b: int, before: int, size: nat, page: seq<Nft>)
    requires IsPage(store, after, b, size, page) && b <= before
    ensures forall i :: 0 <= i < |page| ==> page[i] in Eligible(store, after, before)
  {
    forall i | 0 <= i < |page| ensures page[i] in Eligible(store, after, before) {
      assert page[i] in multiset(page) && page[i] in multiset(Eligible(store, after, b));
      EligibleWithin(store, after, b, before, page[i]);
    }
  }

  lemma NowOffered(calls: seq<Call>, call: Call)
    ensures Offered(calls + [call], call.identifier)
  {
    assert (calls + [call])[|calls|] == call;
  }

  lemma OfferedLater(earlier: seq<Call>, calls: seq<Call>, id: string)
    requires earlier <= calls && Offered(earlier, id)
    ensures Offered(calls, id)
  {
    var c :| 0 <= c < |earlier| && earlier[c].identifier == id;
    assert calls[c] == earlier[c];
  }
}
