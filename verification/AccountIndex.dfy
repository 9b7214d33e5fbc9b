/**
 Reconciling the stored 24-hour transfer counts of indexed accounts with the current list of the
 most used applications, in batches.
 */
module AccountIndex {
  import opened Collections

  type Address = string

  datatype MostUsed = MostUsed(address: Address, transfers24H: nat)

  const BATCH_SIZE := 100

  /** A stored count that is missing reads as 0. */
  function Count(stored: Option<nat>): nat {
    if stored.Some? then stored.value else 0
  }

  function AddressesOf(mostUsed: seq<MostUsed>): (s: seq<Address>)
    ensures |s| == |mostUsed| && forall i :: 0 <= i < |s| ==> s[i] == mostUsed[i].address
  {
    seq(|mostUsed|, i requires 0 <= i < |mostUsed| => mostUsed[i].address)
  }

  /** The count to store: the last one the source gives for the address, or 0. */
  function SourceCount(mostUsed: seq<MostUsed>, address: Address): nat {
    if mostUsed == [] then 0
    else if mostUsed[|mostUsed| - 1].address == address then mostUsed[|mostUsed| - 1].transfers24H
    else SourceCount(mostUsed[..|mostUsed| - 1], address)
  }

  function ToUpdate(mostUsed: seq<MostUsed>, indexed: seq<Address>): seq<Address> {
    Distinct(AddressesOf(mostUsed) + indexed)
  }

  predicate Differs(stored: map<Address, Option<nat>>, mostUsed: seq<MostUsed>, address: Address) {
    address in stored && stored[address] != Some(SourceCount(mostUsed, address))
  }

  /** The index after the listed addresses were brought up to date. */
  function Updated(
      stored: map<Address, Option<nat>>, mostUsed: seq<MostUsed>, listed: seq<Address>): map<Address, Option<nat>> {
    map a | a in stored :: if a in listed then Some(SourceCount(mostUsed, a)) else stored[a]
  }

  /** The addresses that needed a write, in order. */
  function Written(stored: map<Address, Option<nat>>, mostUsed: seq<MostUsed>, listed: seq<Address>): seq<Address> {
    if listed == [] then []
    else
      var n := |listed| - 1;
      Written(stored, mostUsed, listed[..n]) + if Differs(stored, mostUsed, listed[n]) then [listed[n]] else []
  }

  lemma {:induction false} WrittenFacts(
      stored: map<Address, Option<nat>>, mostUsed: seq<MostUsed>, listed: seq<Address>)
    requires NoRepetition(listed)
    ensures NoRepetition(Written(stored, mostUsed, listed))
    ensures forall a :: a in Written(stored, mostUsed, listed) <==> a in listed && Differs(stored, mostUsed, a)
  {
    if listed != [] {
      var n := |listed| - 1;
      WrittenFacts(stored, mostUsed, listed[..n]);
      assert listed == listed[..n] + [listed[n]];
      assert forall i :: 0 <= i < n ==> listed[..n][i] != listed[n];
    }
  }

  // ----- results ------------------------------------------------------------------------------

  /** The query for indexed addresses left out no account with a non-zero count. */
  ghost predicate Complete(stored: map<Address, Option<nat>>, mostUsed: seq<MostUsed>, indexed: seq<Address>) {
    forall a :: a in stored && a !in indexed && a !in AddressesOf(mostUsed) ==> Count(stored[a]) == 0
  }

  ghost predicate Agrees(stored: map<Address, Option<nat>>, mostUsed: seq<MostUsed>) {
    forall a :: a in stored ==> Count(stored[a]) == SourceCount(mostUsed, a)
  }

  lemma {:induction false} UnlistedCountsZero(mostUsed: seq<MostUsed>, a: Address)
    requires a !in AddressesOf(mostUsed)
    ensures SourceCount(mostUsed, a) == 0
  {
    if mostUsed != [] {
      var n := |mostUsed| - 1;
      assert AddressesOf(mostUsed)[n] == mostUsed[n].address;
      forall i | 0 <= i < n ensures AddressesOf(mostUsed[..n])[i] != a { assert AddressesOf(mostUsed)[i] != a; }
      UnlistedCountsZero(mostUsed[..n], a);
    }
  }

  /** Entry `i` is the last one of its address. */
  ghost predicate LastEntry(mostUsed: seq<MostUsed>, i: nat) {
    i < |mostUsed| && forall j :: i < j < |mostUsed| ==> mostUsed[j].address != mostUsed[i].address
  }

  lemma {:induction false} LastEntryCounts(mostUsed: seq<MostUsed>, i: nat)
    requires LastEntry(mostUsed, i)
    ensures SourceCount(mostUsed, mostUsed[i].address) == mostUsed[i].transfers24H
    decreases |mostUsed|
  {
    var n := |mostUsed| - 1;
    if i < n {
      LastEntryCounts(mostUsed[..n], i);
    }
  }

  /** After a run an account on the list has the count of its last entry there. */
  lemma ListedAfterRun(stored: map<Address, Option<nat>>, mostUsed: seq<MostUsed>, indexed: seq<Address>, i: nat)
    requires LastEntry(mostUsed, i) && mostUsed[i].address in stored
    ensures var after := Updated(stored, mostUsed, ToUpdate(mostUsed, indexed));
            after.Keys == stored.Keys && after[mostUsed[i].address] == Some(mostUsed[i].transfers24H)
  {
    var a := mostUsed[i].address;
    DistinctFacts(AddressesOf(mostUsed) + indexed);
    assert AddressesOf(mostUsed)[i] == a;
    LastEntryCounts(mostUsed, i);
  }

  /** After a run an account that only the query named has 0, and any other has what it had. */
  lemma UnlistedAfterRun(stored: map<Address, Option<nat>>, mostUsed: seq<MostUsed>, indexed: seq<Address>, a: Address)
    requires a in stored && forall i :: 0 <= i < |mostUsed| ==> mostUsed[i].address != a
    ensures var after := Updated(stored, mostUsed, ToUpdate(mostUsed, indexed));
            a in after && after[a] == if a in indexed then Some(0) else stored[a]
  {
    DistinctFacts(AddressesOf(mostUsed) + indexed);
    assert a !in AddressesOf(mostUsed);
    UnlistedCountsZero(mostUsed, a);
  }

  /** One run makes every stored count the source's exactly when the query of indexed addresses was complete. */
  lemma ReconciledIffComplete(stored: map<Address, Option<nat>>, mostUsed: seq<MostUsed>, indexed: seq<Address>)
    ensures Agrees(Updated(stored, mostUsed, ToUpdate(mostUsed, indexed)), mostUsed) <==>
              Complete(stored, mostUsed, indexed)
  {
    DistinctFacts(AddressesOf(mostUsed) + indexed);
    var after := Updated(stored, mostUsed, ToUpdate(mostUsed, indexed));
    forall a | a in stored && a !in indexed && a !in AddressesOf(mostUsed)
      ensures a in after && after[a] == stored[a] && SourceCount(mostUsed, a) == 0
    {
      UnlistedCountsZero(mostUsed, a);
    }
  }

  lemma {:induction false} NothingToWrite(
      stored: map<Address, Option<nat>>, mostUsed: seq<MostUsed>, listed: seq<Address>)
    requires forall a :: a in listed ==> !Differs(stored, mostUsed, a)
    ensures Written(stored, mostUsed, listed) == []
  {
    if listed != [] {
      var n := |listed| - 1;
      assert listed == listed[..n] + [listed[n]];
      NothingToWrite(stored, mostUsed, listed[..n]);
    }
  }

  /** A second run against the same source writes nothing, if its query names only accounts with a stored count. */
  lemma SecondRunWritesNothing(
      stored: map<Address, Option<nat>>, mostUsed: seq<MostUsed>, indexed: seq<Address>, indexedAgain: seq<Address>)
    requires Complete(stored, mostUsed, indexed)
    requires var after := Updated(stored, mostUsed, ToUpdate(mostUsed, indexed));
             forall a :: a in indexedAgain && a in after ==> after[a].Some?
    ensures var after := Updated(stored, mostUsed, ToUpdate(mostUsed, indexed));
            Written(after, mostUsed, ToUpdate(mostUsed, indexedAgain)) == [] &&
            Updated(after, mostUsed, ToUpdate(mostUsed, indexedAgain)) == after
  {
    var after := Updated(stored, mostUsed, ToUpdate(mostUsed, indexed));
    var again := ToUpdate(mostUsed, indexedAgain);
    DistinctFacts(AddressesOf(mostUsed) + indexed);
    DistinctFacts(AddressesOf(mostUsed) + indexedAgain);
    forall a | a in again ensures !Differs(after, mostUsed, a) {
      if a in after && a !in AddressesOf(mostUsed) + indexed { UnlistedCountsZero(mostUsed, a); }
    }
    assert forall a :: a in after && a in again ==> after[a] == Some(SourceCount(mostUsed, a));
    assert Updated(after, mostUsed, again) == after;
    NothingToWrite(after, mostUsed, again);
  }

  // ----- the code -----------------------------------------------------------------------------

  class Updater {
    var stored: map<Address, Option<nat>>
    var writes: seq<Address>

    constructor (initial: map<Address, Option<nat>>)
      ensures stored == initial && writes == []
    {
      stored, writes := initial, [];
    }

    method SetTransfers(address: Address, count: nat)
      requires address in stored
      modifies this
      ensures stored == old(stored)[address := Some(count)] && writes == old(writes) + [address]
    {
      stored := stored[address := Some(count)];
      writes := writes + [address];
    }

    /** One address of a batch, compared with the account read before the batch. */
    method UpdateAddress(address: Address, accounts: map<Address, Option<nat>>, mostUsed: seq<MostUsed>,
                         ghost initial: map<Address, Option<nat>>, ghost listed: seq<Address>)
      requires stored == Updated(initial, mostUsed, listed)
      requires address in accounts <==> address in initial
      requires address in initial ==> accounts[address] == initial[address]
      modifies this
      ensures stored == Updated(initial, mostUsed, listed + [address])
      ensures writes == old(writes) + if Differs(initial, mostUsed, address) then [address] else []
    {
      OneMoreListed(initial, mostUsed, listed, address);
      var newTransfers := SourceCount(mostUsed, address);
      if address in accounts && accounts[address] != Some(newTransfers) {
        SetTransfers(address, newTransfers);
      } else {
        assert writes + [] == writes;
      }
    }

    /** One batch: the accounts are read once, then compared and written one by one. */
    method UpdateBatch(batch: seq<Address>, mostUsed: seq<MostUsed>)
      requires NoRepetition(batch)
      modifies this
      ensures stored == Updated(old(stored), mostUsed, batch)
      ensures writes == old(writes) + Written(old(stored), mostUsed, batch)
    {
      var accounts := map a | a in stored && a in batch :: stored[a];
      NothingListed(stored, mostUsed);
      for i := 0 to |batch|
        invariant stored == Updated(old(stored), mostUsed, batch[..i])
        invariant writes == old(writes) + Written(old(stored), mostUsed, batch[..i])
      {
        assert batch[i] in batch;
        WrittenSnoc(old(stored), mostUsed, batch[..i], batch[i]);
        assert batch[..i + 1] == batch[..i] + [batch[i]];
        UpdateAddress(batch[i], accounts, mostUsed, old(stored), batch[..i]);
      }
      assert batch[..|batch|] == batch;
    }

    method HandleUpdateAccountTransfersLast24h(mostUsed: seq<MostUsed>, indexed: seq<Address>)
      modifies this
      ensures stored == Updated(old(stored), mostUsed, ToUpdate(mostUsed, indexed))
      ensures writes == old(writes) + Written(old(stored), mostUsed, ToUpdate(mostUsed, indexed))
    {
      var all := ToUpdate(mostUsed, indexed);
      DistinctFacts(AddressesOf(mostUsed) + indexed);
      NothingListed(stored, mostUsed);
      var start := 0;
      while start < |all|
        invariant 0 <= start <= |all|
        invariant stored == Updated(old(stored), mostUsed, all[..start])
        invariant writes == old(writes) + Written(old(stored), mostUsed, all[..start])
      {
        var end := if start + BATCH_SIZE < |all| then start + BATCH_SIZE else |all|;
        var batch := all[start..end];
        NextBatch(all, start, end);
        UpdatedTwice(old(stored), mostUsed, all[..start], batch);
        BatchAfter(old(stored), mostUsed, all[..start], batch);
        UpdateBatch(batch, mostUsed);
        start := end;
      }
      assert all[..|all|] == all;
    }
  }

  lemma NextBatch(all: seq<Address>, start: nat, end: nat)
    requires NoRepetition(all) && start <= end <= |all|
    ensures all[..end] == all[..start] + all[start..end] && NoRepetition(all[..end]) && NoRepetition(all[start..end])
  {
  }

  lemma NothingListed(stored: map<Address, Option<nat>>, mostUsed: seq<MostUsed>)
    ensures Updated(stored, mostUsed, []) == stored
  {
  }

  lemma OneMoreListed(
      stored: map<Address, Option<nat>>, mostUsed: seq<MostUsed>, listed: seq<Address>, address: Address)
    ensures Updated(stored, mostUsed, listed + [address]) ==
            if Differs(stored, mostUsed, address) then Updated(stored, mostUsed,
                listed)[address := Some(SourceCount(mostUsed, address))]
            else Updated(stored, mostUsed, listed)
  {
  }

  lemma UpdatedTwice(
      stored: map<Address, Option<nat>>, mostUsed: seq<MostUsed>, listed: seq<Address>, batch: seq<Address>)
    ensures Updated(Updated(stored, mostUsed, listed), mostUsed, batch) == Updated(stored, mostUsed, listed + batch)
  {
  }

  /** Updating a further batch of other addresses. */
  lemma {:induction false} BatchAfter(
      stored: map<Address, Option<nat>>, mostUsed: seq<MostUsed>, listed: seq<Address>, batch: seq<Address>)
    requires NoRepetition(listed + batch)
    ensures Written(stored, mostUsed, listed + batch) ==
              Written(stored, mostUsed, listed) + Written(Updated(stored, mostUsed, listed), mostUsed, batch)
    decreases |batch|
  {
    if batch == [] {
      assert listed + batch == listed;
    } else {
      var n := |batch| - 1;
      var front, last := batch[..n], batch[n];
      var before := Updated(stored, mostUsed, listed);
      assert batch == front + [last] && listed + batch == (listed + front) + [last];
      LastIsNew(listed + front, last);
      assert last !in listed by { assert last !in listed + front; }
      BatchAfter(stored, mostUsed, listed, front);
      WrittenSnoc(stored, mostUsed, listed + front, last);
      WrittenSnoc(before, mostUsed, front, last);
      assert Differs(before, mostUsed, last) == Differs(stored, mostUsed, last);
    }
  }

  lemma WrittenSnoc(stored: map<Address, Option<nat>>, mostUsed: seq<MostUsed>, listed: seq<Address>, address: Address)
    ensures Written(stored, mostUsed, listed + [address]) == Written(stored, mostUsed, listed) +
            if Differs(stored, mostUsed, address) then [address] else []
  {
    assert (listed + [address])[..|listed|] == listed;
  }

  lemma LastIsNew(s: seq<Address>, a: Address)
    requires NoRepetition(s + [a])
    ensures NoRepetition(s) && a !in s
  {
    var all := s + [a];
    assert all[|s|] == a && forall i :: 0 <= i < |s| ==> all[i] == s[i];
  }
}
