/**
 The batch, group and item state machine behind `BatchTransactionProcessorService` and
 `TransactionsBatchService`: the cached values, what one submission, one report, one drop and
 one expiry do to them, and the in-place code that does it.

 A batch is cached by the address of its first transaction and its id. A transaction that was
 sent and not yet settled has a pending entry, keyed by its hash, that names the batch.
 */
module TransactionBatches {

  type Address = string

  /** A hash identifies a transaction and with it the sender who signed, written beside the digest here. */
  datatype Hash = Hash(sender: Address, digest: string)

  /** `ItemOther` is any other status the chain reports, for instance "fail". */
  datatype ItemStatus = ItemPending | ItemInvalid | ItemDropped | ItemSuccess | ItemOther(code: string)
  datatype BatchStatus = BatchPending | BatchInvalid | BatchDropped | BatchSuccess

  datatype Item = Item(hash: Hash, status: ItemStatus)
  type Group = seq<Item>
  datatype Batch = Batch(id: string, groups: seq<Group>, status: BatchStatus)

  datatype BatchKey = BatchKey(address: Address, id: string)
  datatype PendingEntry = PendingEntry(id: string, address: Address, date: int)

  /** A transaction handed to the gateway, and the batch it was handed over for. */
  datatype Sending = Sending(key: BatchKey, hash: Hash)

  /** The two cache families and what was sent so far, oldest first. */
  datatype World = World(batches: map<BatchKey, Batch>, pending: map<Hash, PendingEntry>, sent: seq<Sending>)

  const TEN_MINUTES_MS := 10 * 60 * 1000

  predicate At(b: Batch, g: int, i: int) {
    0 <= g < |b.groups| && 0 <= i < |b.groups[g]|
  }

  predicate HasAddress(b: Batch) {
    At(b, 0, 0)
  }

  function AddressOf(b: Batch): Address
    requires HasAddress(b)
  {
    b.groups[0][0].hash.sender
  }

  function KeyOf(b: Batch): BatchKey
    requires HasAddress(b)
  {
    BatchKey(AddressOf(b), b.id)
  }

  function EntryKey(e: PendingEntry): BatchKey {
    BatchKey(e.address, e.id)
  }

  predicate AllSuccess(g: Group) {
    forall i :: 0 <= i < |g| ==> g[i].status == ItemSuccess
  }

  predicate AnyInvalid(g: Group) {
    exists i :: 0 <= i < |g| && g[i].status == ItemInvalid
  }

  function Sendings(k: BatchKey, g: Group): (s: seq<Sending>)
    ensures |s| == |g| && forall i :: 0 <= i < |g| ==> s[i] == Sending(k, g[i].hash)
  {
    seq(|g|, i requires 0 <= i < |g| => Sending(k, g[i].hash))
  }

  function SetStatus(b: Batch, g: nat, i: nat, status: ItemStatus): (r: Batch)
    requires At(b, g, i)
    ensures SameShape(b, r) && r.status == b.status
  {
    b.(groups := b.groups[g := b.groups[g][i := b.groups[g][i].(status := status)]])
  }

  /** Same transactions in the same places; only statuses may differ. */
  ghost predicate SameShape(b: Batch, c: Batch) {
    && b.id == c.id
    && |b.groups| == |c.groups|
    && (forall g :: 0 <= g < |b.groups| ==> |b.groups[g]| == |c.groups[g]|)
    && forall g, i :: At(b, g, i) ==> b.groups[g][i].hash == c.groups[g][i].hash
  }

  // ----- sending one group --------------------------------------------------------------------

  /** The gateway refuses the transactions in `rejected`; sending stops at the first invalid one. */
  predicate Stops(item: Item, rejected: set<Hash>) {
    item.hash in rejected || item.status == ItemInvalid
  }

  function FirstStop(g: Group, rejected: set<Hash>): (n: nat)
    ensures n <= |g|
    ensures forall i :: 0 <= i < n ==> !Stops(g[i], rejected)
    ensures n < |g| ==> Stops(g[n], rejected)
  {
    if g == [] || Stops(g[0], rejected) then 0 else 1 + FirstStop(g[1..], rejected)
  }

  function SentPart(g: Group, rejected: set<Hash>): Group {
    var n := FirstStop(g, rejected);
    if n < |g| then g[..n + 1] else g
  }

  function ItemsAfterStart(g: Group, rejected: set<Hash>): (r: Group) {
    var n := FirstStop(g, rejected);
    if n < |g| then g[n := g[n].(status := ItemInvalid)] else g
  }

  function Registered(g: Group, rejected: set<Hash>): set<Hash> {
    set i | 0 <= i < FirstStop(g, rejected) && g[i].status == ItemPending :: g[i].hash
  }

  function Register(pending: map<Hash, PendingEntry>, hs: set<Hash>, e: PendingEntry): map<Hash, PendingEntry> {
    pending + map h | h in hs :: e
  }

  function StartGroup(w: World, b: Batch, g: nat, rejected: set<Hash>, now: int): (r: (World, Batch))
    requires HasAddress(b) && g < |b.groups|
    ensures SameShape(b, r.1)
  {
    var group := b.groups[g];
    var e := PendingEntry(b.id, AddressOf(b), now);
    (w.(pending := Register(w.pending, Registered(group, rejected), e),
        sent := w.sent + Sendings(KeyOf(b), SentPart(group, rejected))),
     b.(groups := b.groups[g := ItemsAfterStart(group, rejected)]))
  }

  // ----- one settled transaction --------------------------------------------------------------

  /** Starting the group after a finished one: any refusal makes the whole batch invalid. */
  function StartNext(w: World, b: Batch, g: nat, rejected: set<Hash>, now: int): (r: (World, Batch))
    requires HasAddress(b) && g < |b.groups|
    ensures SameShape(b, r.1)
  {
    var (w1, b1) := StartGroup(w, b, g, rejected, now);
    (w1, if AnyInvalid(b1.groups[g]) then b1.(status := BatchInvalid) else b1)
  }

  /** What setting the status of item (g, i) leads to, before the batch is stored. */
  function Settle(
      w: World, b: Batch, g: nat, i: nat, status: ItemStatus, rejected: set<Hash>, now: int): (r: (World, Batch))
    requires HasAddress(b) && At(b, g, i)
    ensures SameShape(b, r.1)
  {
    var b1 := SetStatus(b, g, i, status);
    if b.status != BatchPending then (w, b1)
    else if status == ItemInvalid then (w, b1.(status := BatchInvalid))
    else if status != ItemSuccess || !AllSuccess(b1.groups[g]) then (w, b1)
    else if g + 1 >= |b.groups| then (w, b1.(status := BatchSuccess))
    else StartNext(w, b1, g + 1, rejected, now)
  }

  function Store(w: World, k: BatchKey, b: Batch): World {
    w.(batches := w.batches[k := b])
  }

  function Touch(
      w: World, k: BatchKey, b: Batch, g: nat, i: nat, status: ItemStatus, rejected: set<Hash>,
        now: int): (r: (World, Batch))
    requires HasAddress(b) && At(b, g, i)
    ensures SameShape(b, r.1)
  {
    var (w1, b1) := Settle(w, b, g, i, status, rejected, now);
    (Store(w1, k, b1), b1)
  }

  /** The scan over groups and items, from position (g, i) on, that touches every item with hash `h`. */
  function ProcessFrom(
      w: World, k: BatchKey, b: Batch, g: nat, i: nat, h: Hash, status: ItemStatus, rejected: set<Hash>,
        now: int): World
    requires HasAddress(b) && g <= |b.groups| && (g < |b.groups| ==> i <= |b.groups[g]|)
    decreases |b.groups| - g, if g < |b.groups| then |b.groups[g]| - i else 0
  {
    if g == |b.groups| then w
    else if i == |b.groups[g]| then ProcessFrom(w, k, b, g + 1, 0, h, status, rejected, now)
    else if b.groups[g][i].hash == h then
      var (w1, b1) := Touch(w, k, b, g, i, status, rejected, now);
      ProcessFrom(w1, k, b1, g, i + 1, h, status, rejected, now)
    else ProcessFrom(w, k, b, g, i + 1, h, status, rejected, now)
  }

  ghost predicate WellFormed(w: World) {
    forall k :: k in w.batches ==> HasAddress(w.batches[k])
  }

  function Process(w: World, k: BatchKey, h: Hash, status: ItemStatus, rejected: set<Hash>, now: int): World
    requires WellFormed(w)
  {
    var w1 := if k in w.batches then ProcessFrom(w, k, w.batches[k], 0, 0, h, status, rejected, now) else w;
    w1.(pending := w1.pending - {h})
  }

  /** A transaction seen in a block: acted on only while its pending entry exists. */
  function Report(w: World, h: Hash, status: ItemStatus, rejected: set<Hash>, now: int): World
    requires WellFormed(w)
  {
    if h in w.pending then Process(w, BatchKey(h.sender, w.pending[h].id), h, status, rejected, now) else w
  }

  // ----- the transactions of one block --------------------------------------------------------

  datatype ShardTransaction = ShardTransaction(hash: Hash, status: ItemStatus)

  /** The transactions by hash; of several with the same hash the last counts. */
  function ByHash(txs: seq<ShardTransaction>): map<Hash, ShardTransaction> {
    if txs == [] then map[] else ByHash(txs[..|txs| - 1])[txs[|txs| - 1].hash := txs[|txs| - 1]]
  }

  /** The hashes with a pending entry, each once, in order of first appearance. */
  function PendingHashes(txs: seq<ShardTransaction>, pending: map<Hash, PendingEntry>): seq<Hash> {
    if txs == [] then []
    else
      var front, h := PendingHashes(txs[..|txs| - 1], pending), txs[|txs| - 1].hash;
      if h in pending && h !in front then front + [h] else front
  }

  lemma {:induction false} HashFacts(txs: seq<ShardTransaction>, pending: map<Hash, PendingEntry>)
    ensures forall h :: h in PendingHashes(txs, pending) ==> h in pending && h in ByHash(txs)
    ensures forall i, j :: 0 <= i < j < |PendingHashes(txs, pending)| ==>
              PendingHashes(txs, pending)[i] != PendingHashes(txs, pending)[j]
  {
    if txs != [] {
      HashFacts(txs[..|txs| - 1], pending);
    }
  }

  lemma {:induction false} ProcessFromWellFormed(
      w: World, k: BatchKey, b: Batch, g: nat, i: nat, h: Hash, status: ItemStatus, rejected: set<Hash>, now: int)
    requires HasAddress(b) && g <= |b.groups| && (g < |b.groups| ==> i <= |b.groups[g]|) && WellFormed(w)
    ensures WellFormed(ProcessFrom(w, k, b, g, i, h, status, rejected, now))
    decreases |b.groups| - g, if g < |b.groups| then |b.groups[g]| - i else 0
  {
    if g == |b.groups| {
    } else if i == |b.groups[g]| {
      ProcessFromWellFormed(w, k, b, g + 1, 0, h, status, rejected, now);
    } else if b.groups[g][i].hash == h {
      var (w1, b1) := Touch(w, k, b, g, i, status, rejected, now);
      assert w1.batches == w.batches[k := b1];
      ProcessFromWellFormed(w1, k, b1, g, i + 1, h, status, rejected, now);
    } else {
      ProcessFromWellFormed(w, k, b, g, i + 1, h, status, rejected, now);
    }
  }

  lemma ProcessWellFormed(w: World, k: BatchKey, h: Hash, status: ItemStatus, rejected: set<Hash>, now: int)
    requires WellFormed(w)
    ensures WellFormed(Process(w, k, h, status, rejected, now))
  {
    if k in w.batches {
      ProcessFromWellFormed(w, k, w.batches[k], 0, 0, h, status, rejected, now);
    }
  }

  /** The given hashes one after the other, with the pending entries as they were read at the start. */
  function ProcessAll(
      w: World, read: map<Hash, PendingEntry>, hashes: seq<Hash>, txs: map<Hash, ShardTransaction>,
      rejected: set<Hash>, now: int): (r: World)
    requires WellFormed(w) && forall h :: h in hashes ==> h in read && h in txs
    ensures WellFormed(r)
    decreases |hashes|
  {
    if hashes == [] then w
    else
      var n := |hashes| - 1;
      var h := hashes[n];
      var before := ProcessAll(w, read, hashes[..n], txs, rejected, now);
      ProcessWellFormed(before, BatchKey(h.sender, read[h].id), h, txs[h].status, rejected, now);
      Process(before, BatchKey(h.sender, read[h].id), h, txs[h].status, rejected, now)
  }

  function Handle(w: World, txs: seq<ShardTransaction>, rejected: set<Hash>, now: int): World
    requires WellFormed(w)
  {
    HashFacts(txs, w.pending);
    ProcessAll(w, w.pending, PendingHashes(txs, w.pending), ByHash(txs), rejected, now)
  }

  // ----- dropping -----------------------------------------------------------------------------

  function DropFrom(w: World, k: BatchKey, b: Batch, g: nat, i: nat, h: Hash): World
    requires g <= |b.groups| && (g < |b.groups| ==> i <= |b.groups[g]|)
    decreases |b.groups| - g, if g < |b.groups| then |b.groups[g]| - i else 0
  {
    if g == |b.groups| then w
    else if i == |b.groups[g]| then DropFrom(w, k, b, g + 1, 0, h)
    else if b.groups[g][i].hash == h && b.groups[g][i].status == ItemPending then
      var b1 := SetStatus(b, g, i, ItemDropped).(status := BatchDropped);
      DropFrom(Store(w, k, b1).(pending := w.pending - {h}), k, b1, g, i + 1, h)
    else DropFrom(w, k, b, g, i + 1, h)
  }

  predicate Stale(e: PendingEntry, now: int) {
    now - e.date > TEN_MINUTES_MS
  }

  /** One round of the timer for one hash; `found` says that the chain still knows the transaction. */
  function Drop(w: World, h: Hash, found: bool, now: int): World {
    if h in w.pending && Stale(w.pending[h], now) && !found && EntryKey(w.pending[h]) in w.batches then
      DropFrom(w, EntryKey(w.pending[h]), w.batches[EntryKey(w.pending[h])], 0, 0, h)
    else w
  }

  // ----- submitting a batch -------------------------------------------------------------------

  function Reset(b: Batch): (r: Batch)
    ensures SameShape(b, r) && r.status == BatchPending
    ensures forall g, i :: At(r, g, i) ==> r.groups[g][i].status == ItemPending
  {
    b.(status := BatchPending,
       groups := seq(|b.groups|, g requires 0 <= g < |b.groups| =>
         seq(|b.groups[g]|, i requires 0 <= i < |b.groups[g]| => b.groups[g][i].(status := ItemPending))))
  }

  /** What the client gets: the batch as it was started, or an error. */
  datatype Answer = Started(batch: Batch) | NoAddress | Duplicate | ForeignSender

  /** The service: a refused first group makes the batch invalid, and then it is not cached. */
  function StartBatch(w: World, b: Batch, rejected: set<Hash>, now: int): (World, Answer) {
    if b.groups == [] then (w, Started(b))
    else if !HasAddress(b) then (w, NoAddress)
    else
      var (w1, b1) := StartGroup(w, Reset(b), 0, rejected, now);
      if AnyInvalid(b1.groups[0]) then (w1, Started(b1.(status := BatchInvalid)))
      else (Store(w1, KeyOf(b1), b1), Started(b1))
  }

  predicate OneSender(b: Batch)
    requires HasAddress(b)
  {
    forall g | 0 <= g < |b.groups| ::
      forall i | 0 <= i < |b.groups[g]| :: b.groups[g][i].hash.sender == AddressOf(b)
  }

  /** The controller: an id still cached and a second sender are turned away. */
  function Submit(w: World, b: Batch, rejected: set<Hash>, now: int): (World, Answer) {
    if !HasAddress(b) then (w, NoAddress)
    else if KeyOf(b) in w.batches then (w, Duplicate)
    else if !OneSender(b) then (w, ForeignSender)
    else StartBatch(w, b, rejected, now)
  }

  // ----- the code -----------------------------------------------------------------------------

  class BatchTransactionProcessor {
    var batches: map<BatchKey, Batch>
    var pending: map<Hash, PendingEntry>
    var sent: seq<Sending>

    function State(): World
      reads this
    {
      World(batches, pending, sent)
    }

    constructor ()
      ensures State() == World(map[], map[], [])
    {
      batches, pending, sent := map[], map[], [];
    }

    /** Sends the items of one group until one is refused, then registers the accepted ones. */
    method StartTransactionGroup(batch: Batch, g: nat, rejected: set<Hash>, now: int) returns (updated: Batch)
      requires HasAddress(batch) && g < |batch.groups|
      modifies this
      ensures (State(), updated) == StartGroup(old(State()), batch, g, rejected, now)
    {
      updated := batch;
      var group := batch.groups[g];
      ghost var n := FirstStop(group, rejected);
      var txHashes: set<Hash> := {};
      var i := 0;
      var stopped := false;
      while i < |group| && !stopped
        invariant 0 <= i <= |group|
        invariant !stopped ==> i <= n && updated == batch && sent == old(sent) + Sendings(KeyOf(batch), group[..i])
        invariant stopped ==> i == n + 1 && sent == old(sent) + Sendings(KeyOf(batch), group[..i])
        invariant stopped ==> updated == batch.(groups := batch.groups[g := ItemsAfterStart(group, rejected)])
        invariant txHashes == set j | 0 <= j < (if i <= n then i else n) && group[j].status == ItemPending ::
                    group[j].hash
        invariant batches == old(batches) && pending == old(pending)
      {
        var item := updated.groups[g][i];
        assert Sendings(KeyOf(batch), group[..i + 1]) ==
                 Sendings(KeyOf(batch), group[..i]) + [Sending(KeyOf(batch), item.hash)];
        sent := sent + [Sending(KeyOf(batch), item.hash)];
        if item.hash in rejected {
          updated := SetStatus(updated, g, i, ItemInvalid);
        }
        if updated.groups[g][i].status == ItemInvalid {
          ghost var refused := group[i := group[i].(status := ItemInvalid)];
          assert item.hash !in rejected ==> refused == group;
          assert updated.groups == batch.groups[g := refused];
          stopped := true;
        } else if updated.groups[g][i].status == ItemPending {
          txHashes := txHashes + {item.hash};
        }
        i := i + 1;
      }
      assert group[..|group|] == group;
      assert !stopped ==> updated.groups == batch.groups[g := group];
      pending := Register(pending, txHashes, PendingEntry(batch.id, AddressOf(batch), now));
    }

    /** Sets the status of one item, moves the batch on, and stores it. */
    method SettleItem(
        k: BatchKey, b: Batch, g: nat, i: nat, status: ItemStatus, rejected: set<Hash>, now: int) returns (batch: Batch)
      requires HasAddress(b) && At(b, g, i)
      modifies this
      ensures (State(), batch) == Touch(old(State()), k, b, g, i, status, rejected, now)
    {
      batch := SetStatus(b, g, i, status);
      if b.status == BatchPending {
        if status == ItemInvalid {
          batch := batch.(status := BatchInvalid);
        } else if status == ItemSuccess {
          if AllSuccess(batch.groups[g]) {
            if g + 1 >= |batch.groups| {
              batch := batch.(status := BatchSuccess);
            } else {
              batch := StartTransactionGroup(batch, g + 1, rejected, now);
              if AnyInvalid(batch.groups[g + 1]) {
                batch := batch.(status := BatchInvalid);
              }
            }
          }
        }
      }
      batches := batches[k := batch];
    }

    method ProcessTransaction(h: Hash, k: BatchKey, status: ItemStatus, rejected: set<Hash>, now: int)
      requires WellFormed(State())
      modifies this
      ensures State() == Process(old(State()), k, h, status, rejected, now)
    {
      if k !in batches {
        pending := pending - {h};
        return;
      }
      var batch := batches[k];
      ghost var target := ProcessFrom(State(), k, batch, 0, 0, h, status, rejected, now);
      var g := 0;
      while g < |batch.groups|
        invariant HasAddress(batch) && 0 <= g <= |batch.groups| == |old(batches)[k].groups|
        invariant ProcessFrom(State(), k, batch, g, 0, h, status, rejected, now) == target
      {
        var i := 0;
        while i < |batch.groups[g]|
          invariant HasAddress(batch) && 0 <= g < |batch.groups| && 0 <= i <= |batch.groups[g]|
          invariant |batch.groups| == |old(batches)[k].groups|
          invariant ProcessFrom(State(), k, batch, g, i, h, status, rejected, now) == target
        {
          if batch.groups[g][i].hash == h {
            batch := SettleItem(k, batch, g, i, status, rejected, now);
          }
          i := i + 1;
        }
        g := g + 1;
      }
      pending := pending - {h};
    }

    /** The transactions of one block: the pending entries are read once, then each is processed. */
    method HandleTransactionBatches(transactions: seq<ShardTransaction>, rejected: set<Hash>, now: int)
      requires WellFormed(State())
      modifies this
      ensures State() == Handle(old(State()), transactions, rejected, now)
    {
      var indexed: map<Hash, ShardTransaction>, hashes: seq<Hash> := map[], [];
      for i := 0 to |transactions|
        invariant indexed == ByHash(transactions[..i]) && hashes == PendingHashes(transactions[..i], pending)
      {
        assert transactions[..i + 1][..i] == transactions[..i];
        var h := transactions[i].hash;
        indexed := indexed[h := transactions[i]];
        if h in pending && h !in hashes {
          hashes := hashes + [h];
        }
      }
      assert transactions[..|transactions|] == transactions;
      HashFacts(transactions, pending);
      ProcessPending(pending, hashes, indexed, rejected, now);
    }

    method ProcessPending(
        read: map<Hash, PendingEntry>, hashes: seq<Hash>, indexed: map<Hash, ShardTransaction>, rejected: set<Hash>,
        now: int)
      requires WellFormed(State()) && forall h :: h in hashes ==> h in read && h in indexed
      modifies this
      ensures State() == ProcessAll(old(State()), read, hashes, indexed, rejected, now)
    {
      for i := 0 to |hashes|
        invariant State() == ProcessAll(old(State()), read, hashes[..i], indexed, rejected, now)
      {
        var h := hashes[i];
        assert hashes[..i + 1][..i] == hashes[..i];
        ProcessTransaction(h, BatchKey(h.sender, read[h].id), indexed[h].status, rejected, now);
      }
      assert hashes[..|hashes|] == hashes;
    }

    /** One stale hash of the dropping timer. */
    method HandleDroppedTransaction(h: Hash, found: bool, now: int)
      modifies this
      ensures State() == Drop(old(State()), h, found, now)
    {
      if h !in pending || now - pending[h].date <= TEN_MINUTES_MS || found {
        return;
      }
      var k := EntryKey(pending[h]);
      if k !in batches {
        return;
      }
      var batch := batches[k];
      ghost var target := DropFrom(State(), k, batch, 0, 0, h);
      var g := 0;
      while g < |batch.groups|
        invariant 0 <= g <= |batch.groups| == |old(batches)[k].groups|
        invariant DropFrom(State(), k, batch, g, 0, h) == target
      {
        var i := 0;
        while i < |batch.groups[g]|
          invariant 0 <= g < |batch.groups| && 0 <= i <= |batch.groups[g]|
          invariant |batch.groups| == |old(batches)[k].groups|
          invariant DropFrom(State(), k, batch, g, i, h) == target
        {
          if batch.groups[g][i].hash == h && batch.groups[g][i].status == ItemPending {
            batch := SetStatus(batch, g, i, ItemDropped).(status := BatchDropped);
            batches := batches[k := batch];
            pending := pending - {h};
          }
          i := i + 1;
        }
        g := g + 1;
      }
    }

    method StartTransactionBatch(b: Batch, rejected: set<Hash>, now: int) returns (answer: Answer)
      modifies this
      ensures (State(), answer) == StartBatch(old(State()), b, rejected, now)
    {
      if |b.groups| == 0 {
        return Started(b);
      }
      if |b.groups[0]| == 0 {
        return NoAddress;
      }
      var batch := StartTransactionGroup(Reset(b), 0, rejected, now);
      if AnyInvalid(batch.groups[0]) {
        return Started(batch.(status := BatchInvalid));
      }
      batches := batches[KeyOf(batch) := batch];
      return Started(batch);
    }

    /** The request of a client, with the checks of the controller. */
    method PostBatch(b: Batch, rejected: set<Hash>, now: int) returns (answer: Answer)
      modifies this
      ensures (State(), answer) == Submit(old(State()), b, rejected, now)
    {
      if |b.groups| == 0 || |b.groups[0]| == 0 {
        return NoAddress;
      }
      if KeyOf(b) in batches {
        return Duplicate;
      }
      var g := 0;
      while g < |b.groups|
        invariant 0 <= g <= |b.groups|
        invariant forall j, i :: At(b, j, i) && j < g ==> b.groups[j][i].hash.sender == AddressOf(b)
      {
        var i := 0;
        while i < |b.groups[g]|
          invariant 0 <= i <= |b.groups[g]|
          invariant forall l :: 0 <= l < i ==> b.groups[g][l].hash.sender == AddressOf(b)
        {
          if b.groups[g][i].hash.sender != AddressOf(b) {
            assert At(b, g, i);
            return ForeignSender;
          }
          i := i + 1;
        }
        g := g + 1;
      }
      answer := StartTransactionBatch(b, rejected, now);
    }
  }
}
