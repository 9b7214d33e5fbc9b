/** What one report, one drop and one submission lead to, told from the batch before. */
module BatchOutcomes {
  import opened TransactionBatches
  import opened BatchSteps

  /** With this report every item of the group has succeeded. */
  ghost predicate Completes(b: Batch, g: nat, i: nat, status: ItemStatus)
    requires At(b, g, i)
  {
    status == ItemSuccess && forall j :: 0 <= j < |b.groups[g]| && j != i ==> b.groups[g][j].status == ItemSuccess
  }

  /** The gateway refuses a transaction of the group. */
  ghost predicate Refuses(g: Group, rejected: set<Hash>) {
    exists j :: 0 <= j < |g| && g[j].hash in rejected
  }

  /** `n` transactions of the group are accepted; the next one, if there is one, is refused. */
  ghost predicate AcceptedUpTo(g: Group, rejected: set<Hash>, n: nat) {
    n <= |g| && (forall j :: 0 <= j < n ==> g[j].hash !in rejected) && (n < |g| ==> g[n].hash in rejected)
  }

  lemma AllSuccessMeansCompletes(b: Batch, g: nat, i: nat, status: ItemStatus)
    requires At(b, g, i)
    ensures status == ItemSuccess && AllSuccess(SetStatus(b, g, i, status).groups[g]) <==> Completes(b, g, i, status)
  {
    var c := SetStatus(b, g, i, status);
    assert c.groups[g][i].status == status;
    assert forall j :: 0 <= j < |b.groups[g]| && j != i ==> c.groups[g][j] == b.groups[g][j];
  }

  lemma UnrefusedStops(b: Batch, g: nat, rejected: set<Hash>)
    requires Unrefused(b) && g < |b.groups|
    ensures AcceptedUpTo(b.groups[g], rejected, FirstStop(b.groups[g], rejected))
    ensures Refuses(b.groups[g], rejected) <==> FirstStop(b.groups[g], rejected) < |b.groups[g]|
  {
    assert forall j :: 0 <= j < |b.groups[g]| ==> At(b, g, j);
  }

  // ----- a report -----------------------------------------------------------------------------

  /**
   What a report makes of a pending batch: invalid exactly if the transaction is invalid, or completes
   its group and one of the next group is refused; successful exactly if it completes the last group.
   */
  lemma ReportOutcome(w: World, k: BatchKey, g: nat, i: nat, status: ItemStatus, rejected: set<Hash>, now: int)
    requires Inv(w) && WellFormed(w) && CanSettle(w, k, g, i) && w.batches[k].status == BatchPending
    ensures var b := w.batches[k];
            var w' := Report(w, b.groups[g][i].hash, status, rejected, now);
            && k in w'.batches && SameShape(b, w'.batches[k])
            && w'.batches[k].groups[g] == b.groups[g][i := b.groups[g][i].(status := status)]
            && (w'.batches[k].status == BatchInvalid <==>
                  status == ItemInvalid
                  || (Completes(b, g, i, status) && g + 1 < |b.groups| && Refuses(b.groups[g + 1], rejected)))
            && (w'.batches[k].status == BatchSuccess <==> Completes(b, g, i, status) && g + 1 == |b.groups|)
            && w'.batches[k].status in {BatchPending, BatchInvalid, BatchSuccess}
            && (forall k' :: k' != k ==>
                  (k' in w'.batches <==> k' in w.batches) && (k' in w.batches ==> w'.batches[k'] == w.batches[k']))
            && b.groups[g][i].hash !in w'.pending
  {
    var b := w.batches[k];
    assert BatchOk(w, k, b);
    ReportOne(w, k, g, i, status, rejected, now);
    AllSuccessMeansCompletes(b, g, i, status);
    if Completes(b, g, i, status) && g + 1 < |b.groups| {
      NextIsRefused(w, k, g, i, rejected, now);
    }
  }

  lemma NextIsRefused(w: World, k: BatchKey, g: nat, i: nat, rejected: set<Hash>, now: int)
    requires k in w.batches && HasAddress(w.batches[k]) && At(w.batches[k], g, i) && Unrefused(w.batches[k])
    requires w.batches[k].status == BatchPending && g + 1 < |w.batches[k].groups|
    requires AllSuccess(SetStatus(w.batches[k], g, i, ItemSuccess).groups[g])
    ensures var b := w.batches[k];
            var c := Touch(w, k, b, g, i, ItemSuccess, rejected, now).1;
            && c.groups[g + 1] == ItemsAfterStart(b.groups[g + 1], rejected)
            && c.status == if Refuses(b.groups[g + 1], rejected) then BatchInvalid else BatchPending
  {
    var b := w.batches[k];
    var next := b.groups[g + 1];
    UnrefusedStops(b, g + 1, rejected);
    StopIsInvalid(next, rejected);
    forall j | 0 <= j < |next| ensures next[j].status != ItemInvalid { assert At(b, g + 1, j); }
  }

  /** A report that does not complete a group with one behind it sends nothing and touches no other item or entry. */
  lemma ReportAlone(w: World, k: BatchKey, g: nat, i: nat, status: ItemStatus, rejected: set<Hash>, now: int)
    requires Inv(w) && WellFormed(w) && CanSettle(w, k, g, i)
    requires w.batches[k].status != BatchPending || !Completes(w.batches[k], g, i, status)
             || g + 1 == |w.batches[k].groups|
    ensures var b := w.batches[k];
            var w' := Report(w, b.groups[g][i].hash, status, rejected, now);
            && k in w'.batches
            && w'.batches[k].groups == b.groups[g := b.groups[g][i := b.groups[g][i].(status := status)]]
            && (b.status != BatchPending ==> w'.batches[k].status == b.status)
            && w'.batches == w.batches[k := w'.batches[k]]
            && w'.pending == w.pending - {b.groups[g][i].hash} && w'.sent == w.sent
  {
    assert BatchOk(w, k, w.batches[k]);
    ReportOne(w, k, g, i, status, rejected, now);
    AllSuccessMeansCompletes(w.batches[k], g, i, status);
  }

  /**
   A report that completes a group sends the next one up to and including the first refused
   transaction, which becomes invalid; the accepted ones are listed from now on, and no other entry
   or item changes.
   */
  lemma NextGroupOutcome(w: World, k: BatchKey, g: nat, i: nat, rejected: set<Hash>, now: int, n: nat)
    requires Inv(w) && WellFormed(w) && CanSettle(w, k, g, i) && w.batches[k].status == BatchPending
    requires Completes(w.batches[k], g, i, ItemSuccess) && g + 1 < |w.batches[k].groups|
    requires AcceptedUpTo(w.batches[k].groups[g + 1], rejected, n)
    ensures var b := w.batches[k];
            var h, next := b.groups[g][i].hash, b.groups[g + 1];
            var w' := Report(w, h, ItemSuccess, rejected, now);
            && w'.sent == w.sent + Sendings(k, if n < |next| then next[..n + 1] else next)
            && k in w'.batches && |w'.batches[k].groups| == |b.groups|
            && w'.batches[k].groups[g + 1] == (if n < |next| then next[n := next[n].(status := ItemInvalid)] else next)
            && (forall j :: 0 <= j < |b.groups| && j != g && j != g + 1 ==> w'.batches[k].groups[j] == b.groups[j])
            && (forall j :: 0 <= j < n && next[j].status == ItemPending ==>
                  next[j].hash in w'.pending && w'.pending[next[j].hash] == PendingEntry(k.id, k.address, now))
            && (forall x :: x != h && (forall j :: 0 <= j < n ==> next[j] != Item(x, ItemPending)) ==>
                  (x in w'.pending <==> x in w.pending) && (x in w.pending ==> w'.pending[x] == w.pending[x]))
  {
    var b := w.batches[k];
    var next := b.groups[g + 1];
    assert BatchOk(w, k, b);
    ReportOne(w, k, g, i, ItemSuccess, rejected, now);
    AllSuccessMeansCompletes(b, g, i, ItemSuccess);
    UnrefusedStops(b, g + 1, rejected);
    NextIsRefused(w, k, g, i, rejected, now);
    SameStop(next, rejected, n, FirstStop(next, rejected));
    NextEntries(w, k, g, i, rejected, now);
    EntriesOfStart(w.pending, next, rejected, PendingEntry(k.id, k.address, now));
  }

  /** The entries after a start. */
  lemma EntriesOfStart(pending: map<Hash, PendingEntry>, g: Group, rejected: set<Hash>, e: PendingEntry)
    ensures var r := Register(pending, Registered(g, rejected), e);
            var n := FirstStop(g, rejected);
            && (forall j :: 0 <= j < n && g[j].status == ItemPending ==>
                  g[j].hash in Registered(g, rejected) && g[j].hash in r && r[g[j].hash] == e)
            && forall x :: (forall j :: 0 <= j < n ==> g[j] != Item(x, ItemPending)) ==>
                 (x in r <==> x in pending) && (x in r ==> r[x] == pending[x])
  {
    var n := FirstStop(g, rejected);
    forall x | x in Registered(g, rejected) ensures exists j :: 0 <= j < n && g[j] == Item(x, ItemPending) {
      var j :| 0 <= j < n && g[j].status == ItemPending && g[j].hash == x;
      assert g[j] == Item(x, ItemPending);
    }
  }

  lemma SameStop(g: Group, rejected: set<Hash>, m: nat, n: nat)
    requires AcceptedUpTo(g, rejected, m) && AcceptedUpTo(g, rejected, n)
    ensures m == n
  {
  }

  lemma NextEntries(w: World, k: BatchKey, g: nat, i: nat, rejected: set<Hash>, now: int)
    requires Inv(w) && CanSettle(w, k, g, i) && HasAddress(w.batches[k]) && KeyOf(w.batches[k]) == k
    requires DistinctHashes(w.batches[k]) && w.batches[k].status == BatchPending && g + 1 < |w.batches[k].groups|
    requires AllSuccess(SetStatus(w.batches[k], g, i, ItemSuccess).groups[g])
    ensures var b := w.batches[k];
            var h, next := b.groups[g][i].hash, b.groups[g + 1];
            var w1 := Touch(w, k, b, g, i, ItemSuccess, rejected, now).0;
            && w1.pending == Register(w.pending, Registered(next, rejected), PendingEntry(k.id, k.address, now))
            && w1.sent == w.sent + Sendings(k, SentPart(next, rejected)) && h !in Registered(next, rejected)
            && forall j :: 0 <= j < |b.groups| && j != g && j != g + 1 ==>
                 Touch(w, k, b, g, i, ItemSuccess, rejected, now).1.groups[j] == b.groups[j]
  {
    var b := w.batches[k];
    var next := b.groups[g + 1];
    forall j | 0 <= j < |next| ensures next[j].hash != b.groups[g][i].hash { assert At(b, g + 1, j); }
  }

  // ----- a drop -------------------------------------------------------------------------------

  /** The item and its batch are dropped, the entry is gone, and all else is as before. */
  function AfterDrop(w: World, k: BatchKey, g: nat, i: nat): World
    requires k in w.batches && At(w.batches[k], g, i)
  {
    var b := w.batches[k];
    var item := b.groups[g][i];
    World(
      w.batches[k := Batch(b.id, b.groups[g := b.groups[g][i := Item(item.hash, ItemDropped)]], BatchDropped)],
      w.pending - {item.hash},
      w.sent)
  }

  /**
   The entry is more than ten minutes old, the chain does not know the transaction, and item (g, i) of
   the batch the entry names is that transaction and open.
   */
  ghost predicate TimedOut(w: World, h: Hash, found: bool, now: int, k: BatchKey, g: int, i: int) {
    && h in w.pending && now - w.pending[h].date > 600000 && !found
    && k == BatchKey(w.pending[h].address, w.pending[h].id) && k in w.batches
    && At(w.batches[k], g, i) && w.batches[k].groups[g][i] == Item(h, ItemPending)
  }

  /** The timer drops a transaction exactly if it timed out, and does nothing else. */
  lemma DropsExactly(w: World, h: Hash, found: bool, now: int)
    requires Inv(w)
    ensures Drop(w, h, found, now) != w <==> exists k, g, i :: TimedOut(w, h, found, now, k, g, i)
    ensures forall k, g: nat, i: nat :: TimedOut(w, h, found, now, k, g, i) ==>
              Drop(w, h, found, now) == AfterDrop(w, k, g, i)
  {
    if h in w.pending && now - w.pending[h].date > 600000 && !found && EntryKey(w.pending[h]) in w.batches {
      DropsWhenStale(w, h, now);
      if Drop(w, h, found, now) != w {
        var k := EntryKey(w.pending[h]);
        var g, i :| At(w.batches[k], g, i) && w.batches[k].groups[g][i] == Item(h, ItemPending);
        assert TimedOut(w, h, found, now, k, g, i);
      }
    }
  }

  lemma DropsWhenStale(w: World, h: Hash, now: int)
    requires Inv(w) && h in w.pending && Stale(w.pending[h], now) && EntryKey(w.pending[h]) in w.batches
    ensures var k := EntryKey(w.pending[h]);
            && (forall g: nat, i: nat :: At(w.batches[k], g, i) && w.batches[k].groups[g][i] == Item(h, ItemPending) ==>
                  Drop(w, h, false, now) == AfterDrop(w, k, g, i) != w)
            && ((forall g, i :: At(w.batches[k], g, i) ==> w.batches[k].groups[g][i] != Item(h, ItemPending)) ==>
                  Drop(w, h, false, now) == w)
  {
    var k := EntryKey(w.pending[h]);
    var b := w.batches[k];
    assert BatchOk(w, k, b);
    forall g: nat, i: nat | At(b, g, i) && b.groups[g][i] == Item(h, ItemPending)
      ensures Drop(w, h, false, now) == AfterDrop(w, k, g, i) != w
    {
      DropOne(w, k, b, 0, 0, h, g, i);
      assert h !in AfterDrop(w, k, g, i).pending;
    }
    if forall g, i :: At(b, g, i) ==> b.groups[g][i] != Item(h, ItemPending) {
      DropNothing(w, k, b, 0, 0, h);
    }
  }

  // ----- a submission -------------------------------------------------------------------------

  ghost predicate NoFirst(b: Batch) {
    b.groups == [] || b.groups[0] == []
  }

  ghost predicate SecondSender(b: Batch)
    requires !NoFirst(b)
  {
    exists g, i :: At(b, g, i) && b.groups[g][i].hash.sender != b.groups[0][0].hash.sender
  }

  /**
   The answer of a submission: an error, which changes nothing, exactly if the batch has no first
   transaction, its id is cached for the sender, or it has a second sender; otherwise the batch.
   */
  lemma AnswersExactly(w: World, b: Batch, rejected: set<Hash>, now: int)
    ensures var (w', answer) := Submit(w, b, rejected, now);
            && (answer.NoAddress? <==> NoFirst(b))
            && (answer.Duplicate? <==> !NoFirst(b) && BatchKey(b.groups[0][0].hash.sender, b.id) in w.batches)
            && (answer.ForeignSender? <==>
                  !NoFirst(b) && BatchKey(b.groups[0][0].hash.sender, b.id) !in w.batches && SecondSender(b))
            && (!answer.Started? ==> w' == w)
  {
    if !NoFirst(b) && !OneSender(b) {
      var g, i :| 0 <= g < |b.groups| && 0 <= i < |b.groups[g]| && b.groups[g][i].hash.sender != AddressOf(b);
      assert At(b, g, i);
    }
  }

  /**
   A batch that is started has all items open, except for the first refused one of its first group. It
   is cached exactly if none is refused, and invalid otherwise.
   */
  lemma StartOutcome(w: World, b: Batch, rejected: set<Hash>, now: int, n: nat)
    requires !NoFirst(b) && Submit(w, b, rejected, now).1.Started? && AcceptedUpTo(b.groups[0], rejected, n)
    ensures var k := BatchKey(b.groups[0][0].hash.sender, b.id);
            var (w', answer) := Submit(w, b, rejected, now);
            var c, refused := answer.batch, n < |b.groups[0]|;
            && SameShape(b, c)
            && c.status == (if refused then BatchInvalid else BatchPending)
            && (forall g, i :: At(c, g, i) ==>
                  c.groups[g][i].status == if g == 0 && i == n then ItemInvalid else ItemPending)
            && w'.batches == (if refused then w.batches else w.batches[k := c])
  {
    var r := Reset(b);
    SubmitStarts(w, b, rejected, now);
    FirstGroup(b, rejected, n);
    ItemsOfStart(b, rejected, n);
    StopIsInvalid(r.groups[0], rejected);
    assert forall g, i :: At(Submit(w, b, rejected, now).1.batch, g, i) ==> At(b, g, i);
  }

  /**
   Starting a batch sends its first group up to and including the first refused transaction, and lists
   the accepted ones under its key, whether it is cached or not.
   */
  lemma StartSends(w: World, b: Batch, rejected: set<Hash>, now: int, n: nat)
    requires !NoFirst(b) && Submit(w, b, rejected, now).1.Started? && AcceptedUpTo(b.groups[0], rejected, n)
    ensures var k := BatchKey(b.groups[0][0].hash.sender, b.id);
            var w', first := Submit(w, b, rejected, now).0, b.groups[0];
            && w'.sent == w.sent + Sendings(k, if n < |first| then first[..n + 1] else first)
            && (forall j :: 0 <= j < n ==>
                  first[j].hash in w'.pending && w'.pending[first[j].hash] == PendingEntry(b.id, k.address, now))
            && forall x :: (forall j :: 0 <= j < n ==> first[j].hash != x) ==>
                 (x in w'.pending <==> x in w.pending) && (x in w.pending ==> w'.pending[x] == w.pending[x])
  {
    var first := Reset(b).groups[0];
    SubmitStarts(w, b, rejected, now);
    FirstGroup(b, rejected, n);
    SentFirst(BatchKey(AddressOf(b), b.id), b.groups[0], first, n);
    EntriesOfStart(w.pending, first, rejected, PendingEntry(b.id, AddressOf(b), now));
  }

  lemma SubmitStarts(w: World, b: Batch, rejected: set<Hash>, now: int)
    requires !NoFirst(b) && Submit(w, b, rejected, now).1.Started?
    ensures Submit(w, b, rejected, now) == StartBatch(w, b, rejected, now)
  {
  }

  lemma ItemsOfStart(b: Batch, rejected: set<Hash>, n: nat)
    requires !NoFirst(b) && AcceptedUpTo(b.groups[0], rejected, n)
    ensures var r := Reset(b);
            var groups := r.groups[0 := ItemsAfterStart(r.groups[0], rejected)];
            && |groups| == |b.groups| && (forall g :: 0 <= g < |groups| ==> |groups[g]| == |b.groups[g]|)
            && forall g, i :: At(b, g, i) ==>
                 groups[g][i] == Item(b.groups[g][i].hash, if g == 0 && i == n then ItemInvalid else ItemPending)
  {
    var r := Reset(b);
    FirstGroup(b, rejected, n);
    forall g, i | At(b, g, i) ensures r.groups[g][i] == Item(b.groups[g][i].hash, ItemPending) { assert At(r, g, i); }
  }

  lemma FirstGroup(b: Batch, rejected: set<Hash>, n: nat)
    requires !NoFirst(b) && AcceptedUpTo(b.groups[0], rejected, n)
    ensures var r := Reset(b);
            && HasAddress(r) && KeyOf(r) == KeyOf(b) && |r.groups[0]| == |b.groups[0]|
            && (forall j :: 0 <= j < |b.groups[0]| ==> r.groups[0][j] == Item(b.groups[0][j].hash, ItemPending))
            && FirstStop(r.groups[0], rejected) == n
  {
    var r := Reset(b);
    forall j | 0 <= j < |b.groups[0]| ensures r.groups[0][j] == Item(b.groups[0][j].hash, ItemPending) {
      assert At(b, 0, j) && At(r, 0, j);
    }
    assert At(b, 0, 0);
    SameStop(r.groups[0], rejected, n, FirstStop(r.groups[0], rejected));
  }

  lemma SentFirst(k: BatchKey, g: Group, r: Group, n: nat)
    requires |g| == |r| && n <= |g| && forall j :: 0 <= j < |g| ==> r[j].hash == g[j].hash
    ensures Sendings(k, g) == Sendings(k, r)
    ensures n < |g| ==> Sendings(k, g[..n + 1]) == Sendings(k, r[..n + 1])
  {
  }

  // ----- the transactions of a block ----------------------------------------------------------

  /** Of several transactions with the same hash the last counts. */
  lemma {:induction false} LastTransactionCounts(txs: seq<ShardTransaction>, i: nat)
    requires i < |txs| && forall j :: i < j < |txs| ==> txs[j].hash != txs[i].hash
    ensures txs[i].hash in ByHash(txs) && ByHash(txs)[txs[i].hash] == txs[i]
  {
    if i < |txs| - 1 {
      LastTransactionCounts(txs[..|txs| - 1], i);
    }
  }

  /** Exactly the transactions with a pending entry are processed. */
  lemma {:induction false} PendingOnes(txs: seq<ShardTransaction>, pending: map<Hash, PendingEntry>, h: Hash)
    ensures h in PendingHashes(txs, pending) <==> h in pending && exists i :: 0 <= i < |txs| && txs[i].hash == h
  {
    if txs != [] {
      var n := |txs| - 1;
      PendingOnes(txs[..n], pending, h);
      if i :| 0 <= i < |txs| && txs[i].hash == h { assert i < n ==> txs[..n][i].hash == h; }
      if i :| 0 <= i < n && txs[..n][i].hash == h { assert txs[i].hash == h; }
    }
  }
}
