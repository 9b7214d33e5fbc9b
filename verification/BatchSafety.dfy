/**
 What holds of one submitted batch until it expires, whatever else happens: other submissions, even
 with the same transactions, reports, drops, expiries, and any answers of the gateway.

 A pending entry outlives a refused batch. If a batch is submitted under the same id while such
 entries are live, they count as its own; how far that goes wrong is told exactly here.
 */
module BatchSafety {
  import opened Collections
  import opened TransactionBatches
  import opened BatchSteps

  ghost predicate Done(g: Group) {
    g != [] && AllSuccess(g)
  }

  ghost predicate DoneFrom(b: Batch, lo: nat, g: int) {
    forall j :: lo <= j < g && j < |b.groups| ==> Done(b.groups[j])
  }

  /** What was sent for the batches of a key after the first `n` transactions. */
  function Since(w: World, k: BatchKey, n: nat): seq<Hash> {
    if n <= |SentFor(w.sent, k)| then SentFor(w.sent, k)[n..] else []
  }

  // ----- the invariant of one submission ------------------------------------------------------

  ghost predicate SomeFresh(g: Group, stale: set<Hash>) {
    exists i :: 0 <= i < |g| && g[i].hash !in stale
  }

  /** Everything is told from group `lo` on: the first group, or one that is empty and never passed. */
  ghost predicate Covered(b: Batch, lo: nat, stale: set<Hash>) {
    && lo < |b.groups| && (lo == 0 || b.groups[lo] == [])
    && forall g :: lo < g < |b.groups| && b.groups[g] != [] ==> SomeFresh(b.groups[g], stale)
  }

  ghost predicate ItemTracked(w: World, k: BatchKey, n: nat, lo: nat, stale: set<Hash>, b: Batch, g: int, i: int)
    requires At(b, g, i)
  {
    var item := b.groups[g][i];
    && (g > lo && item.hash in Since(w, k, n) ==> DoneFrom(b, lo, g))
    && (g > lo && item.hash !in stale && item.status != ItemPending ==> item.hash in Since(w, k, n))
    && (g > lo && item.hash !in stale && Listed(w, k, item.hash) ==> item.hash in Since(w, k, n))
    && (g >= lo && item.hash !in stale && Listed(w, k, item.hash) ==> item.status == ItemPending)
  }

  /** `stale` holds the transactions of later groups that had an entry under the key when the batch was submitted. */
  ghost predicate Tracked(w: World, k: BatchKey, n: nat, lo: nat, stale: set<Hash>) {
    && k in w.batches && n <= |SentFor(w.sent, k)|
    && var b := w.batches[k];
    && Covered(b, lo, stale)
    && (forall g, i :: At(b, g, i) ==> ItemTracked(w, k, n, lo, stale, b, g, i))
    && (b.status == BatchSuccess ==> DoneFrom(b, lo, |b.groups|))
    && (lo == 0 ==> NoRepetition(Since(w, k, n)))
  }

  lemma AsideTracked(w: World, w': World, k: BatchKey, n: nat, lo: nat, stale: set<Hash>)
    requires Tracked(w, k, n, lo, stale) && Aside(w, w', k)
    ensures Tracked(w', k, n, lo, stale)
  {
    var b := w.batches[k];
    forall g, i | At(b, g, i) ensures ItemTracked(w', k, n, lo, stale, b, g, i) {
      assert ItemTracked(w, k, n, lo, stale, b, g, i);
    }
  }

  lemma CoveredKept(b: Batch, c: Batch, lo: nat, stale: set<Hash>)
    requires SameShape(b, c) && Covered(b, lo, stale)
    ensures Covered(c, lo, stale)
  {
    forall g | lo < g < |c.groups| && c.groups[g] != [] ensures SomeFresh(c.groups[g], stale) {
      var i :| 0 <= i < |b.groups[g]| && b.groups[g][i].hash !in stale;
      assert At(b, g, i) && c.groups[g][i].hash !in stale;
    }
  }

  /** A group that is complete once (g, i) succeeds was reached in order. */
  lemma ReachedInOrder(w: World, k: BatchKey, n: nat, lo: nat, stale: set<Hash>, g: nat, i: nat)
    requires Tracked(w, k, n, lo, stale) && CanSettle(w, k, g, i) && g >= lo
    requires AllSuccess(SetStatus(w.batches[k], g, i, ItemSuccess).groups[g])
    ensures DoneFrom(w.batches[k], lo, g)
  {
    var b := w.batches[k];
    var c := SetStatus(b, g, i, ItemSuccess);
    if g > lo {
      assert SomeFresh(b.groups[g], stale);
      var j :| 0 <= j < |b.groups[g]| && b.groups[g][j].hash !in stale;
      assert ItemTracked(w, k, n, lo, stale, b, g, j);
      assert c.groups[g][j].status == ItemSuccess;
    }
  }

  /** A settled item was not successful before, so no finished group changes. */
  lemma OpenGroup(w: World, k: BatchKey, g: nat, i: nat)
    requires Inv(w) && CanSettle(w, k, g, i)
    ensures !Done(w.batches[k].groups[g])
  {
    assert BatchOk(w, k, w.batches[k]) && EntryOk(w, k, w.batches[k], w.batches[k].groups[g][i]);
  }

  lemma InPlaceTracked(
      w: World, k: BatchKey, n: nat, lo: nat, stale: set<Hash>, g: nat, i: nat, status: ItemStatus, bs: BatchStatus)
    requires Inv(w) && Tracked(w, k, n, lo, stale) && CanSettle(w, k, g, i)
    requires bs == BatchSuccess ==>
               w.batches[k].status == BatchSuccess
               || (status == ItemSuccess && g + 1 == |w.batches[k].groups| &&
                   AllSuccess(SetStatus(w.batches[k], g, i, status).groups[g]))
    ensures var b := w.batches[k];
            Tracked(WithoutEntry(Store(w, k, SetStatus(b, g, i, status).(status := bs)), b.groups[g][i].hash), k, n,
                lo, stale)
  {
    var b := w.batches[k];
    var c := SetStatus(b, g, i, status).(status := bs);
    var w' := WithoutEntry(Store(w, k, c), b.groups[g][i].hash);
    OpenGroup(w, k, g, i);
    CoveredKept(b, c, lo, stale);
    assert ItemTracked(w, k, n, lo, stale, b, g, i);
    forall g', i' | At(c, g', i') ensures ItemTracked(w', k, n, lo, stale, c, g', i') {
      InPlaceItem(w, k, n, lo, stale, g, i, status, bs, g', i');
    }
    if bs == BatchSuccess {
      if b.status != BatchSuccess { ReachedInOrder(w, k, n, lo, stale, g, i); }
    }
  }

  lemma InPlaceItem(
      w: World, k: BatchKey, n: nat, lo: nat, stale: set<Hash>, g: nat, i: nat, status: ItemStatus, bs: BatchStatus,
      g': int, i': int)
    requires Inv(w) && Tracked(w, k, n, lo, stale) && CanSettle(w, k, g, i) && At(w.batches[k], g', i')
    ensures var b := w.batches[k];
            var c := SetStatus(b, g, i, status).(status := bs);
            ItemTracked(WithoutEntry(Store(w, k, c), b.groups[g][i].hash), k, n, lo, stale, c, g', i')
  {
    var b := w.batches[k];
    var c := SetStatus(b, g, i, status).(status := bs);
    OpenGroup(w, k, g, i);
    assert ItemTracked(w, k, n, lo, stale, b, g, i) && ItemTracked(w, k, n, lo, stale, b, g', i');
    assert forall j :: 0 <= j < |b.groups| && j != g ==> c.groups[j] == b.groups[j];
  }

  // ----- starting a group ---------------------------------------------------------------------

  /** (g, i) completes its group, and the next one starts. */
  ghost predicate Starts(w: World, k: BatchKey, g: nat, i: nat) {
    && CanSettle(w, k, g, i) && HasAddress(w.batches[k]) && KeyOf(w.batches[k]) == k
    && g + 1 < |w.batches[k].groups| && w.batches[k].status == BatchPending
    && AllSuccess(SetStatus(w.batches[k], g, i, ItemSuccess).groups[g])
  }

  function AfterStart(w: World, k: BatchKey, g: nat, i: nat, rejected: set<Hash>, now: int): World
    requires k in w.batches && HasAddress(w.batches[k]) && At(w.batches[k], g, i)
  {
    WithoutEntry(Touch(w, k, w.batches[k], g, i, ItemSuccess, rejected, now).0, w.batches[k].groups[g][i].hash)
  }

  /** What the start does to the batch. */
  lemma StartedBatch(w: World, k: BatchKey, g: nat, i: nat, rejected: set<Hash>, now: int)
    requires Starts(w, k, g, i)
    ensures var b := w.batches[k];
            var w' := AfterStart(w, k, g, i, rejected, now);
            && k in w'.batches && SameShape(b, w'.batches[k]) && w'.batches[k].status in {BatchPending, BatchInvalid}
            && w'.batches[k].groups ==
                 b.groups[g := SetStatus(b, g, i, ItemSuccess).groups[g]][g +
                     1 := ItemsAfterStart(b.groups[g + 1], rejected)]
  {
  }

  /** What the start does to the rest of the world. */
  lemma StartedWorld(w: World, k: BatchKey, g: nat, i: nat, rejected: set<Hash>, now: int)
    requires Starts(w, k, g, i)
    ensures var c := SetStatus(w.batches[k], g, i, ItemSuccess);
            var v := StartGroup(w, c, g + 1, rejected, now).0;
            var w' := AfterStart(w, k, g, i, rejected, now);
            w'.sent == v.sent && w'.pending == v.pending - {w.batches[k].groups[g][i].hash}
  {
  }

  /** What the start changes, in terms of the batch before. */
  lemma StartParts(w: World, k: BatchKey, n: nat, g: nat, i: nat, rejected: set<Hash>, now: int)
    requires Inv(w) && Starts(w, k, g, i) && n <= |SentFor(w.sent, k)|
    ensures var b := w.batches[k];
            var w' := AfterStart(w, k, g, i, rejected, now);
            var part := Hashes(SentPart(b.groups[g + 1], rejected));
            && k in w'.batches && SameShape(b, w'.batches[k]) && w'.batches[k].status in {BatchPending, BatchInvalid}
            && w'.batches[k].groups ==
                 b.groups[g := SetStatus(b, g, i, ItemSuccess).groups[g]][g +
                     1 := ItemsAfterStart(b.groups[g + 1], rejected)]
            && n <= |SentFor(w'.sent, k)| && Since(w', k, n) == Since(w, k, n) + part
            && forall h :: Listed(w', k, h) ==>
                 h in Registered(b.groups[g + 1], rejected) || (Listed(w, k, h) && h != b.groups[g][i].hash)
  {
    StartedBatch(w, k, g, i, rejected, now);
    StartedSends(w, k, n, g, i, rejected, now);
  }

  lemma StartedSends(w: World, k: BatchKey, n: nat, g: nat, i: nat, rejected: set<Hash>, now: int)
    requires Inv(w) && Starts(w, k, g, i) && n <= |SentFor(w.sent, k)|
    ensures var b := w.batches[k];
            var w' := AfterStart(w, k, g, i, rejected, now);
            && n <= |SentFor(w'.sent, k)| &&
               Since(w', k, n) == Since(w, k, n) + Hashes(SentPart(b.groups[g + 1], rejected))
            && forall h :: Listed(w', k, h) ==>
                 h in Registered(b.groups[g + 1], rejected) || (Listed(w, k, h) && h != b.groups[g][i].hash)
  {
    StartedWorld(w, k, g, i, rejected, now);
    StartEffect(w, SetStatus(w.batches[k], g, i, ItemSuccess), g + 1, rejected, now, k);
    RegisteredElsewhere(w, k, g, i, rejected);
  }

  lemma RegisteredElsewhere(w: World, k: BatchKey, g: nat, i: nat, rejected: set<Hash>)
    requires Inv(w) && Starts(w, k, g, i)
    ensures w.batches[k].groups[g][i].hash !in Registered(w.batches[k].groups[g + 1], rejected)
  {
    var b := w.batches[k];
    assert BatchOk(w, k, b);
    var next := b.groups[g + 1];
    forall j | 0 <= j < |next| ensures next[j].hash != b.groups[g][i].hash { assert At(b, g + 1, j); }
  }

  /** No transaction of the group that starts was sent before. */
  lemma NextNotSent(w: World, k: BatchKey, n: nat, lo: nat, stale: set<Hash>, g: nat, i: nat, j: nat)
    requires Inv(w) && Tracked(w, k, n, lo, stale) && Starts(w, k, g, i) && g >= lo && j < |w.batches[k].groups[g + 1]|
    ensures w.batches[k].groups[g + 1][j].hash !in Since(w, k, n)
  {
    OpenGroup(w, k, g, i);
    assert At(w.batches[k], g + 1, j) && ItemTracked(w, k, n, lo, stale, w.batches[k], g + 1, j);
  }

  /** A transaction sent by starting group g belongs to that group. */
  lemma SentIsNext(b: Batch, g: nat, rejected: set<Hash>, g': int, i': int)
    requires DistinctHashes(b) && g < |b.groups| && At(b, g', i')
    ensures b.groups[g'][i'].hash in Hashes(SentPart(b.groups[g], rejected)) ==> g' == g
    ensures b.groups[g'][i'].hash in Registered(b.groups[g], rejected) ==> g' == g
  {
    var part := SentPart(b.groups[g], rejected);
    if b.groups[g'][i'].hash in Hashes(part) {
      var j :| 0 <= j < |part| && Hashes(part)[j] == b.groups[g'][i'].hash;
      assert At(b, g, j);
    }
    if b.groups[g'][i'].hash in Registered(b.groups[g], rejected) {
      var j :| 0 <= j < |b.groups[g]| && b.groups[g][j].hash == b.groups[g'][i'].hash;
      assert At(b, g, j);
    }
  }

  /** Groups finished before the start stay as they are, and the group that led to the start is finished now. */
  lemma DoneAfterStart(
      w: World, k: BatchKey, n: nat, lo: nat, stale: set<Hash>, g: nat, i: nat, rejected: set<Hash>, now: int,
      g': int)
    requires Inv(w) && Tracked(w, k, n, lo, stale) && Starts(w, k, g, i) && lo < g' < |w.batches[k].groups|
    requires DoneFrom(w.batches[k], lo, g') || g' == g + 1
    ensures var w' := AfterStart(w, k, g, i, rejected, now); k in w'.batches && DoneFrom(w'.batches[k], lo, g')
  {
    StartParts(w, k, n, g, i, rejected, now);
    OpenGroup(w, k, g, i);
    if g' == g + 1 { ReachedInOrder(w, k, n, lo, stale, g, i); }
  }

  /** Where the started group changes an item it was sent, and what is registered was sent and stays open. */
  lemma StartedNext(w: World, k: BatchKey, g: nat, i: nat, rejected: set<Hash>, now: int, g': int, i': int)
    requires Inv(w) && Starts(w, k, g, i) && At(w.batches[k], g', i')
    ensures var b := w.batches[k];
            var w' := AfterStart(w, k, g, i, rejected, now);
            var h := b.groups[g'][i'].hash;
            && k in w'.batches && At(w'.batches[k], g', i') && w'.batches[k].groups[g'][i'].hash == h
            && (h in Hashes(SentPart(b.groups[g + 1], rejected)) ==> g' == g + 1)
            && (h in Registered(b.groups[g + 1], rejected) ==>
                  h in Hashes(SentPart(b.groups[g + 1], rejected)) &&
                  w'.batches[k].groups[g'][i'].status == ItemPending)
            && (w'.batches[k].groups[g'][i'] != b.groups[g'][i'] && (g' != g || i' != i) ==>
                  g' == g + 1 && h in Hashes(SentPart(b.groups[g + 1], rejected)))
  {
    var b := w.batches[k];
    assert BatchOk(w, k, b);
    StartedBatch(w, k, g, i, rejected, now);
    DistinctGroup(b, g + 1);
    StartedItems(b.groups[g + 1], rejected);
    SentIsNext(b, g + 1, rejected, g', i');
  }

  lemma StartedItem(
      w: World, k: BatchKey, n: nat, lo: nat, stale: set<Hash>, g: nat, i: nat, rejected: set<Hash>, now: int,
      g': int, i': int)
    requires Inv(w) && Tracked(w, k, n, lo, stale) && Starts(w, k, g, i) && At(w.batches[k], g', i')
    ensures var w' := AfterStart(w, k, g, i, rejected, now);
            k in w'.batches && At(w'.batches[k], g', i') && ItemTracked(w', k, n, lo, stale, w'.batches[k], g', i')
  {
    var b := w.batches[k];
    assert ItemTracked(w, k, n, lo, stale, b, g', i') && ItemTracked(w, k, n, lo, stale, b, g, i);
    StartParts(w, k, n, g, i, rejected, now);
    StartedNext(w, k, g, i, rejected, now, g', i');
    if g' > lo && (DoneFrom(b, lo, g') || g' == g + 1) { DoneAfterStart(w, k, n, lo, stale, g, i, rejected, now, g'); }
    if g' == g + 1 && g >= lo { NextNotSent(w, k, n, lo, stale, g, i, i'); }
  }

  lemma StartTracked(
      w: World, k: BatchKey, n: nat, lo: nat, stale: set<Hash>, g: nat, i: nat, rejected: set<Hash>, now: int)
    requires Inv(w) && Tracked(w, k, n, lo, stale) && Starts(w, k, g, i)
    ensures Tracked(AfterStart(w, k, g, i, rejected, now), k, n, lo, stale)
  {
    var b := w.batches[k];
    var w' := AfterStart(w, k, g, i, rejected, now);
    StartParts(w, k, n, g, i, rejected, now);
    CoveredKept(b, w'.batches[k], lo, stale);
    forall g', i' | At(w'.batches[k], g', i') ensures ItemTracked(w', k, n, lo, stale, w'.batches[k], g', i') {
      assert At(b, g', i');
      StartedItem(w, k, n, lo, stale, g, i, rejected, now, g', i');
    }
    if lo == 0 { SentOnce(w, k, n, stale, g, i, rejected); }
  }

  lemma SentOnce(w: World, k: BatchKey, n: nat, stale: set<Hash>, g: nat, i: nat, rejected: set<Hash>)
    requires Inv(w) && Tracked(w, k, n, 0, stale) && Starts(w, k, g, i)
    ensures NoRepetition(Since(w, k, n) + Hashes(SentPart(w.batches[k].groups[g + 1], rejected)))
  {
    var b := w.batches[k];
    var part := SentPart(b.groups[g + 1], rejected);
    assert BatchOk(w, k, b);
    DistinctGroup(b, g + 1);
    StartedItems(b.groups[g + 1], rejected);
    forall j | 0 <= j < |part| ensures Hashes(part)[j] !in Since(w, k, n) {
      NextNotSent(w, k, n, 0, stale, g, i, j);
    }
    NoRepetitionConcat(Since(w, k, n), Hashes(part));
  }

  // ----- every step ---------------------------------------------------------------------------

  lemma SettledTracked(
      w: World, k: BatchKey, n: nat, lo: nat, stale: set<Hash>, g: nat, i: nat, status: ItemStatus,
      rejected: set<Hash>, now: int)
    requires Inv(w) && WellFormed(w) && Tracked(w, k, n, lo, stale) && CanSettle(w, k, g, i)
    ensures Tracked(Report(w, w.batches[k].groups[g][i].hash, status, rejected, now), k, n, lo, stale)
  {
    var b := w.batches[k];
    assert BatchOk(w, k, b);
    ReportOne(w, k, g, i, status, rejected, now);
    if status == ItemSuccess && Starts(w, k, g, i) {
      StartTracked(w, k, n, lo, stale, g, i, rejected, now);
    } else {
      InPlaceTracked(w, k, n, lo, stale, g, i, status, Settle(w, b, g, i, status, rejected, now).1.status);
    }
  }

  /** A step concerns a cached batch only as a report or a drop of one of its listed items, or as its expiry. */
  ghost predicate Concerns(w: World, s: Step, k: BatchKey, g: int, i: int) {
    && CanSettle(w, k, g, i)
    && ((s.ReportStep? && s.hash == w.batches[k].groups[g][i].hash)
        || (s.DropStep? && s.hash == w.batches[k].groups[g][i].hash
            && w.batches[k].groups[g][i].status == ItemPending &&
               Drop(w, s.hash, s.found, s.now) == Dropped(w, k, g, i)))
  }

  lemma ReportConcerns(w: World, s: Step, k: BatchKey)
    requires Inv(w) && WellFormed(w) && s.ReportStep?
    ensures Aside(w, Next(w, s), k) || exists g, i :: Concerns(w, s, k, g, i)
  {
    if s.hash in w.pending {
      var k' := EntryKey(w.pending[s.hash]);
      if k' in w.batches && Has(w.batches[k'], s.hash) {
        var g: nat, i: nat :| At(w.batches[k'], g, i) && w.batches[k'].groups[g][i].hash == s.hash;
        assert BatchOk(w, k', w.batches[k']);
        if k' == k {
          assert Concerns(w, s, k, g, i);
        } else {
          ReportOne(w, k', g, i, s.status, s.rejected, s.now);
          TouchAside(w, k', g, i, s.status, s.rejected, s.now, k);
        }
      } else {
        ReportLost(w, s.hash, s.status, s.rejected, s.now);
      }
    }
  }

  lemma StepConcerns(w: World, s: Step, k: BatchKey)
    requires Inv(w) && WellFormed(w) && k in w.batches && s != ExpireBatch(k)
    ensures Aside(w, Next(w, s), k) || exists g, i :: Concerns(w, s, k, g, i)
  {
    match s
    case SubmitStep(b, rejected, now) => SubmitAside(w, b, rejected, now, k);
    case ReportStep(_, _, _, _) => ReportConcerns(w, s, k);
    case DropStep(_, _, _) => DropConcerns(w, s, k);
    case _ =>
  }

  lemma SubmitAside(w: World, b: Batch, rejected: set<Hash>, now: int, k: BatchKey)
    requires k in w.batches
    ensures Aside(w, Submit(w, b, rejected, now).0, k)
  {
    if Accepted(w, b, rejected) {
      AcceptedEffect(w, b, rejected, now);
      StartAndStoreAside(w, Reset(b), rejected, now, k);
    } else {
      RefusedEffect(w, b, rejected, now, k);
    }
  }

  lemma StartAndStoreAside(w: World, r: Batch, rejected: set<Hash>, now: int, k: BatchKey)
    requires HasAddress(r) && KeyOf(r) != k
    ensures Aside(w, Store(StartGroup(w, r, 0, rejected, now).0, KeyOf(r), r), k)
  {
    StartEffect(w, r, 0, rejected, now, k);
    StoreAside(w, StartGroup(w, r, 0, rejected, now).0, KeyOf(r), r, k);
  }

  lemma StoreAside(w: World, v: World, k': BatchKey, b: Batch, k: BatchKey)
    requires Aside(w, v, k) && k' != k
    ensures Aside(w, Store(v, k', b), k)
  {
    assert forall h :: Listed(Store(v, k', b), k, h) ==> Listed(v, k, h);
  }

  lemma DropConcerns(w: World, s: Step, k: BatchKey)
    requires Inv(w) && WellFormed(w) && k in w.batches && s.DropStep?
    ensures Aside(w, Next(w, s), k) || exists g, i :: Concerns(w, s, k, g, i)
  {
    DropEffect(w, s.hash, s.found, s.now);
    if Drop(w, s.hash, s.found, s.now) != w {
      var k', g: nat, i: nat :| CanSettle(w, k', g, i) && w.batches[k'].groups[g][i].hash == s.hash
        && w.batches[k'].groups[g][i].status == ItemPending && Drop(w, s.hash, s.found, s.now) == Dropped(w, k', g, i);
      if k' == k { assert Concerns(w, s, k, g, i); }
    }
  }

  lemma StepTracked(w: World, s: Step, k: BatchKey, n: nat, lo: nat, stale: set<Hash>)
    requires Inv(w) && WellFormed(w) && Tracked(w, k, n, lo, stale) && s != ExpireBatch(k)
    ensures Tracked(Next(w, s), k, n, lo, stale)
  {
    StepConcerns(w, s, k);
    if Aside(w, Next(w, s), k) {
      AsideTracked(w, Next(w, s), k, n, lo, stale);
    } else {
      var g: nat, i: nat :| Concerns(w, s, k, g, i);
      if s.ReportStep? {
        SettledTracked(w, k, n, lo, stale, g, i, s.status, s.rejected, s.now);
      } else {
        InPlaceTracked(w, k, n, lo, stale, g, i, ItemDropped, BatchDropped);
      }
    }
  }

  /** A run in which the batch of a key does not expire. */
  ghost predicate LeadsTo(w: World, steps: seq<Step>, w': World, k: BatchKey) {
    Run(w, steps, w') && ExpireBatch(k) !in steps
  }

  lemma {:induction false} RunTracked(
      w: World, steps: seq<Step>, w': World, k: BatchKey, n: nat, lo: nat, stale: set<Hash>)
    requires Inv(w) && LeadsTo(w, steps, w', k) && Tracked(w, k, n, lo, stale)
    ensures Tracked(w', k, n, lo, stale)
    decreases |steps|
  {
    if steps != [] {
      assert steps[0] in steps;
      StepPreserves(w, steps[0]);
      StepTracked(w, steps[0], k, n, lo, stale);
      RunTracked(Next(w, steps[0]), steps[1..], w', k, n, lo, stale);
    }
  }

  // ----- a submission -------------------------------------------------------------------------

  /** Entries that a submission leaves live under its own key, for transactions of its later groups. */
  ghost predicate LeftOver(w: World, b: Batch, g: int, i: int)
    requires HasAddress(b)
  {
    At(b, g, i) && g > 0 && Listed(w, KeyOf(b), b.groups[g][i].hash)
  }

  lemma SubmittedTracked(w: World, b: Batch, rejected: set<Hash>, now: int, lo: nat, stale: set<Hash>)
    requires DistinctHashes(b) && Accepted(w, b, rejected) && Covered(b, lo, stale)
    requires forall g, i :: LeftOver(w, b, g, i) ==> b.groups[g][i].hash in stale
    ensures Tracked(Submit(w, b, rejected, now).0, KeyOf(b), |SentFor(w.sent, KeyOf(b))|, lo, stale)
  {
    var r, k, n := Reset(b), KeyOf(b), |SentFor(w.sent, KeyOf(b))|;
    var w' := Submit(w, b, rejected, now).0;
    AcceptedEffect(w, b, rejected, now);
    StartEffect(w, r, 0, rejected, now, k);
    assert Since(w', k, n) == Hashes(r.groups[0]);
    CoveredKept(b, r, lo, stale);
    DistinctKept(b, r);
    DistinctGroup(r, 0);
    StartedItems(r.groups[0], rejected);
    forall g, i | At(r, g, i) ensures ItemTracked(w', k, n, lo, stale, r, g, i) {
      assert At(b, g, i);
      SentIsNext(r, 0, rejected, g, i);
      assert LeftOver(w, b, g, i) ==> r.groups[g][i].hash in stale;
    }
  }
}
