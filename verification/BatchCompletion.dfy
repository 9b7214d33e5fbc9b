/**
 A batch whose transactions all succeed: it completes exactly when no group is empty, in any order
 of the reports, and the world it leaves behind does not depend on that order.
 */
module BatchCompletion {
  import opened Collections
  import opened TransactionBatches
  import opened BatchSteps
  import opened BatchSafety
  import opened BatchChain
  import opened BatchOrder

  // ----- can it complete ----------------------------------------------------------------------

  ghost predicate NoEmptyGroup(b: Batch) {
    forall g :: 0 <= g < |b.groups| ==> b.groups[g] != []
  }

  ghost predicate CanComplete(w: World, k: BatchKey) {
    exists steps, w' :: Deliveries(w, k, steps, w') && k in w'.batches && w'.batches[k].status == BatchSuccess
  }

  lemma WholeGroupsComplete(w: World, b: Batch, rejected: set<Hash>, now: int)
    requires Inv(w) && DistinctHashes(b) && Accepted(w, b, rejected) && NoEmptyGroup(b)
    ensures CanComplete(Submit(w, b, rejected, now).0, KeyOf(b))
  {
    var w1, k := Submit(w, b, rejected, now).0, KeyOf(b);
    SubmitPreserves(w, b, rejected, now);
    SubmittedIsReady(w, b, rejected, now);
    var steps, w' := ChainCompletes(w1, k, 0, 0);
  }

  lemma SubmittedIsReady(w: World, b: Batch, rejected: set<Hash>, now: int)
    requires Accepted(w, b, rejected) && NoEmptyGroup(b)
    ensures ReadyAt(Submit(w, b, rejected, now).0, KeyOf(b), 0, 0)
  {
    var r := Reset(b);
    AcceptedEffect(w, b, rejected, now);
    forall g | 0 <= g < |r.groups| ensures AllPending(r.groups[g]) && r.groups[g] != [] { PendingAfterReset(b, g); }
    FirstIsListed(w, r, rejected, now);
  }

  lemma FirstIsListed(w: World, r: Batch, rejected: set<Hash>, now: int)
    requires HasAddress(r) && AllPending(r.groups[0]) && FirstStop(r.groups[0], rejected) == |r.groups[0]|
    ensures var w1 := StartGroup(w, r, 0, rejected, now).0;
            forall i :: 0 <= i < |r.groups[0]| ==> Listed(w1, KeyOf(r), r.groups[0][i].hash)
  {
    var g := r.groups[0];
    forall i | 0 <= i < |g| ensures g[i].hash in Registered(g, rejected) { }
  }

  /**
   Success reports can make an accepted batch successful exactly if it has no empty group, or a
   later group can overtake.
   */
  lemma CompletesIff(w: World, b: Batch, rejected: set<Hash>, now: int)
    requires Inv(w) && DistinctHashes(b) && Accepted(w, b, rejected)
    ensures CanComplete(Submit(w, b, rejected, now).0, KeyOf(b)) <==>
              NoEmptyGroup(b) || exists m :: CanOvertake(w, b, m)
  {
    var w1, k := Submit(w, b, rejected, now).0, KeyOf(b);
    SubmitPreserves(w, b, rejected, now);
    if NoEmptyGroup(b) {
      WholeGroupsComplete(w, b, rejected, now);
    } else if m: nat :| CanOvertake(w, b, m) {
      OvertakingIsReady(w, b, rejected, now, m);
      var steps, w' := ChainCompletes(w1, k, m, 0);
    } else {
      assert !exists m :: CanOvertake(w, b, m);
      forall steps, w' | Deliveries(w1, k, steps, w') ensures k in w'.batches ==> w'.batches[k].status != BatchSuccess {
        DeliveriesAreRuns(w1, k, steps, w');
        EmptyGroupNeverSucceeds(w, b, rejected, now, steps, w');
      }
    }
  }

  /**
   However the chain and the gateway behave, a batch with an empty group never succeeds, unless a
   group behind it can overtake.
   */
  lemma EmptyGroupNeverSucceeds(w: World, b: Batch, rejected: set<Hash>, now: int, steps: seq<Step>, w': World)
    requires Inv(w) && DistinctHashes(b) && Accepted(w, b, rejected) && !NoEmptyGroup(b) &&
             !exists m :: CanOvertake(w, b, m)
    requires LeadsTo(Submit(w, b, rejected, now).0, steps, w', KeyOf(b))
    ensures KeyOf(b) in w'.batches && w'.batches[KeyOf(b)].status != BatchSuccess
  {
    WithoutOvertaking(w, b, rejected, now, steps, w', [], w');
  }

  /** The smallest case: one transaction and an empty group behind it never succeed, in any world. */
  lemma TrailingEmptyGroup(w: World, id: string, t: Hash, rejected: set<Hash>, now: int, steps: seq<Step>, w': World)
    requires var b := OneByOne(id, [[t], []]);
             Inv(w) && Accepted(w, b, rejected) &&
             LeadsTo(Submit(w, b, rejected, now).0, steps, w', BatchKey(t.sender, id))
    ensures var k := BatchKey(t.sender, id); k in w'.batches && w'.batches[k].status != BatchSuccess
  {
    var b := OneByOne(id, [[t], []]);
    assert b.groups[1] == [] && !NoEmptyGroup(b);
    assert forall m :: !CanOvertake(w, b, m);
    EmptyGroupNeverSucceeds(w, b, rejected, now, steps, w');
  }

  // ----- every order of the reports -----------------------------------------------------------

  function SendingsUpTo(b: Batch, k: BatchKey, n: nat): seq<Sending>
    requires n <= |b.groups|
  {
    if n == 0 then [] else SendingsUpTo(b, k, n - 1) + Sendings(k, b.groups[n - 1])
  }

  function SizeUpTo(b: Batch, n: nat): nat
    requires n <= |b.groups|
  {
    if n == 0 then 0 else SizeUpTo(b, n - 1) + |b.groups[n - 1]|
  }

  function Size(b: Batch): nat {
    SizeUpTo(b, |b.groups|)
  }

  function Successes(g: Group): (n: nat)
    ensures n <= |g|
  {
    if g == [] then 0 else (if g[0].status == ItemSuccess then 1 else 0) + Successes(g[1..])
  }

  lemma {:induction false} AllSuccessCounts(g: Group)
    ensures AllSuccess(g) <==> Successes(g) == |g|
  {
    if g != [] {
      AllSuccessCounts(g[1..]);
      assert AllSuccess(g) <==> g[0].status == ItemSuccess && AllSuccess(g[1..]);
    }
  }

  lemma {:induction false} NoSuccessCounts(g: Group)
    requires AllPending(g)
    ensures Successes(g) == 0
  {
    if g != [] { NoSuccessCounts(g[1..]); }
  }

  lemma {:induction false} OneMoreSuccess(g: Group, i: nat)
    requires i < |g| && g[i].status != ItemSuccess
    ensures Successes(g[i := g[i].(status := ItemSuccess)]) == Successes(g) + 1
  {
    var r := g[i := g[i].(status := ItemSuccess)];
    if i == 0 {
      assert r[1..] == g[1..];
    } else {
      assert r[1..] == g[1..][i - 1 := g[i].(status := ItemSuccess)];
      OneMoreSuccess(g[1..], i - 1);
    }
  }

  lemma {:induction false} ShapeMeasures(b: Batch, c: Batch, k: BatchKey, n: nat)
    requires SameShape(b, c) && n <= |b.groups|
    ensures SizeUpTo(b, n) == SizeUpTo(c, n) && SendingsUpTo(b, k, n) == SendingsUpTo(c, k, n)
  {
    if n > 0 {
      ShapeMeasures(b, c, k, n - 1);
      var m := n - 1;
      assert forall i :: 0 <= i < |b.groups[m]| ==> At(b, m, i);
      assert Sendings(k, b.groups[m]) == Sendings(k, c.groups[m]);
    }
  }

  lemma {:induction false} SizeGrows(b: Batch, m: nat, n: nat)
    requires NoEmptyGroup(b) && m < n <= |b.groups|
    ensures SizeUpTo(b, m) + |b.groups[m]| <= SizeUpTo(b, n)
  {
    if m + 1 < n { SizeGrows(b, m, n - 1); }
  }

  /** A transaction of the groups up to `g`. */
  ghost predicate InUpTo(b: Batch, g: int, h: Hash) {
    exists j, i :: At(b, j, i) && j <= g && b.groups[j][i].hash == h
  }

  ghost predicate SameEntry(w: World, w0: World, h: Hash) {
    (h in w.pending <==> h in w0.pending) && (h in w.pending ==> w.pending[h] == w0.pending[h])
  }

  ghost predicate ItemWorking(w: World, k: BatchKey, item: Item) {
    if item.status == ItemSuccess then item.hash !in w.pending
    else item.status == ItemPending && Listed(w, k, item.hash)
  }

  /** Earlier groups are done, later groups are yet to start. */
  ghost predicate InProgress(b: Batch, g: int) {
    && 0 <= g < |b.groups| && NoEmptyGroup(b) && b.status == BatchPending
    && DoneFrom(b, 0, g) && !AllSuccess(b.groups[g])
    && forall j :: g < j < |b.groups| ==> AllPending(b.groups[j])
  }

  /** Open items of the started groups wait for their report, the others have no entry left. */
  ghost predicate EntriesMatch(w: World, k: BatchKey, b: Batch, g: int) {
    forall j, i :: At(b, j, i) && j <= g ==> ItemWorking(w, k, b.groups[j][i])
  }

  ghost predicate OtherEntriesSame(w: World, w0: World, b: Batch, g: int) {
    forall h :: !InUpTo(b, g, h) ==> SameEntry(w, w0, h)
  }

  /** The batch, submitted in `w0`, is working on group `g`, and the rest of the world is as it was. */
  ghost predicate Working(w: World, k: BatchKey, g: int, w0: World) {
    && k in w.batches
    && var b := w.batches[k];
    && InProgress(b, g) && EntriesMatch(w, k, b, g) && OtherEntriesSame(w, w0, b, g)
    && w.batches == w0.batches[k := b] && w.sent == w0.sent + SendingsUpTo(b, k, g + 1)
  }

  /** The batch with every transaction successful. */
  function Completed(b: Batch): (c: Batch)
    ensures SameShape(b, c) && c.status == BatchSuccess
    ensures forall g, i :: At(c, g, i) ==> c.groups[g][i].status == ItemSuccess
  {
    b.(status := BatchSuccess,
       groups := seq(|b.groups|, g requires 0 <= g < |b.groups| =>
         seq(|b.groups[g]|, i requires 0 <= i < |b.groups[g]| => b.groups[g][i].(status := ItemSuccess))))
  }

  /**
   The world after a completed batch: it is cached as completed, its entries are gone, its
   transactions were sent in group order.
   */
  ghost predicate Finished(w: World, k: BatchKey, b: Batch, w0: World) {
    && w.batches == w0.batches[k := Completed(b)]
    && w.sent == w0.sent + SendingsUpTo(b, k, |b.groups|)
    && forall h :: if Has(b, h) then h !in w.pending else SameEntry(w, w0, h)
  }

  lemma FinishedIsUnique(v: World, w: World, k: BatchKey, b: Batch, w0: World)
    requires Finished(v, k, b, w0) && Finished(w, k, b, w0)
    ensures v == w
  {
    forall h ensures SameEntry(v, w, h) { assert Has(b, h) ==> h !in v.pending && h !in w.pending; }
    assert v.pending == w.pending;
  }

  function Progress(b: Batch, g: nat): nat
    requires g < |b.groups|
  {
    SizeUpTo(b, g) + Successes(b.groups[g])
  }

  lemma OneMoreProgress(b: Batch, g: nat, i: nat)
    requires NoEmptyGroup(b) && At(b, g, i) && b.groups[g][i].status == ItemPending
    ensures var c := SetStatus(b, g, i, ItemSuccess);
            && Progress(c, g) == Progress(b, g) + 1 && Size(c) == Size(b)
            && (AllSuccess(c.groups[g]) <==> Progress(c, g) == SizeUpTo(c, g + 1))
  {
    var c := SetStatus(b, g, i, ItemSuccess);
    ShapeMeasures(b, c, BatchKey("", ""), g);
    ShapeMeasures(b, c, BatchKey("", ""), |b.groups|);
    OneMoreSuccess(b.groups[g], i);
    AllSuccessCounts(c.groups[g]);
  }

  /** No transaction of a group yet to start is listed. */
  lemma LaterNotListed(w: World, k: BatchKey, g: int, w0: World, b0: Batch, g': int, i': int)
    requires Inv(w) && Working(w, k, g, w0) && At(w.batches[k], g', i') && g' > g
    requires HasAddress(b0) && KeyOf(b0) == k && SameShape(b0, w.batches[k]) && Clean(w0, b0)
    ensures !Listed(w, k, w.batches[k].groups[g'][i'].hash)
  {
    var b := w.batches[k];
    var h := b.groups[g'][i'].hash;
    assert BatchOk(w, k, b);
    assert !InUpTo(b, g, h);
    assert SameEntry(w, w0, h) && At(b0, g', i') && !LeftOver(w0, b0, g', i');
  }

  lemma EarlierNotListed(w: World, k: BatchKey, g: int, w0: World, g': int, i': int)
    requires Working(w, k, g, w0) && At(w.batches[k], g', i') && g' < g
    ensures !Listed(w, k, w.batches[k].groups[g'][i'].hash)
  {
    assert ItemWorking(w, k, w.batches[k].groups[g'][i']) && Done(w.batches[k].groups[g']);
  }

  /** The item a success report is for belongs to the group being worked on. */
  lemma ReportedItem(w: World, k: BatchKey, g: int, w0: World, b0: Batch, s: Step) returns (i: nat)
    requires Inv(w) && Working(w, k, g, w0) && SuccessReport(w, k, s)
    requires HasAddress(b0) && KeyOf(b0) == k && SameShape(b0, w.batches[k]) && Clean(w0, b0)
    ensures At(w.batches[k], g, i) && w.batches[k].groups[g][i].hash == s.hash
    ensures w.batches[k].groups[g][i].status == ItemPending && CanSettle(w, k, g, i)
  {
    var b := w.batches[k];
    forall g', i' | At(b, g', i') && Listed(w, k, b.groups[g'][i'].hash) ensures g' == g {
      if g' > g { LaterNotListed(w, k, g, w0, b0, g', i'); }
      if g' < g { EarlierNotListed(w, k, g, w0, g', i'); }
    }
    var g', i': int :| At(b, g', i') && b.groups[g'][i'].hash == s.hash;
    assert ItemWorking(w, k, b.groups[g'][i']);
    i := i';
  }

  lemma DeliverWithin(w: World, k: BatchKey, g: nat, i: nat, w0: World)
    requires Inv(w) && Working(w, k, g, w0) && CanSettle(w, k, g, i) && w.batches[k].groups[g][i].status == ItemPending
    requires !AllSuccess(SetStatus(w.batches[k], g, i, ItemSuccess).groups[g])
    ensures var b := w.batches[k];
            Working(WithoutEntry(Store(w, k, SetStatus(b, g, i, ItemSuccess)), b.groups[g][i].hash), k, g, w0)
  {
    var b := w.batches[k];
    var c := SetStatus(b, g, i, ItemSuccess);
    ShapeMeasures(b, c, k, g + 1);
    WithinProgress(b, g, i);
    WithinEntries(w, k, g, i, w0);
  }

  lemma WithinProgress(b: Batch, g: nat, i: nat)
    requires InProgress(b, g) && At(b, g, i) && !AllSuccess(SetStatus(b, g, i, ItemSuccess).groups[g])
    ensures InProgress(SetStatus(b, g, i, ItemSuccess), g)
  {
    var c := SetStatus(b, g, i, ItemSuccess);
    assert forall j :: 0 <= j < |b.groups| && j != g ==> c.groups[j] == b.groups[j];
  }

  lemma WithinEntries(w: World, k: BatchKey, g: nat, i: nat, w0: World)
    requires Inv(w) && Working(w, k, g, w0) && CanSettle(w, k, g, i)
    ensures var c := SetStatus(w.batches[k], g, i, ItemSuccess);
            var w' := WithoutEntry(Store(w, k, c), w.batches[k].groups[g][i].hash);
            EntriesMatch(w', k, c, g) && OtherEntriesSame(w', w0, c, g)
  {
    var b := w.batches[k];
    var c := SetStatus(b, g, i, ItemSuccess);
    var w' := WithoutEntry(Store(w, k, c), b.groups[g][i].hash);
    assert BatchOk(w, k, b);
    forall j, l | At(c, j, l) && j <= g ensures ItemWorking(w', k, c.groups[j][l]) {
      assert At(b, j, l) && ItemWorking(w, k, b.groups[j][l]);
    }
    forall h | !InUpTo(c, g, h) ensures SameEntry(w', w0, h) {
      UpToKept(b, c, g, h);
      assert At(b, g, i) && SameEntry(w, w0, h);
    }
  }

  lemma UpToKept(b: Batch, c: Batch, g: int, h: Hash)
    requires SameShape(b, c)
    ensures InUpTo(b, g, h) <==> InUpTo(c, g, h)
  {
    if j, i :| At(b, j, i) && j <= g && b.groups[j][i].hash == h { assert At(c, j, i); }
    if j, i :| At(c, j, i) && j <= g && c.groups[j][i].hash == h { assert At(b, j, i); }
  }

  lemma DeliverAndStart(w: World, k: BatchKey, g: nat, i: nat, w0: World, now: int)
    requires Inv(w) && Working(w, k, g, w0) && Starts(w, k, g, i) && w.batches[k].groups[g][i].status == ItemPending
    ensures Working(AfterStart(w, k, g, i, {}, now), k, g + 1, w0)
  {
    var b := w.batches[k];
    var c := SetStatus(b, g, i, ItemSuccess);
    StartedWhole(w, k, g, i, now);
    OneMoreGroupSent(b, c, k, g, w0.sent);
    DoneUpToNext(w, k, g, i, w0);
    NextEntries(w, k, g, i, w0, now);
    GoesOnWorking(w, AfterStart(w, k, g, i, {}, now), k, g, w0, c);
  }

  lemma GoesOnWorking(w: World, w': World, k: BatchKey, g: nat, w0: World, c: Batch)
    requires Working(w, k, g, w0) && InProgress(c, g + 1) && EntriesMatch(w', k, c, g + 1) &&
             OtherEntriesSame(w', w0, c, g + 1)
    requires w'.batches == w.batches[k := c] && g + 1 < |w.batches[k].groups|
    requires w'.sent == w.sent + Sendings(k, w.batches[k].groups[g + 1])
    requires w0.sent + SendingsUpTo(w.batches[k], k, g + 1) + Sendings(k, w.batches[k].groups[g + 1]) ==
               w0.sent + SendingsUpTo(c, k, g + 2)
    ensures Working(w', k, g + 1, w0)
  {
    assert w'.batches == w0.batches[k := c];
  }

  lemma NextEntries(w: World, k: BatchKey, g: nat, i: nat, w0: World, now: int)
    requires Inv(w) && Working(w, k, g, w0) && Starts(w, k, g, i) && w.batches[k].groups[g][i].status == ItemPending
    ensures var c := SetStatus(w.batches[k], g, i, ItemSuccess);
            var w' := AfterStart(w, k, g, i, {}, now);
            EntriesMatch(w', k, c, g + 1) && OtherEntriesSame(w', w0, c, g + 1)
  {
    var c := SetStatus(w.batches[k], g, i, ItemSuccess);
    var w' := AfterStart(w, k, g, i, {}, now);
    forall j, l | At(c, j, l) && j <= g + 1 ensures ItemWorking(w', k, c.groups[j][l]) {
      NextItemWorking(w, k, g, i, w0, now, j, l);
    }
    forall h | !InUpTo(c, g + 1, h) ensures SameEntry(w', w0, h) {
      NextSameEntry(w, k, g, i, w0, now, h);
    }
  }

  lemma OneMoreGroupSent(b: Batch, c: Batch, k: BatchKey, g: nat, sent: seq<Sending>)
    requires SameShape(b, c) && g + 1 < |b.groups| && b.groups[g + 1] == c.groups[g + 1]
    ensures sent + SendingsUpTo(b, k, g + 1) + Sendings(k, b.groups[g + 1]) == sent + SendingsUpTo(c, k, g + 2)
  {
    ShapeMeasures(b, c, k, g + 1);
    assert SendingsUpTo(c, k, g + 2) == SendingsUpTo(b, k, g + 1) + Sendings(k, b.groups[g + 1]);
  }

  lemma DoneUpToNext(w: World, k: BatchKey, g: nat, i: nat, w0: World)
    requires Working(w, k, g, w0) && Starts(w, k, g, i)
    ensures var c := SetStatus(w.batches[k], g, i, ItemSuccess);
            InProgress(c, g + 1)
  {
    var b := w.batches[k];
    var c := SetStatus(b, g, i, ItemSuccess);
    assert forall j :: 0 <= j < |b.groups| && j != g ==> c.groups[j] == b.groups[j];
    assert b.groups[g + 1] != [] && c.groups[g + 1][0].status == ItemPending;
  }

  lemma NextItemWorking(w: World, k: BatchKey, g: nat, i: nat, w0: World, now: int, j: int, l: int)
    requires Inv(w) && Working(w, k, g, w0) && Starts(w, k, g, i) && w.batches[k].groups[g][i].status == ItemPending
    requires At(w.batches[k], j, l) && j <= g + 1
    ensures ItemWorking(AfterStart(w, k, g, i, {}, now), k, SetStatus(w.batches[k], g, i, ItemSuccess).groups[j][l])
  {
    var b := w.batches[k];
    var next := b.groups[g + 1];
    StartedWhole(w, k, g, i, now);
    assert BatchOk(w, k, b);
    if j == g + 1 {
      assert Hashes(next)[l] in Hashes(next);
    } else {
      assert ItemWorking(w, k, b.groups[j][l]);
      assert SetStatus(b, g, i, ItemSuccess).groups[j][l].status == ItemSuccess by {
        assert j < g ==> Done(b.groups[j]);
      }
      forall m | 0 <= m < |next| ensures Hashes(next)[m] != b.groups[j][l].hash { assert At(b, g + 1, m); }
    }
  }

  lemma NextSameEntry(w: World, k: BatchKey, g: nat, i: nat, w0: World, now: int, h: Hash)
    requires Inv(w) && Working(w, k, g, w0) && Starts(w, k, g, i) &&
             !InUpTo(SetStatus(w.batches[k], g, i, ItemSuccess), g + 1, h)
    ensures SameEntry(AfterStart(w, k, g, i, {}, now), w0, h)
  {
    var b := w.batches[k];
    var next := b.groups[g + 1];
    StartedWhole(w, k, g, i, now);
    UpToKept(b, SetStatus(b, g, i, ItemSuccess), g + 1, h);
    assert !InUpTo(b, g, h);
    assert At(b, g, i);
    forall m | 0 <= m < |next| ensures Hashes(next)[m] != h { assert At(b, g + 1, m); }
    assert SameEntry(w, w0, h);
  }

  lemma AllCompleted(b: Batch, c: Batch)
    requires SameShape(b, c) && c.status == BatchSuccess && forall g :: 0 <= g < |c.groups| ==> AllSuccess(c.groups[g])
    ensures c == Completed(b)
  {
    var d := Completed(b);
    forall g | 0 <= g < |c.groups| ensures c.groups[g] == d.groups[g] {
      forall i | 0 <= i < |c.groups[g]| ensures c.groups[g][i] == d.groups[g][i] { assert At(b, g, i) && At(d, g, i); }
    }
    assert c.groups == d.groups;
  }

  lemma DeliverFinal(w: World, k: BatchKey, g: nat, i: nat, w0: World)
    requires Inv(w) && Working(w, k, g, w0) && CanSettle(w, k, g, i) && w.batches[k].groups[g][i].status == ItemPending
    requires AllSuccess(SetStatus(w.batches[k], g, i, ItemSuccess).groups[g]) && g + 1 == |w.batches[k].groups|
    ensures var b := w.batches[k];
            Finished(WithoutEntry(Store(w, k, SetStatus(b, g, i, ItemSuccess).(status := BatchSuccess)),
                b.groups[g][i].hash), k, b, w0)
  {
    var b := w.batches[k];
    var c := SetStatus(b, g, i, ItemSuccess).(status := BatchSuccess);
    var w' := WithoutEntry(Store(w, k, c), b.groups[g][i].hash);
    AllCompleted(b, c);
    forall h ensures if Has(b, h) then h !in w'.pending else SameEntry(w', w0, h) {
      if j, l :| At(b, j, l) && b.groups[j][l].hash == h {
        assert ItemWorking(w, k, b.groups[j][l]);
        assert j < g ==> Done(b.groups[j]);
        assert j == g && l != i ==> SetStatus(b, g, i, ItemSuccess).groups[g][l] == b.groups[g][l];
      } else {
        assert !InUpTo(b, g, h) && At(b, g, i);
      }
    }
  }

  /** One success report: the next item of the group, the start of the next group, or the end. */
  lemma DeliverOne(w: World, k: BatchKey, g: nat, w0: World, b0: Batch, s: Step) returns (g': nat)
    requires Inv(w) && WellFormed(w) && Working(w, k, g, w0) && SuccessReport(w, k, s)
    requires HasAddress(b0) && KeyOf(b0) == k && SameShape(b0, w.batches[k]) && Clean(w0, b0)
    ensures var b, w' := w.batches[k], Next(w, s);
            && k in w'.batches && SameShape(b, w'.batches[k])
            && if Progress(b, g) + 1 == Size(b) then Finished(w', k, b, w0)
               else Working(w', k, g', w0) && Progress(w'.batches[k], g') == Progress(b, g) + 1
  {
    var i := ReportedItem(w, k, g, w0, b0, s);
    g' := DeliverItem(w, k, g, w0, s, i);
  }

  lemma DeliverItem(w: World, k: BatchKey, g: nat, w0: World, s: Step, i: nat) returns (g': nat)
    requires Inv(w) && WellFormed(w) && Working(w, k, g, w0) && SuccessReport(w, k, s)
    requires CanSettle(w, k, g, i) && w.batches[k].groups[g][i].hash == s.hash &&
             w.batches[k].groups[g][i].status == ItemPending
    ensures var b, w' := w.batches[k], Next(w, s);
            && k in w'.batches && SameShape(b, w'.batches[k])
            && if Progress(b, g) + 1 == Size(b) then Finished(w', k, b, w0)
               else Working(w', k, g', w0) && Progress(w'.batches[k], g') == Progress(b, g) + 1
  {
    var b := w.batches[k];
    var c := SetStatus(b, g, i, ItemSuccess);
    OneMoreProgress(b, g, i);
    SizeAfter(b, c, g);
    AllSuccessCounts(c.groups[g]);
    g' := if AllSuccess(c.groups[g]) then g + 1 else g;
    if !AllSuccess(c.groups[g]) {
      ItemWithin(w, k, g, w0, s, i);
    } else if g + 1 < |b.groups| {
      ItemStart(w, k, g, w0, s, i);
    } else {
      ItemFinal(w, k, g, w0, s, i);
    }
  }

  lemma ItemWithin(w: World, k: BatchKey, g: nat, w0: World, s: Step, i: nat)
    requires Inv(w) && WellFormed(w) && Working(w, k, g, w0) && SuccessReport(w, k, s)
    requires CanSettle(w, k, g, i) && w.batches[k].groups[g][i].hash == s.hash &&
             w.batches[k].groups[g][i].status == ItemPending
    requires !AllSuccess(SetStatus(w.batches[k], g, i, ItemSuccess).groups[g])
    ensures Working(Next(w, s), k, g, w0) && Next(w, s).batches[k] == SetStatus(w.batches[k], g, i, ItemSuccess)
  {
    ReportedAs(w, k, g, i, s);
    DeliverWithin(w, k, g, i, w0);
  }

  lemma ItemStart(w: World, k: BatchKey, g: nat, w0: World, s: Step, i: nat)
    requires Inv(w) && WellFormed(w) && Working(w, k, g, w0) && SuccessReport(w, k, s) && g + 1 < |w.batches[k].groups|
    requires CanSettle(w, k, g, i) && w.batches[k].groups[g][i].hash == s.hash &&
             w.batches[k].groups[g][i].status == ItemPending
    requires AllSuccess(SetStatus(w.batches[k], g, i, ItemSuccess).groups[g])
    ensures var w', c := Next(w, s), SetStatus(w.batches[k], g, i, ItemSuccess);
            Working(w', k, g + 1, w0) && SameShape(w.batches[k], w'.batches[k]) &&
            Progress(w'.batches[k], g + 1) == SizeUpTo(c, g + 1)
  {
    ReportedAs(w, k, g, i, s);
    DeliverStart(w, k, g, i, w0, s.now);
  }

  lemma ItemFinal(w: World, k: BatchKey, g: nat, w0: World, s: Step, i: nat)
    requires Inv(w) && WellFormed(w) && Working(w, k, g, w0) && SuccessReport(w, k, s) && g + 1 == |w.batches[k].groups|
    requires CanSettle(w, k, g, i) && w.batches[k].groups[g][i].hash == s.hash &&
             w.batches[k].groups[g][i].status == ItemPending
    requires AllSuccess(SetStatus(w.batches[k], g, i, ItemSuccess).groups[g])
    ensures Finished(Next(w, s), k, w.batches[k], w0)
  {
    ReportedAs(w, k, g, i, s);
    DeliverFinal(w, k, g, i, w0);
  }

  /** The three things a success report can lead to. */
  lemma ReportedAs(w: World, k: BatchKey, g: nat, i: nat, s: Step)
    requires Inv(w) && WellFormed(w) && SuccessReport(w, k, s) && CanSettle(w, k, g, i)
    requires w.batches[k].groups[g][i].hash == s.hash && w.batches[k].status == BatchPending
    ensures var b := w.batches[k];
            var c := SetStatus(b, g, i, ItemSuccess);
            if !AllSuccess(c.groups[g]) then Next(w, s) == WithoutEntry(Store(w, k, c), s.hash)
            else if g + 1 < |b.groups| then Starts(w, k, g, i) && Next(w, s) == AfterStart(w, k, g, i, {}, s.now)
            else Next(w, s) == WithoutEntry(Store(w, k, c.(status := BatchSuccess)), s.hash)
  {
    assert BatchOk(w, k, w.batches[k]);
    ReportOne(w, k, g, i, ItemSuccess, {}, s.now);
  }

  lemma DeliverStart(w: World, k: BatchKey, g: nat, i: nat, w0: World, now: int)
    requires Inv(w) && Working(w, k, g, w0) && Starts(w, k, g, i) && w.batches[k].groups[g][i].status == ItemPending
    ensures var w' := AfterStart(w, k, g, i, {}, now);
            && Working(w', k, g + 1, w0) && SameShape(w.batches[k], w'.batches[k])
            && Progress(w'.batches[k], g + 1) == SizeUpTo(SetStatus(w.batches[k], g, i, ItemSuccess), g + 1)
  {
    DeliverAndStart(w, k, g, i, w0, now);
    StartedWhole(w, k, g, i, now);
    NoSuccessCounts(SetStatus(w.batches[k], g, i, ItemSuccess).groups[g + 1]);
  }

  lemma SizeAfter(b: Batch, c: Batch, g: nat)
    requires NoEmptyGroup(b) && SameShape(b, c) && g < |b.groups|
    ensures SizeUpTo(c, g + 1) == SizeUpTo(b, g + 1) && SizeUpTo(c, |c.groups|) == Size(b)
    ensures SizeUpTo(c, g + 1) <= Size(b) && (SizeUpTo(c, g + 1) == Size(b) <==> g + 1 == |b.groups|)
    ensures Successes(c.groups[g]) <= |b.groups[g]|
  {
    ShapeMeasures(b, c, BatchKey("", ""), g + 1);
    ShapeMeasures(b, c, BatchKey("", ""), |b.groups|);
    if g + 1 < |b.groups| { SizeGrows(b, g + 1, |b.groups|); }
  }

  lemma NoReportWhenFinished(w: World, k: BatchKey, b: Batch, w0: World, s: Step)
    requires Finished(w, k, b, w0)
    ensures !SuccessReport(w, k, s)
  {
    forall h | Has(w.batches[k], h) ensures h !in w.pending {
      var g, i :| At(w.batches[k], g, i) && w.batches[k].groups[g][i].hash == h;
      assert At(b, g, i);
    }
  }

  lemma FinishedShape(w: World, k: BatchKey, b: Batch, c: Batch, w0: World)
    requires Finished(w, k, b, w0) && SameShape(b, c)
    ensures Finished(w, k, c, w0)
  {
    AllCompletedAgain(b, c);
    ShapeMeasures(b, c, k, |b.groups|);
    forall h ensures Has(b, h) <==> Has(c, h) {
      if g, i :| At(b, g, i) && b.groups[g][i].hash == h { assert At(c, g, i); }
      if g, i :| At(c, g, i) && c.groups[g][i].hash == h { assert At(b, g, i); }
    }
  }

  lemma AllCompletedAgain(b: Batch, c: Batch)
    requires SameShape(b, c)
    ensures Completed(b) == Completed(c)
  {
    var d := Completed(b);
    assert forall g, i :: At(c, g, i) ==> At(b, g, i) && At(d, g, i);
    forall g | 0 <= g < |d.groups| ensures AllSuccess(d.groups[g]) {
      forall i | 0 <= i < |d.groups[g]| ensures d.groups[g][i].status == ItemSuccess { assert At(d, g, i); }
    }
    AllCompleted(c, d);
  }

  lemma StillOpen(w: World, k: BatchKey, g: nat, w0: World)
    requires Working(w, k, g, w0)
    ensures Progress(w.batches[k], g) < Size(w.batches[k])
  {
    var b := w.batches[k];
    AllSuccessCounts(b.groups[g]);
    SizeGrows(b, g, |b.groups|);
  }

  lemma {:induction false} DeliverAll(
      w: World, k: BatchKey, g: nat, w0: World, b0: Batch, steps: seq<Step>, w': World) returns (g': nat)
    requires Inv(w) && Working(w, k, g, w0) && Deliveries(w, k, steps, w')
    requires HasAddress(b0) && KeyOf(b0) == k && SameShape(b0, w.batches[k]) && Clean(w0, b0)
    ensures Inv(w') && k in w'.batches && SameShape(b0, w'.batches[k])
    ensures Progress(w.batches[k], g) + |steps| <= Size(b0)
    ensures if Progress(w.batches[k], g) + |steps| == Size(b0) then Finished(w', k, b0, w0) else Working(w', k, g', w0)
    decreases |steps|
  {
    g' := g;
    StillOpen(w, k, g, w0);
    ShapeMeasures(b0, w.batches[k], k, |b0.groups|);
    if steps != [] {
      var v := Next(w, steps[0]);
      StepPreserves(w, steps[0]);
      var g1 := DeliverOne(w, k, g, w0, b0, steps[0]);
      ShapeTransitive(b0, w.batches[k], v.batches[k]);
      if Progress(w.batches[k], g) + 1 == Size(b0) {
        DeliverEnd(v, k, w.batches[k], b0, w0, steps[1..], w');
      } else {
        g' := DeliverAll(v, k, g1, w0, b0, steps[1..], w');
      }
    }
  }

  lemma DeliverEnd(v: World, k: BatchKey, b: Batch, b0: Batch, w0: World, steps: seq<Step>, w': World)
    requires Finished(v, k, b, w0) && SameShape(b0, b) && Deliveries(v, k, steps, w')
    ensures steps == [] && w' == v && Finished(v, k, b0, w0)
  {
    if steps != [] { NoReportWhenFinished(v, k, b, w0, steps[0]); }
    assert forall g, i :: At(b, g, i) ==> At(b0, g, i);
    FinishedShape(v, k, b, b0, w0);
  }

  /** A batch that is still open has a transaction whose report would move it on. */
  lemma SomeReportIsDue(w: World, k: BatchKey, g: nat, w0: World) returns (s: Step)
    requires Working(w, k, g, w0)
    ensures SuccessReport(w, k, s)
  {
    var b := w.batches[k];
    var i :| 0 <= i < |b.groups[g]| && b.groups[g][i].status != ItemSuccess;
    assert At(b, g, i) && ItemWorking(w, k, b.groups[g][i]);
    s := ReportStep(b.groups[g][i].hash, ItemSuccess, {}, 0);
  }

  lemma SubmittedIsWorking(w: World, b: Batch, rejected: set<Hash>, now: int)
    requires DistinctHashes(b) && Accepted(w, b, rejected) && NoEmptyGroup(b)
    ensures var w1, k := Submit(w, b, rejected, now).0, KeyOf(b);
            Working(w1, k, 0, w) && SameShape(b, w1.batches[k]) && Progress(w1.batches[k], 0) == 0
  {
    var w1, k, r := Submit(w, b, rejected, now).0, KeyOf(b), Reset(b);
    AcceptedEffect(w, b, rejected, now);
    forall g | 0 <= g < |r.groups| ensures AllPending(r.groups[g]) { PendingAfterReset(b, g); }
    FirstIsListed(w, r, rejected, now);
    NoSuccessCounts(r.groups[0]);
    assert SendingsUpTo(r, k, 1) == [] + Sendings(k, r.groups[0]);
    forall h | !InUpTo(r, 0, h) ensures SameEntry(w1, w, h) {
      forall i | 0 <= i < |r.groups[0]| ensures r.groups[0][i].hash != h { assert At(r, 0, i); }
    }
  }

  /**
   Delivering one success per listed transaction, in any order the group starts permit: exactly as
   many reports as there are transactions make the batch successful, before that another one is
   always due, and the world they lead to is one and the same for every order.
   */
  lemma AnyOrderCompletes(w: World, b: Batch, rejected: set<Hash>, now: int, steps: seq<Step>, w': World)
    requires Inv(w) && DistinctHashes(b) && Accepted(w, b, rejected) && NoEmptyGroup(b) && Clean(w, b)
    requires Deliveries(Submit(w, b, rejected, now).0, KeyOf(b), steps, w')
    ensures KeyOf(b) in w'.batches && |steps| <= Size(b)
    ensures w'.batches[KeyOf(b)].status == BatchSuccess <==> |steps| == Size(b)
    ensures |steps| == Size(b) ==> Finished(w', KeyOf(b), b, w)
    ensures |steps| < Size(b) ==> exists s :: SuccessReport(w', KeyOf(b), s)
  {
    var k := KeyOf(b);
    SubmitPreserves(w, b, rejected, now);
    SubmittedIsWorking(w, b, rejected, now);
    var g := DeliverAll(Submit(w, b, rejected, now).0, k, 0, w, b, steps, w');
    if |steps| < Size(b) { var s := SomeReportIsDue(w', k, g, w); }
  }

  /** Two complete deliveries end in equal worlds, whatever their orders. */
  lemma OrderOfReportsDoesNotMatter(
      w: World, b: Batch, rejected: set<Hash>, now: int, steps: seq<Step>, v: World, steps': seq<Step>, v': World)
    requires Inv(w) && DistinctHashes(b) && Accepted(w, b, rejected) && NoEmptyGroup(b) && Clean(w, b)
    requires Deliveries(Submit(w, b, rejected, now).0, KeyOf(b), steps, v) &&
             Deliveries(Submit(w, b, rejected, now).0, KeyOf(b), steps', v')
    requires |steps| == |steps'| == Size(b)
    ensures v == v'
  {
    AnyOrderCompletes(w, b, rejected, now, steps, v);
    AnyOrderCompletes(w, b, rejected, now, steps', v');
    FinishedIsUnique(v, v', KeyOf(b), b, w);
  }

  /**
   The pending entry is what makes a group start once. A success that was already processed has no
   entry for the batch any more; processing it without looking for one would send the next group again.
   */
  lemma UnguardedReportSendsAgain(w: World, k: BatchKey, g: nat, i: nat, rejected: set<Hash>, now: int)
    requires Inv(w) && WellFormed(w) && k in w.batches && At(w.batches[k], g, i) && g + 1 < |w.batches[k].groups|
    requires w.batches[k].status == BatchPending && AllSuccess(w.batches[k].groups[g])
    ensures var b := w.batches[k];
            var h := b.groups[g][i].hash;
            && !Listed(w, k, h)
            && Process(w, k, h, ItemSuccess, rejected, now).sent ==
                 w.sent + Sendings(k, SentPart(b.groups[g + 1], rejected))
  {
    var b := w.batches[k];
    assert BatchOk(w, k, b) && EntryOk(w, k, b, b.groups[g][i]);
    ProcessOne(w, k, b, 0, 0, b.groups[g][i].hash, ItemSuccess, rejected, now, g, i);
    assert b.groups[g][i := b.groups[g][i]] == b.groups[g] && b.groups[g := b.groups[g]] == b.groups;
    assert SetStatus(b, g, i, ItemSuccess) == b;
  }
}
