/**
 Success reports delivered one by one: a group whose items all have entries, followed by groups that
 are not empty, carries the batch to success, whatever the groups before it are like.
 */
module BatchChain {
  import opened Collections
  import opened TransactionBatches
  import opened BatchSteps
  import opened BatchSafety

  /** The chain reports success for a listed transaction of batch `k`; the gateway refuses nothing. */
  ghost predicate SuccessReport(w: World, k: BatchKey, s: Step) {
    && s.ReportStep? && s.status == ItemSuccess && s.rejected == {}
    && k in w.batches && Listed(w, k, s.hash) && Has(w.batches[k], s.hash)
  }

  /** `steps` are success reports, each for a transaction that is listed when its turn comes. */
  ghost predicate Deliveries(w: World, k: BatchKey, steps: seq<Step>, w': World)
    decreases |steps|
  {
    if steps == [] then w == w'
    else WellFormed(w) && SuccessReport(w, k, steps[0]) && Deliveries(Next(w, steps[0]), k, steps[1..], w')
  }

  lemma {:induction false} DeliveriesAreRuns(w: World, k: BatchKey, steps: seq<Step>, w': World)
    requires Deliveries(w, k, steps, w')
    ensures LeadsTo(w, steps, w', k)
    decreases |steps|
  {
    if steps != [] {
      DeliveriesAreRuns(Next(w, steps[0]), k, steps[1..], w');
      assert steps == [steps[0]] + steps[1..];
    }
  }

  lemma {:induction false} NothingStops(g: Group)
    requires forall i :: 0 <= i < |g| ==> g[i].status == ItemPending
    ensures FirstStop(g, {}) == |g|
  {
    if g != [] { NothingStops(g[1..]); }
  }

  ghost predicate AllPending(g: Group) {
    forall i :: 0 <= i < |g| ==> g[i].status == ItemPending
  }

  /** The first `j` items of group `m` succeeded, its others wait for their report, later groups for their start. */
  ghost predicate ReadyAt(w: World, k: BatchKey, m: int, j: int) {
    && k in w.batches
    && var b := w.batches[k];
    && 0 <= m < |b.groups| && 0 <= j < |b.groups[m]| && b.status == BatchPending
    && (forall g :: m <= g < |b.groups| ==> b.groups[g] != [])
    && (forall i :: 0 <= i < j ==> b.groups[m][i].status == ItemSuccess)
    && (forall i :: j <= i < |b.groups[m]| ==>
          b.groups[m][i].status == ItemPending && Listed(w, k, b.groups[m][i].hash))
    && (forall g :: m < g < |b.groups| ==> AllPending(b.groups[g]))
  }

  ghost predicate SameBefore(b: Batch, c: Batch, m: nat) {
    |b.groups| == |c.groups| && m <= |b.groups| && b.groups[..m] == c.groups[..m]
  }

  /** Items of groups before `m` keep their entries. */
  ghost predicate KeepsEntries(w: World, w': World, k: BatchKey, b: Batch, m: nat) {
    forall g, i :: At(b, g, i) && g < m && Listed(w, k, b.groups[g][i].hash) ==> Listed(w', k, b.groups[g][i].hash)
  }

  /** A group of open items that the gateway accepts whole is started as it is, and gets its entries. */
  lemma StartedWhole(w: World, k: BatchKey, g: nat, i: nat, now: int)
    requires Inv(w) && Starts(w, k, g, i) && AllPending(w.batches[k].groups[g + 1])
    ensures var b := w.batches[k];
            var w' := AfterStart(w, k, g, i, {}, now);
            var next := b.groups[g + 1];
            && w'.batches == w.batches[k := SetStatus(b, g, i, ItemSuccess)]
            && w'.sent == w.sent + Sendings(k, next)
            && (forall h :: h in Hashes(next) ==> Listed(w', k, h))
            && (forall h :: h !in Hashes(next) && h != b.groups[g][i].hash ==>
                  (h in w'.pending <==> h in w.pending) && (h in w.pending ==> w'.pending[h] == w.pending[h]))
            && b.groups[g][i].hash !in w'.pending
  {
    StartedAsItIs(w, k, g, i, now);
    StartedEntries(w, k, g, i, now);
  }

  lemma StartedAsItIs(w: World, k: BatchKey, g: nat, i: nat, now: int)
    requires Starts(w, k, g, i) && AllPending(w.batches[k].groups[g + 1])
    ensures var b, w' := w.batches[k], AfterStart(w, k, g, i, {}, now);
            && w'.batches == w.batches[k := SetStatus(b, g, i, ItemSuccess)]
            && w'.sent == w.sent + Sendings(k, b.groups[g + 1])
  {
    var c := SetStatus(w.batches[k], g, i, ItemSuccess);
    var next := w.batches[k].groups[g + 1];
    NothingStops(next);
    StartedWorld(w, k, g, i, {}, now);
    assert c.groups[g + 1 := next] == c.groups;
  }

  lemma StartedEntries(w: World, k: BatchKey, g: nat, i: nat, now: int)
    requires Inv(w) && Starts(w, k, g, i) && AllPending(w.batches[k].groups[g + 1])
    ensures var b := w.batches[k];
            var w' := AfterStart(w, k, g, i, {}, now);
            var next := b.groups[g + 1];
            && (forall h :: h in Hashes(next) ==> Listed(w', k, h))
            && (forall h :: h !in Hashes(next) && h != b.groups[g][i].hash ==>
                  (h in w'.pending <==> h in w.pending) && (h in w.pending ==> w'.pending[h] == w.pending[h]))
            && b.groups[g][i].hash !in w'.pending
  {
    var next := w.batches[k].groups[g + 1];
    var e := PendingEntry(w.batches[k].id, AddressOf(w.batches[k]), now);
    StartedPending(w, k, g, i, now);
    RegisteredElsewhere(w, k, g, i, {});
    RegisteredAll(next);
    RegisterFacts(w.pending, Registered(next, {}), e, w.batches[k].groups[g][i].hash);
    assert EntryKey(e) == k;
  }

  lemma StartedPending(w: World, k: BatchKey, g: nat, i: nat, now: int)
    requires Starts(w, k, g, i)
    ensures var b := w.batches[k];
            var e := PendingEntry(b.id, AddressOf(b), now);
            AfterStart(w, k, g, i, {}, now).pending ==
              Register(w.pending, Registered(b.groups[g + 1], {}), e) - {b.groups[g][i].hash}
  {
    StartedWorld(w, k, g, i, {}, now);
  }

  lemma RegisterFacts(pending: map<Hash, PendingEntry>, hs: set<Hash>, e: PendingEntry, x: Hash)
    requires x !in hs
    ensures var r := Register(pending, hs, e) - {x};
            && x !in r && (forall h :: h in hs ==> h in r && r[h] == e)
            && forall h :: h !in hs && h != x ==> (h in r <==> h in pending) && (h in r ==> r[h] == pending[h])
  {
  }

  lemma RegisteredAll(g: Group)
    requires AllPending(g)
    ensures forall h :: h in Registered(g, {}) <==> h in Hashes(g)
  {
    NothingStops(g);
    forall h | h in Hashes(g) ensures h in Registered(g, {}) {
      var i :| 0 <= i < |g| && Hashes(g)[i] == h;
      assert g[i].hash == h;
    }
    forall h | h in Registered(g, {}) ensures h in Hashes(g) {
      var i :| 0 <= i < |g| && g[i].hash == h;
      assert Hashes(g)[i] == h;
    }
  }

  /** The report of the next item. */
  function ReportAt(w: World, k: BatchKey, m: nat, j: nat): Step
    requires k in w.batches && At(w.batches[k], m, j)
  {
    ReportStep(w.batches[k].groups[m][j].hash, ItemSuccess, {}, 0)
  }

  lemma DeliverWithin(w: World, k: BatchKey, m: nat, j: nat)
    requires Inv(w) && WellFormed(w) && ReadyAt(w, k, m, j) && j + 1 < |w.batches[k].groups[m]|
    ensures var w' := Next(w, ReportAt(w, k, m, j));
            ReadyAt(w', k, m, j + 1) && SameBefore(w.batches[k], w'.batches[k], m)
            && |w'.batches[k].groups[m]| == |w.batches[k].groups[m]| && KeepsEntries(w, w', k, w.batches[k], m)
  {
    var b := w.batches[k];
    assert BatchOk(w, k, b);
    ReportOne(w, k, m, j, ItemSuccess, {}, 0);
    var c := SetStatus(b, m, j, ItemSuccess);
    assert c.groups[m][j + 1].status == ItemPending;
    DistinctGroup(b, m);
  }

  lemma DeliverAndStart(w: World, k: BatchKey, m: nat, j: nat)
    requires Inv(w) && WellFormed(w) && ReadyAt(w, k, m, j) && j + 1 == |w.batches[k].groups[m]| &&
             m + 1 < |w.batches[k].groups|
    ensures var w' := Next(w, ReportAt(w, k, m, j));
            ReadyAt(w', k, m + 1, 0) && SameBefore(w.batches[k], w'.batches[k], m) &&
            KeepsEntries(w, w', k, w.batches[k], m)
  {
    var b := w.batches[k];
    assert BatchOk(w, k, b);
    ReportOne(w, k, m, j, ItemSuccess, {}, 0);
    NextIsReady(w, k, m, j);
    NextKeepsEntries(w, k, m, j);
  }

  lemma NextKeepsEntries(w: World, k: BatchKey, m: nat, j: nat)
    requires Inv(w) && ReadyAt(w, k, m, j) && Starts(w, k, m, j)
    ensures KeepsEntries(w, AfterStart(w, k, m, j, {}, 0), k, w.batches[k], m)
  {
    var b := w.batches[k];
    assert BatchOk(w, k, b);
    StartedWhole(w, k, m, j, 0);
    forall g, i | At(b, g, i) && g < m
      ensures b.groups[g][i].hash !in Hashes(b.groups[m + 1]) && b.groups[g][i].hash != b.groups[m][j].hash
    {
      var next := b.groups[m + 1];
      assert forall l :: 0 <= l < |next| ==> At(b, m + 1, l) && Hashes(next)[l] == b.groups[m + 1][l].hash;
      assert At(b, m, j);
    }
  }

  lemma NextIsReady(w: World, k: BatchKey, m: nat, j: nat)
    requires Inv(w) && ReadyAt(w, k, m, j) && Starts(w, k, m, j)
    ensures var w' := AfterStart(w, k, m, j, {}, 0);
            ReadyAt(w', k, m + 1, 0) && SameBefore(w.batches[k], w'.batches[k], m)
  {
    StartedWhole(w, k, m, j, 0);
    NextIsListed(w, k, m, j);
    assert AfterStart(w, k, m, j, {}, 0).batches[k] == SetStatus(w.batches[k], m, j, ItemSuccess);
  }

  lemma NextIsListed(w: World, k: BatchKey, m: nat, j: nat)
    requires Inv(w) && ReadyAt(w, k, m, j) && Starts(w, k, m, j)
    ensures var next := w.batches[k].groups[m + 1];
            forall i :: 0 <= i < |next| ==> Listed(AfterStart(w, k, m, j, {}, 0), k, next[i].hash)
  {
    StartedWhole(w, k, m, j, 0);
    var next := w.batches[k].groups[m + 1];
    forall i | 0 <= i < |next| ensures Listed(AfterStart(w, k, m, j, {}, 0), k, next[i].hash) {
      assert Hashes(next)[i] in Hashes(next);
    }
  }

  lemma DeliverLast(w: World, k: BatchKey, m: nat, j: nat)
    requires Inv(w) && WellFormed(w) && ReadyAt(w, k, m, j) && j + 1 == |w.batches[k].groups[m]| &&
             m + 1 == |w.batches[k].groups|
    ensures var w' := Next(w, ReportAt(w, k, m, j));
            k in w'.batches && w'.batches[k].status == BatchSuccess && SameBefore(w.batches[k], w'.batches[k], m)
            && KeepsEntries(w, w', k, w.batches[k], m)
  {
    assert BatchOk(w, k, w.batches[k]);
    ReportOne(w, k, m, j, ItemSuccess, {}, 0);
  }

  /** From there on, success can be reached without a change to the groups before. */
  lemma {:induction false} ChainCompletes(w: World, k: BatchKey, m: nat, j: nat) returns (steps: seq<Step>, w': World)
    requires Inv(w) && ReadyAt(w, k, m, j)
    ensures Deliveries(w, k, steps, w') && k in w'.batches && w'.batches[k].status == BatchSuccess
    ensures SameBefore(w.batches[k], w'.batches[k], m) && KeepsEntries(w, w', k, w.batches[k], m)
    decreases |w.batches[k].groups| - m, |w.batches[k].groups[m]| - j
  {
    InvIsWellFormed(w);
    var b := w.batches[k];
    var s := ReportAt(w, k, m, j);
    var v := Next(w, s);
    StepPreserves(w, s);
    InvIsWellFormed(v);
    assert Has(b, s.hash) by { assert At(b, m, j); }
    if m + 1 == |b.groups| && j + 1 == |b.groups[m]| {
      DeliverLast(w, k, m, j);
      steps, w' := [s], v;
      assert steps[1..] == [];
    } else {
      var rest;
      if j + 1 < |b.groups[m]| {
        DeliverWithin(w, k, m, j);
        rest, w' := ChainGoesOn(w, v, k, m, j, m, j + 1);
      } else {
        DeliverAndStart(w, k, m, j);
        rest, w' := ChainGoesOn(w, v, k, m, j, m + 1, 0);
      }
      steps := [s] + rest;
      assert steps[1..] == rest;
    }
  }

  lemma {:induction false} ChainGoesOn(
      w: World, v: World, k: BatchKey, m: nat, j: nat, m': nat, j': nat) returns (steps: seq<Step>, w': World)
    requires Inv(v) && ReadyAt(w, k, m, j) && ReadyAt(v, k, m', j') && SameBefore(w.batches[k], v.batches[k], m)
    requires KeepsEntries(w, v, k, w.batches[k], m)
    requires m' > m || (m' == m && j' > j && |v.batches[k].groups[m]| == |w.batches[k].groups[m]|)
    ensures Deliveries(v, k, steps, w') && k in w'.batches && w'.batches[k].status == BatchSuccess
    ensures SameBefore(w.batches[k], w'.batches[k], m) && KeepsEntries(w, w', k, w.batches[k], m)
    decreases |w.batches[k].groups| - m, |w.batches[k].groups[m]| - j, 0
  {
    steps, w' := ChainCompletes(v, k, m', j');
    var b, d := v.batches[k], w'.batches[k];
    assert b.groups[..m] == b.groups[..m'][..m] == d.groups[..m'][..m] == d.groups[..m];
    var a := w.batches[k];
    forall g, i | At(a, g, i) && g < m && Listed(w, k, a.groups[g][i].hash) ensures Listed(w', k, a.groups[g][i].hash) {
      assert a.groups[g] == a.groups[..m][g] == b.groups[..m][g] && At(b, g, i);
    }
  }
}
