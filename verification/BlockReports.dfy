/**
 The transactions of one block, handled with the pending entries read at the start, are reports one
 after the other.
 */
module BlockReports {
  import opened Collections
  import opened TransactionBatches
  import opened BatchSteps
  import opened BatchSafety

  /** The reports for the given hashes. */
  function Reports(
      hashes: seq<Hash>, txs: map<Hash, ShardTransaction>, rejected: set<Hash>, now: int): (steps: seq<Step>)
    requires forall h :: h in hashes ==> h in txs
    ensures |steps| == |hashes|
    ensures forall i :: 0 <= i < |steps| ==> steps[i] == ReportStep(hashes[i], txs[hashes[i]].status, rejected, now)
  {
    seq(|hashes|, i requires 0 <= i < |hashes| =>
      assert hashes[i] in hashes; ReportStep(hashes[i], txs[hashes[i]].status, rejected, now))
  }

  lemma {:induction false} RunSnoc(w: World, steps: seq<Step>, v: World, s: Step)
    requires Run(w, steps, v) && WellFormed(v) && Enabled(s)
    ensures Run(w, steps + [s], Next(v, s))
    decreases |steps|
  {
    if steps == [] {
      assert ([] + [s])[1..] == [];
    } else {
      assert (steps + [s])[1..] == steps[1..] + [s];
      RunSnoc(Next(w, steps[0]), steps[1..], v, s);
    }
  }

  /** No other cached batch has a transaction that is listed for one. */
  ghost predicate NoSharing(w: World, h: Hash) {
    h in w.pending ==> forall k :: k in w.batches && k != EntryKey(w.pending[h]) ==> !Has(w.batches[k], h)
  }

  /** Still listed, for the batch it was listed for at the start. */
  ghost predicate SameOwner(w: World, v: World, h: Hash) {
    h in w.pending && h in v.pending && EntryKey(v.pending[h]) == EntryKey(w.pending[h]) && NoSharing(v, h)
  }

  lemma HasKept(b: Batch, c: Batch, h: Hash)
    requires SameShape(b, c) && Has(c, h)
    ensures Has(b, h)
  {
    var g, i :| At(c, g, i) && c.groups[g][i].hash == h;
    assert At(b, g, i);
  }

  /** Settling one item leaves the entries of transactions that are not shared with their batch. */
  lemma TouchKeepsOwner(
      w: World, k: BatchKey, g: nat, i: nat, status: ItemStatus, rejected: set<Hash>, now: int, h: Hash)
    requires Inv(w) && WellFormed(w) && CanSettle(w, k, g, i) && HasAddress(w.batches[k]) && KeyOf(w.batches[k]) == k
    requires h in w.pending && NoSharing(w, h)
    ensures var v := Touch(w, k, w.batches[k], g, i, status, rejected, now).0;
            SameOwner(w, v, h)
  {
    var b := w.batches[k];
    var (v, c) := Touch(w, k, b, g, i, status, rejected, now);
    TouchParts(w, k, g, i, status, rejected, now);
    if g + 1 < |b.groups| && h in Registered(b.groups[g + 1], rejected) {
      var j :| 0 <= j < |b.groups[g + 1]| && b.groups[g + 1][j].hash == h;
      assert At(b, g + 1, j) && Has(b, h);
    }
    if Has(c, h) { HasKept(b, c, h); }
  }

  lemma ReportKeepsOwner(w: World, h: Hash, status: ItemStatus, rejected: set<Hash>, now: int, other: Hash)
    requires Inv(w) && WellFormed(w) && other in w.pending && NoSharing(w, other) && other != h
    ensures SameOwner(w, Report(w, h, status, rejected, now), other)
  {
    if h in w.pending {
      var k := EntryKey(w.pending[h]);
      if k in w.batches && Has(w.batches[k], h) {
        var g: nat, i: nat :| At(w.batches[k], g, i) && w.batches[k].groups[g][i].hash == h;
        assert BatchOk(w, k, w.batches[k]);
        ReportOne(w, k, g, i, status, rejected, now);
        TouchKeepsOwner(w, k, g, i, status, rejected, now, other);
      } else {
        ReportLost(w, h, status, rejected, now);
      }
    }
  }

  /** What holds when the given hashes were processed from `w` on. */
  ghost predicate Reported(
      w: World, hashes: seq<Hash>, txs: map<Hash, ShardTransaction>, rejected: set<Hash>, now: int, v: World)
    requires forall h :: h in hashes ==> h in txs
  {
    && Run(w, Reports(hashes, txs, rejected, now), v) && Inv(v) && WellFormed(v)
    && forall h :: h in w.pending && NoSharing(w, h) && h !in hashes ==> SameOwner(w, v, h)
  }

  lemma ReportedSnoc(
      w: World, hashes: seq<Hash>, h: Hash, txs: map<Hash, ShardTransaction>, rejected: set<Hash>, now: int,
      v: World)
    requires forall x :: x in hashes + [h] ==> x in txs
    requires forall x :: x in hashes ==> x in txs
    requires Reported(w, hashes, txs, rejected, now, v)
    ensures Reported(w, hashes + [h], txs, rejected, now, Report(v, h, txs[h].status, rejected, now))
  {
    var s := ReportStep(h, txs[h].status, rejected, now);
    RunSnoc(w, Reports(hashes, txs, rejected, now), v, s);
    assert Reports(hashes, txs, rejected, now) + [s] == Reports(hashes + [h], txs, rejected, now);
    StepPreserves(v, s);
    InvIsWellFormed(Next(v, s));
    forall x | x in w.pending && NoSharing(w, x) && x !in hashes + [h] ensures SameOwner(w, Next(v, s), x) {
      ReportKeepsOwner(v, h, txs[h].status, rejected, now, x);
    }
  }

  lemma {:induction false} ProcessingIsReporting(
      w: World, hashes: seq<Hash>, txs: map<Hash, ShardTransaction>, rejected: set<Hash>, now: int)
    requires Inv(w) && WellFormed(w) && NoRepetition(hashes)
    requires forall h :: h in hashes ==> h in w.pending && NoSharing(w, h) && h in txs
    ensures Reported(w, hashes, txs, rejected, now, ProcessAll(w, w.pending, hashes, txs, rejected, now))
    decreases |hashes|
  {
    if hashes != [] {
      var front, h := hashes[..|hashes| - 1], hashes[|hashes| - 1];
      assert hashes == front + [h];
      ProcessingIsReporting(w, front, txs, rejected, now);
      var v := ProcessAll(w, w.pending, front, txs, rejected, now);
      assert SameOwner(w, v, h);
      ReportedSnoc(w, front, h, txs, rejected, now, v);
    }
  }

  /**
   Handling a block is a run of reports, one for each transaction that was pending, so everything
   that holds of runs holds of it; unless a cached batch has a transaction listed for another.
   */
  lemma HandlingIsARun(w: World, txs: seq<ShardTransaction>, rejected: set<Hash>, now: int)
    requires Inv(w) && WellFormed(w) && forall h :: h in PendingHashes(txs, w.pending) ==> NoSharing(w, h)
    ensures var hashes := PendingHashes(txs, w.pending);
            && (forall h :: h in hashes ==> h in ByHash(txs))
            && Run(w, Reports(hashes, ByHash(txs), rejected, now), Handle(w, txs, rejected, now))
            && Inv(Handle(w, txs, rejected, now))
  {
    HashFacts(txs, w.pending);
    ProcessingIsReporting(w, PendingHashes(txs, w.pending), ByHash(txs), rejected, now);
  }
}
