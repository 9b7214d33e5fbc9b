/**
 When a submitted batch keeps its promises: order, success, and what was settled. Each promise holds
 over every run exactly under a condition on the entries that are live at the submission.
 */
module BatchOrder {
  import opened Collections
  import opened TransactionBatches
  import opened BatchSteps
  import opened BatchSafety
  import opened BatchChain

  // ----- order --------------------------------------------------------------------------------

  /** An item is settled only after all earlier groups succeeded. */
  ghost predicate Ordered(b: Batch) {
    forall g, i :: At(b, g, i) && b.groups[g][i].status != ItemPending ==> DoneFrom(b, 0, g)
  }

  ghost predicate AlwaysOrdered(w: World, k: BatchKey) {
    forall steps, w' :: LeadsTo(w, steps, w', k) ==> k in w'.batches && Ordered(w'.batches[k])
  }

  /** No transaction of a later group has a live entry under the key of the batch. */
  ghost predicate Clean(w: World, b: Batch)
    requires HasAddress(b)
  {
    forall g, i :: !LeftOver(w, b, g, i)
  }

  lemma CleanIsTracked(w: World, b: Batch, rejected: set<Hash>, now: int)
    requires DistinctHashes(b) && Accepted(w, b, rejected) && Clean(w, b)
    ensures Tracked(Submit(w, b, rejected, now).0, KeyOf(b), |SentFor(w.sent, KeyOf(b))|, 0, {})
  {
    forall g | 0 < g < |b.groups| && b.groups[g] != [] ensures SomeFresh(b.groups[g], {}) {
      assert b.groups[g][0].hash !in {};
    }
    SubmittedTracked(w, b, rejected, now, 0, {});
  }

  lemma TrackedIsOrdered(w: World, k: BatchKey, n: nat)
    requires Tracked(w, k, n, 0, {})
    ensures Ordered(w.batches[k])
  {
    var b := w.batches[k];
    forall g, i | At(b, g, i) && b.groups[g][i].status != ItemPending ensures DoneFrom(b, 0, g) {
      assert ItemTracked(w, k, n, 0, {}, b, g, i);
    }
  }

  /** An entry that was left over settles its item while the first group is open. */
  lemma LeftOverBreaksOrder(w: World, b: Batch, rejected: set<Hash>, now: int, g: nat, i: nat)
    requires Inv(w) && DistinctHashes(b) && Accepted(w, b, rejected) && LeftOver(w, b, g, i)
    ensures var w1 := Submit(w, b, rejected, now).0;
            WellFormed(w1)
            && var w' := Report(w1, b.groups[g][i].hash, ItemSuccess, {}, 0);
            KeyOf(b) in w'.batches && !Ordered(w'.batches[KeyOf(b)])
  {
    var k := KeyOf(b);
    var w1 := Submit(w, b, rejected, now).0;
    var r := Reset(b);
    SubmitPreserves(w, b, rejected, now);
    InvIsWellFormed(w1);
    AcceptedEffect(w, b, rejected, now);
    EntriesStay(w, b, rejected, now, g, i);
    assert CanSettle(w1, k, g, i);
    ReportOne(w1, k, g, i, ItemSuccess, {}, 0);
    SettledAlone(w1, k, g, i);
    assert At(r, 0, 0);
  }

  /** Accepting a batch keeps the entries of its later groups. */
  lemma EntriesStay(w: World, b: Batch, rejected: set<Hash>, now: int, g: nat, i: nat)
    requires DistinctHashes(b) && Accepted(w, b, rejected) && At(b, g, i) && g > 0
    ensures var w1 := Submit(w, b, rejected, now).0;
            Listed(w, KeyOf(b), b.groups[g][i].hash) ==> Listed(w1, KeyOf(b), b.groups[g][i].hash)
  {
    var r := Reset(b);
    AcceptedEffect(w, b, rejected, now);
    DistinctKept(b, r);
    assert At(r, g, i);
    SentIsNext(r, 0, rejected, g, i);
  }

  /** Settling an item of a later group leaves the first group alone. */
  lemma SettledAlone(w: World, k: BatchKey, g: nat, i: nat)
    requires k in w.batches && HasAddress(w.batches[k]) && At(w.batches[k], g, i) && g > 0
    ensures var c := Touch(w, k, w.batches[k], g, i, ItemSuccess, {}, 0).1;
            c.groups[0] == w.batches[k].groups[0] && At(c, g, i) && c.groups[g][i].status == ItemSuccess
  {
  }

  /** Items are settled in order over every run exactly if the submission found nothing left over. */
  lemma OrderIffNothingLeftOver(w: World, b: Batch, rejected: set<Hash>, now: int)
    requires Inv(w) && DistinctHashes(b) && Accepted(w, b, rejected)
    ensures AlwaysOrdered(Submit(w, b, rejected, now).0, KeyOf(b)) <==> Clean(w, b)
  {
    var k := KeyOf(b);
    var w1 := Submit(w, b, rejected, now).0;
    SubmitPreserves(w, b, rejected, now);
    InvIsWellFormed(w1);
    if Clean(w, b) {
      CleanIsTracked(w, b, rejected, now);
      forall steps, w' | LeadsTo(w1, steps, w', k) ensures k in w'.batches && Ordered(w'.batches[k]) {
        RunTracked(w1, steps, w', k, |SentFor(w.sent, k)|, 0, {});
        TrackedIsOrdered(w', k, |SentFor(w.sent, k)|);
      }
    } else {
      var g: nat, i: nat :| LeftOver(w, b, g, i);
      LeftOverBreaksOrder(w, b, rejected, now, g, i);
      OneStep(w1, ReportStep(b.groups[g][i].hash, ItemSuccess, {}, 0), k);
    }
  }

  lemma OneStep(w: World, s: Step, k: BatchKey)
    requires WellFormed(w) && Enabled(s) && s != ExpireBatch(k)
    ensures LeadsTo(w, [s], Next(w, s), k)
  {
    assert [s][1..] == [] && Run(Next(w, s), [], Next(w, s));
  }

  // ----- success ------------------------------------------------------------------------------

  ghost predicate Sound(b: Batch) {
    b.status == BatchSuccess ==> DoneFrom(b, 0, |b.groups|)
  }

  ghost predicate AlwaysSound(w: World, k: BatchKey) {
    forall steps, w' :: LeadsTo(w, steps, w', k) ==> k in w'.batches && Sound(w'.batches[k])
  }

  /** A later group has live entries for all its transactions, and it and the groups after it are not empty. */
  ghost predicate CanOvertake(w: World, b: Batch, m: int)
    requires HasAddress(b)
  {
    && 0 < m < |b.groups|
    && (forall g :: m <= g < |b.groups| ==> b.groups[g] != [])
    && forall i :: 0 <= i < |b.groups[m]| ==> Listed(w, KeyOf(b), b.groups[m][i].hash)
  }

  /** The last empty group, or the first group. */
  lemma LastEmpty(b: Batch, n: nat) returns (lo: nat)
    requires 0 < n <= |b.groups|
    ensures lo < n && (lo == 0 || b.groups[lo] == []) && forall g :: lo < g < n ==> b.groups[g] != []
  {
    lo := n - 1;
    if lo > 0 && b.groups[lo] != [] { lo := LastEmpty(b, n - 1); }
  }

  function Stale(w: World, k: BatchKey): set<Hash> {
    set h | h in w.pending && EntryKey(w.pending[h]) == k
  }

  lemma NoOvertakingIsTracked(w: World, b: Batch, rejected: set<Hash>, now: int) returns (lo: nat)
    requires DistinctHashes(b) && Accepted(w, b, rejected) && !exists m :: CanOvertake(w, b, m)
    ensures lo < |b.groups| && (lo == 0 || b.groups[lo] == []) && forall g :: lo < g < |b.groups| ==> b.groups[g] != []
    ensures Tracked(Submit(w, b, rejected, now).0, KeyOf(b), |SentFor(w.sent, KeyOf(b))|, lo, Stale(w, KeyOf(b)))
  {
    lo := LastEmpty(b, |b.groups|);
    forall g | lo < g < |b.groups| && b.groups[g] != [] ensures SomeFresh(b.groups[g], Stale(w, KeyOf(b))) {
      assert !CanOvertake(w, b, g);
    }
    SubmittedTracked(w, b, rejected, now, lo, Stale(w, KeyOf(b)));
  }

  lemma NeverPassesEmpty(b: Batch, lo: nat)
    requires lo < |b.groups|
    ensures b.groups[lo] == [] ==> !DoneFrom(b, lo, |b.groups|)
  {
    if b.groups[lo] == [] { assert !Done(b.groups[lo]); }
  }

  lemma {:induction false} RunKeepsShape(w: World, steps: seq<Step>, w': World, k: BatchKey)
    requires Inv(w) && LeadsTo(w, steps, w', k) && k in w.batches
    ensures k in w'.batches && SameShape(w.batches[k], w'.batches[k])
    ensures w.batches[k].status != BatchPending ==> w'.batches[k].status in {w.batches[k].status, BatchDropped}
    decreases |steps|
  {
    if steps != [] {
      var v := Next(w, steps[0]);
      assert steps[0] in steps;
      StepPreserves(w, steps[0]);
      StepKeepsShape(w, steps[0], k);
      RunKeepsShape(v, steps[1..], w', k);
      ShapeTransitive(w.batches[k], v.batches[k], w'.batches[k]);
    }
  }

  lemma ShapeTransitive(a: Batch, b: Batch, c: Batch)
    requires SameShape(a, b) && SameShape(b, c)
    ensures SameShape(a, c)
  {
    assert forall g, i :: At(a, g, i) ==> At(b, g, i);
  }

  lemma StepKeepsShape(w: World, s: Step, k: BatchKey)
    requires Inv(w) && WellFormed(w) && k in w.batches && s != ExpireBatch(k)
    ensures var w' := Next(w, s);
            && k in w'.batches && SameShape(w.batches[k], w'.batches[k])
            && (w.batches[k].status != BatchPending ==> w'.batches[k].status in {w.batches[k].status, BatchDropped})
  {
    StepConcerns(w, s, k);
    if !Aside(w, Next(w, s), k) {
      var g: nat, i: nat :| Concerns(w, s, k, g, i);
      if s.ReportStep? {
        ReportOne(w, k, g, i, s.status, s.rejected, s.now);
        TouchParts(w, k, g, i, s.status, s.rejected, s.now);
      }
    }
  }

  /** Whatever else happens, a batch that left pending never becomes pending again, nor successful if it was not. */
  lemma StatusForGood(w: World, steps: seq<Step>, w': World, k: BatchKey)
    requires Inv(w) && LeadsTo(w, steps, w', k) && k in w.batches && w.batches[k].status != BatchPending
    ensures k in w'.batches && w'.batches[k].status in {w.batches[k].status, BatchDropped}
  {
    RunKeepsShape(w, steps, w', k);
  }

  lemma OvertakingIsReady(w: World, b: Batch, rejected: set<Hash>, now: int, m: nat)
    requires DistinctHashes(b) && Accepted(w, b, rejected) && CanOvertake(w, b, m)
    ensures ReadyAt(Submit(w, b, rejected, now).0, KeyOf(b), m, 0)
  {
    var w1 := Submit(w, b, rejected, now).0;
    var r := Reset(b);
    AcceptedEffect(w, b, rejected, now);
    forall i | 0 <= i < |r.groups[m]|
      ensures r.groups[m][i].status == ItemPending && Listed(w1, KeyOf(b), r.groups[m][i].hash)
    {
      assert At(b, m, i) && At(r, m, i);
      EntriesStay(w, b, rejected, now, m, i);
    }
    forall g | 0 <= g < |r.groups| ensures AllPending(r.groups[g]) { PendingAfterReset(b, g); }
  }

  /** Success means that everything succeeded, over every run, exactly if no later group can overtake. */
  lemma SuccessIffNoOvertaking(w: World, b: Batch, rejected: set<Hash>, now: int)
    requires Inv(w) && DistinctHashes(b) && Accepted(w, b, rejected)
    ensures AlwaysSound(Submit(w, b, rejected, now).0, KeyOf(b)) <==> !exists m :: CanOvertake(w, b, m)
  {
    var k := KeyOf(b);
    var w1 := Submit(w, b, rejected, now).0;
    SubmitPreserves(w, b, rejected, now);
    AcceptedEffect(w, b, rejected, now);
    if m: nat :| CanOvertake(w, b, m) {
      OvertakingIsReady(w, b, rejected, now, m);
      var steps, w' := ChainCompletes(w1, k, m, 0);
      DeliveriesAreRuns(w1, k, steps, w');
      assert w'.batches[k].groups[0] == w1.batches[k].groups[..m][0];
      assert At(Reset(b), 0, 0) && !Done(w'.batches[k].groups[0]);
      assert !Sound(w'.batches[k]);
    } else {
      assert !exists m :: CanOvertake(w, b, m);
      var lo := NoOvertakingIsTracked(w, b, rejected, now);
      forall steps, w' | LeadsTo(w1, steps, w', k) ensures k in w'.batches && Sound(w'.batches[k]) {
        RunTracked(w1, steps, w', k, |SentFor(w.sent, k)|, lo, Stale(w, k));
        NeverPassesEmpty(w'.batches[k], lo);
      }
    }
  }

  ghost predicate Succeeded(w: World, k: BatchKey) {
    k in w.batches && w.batches[k].status == BatchSuccess
  }

  ghost predicate AlwaysFinal(w: World, k: BatchKey) {
    forall steps, v, more, w' :: LeadsTo(w, steps, v, k) && LeadsTo(v, more, w', k) && Succeeded(v, k) ==>
      k in w'.batches && w'.batches[k].status == BatchSuccess
  }

  /** Success is final over every run under the very same condition. */
  lemma SuccessIsFinalIffNoOvertaking(w: World, b: Batch, rejected: set<Hash>, now: int)
    requires Inv(w) && DistinctHashes(b) && Accepted(w, b, rejected)
    ensures AlwaysFinal(Submit(w, b, rejected, now).0, KeyOf(b)) <==> !exists m :: CanOvertake(w, b, m)
  {
    if m: nat :| CanOvertake(w, b, m) {
      NotFinalWithOvertaking(w, b, rejected, now, m);
    } else {
      FinalWithoutOvertaking(w, b, rejected, now);
    }
  }

  lemma NotFinalWithOvertaking(w: World, b: Batch, rejected: set<Hash>, now: int, m: nat)
    requires Inv(w) && DistinctHashes(b) && Accepted(w, b, rejected) && CanOvertake(w, b, m)
    ensures !AlwaysFinal(Submit(w, b, rejected, now).0, KeyOf(b))
  {
    var w1, k := Submit(w, b, rejected, now).0, KeyOf(b);
    var steps, v, s := OvertakenMayBeDropped(w, b, rejected, now, m);
    OneStep(v, s, k);
    assert LeadsTo(w1, steps, v, k) && LeadsTo(v, [s], Next(v, s), k) && Succeeded(v, k);
  }

  lemma FinalWithoutOvertaking(w: World, b: Batch, rejected: set<Hash>, now: int)
    requires Inv(w) && DistinctHashes(b) && Accepted(w, b, rejected) && !exists m :: CanOvertake(w, b, m)
    ensures AlwaysFinal(Submit(w, b, rejected, now).0, KeyOf(b))
  {
    var w1, k := Submit(w, b, rejected, now).0, KeyOf(b);
    forall steps, v, more, w' | LeadsTo(w1, steps, v, k) && LeadsTo(v, more, w', k) && Succeeded(v, k)
      ensures k in w'.batches && w'.batches[k].status == BatchSuccess
    {
      WithoutOvertaking(w, b, rejected, now, steps, v, more, w');
    }
  }

  /** After success by overtaking, the first transaction can still time out, and then the batch counts as dropped. */
  lemma OvertakenMayBeDropped(
      w: World, b: Batch, rejected: set<Hash>, now: int, m: nat) returns (steps: seq<Step>, v: World, s: Step)
    requires Inv(w) && DistinctHashes(b) && Accepted(w, b, rejected) && CanOvertake(w, b, m)
    ensures LeadsTo(Submit(w, b, rejected, now).0, steps, v, KeyOf(b)) && WellFormed(v) && s.DropStep?
    ensures KeyOf(b) in v.batches && v.batches[KeyOf(b)].status == BatchSuccess
    ensures KeyOf(b) in Next(v, s).batches && Next(v, s).batches[KeyOf(b)].status == BatchDropped
  {
    var k := KeyOf(b);
    var w1 := Submit(w, b, rejected, now).0;
    SubmitPreserves(w, b, rejected, now);
    OvertakingIsReady(w, b, rejected, now, m);
    steps, v := ChainCompletes(w1, k, m, 0);
    DeliveriesAreRuns(w1, k, steps, v);
    RunPreserves(w1, steps, v);
    InvIsWellFormed(v);
    FirstIsOpen(w, b, rejected, now);
    FirstStaysOpen(w1, v, k, m);
    s := DropStep(v.batches[k].groups[0][0].hash, false, v.pending[v.batches[k].groups[0][0].hash].date +
        TEN_MINUTES_MS + 1);
    DropFirst(v, k, s);
  }

  /** The first item is open and has its entry. */
  ghost predicate FirstOpen(w: World, k: BatchKey) {
    k in w.batches && HasAddress(w.batches[k]) && w.batches[k].groups[0][0].status == ItemPending &&
    Listed(w, k, w.batches[k].groups[0][0].hash)
  }

  lemma FirstIsOpen(w: World, b: Batch, rejected: set<Hash>, now: int)
    requires Accepted(w, b, rejected)
    ensures FirstOpen(Submit(w, b, rejected, now).0, KeyOf(b))
  {
    AcceptedEffect(w, b, rejected, now);
    PendingAfterReset(b, 0);
    RegisteredFirst(Reset(b).groups[0], rejected);
  }

  lemma FirstStaysOpen(w: World, v: World, k: BatchKey, m: nat)
    requires FirstOpen(w, k) && k in v.batches && m > 0
    requires SameBefore(w.batches[k], v.batches[k], m) && KeepsEntries(w, v, k, w.batches[k], m)
    ensures FirstOpen(v, k)
  {
    assert v.batches[k].groups[0] == v.batches[k].groups[..m][0] == w.batches[k].groups[..m][0];
    assert At(w.batches[k], 0, 0);
  }

  lemma DropFirst(v: World, k: BatchKey, s: Step)
    requires Inv(v) && WellFormed(v) && FirstOpen(v, k)
    requires var h := v.batches[k].groups[0][0].hash; s == DropStep(h, false, v.pending[h].date + TEN_MINUTES_MS + 1)
    ensures k in Next(v, s).batches && Next(v, s).batches[k].status == BatchDropped
  {
    assert BatchOk(v, k, v.batches[k]);
    DropOne(v, k, v.batches[k], 0, 0, s.hash, 0, 0);
  }

  lemma RegisteredFirst(g: Group, rejected: set<Hash>)
    requires g != [] && AllPending(g) && FirstStop(g, rejected) == |g|
    ensures g[0].hash in Registered(g, rejected)
  {
  }

  /**
   Under that condition success is final, a batch with an empty group never succeeds, and without
   one every transaction is sent at most once, after all earlier groups succeeded.
   */
  lemma WithoutOvertaking(
      w: World, b: Batch, rejected: set<Hash>, now: int, steps: seq<Step>, v: World, more: seq<Step>, w': World)
    requires Inv(w) && DistinctHashes(b) && Accepted(w, b, rejected) && !exists m :: CanOvertake(w, b, m)
    requires var w1, k := Submit(w, b, rejected, now).0, KeyOf(b); LeadsTo(w1, steps, v, k) && LeadsTo(v, more, w', k)
    ensures var k := KeyOf(b);
            var n := |SentFor(w.sent, k)|;
            && k in v.batches && k in w'.batches
            && (v.batches[k].status == BatchSuccess ==> w'.batches[k] == v.batches[k])
            && ((exists g :: 0 <= g < |b.groups| && b.groups[g] == []) ==> v.batches[k].status != BatchSuccess)
            && ((forall g :: 0 <= g < |b.groups| ==> b.groups[g] != []) ==>
                  NoRepetition(Since(v, k, n))
                  && forall g, i :: At(b, g, i) && g > 0 && b.groups[g][i].hash in Since(v, k, n) ==>
                       DoneFrom(v.batches[k], 0, g))
  {
    var k := KeyOf(b);
    var n := |SentFor(w.sent, k)|;
    var w1 := Submit(w, b, rejected, now).0;
    SubmitPreserves(w, b, rejected, now);
    AcceptedEffect(w, b, rejected, now);
    var lo := NoOvertakingIsTracked(w, b, rejected, now);
    RunTracked(w1, steps, v, k, n, lo, Stale(w, k));
    RunKeepsShape(w1, steps, v, k);
    ShapeTransitive(b, w1.batches[k], v.batches[k]);
    RunPreserves(w1, steps, v);
    RunKeepsShape(v, more, w', k);
    if v.batches[k].status == BatchSuccess {
      NeverPassesEmpty(v.batches[k], lo);
      FinishedIsFinal(v, more, w', k);
    }
    forall g, i | At(b, g, i) && g > lo && b.groups[g][i].hash in Since(v, k, n) ensures DoneFrom(v.batches[k], lo, g) {
      assert At(v.batches[k], g, i) && ItemTracked(v, k, n, lo, Stale(w, k), v.batches[k], g, i);
    }
  }

  /** Nothing concerns a batch any more when all its items succeeded. */
  lemma {:induction false} FinishedIsFinal(w: World, steps: seq<Step>, w': World, k: BatchKey)
    requires Inv(w) && LeadsTo(w, steps, w', k) && k in w.batches && DoneFrom(w.batches[k], 0, |w.batches[k].groups|)
    ensures k in w'.batches && w'.batches[k] == w.batches[k]
    decreases |steps|
  {
    if steps != [] {
      assert steps[0] in steps;
      StepPreserves(w, steps[0]);
      StepConcerns(w, steps[0], k);
      if g: nat, i: nat :| Concerns(w, steps[0], k, g, i) { OpenGroup(w, k, g, i); }
      FinishedIsFinal(Next(w, steps[0]), steps[1..], w', k);
    }
  }

  // ----- what was settled ---------------------------------------------------------------------

  /** The changes a batch may go through. */
  ghost predicate Keeps(b: Batch, c: Batch) {
    && SameShape(b, c)
    && (forall g, i :: At(b, g, i) && b.groups[g][i].status != ItemPending ==> c.groups[g][i] == b.groups[g][i])
    && (b.status == BatchSuccess ==> c == b)
    && (b.status == BatchInvalid ==> c.status in {BatchInvalid, BatchDropped})
    && (b.status == BatchDropped ==> c.status == BatchDropped)
  }

  lemma KeepsTransitive(a: Batch, b: Batch, c: Batch)
    requires Keeps(a, b) && Keeps(b, c)
    ensures Keeps(a, c)
  {
    assert forall g, i :: At(a, g, i) ==> At(b, g, i);
  }

  lemma StepKeeps(w: World, s: Step, k: BatchKey, n: nat)
    requires Inv(w) && WellFormed(w) && Tracked(w, k, n, 0, {}) && s != ExpireBatch(k)
    ensures var w' := Next(w, s); k in w'.batches && Keeps(w.batches[k], w'.batches[k])
  {
    var b := w.batches[k];
    StepConcerns(w, s, k);
    StepKeepsShape(w, s, k);
    if !Aside(w, Next(w, s), k) {
      var g: nat, i: nat :| Concerns(w, s, k, g, i);
      OpenGroup(w, k, g, i);
      assert ItemTracked(w, k, n, 0, {}, b, g, i);
      if s.ReportStep? { ReportKeeps(w, s, k, n, g, i); }
    }
  }

  lemma ReportKeeps(w: World, s: Step, k: BatchKey, n: nat, g: nat, i: nat)
    requires Inv(w) && WellFormed(w) && Tracked(w, k, n, 0, {}) && s.ReportStep? && CanSettle(w, k, g, i)
    requires s.hash == w.batches[k].groups[g][i].hash
    ensures var b, w' := w.batches[k], Next(w, s);
            k in w'.batches && forall g', i' :: At(b, g', i') && b.groups[g'][i'].status != ItemPending ==>
              At(w'.batches[k], g', i') && w'.batches[k].groups[g'][i'] == b.groups[g'][i']
  {
    var b := w.batches[k];
    assert BatchOk(w, k, b) && ItemTracked(w, k, n, 0, {}, b, g, i);
    ReportOne(w, k, g, i, s.status, s.rejected, s.now);
    if s.status == ItemSuccess && Starts(w, k, g, i) {
      StartedBatch(w, k, g, i, s.rejected, s.now);
      var next := b.groups[g + 1];
      forall j | 0 <= j < |next| ensures next[j].status == ItemPending {
        NextNotSent(w, k, n, 0, {}, g, i, j);
        assert At(b, g + 1, j) && ItemTracked(w, k, n, 0, {}, b, g + 1, j);
      }
    }
  }

  lemma {:induction false} TrackedKeeps(w: World, steps: seq<Step>, w': World, k: BatchKey, n: nat)
    requires Inv(w) && LeadsTo(w, steps, w', k) && Tracked(w, k, n, 0, {})
    ensures k in w'.batches && Keeps(w.batches[k], w'.batches[k])
    decreases |steps|
  {
    if steps != [] {
      var v := Next(w, steps[0]);
      assert steps[0] in steps;
      StepPreserves(w, steps[0]);
      StepTracked(w, steps[0], k, n, 0, {});
      StepKeeps(w, steps[0], k, n);
      TrackedKeeps(v, steps[1..], w', k, n);
      KeepsTransitive(w.batches[k], v.batches[k], w'.batches[k]);
    }
  }

  /**
   Between any two moments of a batch whose submission found nothing left over: settled items do not
   change, success is final, and an invalid or dropped batch never becomes pending or successful.
   */
  lemma SettledForGood(
      w: World, b: Batch, rejected: set<Hash>, now: int, steps: seq<Step>, v: World, more: seq<Step>, w': World)
    requires Inv(w) && DistinctHashes(b) && Accepted(w, b, rejected) && Clean(w, b)
    requires LeadsTo(Submit(w, b, rejected, now).0, steps, v, KeyOf(b)) && LeadsTo(v, more, w', KeyOf(b))
    ensures KeyOf(b) in v.batches && KeyOf(b) in w'.batches && Keeps(v.batches[KeyOf(b)], w'.batches[KeyOf(b)])
  {
    var w1, n := Submit(w, b, rejected, now).0, |SentFor(w.sent, KeyOf(b))|;
    SubmitPreserves(w, b, rejected, now);
    CleanIsTracked(w, b, rejected, now);
    RunTracked(w1, steps, v, KeyOf(b), n, 0, {});
    RunPreserves(w1, steps, v);
    TrackedKeeps(v, more, w', KeyOf(b), n);
  }

  // ----- from the empty world -----------------------------------------------------------------

  const EMPTY := World(map[], map[], [])

  /** Nothing is cached or listed under the key. */
  ghost predicate NoTrace(w: World, k: BatchKey) {
    k !in w.batches && forall h :: !Listed(w, k, h)
  }

  ghost predicate Submits(s: Step, k: BatchKey) {
    s.SubmitStep? && HasAddress(s.batch) && KeyOf(s.batch) == k
  }

  lemma SubmitLeavesNoTrace(w: World, b: Batch, rejected: set<Hash>, now: int, k: BatchKey)
    requires NoTrace(w, k) && !(HasAddress(b) && KeyOf(b) == k)
    ensures NoTrace(Submit(w, b, rejected, now).0, k)
  {
    if Accepted(w, b, rejected) {
      AcceptedEffect(w, b, rejected, now);
      StartEffect(w, Reset(b), 0, rejected, now, k);
    } else {
      RefusedEffect(w, b, rejected, now, k);
    }
  }

  lemma DropLeavesNoTrace(w: World, h: Hash, found: bool, now: int, k: BatchKey)
    requires Inv(w) && NoTrace(w, k)
    ensures NoTrace(Drop(w, h, found, now), k)
  {
    DropEffect(w, h, found, now);
    assert forall x :: Listed(Drop(w, h, found, now), k, x) ==> Listed(w, k, x);
  }

  lemma StepLeavesNoTrace(w: World, s: Step, k: BatchKey)
    requires Inv(w) && WellFormed(w) && NoTrace(w, k) && !Submits(s, k)
    ensures NoTrace(Next(w, s), k)
  {
    match s
    case SubmitStep(b, rejected, now) => SubmitLeavesNoTrace(w, b, rejected, now, k);
    case ReportStep(_, _, _, _) =>
      ReportConcerns(w, s, k);
      assert Aside(w, Next(w, s), k);
    case DropStep(h, found, now) => DropLeavesNoTrace(w, h, found, now, k);
    case ExpireBatch(_) => assert forall x :: Listed(Next(w, s), k, x) ==> Listed(w, k, x);
    case ExpirePending(_) => assert forall x :: Listed(Next(w, s), k, x) ==> Listed(w, k, x);
  }

  /** A caller who has not used an id before finds nothing left over. */
  lemma {:induction false} NewIdLeavesNoTrace(w: World, steps: seq<Step>, w': World, k: BatchKey)
    requires Inv(w) && NoTrace(w, k) && Run(w, steps, w') && forall s :: s in steps ==> !Submits(s, k)
    ensures NoTrace(w', k) && Inv(w')
    decreases |steps|
  {
    if steps != [] {
      StepPreserves(w, steps[0]);
      StepLeavesNoTrace(w, steps[0], k);
      NewIdLeavesNoTrace(Next(w, steps[0]), steps[1..], w', k);
    }
  }

  lemma NewIdIsClean(before: seq<Step>, w: World, b: Batch)
    requires Run(EMPTY, before, w) && HasAddress(b) && forall s :: s in before ==> !Submits(s, KeyOf(b))
    ensures KeyOf(b) !in w.batches && Clean(w, b)
  {
    NewIdLeavesNoTrace(EMPTY, before, w, KeyOf(b));
  }

  /**
   Over every run, whatever was submitted before and is submitted besides: a batch that finds nothing
   left over keeps its promises until it expires. Items are settled, and transactions sent, only after
   all earlier groups succeeded; nothing is sent twice; success means that every item succeeded.
   */
  lemma EveryRunIsSafe(
      before: seq<Step>, w: World, b: Batch, rejected: set<Hash>, now: int, steps: seq<Step>, w': World)
    requires Run(EMPTY, before, w) && DistinctHashes(b) && Accepted(w, b, rejected) && Clean(w, b)
    requires LeadsTo(Submit(w, b, rejected, now).0, steps, w', KeyOf(b))
    ensures KeyOf(b) in w'.batches
    ensures var c := w'.batches[KeyOf(b)];
            var mine := Since(w', KeyOf(b), |SentFor(w.sent, KeyOf(b))|);
            && SameShape(b, c)
            && (forall g, i :: At(c, g, i) && (c.groups[g][i].status != ItemPending || c.groups[g][i].hash in mine) ==>
                  forall j :: 0 <= j < g ==> c.groups[j] != [] && AllSuccess(c.groups[j]))
            && NoRepetition(mine)
            && (c.status == BatchSuccess ==>
                  forall g :: 0 <= g < |c.groups| ==> c.groups[g] != [] && AllSuccess(c.groups[g]))
  {
    var k := KeyOf(b);
    var n := |SentFor(w.sent, k)|;
    var w1 := Submit(w, b, rejected, now).0;
    RunPreserves(EMPTY, before, w);
    SubmitPreserves(w, b, rejected, now);
    AcceptedEffect(w, b, rejected, now);
    CleanIsTracked(w, b, rejected, now);
    RunTracked(w1, steps, w', k, n, 0, {});
    RunKeepsShape(w1, steps, w', k);
    ShapeTransitive(b, w1.batches[k], w'.batches[k]);
    TrackedIsSafe(w', k, n);
  }

  lemma TrackedIsSafe(w: World, k: BatchKey, n: nat)
    requires Tracked(w, k, n, 0, {})
    ensures var c, mine := w.batches[k], Since(w, k, n);
            && (forall g, i :: At(c, g, i) && (c.groups[g][i].status != ItemPending || c.groups[g][i].hash in mine) ==>
                  forall j :: 0 <= j < g ==> c.groups[j] != [] && AllSuccess(c.groups[j]))
            && NoRepetition(mine)
            && (c.status == BatchSuccess ==>
                  forall g :: 0 <= g < |c.groups| ==> c.groups[g] != [] && AllSuccess(c.groups[g]))
  {
    var c := w.batches[k];
    forall g, i | At(c, g, i) && (c.groups[g][i].status != ItemPending || c.groups[g][i].hash in Since(w, k, n))
      ensures DoneFrom(c, 0, g)
    {
      assert ItemTracked(w, k, n, 0, {}, c, g, i);
    }
  }

  // ----- a retry that goes wrong --------------------------------------------------------------

  function OneByOne(id: string, groups: seq<seq<Hash>>): Batch {
    Batch(id, seq(|groups|, g requires 0 <= g < |groups| => Opened(groups[g])), BatchPending)
  }

  function Opened(hs: seq<Hash>): Group {
    seq(|hs|, i requires 0 <= i < |hs| => Item(hs[i], ItemPending))
  }

  /**
   A batch is refused because of its second transaction; the entry of its first one stays. The
   caller tries again with the same id, the first transaction now in the second group: its success
   makes the batch successful although the first group is still open.
   */
  lemma RetryMarksSuccessEarly(id: string, t1: Hash, t2: Hash, t3: Hash)
    requires t1 != t2 && t1 != t3 && t2 != t3 && t1.sender == t2.sender == t3.sender
    ensures var refused, again := OneByOne(id, [[t2, t3]]), OneByOne(id, [[t1], [t2]]);
            var k := BatchKey(t1.sender, id);
            var w1 := Submit(EMPTY, refused, {t3}, 0).0;
            var w2 := Submit(w1, again, {}, 1).0;
            && k !in w1.batches && DistinctHashes(refused) && DistinctHashes(again) && Accepted(w1, again, {})
            && WellFormed(w2)
            && var w3 := Report(w2, t2, ItemSuccess, {}, 2);
            && k in w3.batches && w3.batches[k].status == BatchSuccess
            && At(w3.batches[k], 0, 0) && w3.batches[k].groups[0][0] == Item(t1, ItemPending)
  {
    var refused, again := OneByOne(id, [[t2, t3]]), OneByOne(id, [[t1], [t2]]);
    var w1 := Submit(EMPTY, refused, {t3}, 0).0;
    RefusedRegisters(refused, t2, t3);
    SubmitPreserves(EMPTY, refused, {t3}, 0);
    AgainIsAccepted(w1, again, t1, t2);
    AgainSucceeds(w1, again, t2);
  }

  lemma AgainIsAccepted(w: World, b: Batch, t1: Hash, t2: Hash)
    requires b.groups == OneByOne(b.id, [[t1], [t2]]).groups && t1 != t2 && t1.sender == t2.sender
    requires BatchKey(t1.sender, b.id) !in w.batches && Listed(w, BatchKey(t1.sender, b.id), t2)
    ensures DistinctHashes(b) && Accepted(w, b, {}) && CanOvertake(w, b, 1)
  {
    assert b.groups == [Opened([t1]), Opened([t2])];
    PendingAfterReset(b, 0);
    NothingStops(Reset(b).groups[0]);
  }

  lemma PendingAfterReset(b: Batch, g: nat)
    requires g < |b.groups|
    ensures AllPending(Reset(b).groups[g])
  {
    var r := Reset(b);
    forall i | 0 <= i < |r.groups[g]| ensures r.groups[g][i].status == ItemPending { assert At(r, g, i); }
  }

  lemma AgainSucceeds(w: World, b: Batch, t: Hash)
    requires Inv(w) && DistinctHashes(b) && Accepted(w, b, {}) && CanOvertake(w, b, 1)
    requires |b.groups| == 2 && |b.groups[1]| == 1 && b.groups[1][0].hash == t
    ensures var w2, k := Submit(w, b, {}, 1).0, KeyOf(b);
            && WellFormed(w2)
            && var w3 := Report(w2, t, ItemSuccess, {}, 2);
            && k in w3.batches && w3.batches[k].status == BatchSuccess
            && At(w3.batches[k], 0, 0) && w3.batches[k].groups[0][0] == Item(b.groups[0][0].hash, ItemPending)
  {
    var w2, k := Submit(w, b, {}, 1).0, KeyOf(b);
    SubmitPreserves(w, b, {}, 1);
    InvIsWellFormed(w2);
    AcceptedEffect(w, b, {}, 1);
    OvertakingIsReady(w, b, {}, 1, 1);
    ReportOne(w2, k, 1, 0, ItemSuccess, {}, 2);
    assert w2.batches[k] == Reset(b) && At(Reset(b), 0, 0) && At(Reset(b), 1, 0);
  }

  lemma RefusedRegisters(b: Batch, t2: Hash, t3: Hash)
    requires |b.groups| == 1 && b.groups[0] == Opened([t2, t3]) && t2 != t3 && t2.sender == t3.sender
    ensures HasAddress(b) && DistinctHashes(b)
    ensures var w1 := Submit(EMPTY, b, {t3}, 0).0; w1.batches == map[] && Listed(w1, KeyOf(b), t2)
  {
    var r := Reset(b);
    var g := r.groups[0];
    assert g == Opened([t2, t3]) by {
      assert At(r, 0, 0) && At(r, 0, 1);
    }
    assert !Stops(g[0], {t3}) && Stops(g[1], {t3});
    assert FirstStop(g, {t3}) == 1;
    assert ItemsAfterStart(g, {t3})[1].status == ItemInvalid;
    assert g[0].hash in Registered(g, {t3});
  }
}
