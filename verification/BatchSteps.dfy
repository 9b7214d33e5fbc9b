/**
 The effect of single steps on the cached batches, for any order of submissions, reports, drops and
 expiries, with any answers of the gateway: which batch a step concerns, and that it leaves every
 other batch alone.
 */
module BatchSteps {
  import opened Collections
  import opened TransactionBatches

  ghost predicate DistinctHashes(b: Batch) {
    forall g, i, g', i' :: At(b, g, i) && At(b, g', i') && b.groups[g][i].hash == b.groups[g'][i'].hash ==>
      g == g' && i == i'
  }

  ghost predicate Has(b: Batch, h: Hash) {
    exists g, i :: At(b, g, i) && b.groups[g][i].hash == h
  }

  /** A pending entry of the hash names the batch. */
  predicate Listed(w: World, k: BatchKey, h: Hash) {
    h in w.pending && EntryKey(w.pending[h]) == k
  }

  // ----- steps and runs -----------------------------------------------------------------------

  datatype Step =
    | SubmitStep(batch: Batch, rejected: set<Hash>, now: int)
    | ReportStep(hash: Hash, status: ItemStatus, rejected: set<Hash>, now: int)
    | DropStep(hash: Hash, found: bool, now: int)
    | ExpireBatch(key: BatchKey)
    | ExpirePending(hash: Hash)

  function Next(w: World, s: Step): World
    requires WellFormed(w)
  {
    match s
    case SubmitStep(b, rejected, now) => Submit(w, b, rejected, now).0
    case ReportStep(h, status, rejected, now) => Report(w, h, status, rejected, now)
    case DropStep(h, found, now) => Drop(w, h, found, now)
    case ExpireBatch(k) => w.(batches := w.batches - {k})
    case ExpirePending(h) => w.(pending := w.pending - {h})
  }

  /** The one assumption on the environment: no batch lists a transaction twice. */
  ghost predicate Enabled(s: Step) {
    s.SubmitStep? ==> DistinctHashes(s.batch)
  }

  ghost predicate Run(w: World, steps: seq<Step>, w': World)
    decreases |steps|
  {
    if steps == [] then w == w'
    else WellFormed(w) && Enabled(steps[0]) && Run(Next(w, steps[0]), steps[1..], w')
  }

  // ----- what holds in every reachable state --------------------------------------------------

  /** The entry of an item is for the open item, or for one refused at its start, when the batch has failed. */
  ghost predicate EntryOk(w: World, k: BatchKey, b: Batch, item: Item) {
    Listed(w, k, item.hash) ==>
      item.status == ItemPending || (item.status == ItemInvalid && b.status in {BatchInvalid, BatchDropped})
  }

  ghost predicate Unrefused(b: Batch) {
    forall g, i :: At(b, g, i) ==> b.groups[g][i].status != ItemInvalid
  }

  ghost predicate BatchOk(w: World, k: BatchKey, b: Batch) {
    && HasAddress(b) && KeyOf(b) == k && DistinctHashes(b) && OneSender(b)
    && (forall g, i :: At(b, g, i) ==> EntryOk(w, k, b, b.groups[g][i]))
    && (b.status == BatchPending ==> Unrefused(b))
  }

  ghost predicate Inv(w: World) {
    && (forall k :: k in w.batches ==> BatchOk(w, k, w.batches[k]))
    && forall h :: h in w.pending ==> w.pending[h].address == h.sender
  }

  lemma InvIsWellFormed(w: World)
    requires Inv(w)
    ensures WellFormed(w)
  {
    forall k | k in w.batches ensures HasAddress(w.batches[k]) { assert BatchOk(w, k, w.batches[k]); }
  }

  // ----- the scan touches the one item with the hash ------------------------------------------

  lemma {:induction false} ProcessNothing(
      w: World, k: BatchKey, b: Batch, g: nat, i: nat, h: Hash, status: ItemStatus, rejected: set<Hash>, now: int)
    requires HasAddress(b) && g <= |b.groups| && (g < |b.groups| ==> i <= |b.groups[g]|)
    requires forall g', i' :: At(b, g', i') && (g' > g || (g' == g && i' >= i)) ==> b.groups[g'][i'].hash != h
    ensures ProcessFrom(w, k, b, g, i, h, status, rejected, now) == w
    decreases |b.groups| - g, if g < |b.groups| then |b.groups[g]| - i else 0
  {
    if g == |b.groups| {
    } else if i == |b.groups[g]| {
      ProcessNothing(w, k, b, g + 1, 0, h, status, rejected, now);
    } else {
      assert At(b, g, i);
      ProcessNothing(w, k, b, g, i + 1, h, status, rejected, now);
    }
  }

  lemma {:induction false} ProcessOne(
      w: World, k: BatchKey, b: Batch, g: nat, i: nat, h: Hash, status: ItemStatus, rejected: set<Hash>, now: int,
      tg: nat, ti: nat)
    requires HasAddress(b) && DistinctHashes(b) && At(b, tg, ti) && b.groups[tg][ti].hash == h
    requires g < tg || (g == tg && i <= ti)
    requires i <= |b.groups[g]|
    ensures ProcessFrom(w, k, b, g, i, h, status, rejected, now) == Touch(w, k, b, tg, ti, status, rejected, now).0
    decreases |b.groups| - g, |b.groups[g]| - i
  {
    if i == |b.groups[g]| {
      ProcessOne(w, k, b, g + 1, 0, h, status, rejected, now, tg, ti);
    } else if g == tg && i == ti {
      var (w1, b1) := Touch(w, k, b, g, i, status, rejected, now);
      assert SameShape(b, b1);
      forall g', i' | At(b1, g', i') && (g' > g || (g' == g && i' >= i + 1)) ensures b1.groups[g'][i'].hash != h {
        assert At(b, g', i');
      }
      ProcessNothing(w1, k, b1, g, i + 1, h, status, rejected, now);
    } else {
      assert At(b, g, i);
      ProcessOne(w, k, b, g, i + 1, h, status, rejected, now, tg, ti);
    }
  }

  lemma {:induction false} DropNothing(w: World, k: BatchKey, b: Batch, g: nat, i: nat, h: Hash)
    requires g <= |b.groups| && (g < |b.groups| ==> i <= |b.groups[g]|)
    requires forall g', i' :: At(b, g', i') && (g' > g || (g' == g && i' >= i)) ==>
               b.groups[g'][i'].hash != h || b.groups[g'][i'].status != ItemPending
    ensures DropFrom(w, k, b, g, i, h) == w
    decreases |b.groups| - g, if g < |b.groups| then |b.groups[g]| - i else 0
  {
    if g == |b.groups| {
    } else if i == |b.groups[g]| {
      DropNothing(w, k, b, g + 1, 0, h);
    } else {
      assert At(b, g, i);
      DropNothing(w, k, b, g, i + 1, h);
    }
  }

  lemma {:induction false} DropOne(w: World, k: BatchKey, b: Batch, g: nat, i: nat, h: Hash, tg: nat, ti: nat)
    requires DistinctHashes(b) && At(b, tg, ti) && b.groups[tg][ti].hash == h && b.groups[tg][ti].status == ItemPending
    requires g < tg || (g == tg && i <= ti)
    requires i <= |b.groups[g]|
    ensures DropFrom(w, k, b, g, i, h) ==
              Store(w, k, SetStatus(b, tg, ti, ItemDropped).(status := BatchDropped)).(pending := w.pending - {h})
    decreases |b.groups| - g, |b.groups[g]| - i
  {
    if i == |b.groups[g]| {
      DropOne(w, k, b, g + 1, 0, h, tg, ti);
    } else if g == tg && i == ti {
      var b1 := SetStatus(b, g, i, ItemDropped).(status := BatchDropped);
      forall g', i' | At(b1, g', i') && (g' > g || (g' == g && i' >= i + 1)) ensures b1.groups[g'][i'].hash != h {
        assert At(b, g', i');
      }
      DropNothing(Store(w, k, b1).(pending := w.pending - {h}), k, b1, g, i + 1, h);
    } else {
      assert At(b, g, i);
      DropOne(w, k, b, g, i + 1, h, tg, ti);
    }
  }

  // ----- what was sent for a batch ------------------------------------------------------------

  /** The hashes sent for the batches of a key, oldest first. */
  function SentFor(sent: seq<Sending>, k: BatchKey): seq<Hash> {
    if sent == [] then []
    else SentFor(sent[..|sent| - 1], k) + if sent[|sent| - 1].key == k then [sent[|sent| - 1].hash] else []
  }

  lemma {:induction false} SentForConcat(a: seq<Sending>, b: seq<Sending>, k: BatchKey)
    ensures SentFor(a + b, k) == SentFor(a, k) + SentFor(b, k)
  {
    if b == [] {
      assert a + b == a;
    } else {
      assert (a + b)[..|a + b| - 1] == a + b[..|b| - 1];
      SentForConcat(a, b[..|b| - 1], k);
    }
  }

  function Hashes(g: Group): (hs: seq<Hash>)
    ensures |hs| == |g| && forall i :: 0 <= i < |g| ==> hs[i] == g[i].hash
  {
    seq(|g|, i requires 0 <= i < |g| => g[i].hash)
  }

  lemma {:induction false} SentForGroup(k: BatchKey, g: Group, k': BatchKey)
    ensures SentFor(Sendings(k, g), k') == if k == k' then Hashes(g) else []
  {
    if g != [] {
      var n := |g| - 1;
      SentForGroup(k, g[..n], k');
      assert Sendings(k, g)[..n] == Sendings(k, g[..n]);
      assert k == k' ==> Hashes(g) == Hashes(g[..n]) + [g[n].hash];
    }
  }

  // ----- steps that do not concern a batch ----------------------------------------------------

  /** Nothing happened to the batch of a key, except that entries may have gone. */
  ghost predicate Aside(w: World, w': World, k: BatchKey) {
    && (k in w.batches <==> k in w'.batches)
    && (k in w.batches ==> w'.batches[k] == w.batches[k])
    && (forall h :: Listed(w', k, h) ==> Listed(w, k, h))
    && SentFor(w'.sent, k) == SentFor(w.sent, k)
  }

  lemma AsideKeepsOk(w: World, w': World, k: BatchKey)
    requires Aside(w, w', k) && k in w.batches && BatchOk(w, k, w.batches[k])
    ensures BatchOk(w', k, w'.batches[k])
  {
    var b := w.batches[k];
    forall g, i | At(b, g, i) ensures EntryOk(w', k, b, b.groups[g][i]) { assert EntryOk(w, k, b, b.groups[g][i]); }
  }

  /** What starting a group does to the entries and to what was sent. */
  lemma StartEffect(w: World, b: Batch, g: nat, rejected: set<Hash>, now: int, k: BatchKey)
    requires HasAddress(b) && g < |b.groups|
    ensures var w1 := StartGroup(w, b, g, rejected, now).0;
            && w1.batches == w.batches
            && (forall h :: Listed(w1, k, h) ==>
                  if h in Registered(b.groups[g], rejected) then k == KeyOf(b) else Listed(w, k, h))
            && SentFor(w1.sent, k) == SentFor(w.sent, k) +
               if k == KeyOf(b) then Hashes(SentPart(b.groups[g], rejected)) else []
  {
    SentForConcat(w.sent, Sendings(KeyOf(b), SentPart(b.groups[g], rejected)), k);
    SentForGroup(KeyOf(b), SentPart(b.groups[g], rejected), k);
  }

  lemma StartTellsTrueSenders(w: World, b: Batch, g: nat, rejected: set<Hash>, now: int)
    requires HasAddress(b) && OneSender(b) && g < |b.groups|
    requires forall h :: h in w.pending ==> w.pending[h].address == h.sender
    ensures var w1 := StartGroup(w, b, g, rejected, now).0;
            forall h :: h in w1.pending ==> w1.pending[h].address == h.sender
  {
    forall h | h in Registered(b.groups[g], rejected) ensures h.sender == AddressOf(b) {
      var i :| 0 <= i < |b.groups[g]| && b.groups[g][i].hash == h;
    }
  }

  lemma OneSenderKept(b: Batch, c: Batch)
    requires SameShape(b, c) && HasAddress(b) && OneSender(b)
    ensures HasAddress(c) && OneSender(c) && KeyOf(c) == KeyOf(b)
  {
    assert forall g, i :: At(c, g, i) ==> At(b, g, i);
  }

  lemma DistinctKept(b: Batch, c: Batch)
    requires SameShape(b, c) && DistinctHashes(b)
    ensures DistinctHashes(c)
  {
    assert forall g, i :: At(c, g, i) ==> At(b, g, i);
  }

  /** Settling an item touches entries and the gateway only by starting the next group. */
  lemma TouchParts(w: World, k: BatchKey, g: nat, i: nat, status: ItemStatus, rejected: set<Hash>, now: int)
    requires k in w.batches && HasAddress(w.batches[k]) && At(w.batches[k], g, i)
    ensures var b := w.batches[k];
            var (w1, c) := Touch(w, k, b, g, i, status, rejected, now);
            && w1.batches == w.batches[k := c] && SameShape(b, c)
            && ((w1.pending == w.pending && w1.sent == w.sent)
                || (g + 1 < |b.groups| &&
                    StartGroup(w, SetStatus(b, g, i, status), g + 1, rejected, now).0 == w1.(batches := w.batches)))
  {
  }

  /** One settled item concerns only its own batch. */
  lemma TouchAside(
      w: World, k: BatchKey, g: nat, i: nat, status: ItemStatus, rejected: set<Hash>, now: int, k': BatchKey)
    requires k in w.batches && HasAddress(w.batches[k]) && KeyOf(w.batches[k]) == k && At(w.batches[k], g, i) && k' != k
    ensures Aside(w, Touch(w, k, w.batches[k], g, i, status, rejected, now).0, k')
  {
    TouchParts(w, k, g, i, status, rejected, now);
    var (w1, c) := Touch(w, k, w.batches[k], g, i, status, rejected, now);
    PartsAside(w, w1, k, c, SetStatus(w.batches[k], g, i, status), g + 1, rejected, now, k');
  }

  lemma PartsAside(
      w: World, w1: World, k: BatchKey, c: Batch, d: Batch, g: nat, rejected: set<Hash>, now: int, k': BatchKey)
    requires w1.batches == w.batches[k := c] && k' != k && HasAddress(d) && KeyOf(d) == k
    requires (w1.pending == w.pending && w1.sent == w.sent)
          || (g < |d.groups| && StartGroup(w, d, g, rejected, now).0 == w1.(batches := w.batches))
    ensures Aside(w, w1, k')
  {
    if g < |d.groups| { StartEffect(w, d, g, rejected, now, k'); }
  }

  lemma TouchTellsTrueSenders(w: World, k: BatchKey, g: nat, i: nat, status: ItemStatus, rejected: set<Hash>, now: int)
    requires Inv(w) && k in w.batches && HasAddress(w.batches[k]) && At(w.batches[k], g, i)
    ensures var w1 := Touch(w, k, w.batches[k], g, i, status, rejected, now).0;
            forall h :: h in w1.pending ==> w1.pending[h].address == h.sender
  {
    TouchParts(w, k, g, i, status, rejected, now);
    var b := w.batches[k];
    assert BatchOk(w, k, b);
    var c := SetStatus(b, g, i, status);
    OneSenderKept(b, c);
    if g + 1 < |c.groups| { StartTellsTrueSenders(w, c, g + 1, rejected, now); }
  }

  // ----- a report, a drop and a submission, in one move each ----------------------------------

  ghost predicate CanSettle(w: World, k: BatchKey, g: int, i: int) {
    k in w.batches && At(w.batches[k], g, i) && Listed(w, k, w.batches[k].groups[g][i].hash)
  }

  function WithoutEntry(w: World, h: Hash): World {
    w.(pending := w.pending - {h})
  }

  /** A report for item (g, i) of batch `k` is one update of that item. */
  lemma ReportOne(w: World, k: BatchKey, g: nat, i: nat, status: ItemStatus, rejected: set<Hash>, now: int)
    requires Inv(w) && WellFormed(w) && CanSettle(w, k, g, i)
    ensures var h := w.batches[k].groups[g][i].hash;
            Report(w, h, status, rejected, now) ==
              WithoutEntry(Touch(w, k, w.batches[k], g, i, status, rejected, now).0, h)
  {
    var b := w.batches[k];
    assert BatchOk(w, k, b);
    ProcessOne(w, k, b, 0, 0, b.groups[g][i].hash, status, rejected, now, g, i);
  }

  /** A report for a batch that is gone, or does not have the transaction, only loses the pending entry. */
  lemma ReportLost(w: World, h: Hash, status: ItemStatus, rejected: set<Hash>, now: int)
    requires Inv(w) && WellFormed(w) && h in w.pending
    requires var k := EntryKey(w.pending[h]); k in w.batches ==> !Has(w.batches[k], h)
    ensures Report(w, h, status, rejected, now) == WithoutEntry(w, h)
  {
    var k := EntryKey(w.pending[h]);
    if k in w.batches {
      ProcessNothing(w, k, w.batches[k], 0, 0, h, status, rejected, now);
    }
  }

  /** Dropping item (g, i) of batch `k`. */
  function Dropped(w: World, k: BatchKey, g: nat, i: nat): World
    requires k in w.batches && At(w.batches[k], g, i)
  {
    WithoutEntry(Store(w, k, SetStatus(w.batches[k], g, i, ItemDropped).(status := BatchDropped)),
        w.batches[k].groups[g][i].hash)
  }

  /** A drop sets one open item and its batch to dropped, or does nothing. */
  lemma DropEffect(w: World, h: Hash, found: bool, now: int)
    requires Inv(w)
    ensures var w' := Drop(w, h, found, now);
            w' == w || exists k, g, i :: CanSettle(w, k, g, i) && w.batches[k].groups[g][i].hash == h
                                      && w.batches[k].groups[g][i].status == ItemPending && w' == Dropped(w, k, g, i)
  {
    if h in w.pending && EntryKey(w.pending[h]) in w.batches {
      var k := EntryKey(w.pending[h]);
      var b := w.batches[k];
      assert BatchOk(w, k, b);
      if g: nat, i: nat :| At(b, g, i) && b.groups[g][i].hash == h && b.groups[g][i].status == ItemPending {
        DropOne(w, k, b, 0, 0, h, g, i);
        assert CanSettle(w, k, g, i);
      } else {
        DropNothing(w, k, b, 0, 0, h);
      }
    }
  }

  /** A submission the controller accepts and the gateway does not refuse, so that the batch is cached. */
  ghost predicate Accepted(w: World, b: Batch, rejected: set<Hash>) {
    && HasAddress(b) && KeyOf(b) !in w.batches && OneSender(b)
    && !AnyInvalid(ItemsAfterStart(Reset(b).groups[0], rejected))
  }

  lemma StopIsInvalid(g: Group, rejected: set<Hash>)
    ensures FirstStop(g, rejected) < |g| ==> AnyInvalid(ItemsAfterStart(g, rejected))
  {
    var n := FirstStop(g, rejected);
    if n < |g| { assert ItemsAfterStart(g, rejected)[n].status == ItemInvalid; }
  }

  lemma AcceptedEffect(w: World, b: Batch, rejected: set<Hash>, now: int)
    requires Accepted(w, b, rejected)
    ensures var r := Reset(b);
            && HasAddress(r) && KeyOf(r) == KeyOf(b) && OneSender(r)
            && Submit(w, b, rejected, now) == (Store(StartGroup(w, r, 0, rejected, now).0, KeyOf(b), r), Started(r))
            && FirstStop(r.groups[0], rejected) == |r.groups[0]|
  {
    var r := Reset(b);
    OneSenderKept(b, r);
    StopIsInvalid(r.groups[0], rejected);
    assert r.groups[0 := r.groups[0]] == r.groups;
  }

  /** Any other submission caches nothing, and registers entries only under its own key. */
  lemma RefusedEffect(w: World, b: Batch, rejected: set<Hash>, now: int, k: BatchKey)
    requires !Accepted(w, b, rejected)
    ensures var w' := Submit(w, b, rejected, now).0;
            && w'.batches == w.batches
            && (k in w.batches || !HasAddress(b) || k != KeyOf(b) ==> Aside(w, w', k))
  {
    if HasAddress(b) && KeyOf(b) !in w.batches && OneSender(b) {
      var r := Reset(b);
      OneSenderKept(b, r);
      StartEffect(w, r, 0, rejected, now, k);
    }
  }

  // ----- every step keeps the invariant -------------------------------------------------------

  /** A batch that changes while all others stay aside. */
  lemma OneBatchChanges(w: World, w': World, k: BatchKey)
    requires Inv(w) && k in w'.batches && BatchOk(w', k, w'.batches[k])
    requires forall k' :: k' != k ==> Aside(w, w', k')
    requires forall h :: h in w'.pending ==> w'.pending[h].address == h.sender
    ensures Inv(w')
  {
    forall k' | k' in w'.batches ensures BatchOk(w', k', w'.batches[k']) {
      if k' != k { AsideKeepsOk(w, w', k'); }
    }
  }

  lemma EntriesMayGo(w: World, h: Hash)
    requires Inv(w)
    ensures Inv(WithoutEntry(w, h)) && forall k :: Aside(w, WithoutEntry(w, h), k)
  {
    forall k | k in w.batches ensures BatchOk(WithoutEntry(w, h), k, w.batches[k]) {
      AsideKeepsOk(w, WithoutEntry(w, h), k);
    }
  }

  lemma BatchMayGo(w: World, k: BatchKey)
    requires Inv(w)
    ensures var w' := w.(batches := w.batches - {k}); Inv(w') && forall k' :: k' != k ==> Aside(w, w', k')
  {
    var w' := w.(batches := w.batches - {k});
    forall k' | k' in w'.batches ensures BatchOk(w', k', w'.batches[k']) {
      AsideKeepsOk(w, w', k');
    }
  }

  /** The item settled by a report or a drop has no entry afterwards, and other items keep theirs. */
  lemma InPlaceOk(w: World, k: BatchKey, g: nat, i: nat, status: ItemStatus, bs: BatchStatus)
    requires Inv(w) && CanSettle(w, k, g, i)
    requires bs == w.batches[k].status || w.batches[k].status == BatchPending || bs == BatchDropped
    requires bs == BatchPending ==> status != ItemInvalid
    ensures var b := w.batches[k];
            Inv(WithoutEntry(Store(w, k, SetStatus(b, g, i, status).(status := bs)), b.groups[g][i].hash))
  {
    var b := w.batches[k];
    var h := b.groups[g][i].hash;
    var c := SetStatus(b, g, i, status).(status := bs);
    var w' := WithoutEntry(Store(w, k, c), h);
    assert BatchOk(w, k, b);
    OneSenderKept(b, c);
    DistinctKept(b, c);
    forall g', i' | At(c, g', i') ensures EntryOk(w', k, c, c.groups[g'][i']) {
      assert At(b, g', i') && EntryOk(w, k, b, b.groups[g'][i']);
    }
    assert forall g', i' :: At(c, g', i') ==> At(b, g', i');
    OneBatchChanges(w, w', k);
  }

  /** What starting a group of distinct items does to it. */
  lemma StartedItems(g: Group, rejected: set<Hash>)
    requires forall i, j :: 0 <= i < |g| && 0 <= j < |g| && g[i].hash == g[j].hash ==> i == j
    ensures var r := ItemsAfterStart(g, rejected);
            && |r| == |g|
            && (forall i :: 0 <= i < |g| ==> r[i].hash == g[i].hash)
            && (forall i :: 0 <= i < |g| && r[i] != g[i] ==>
                  r[i].status == ItemInvalid && g[i].hash in Hashes(SentPart(g, rejected)))
            && (forall i :: 0 <= i < |g| && g[i].hash in Registered(g, rejected) ==>
                  r[i].status == ItemPending && g[i].hash in Hashes(SentPart(g, rejected)))
            && (forall h :: h in Hashes(SentPart(g, rejected)) ==> exists i :: 0 <= i < |g| && g[i].hash == h)
            && NoRepetition(Hashes(SentPart(g, rejected)))
  {
    var n := FirstStop(g, rejected);
    var sent := Hashes(SentPart(g, rejected));
    if n < |g| { assert sent[n] == g[n].hash; }
    forall i | 0 <= i < |g| && g[i].hash in Registered(g, rejected)
      ensures ItemsAfterStart(g, rejected)[i].status == ItemPending && g[i].hash in sent
    {
      assert i < n && sent[i] == g[i].hash;
    }
    forall h | h in sent ensures exists i :: 0 <= i < |g| && g[i].hash == h {
      var i :| 0 <= i < |sent| && sent[i] == h;
      assert g[i].hash == h;
    }
  }

  lemma DistinctGroup(b: Batch, g: int)
    requires DistinctHashes(b) && 0 <= g < |b.groups|
    ensures var group := b.groups[g];
            forall i, j :: 0 <= i < |group| && 0 <= j < |group| && group[i].hash == group[j].hash ==> i == j
  {
    assert forall i :: 0 <= i < |b.groups[g]| ==> At(b, g, i);
  }

  /** A settled item that completes its group and starts the next one. */
  lemma AndStartOk(w: World, k: BatchKey, g: nat, i: nat, rejected: set<Hash>, now: int)
    requires Inv(w) && CanSettle(w, k, g, i) && HasAddress(w.batches[k]) && KeyOf(w.batches[k]) == k
    requires g + 1 < |w.batches[k].groups| && w.batches[k].status == BatchPending
    requires AllSuccess(SetStatus(w.batches[k], g, i, ItemSuccess).groups[g])
    ensures Inv(WithoutEntry(Touch(w, k, w.batches[k], g, i, ItemSuccess, rejected, now).0,
                w.batches[k].groups[g][i].hash))
  {
    var b := w.batches[k];
    var (w1, c) := Touch(w, k, b, g, i, ItemSuccess, rejected, now);
    var w' := WithoutEntry(w1, b.groups[g][i].hash);
    assert BatchOk(w, k, b);
    OneSenderKept(b, c);
    DistinctKept(b, c);
    forall g', i' | At(c, g', i') ensures EntryOk(w', k, c, c.groups[g'][i']) {
      StartedEntryOk(w, k, g, i, rejected, now, g', i');
    }
    StartedUnrefused(w, k, g, i, rejected, now);
    TouchTellsTrueSenders(w, k, g, i, ItemSuccess, rejected, now);
    forall k' | k' != k ensures Aside(w, w', k') { TouchAside(w, k, g, i, ItemSuccess, rejected, now, k'); }
    OneBatchChanges(w, w', k);
  }

  lemma StartedUnrefused(w: World, k: BatchKey, g: nat, i: nat, rejected: set<Hash>, now: int)
    requires k in w.batches && At(w.batches[k], g, i) && HasAddress(w.batches[k]) && Unrefused(w.batches[k])
    requires g + 1 < |w.batches[k].groups| && w.batches[k].status == BatchPending
    requires AllSuccess(SetStatus(w.batches[k], g, i, ItemSuccess).groups[g])
    ensures var c := Touch(w, k, w.batches[k], g, i, ItemSuccess, rejected, now).1;
            c.status == BatchPending ==> Unrefused(c)
  {
    var b := w.batches[k];
    var c := Touch(w, k, b, g, i, ItemSuccess, rejected, now).1;
    forall g', i' | At(c, g', i') && c.status == BatchPending ensures c.groups[g'][i'].status != ItemInvalid {
      assert At(b, g', i');
      assert c.groups[g + 1] == ItemsAfterStart(b.groups[g + 1], rejected);
    }
  }

  lemma StartedEntryOk(w: World, k: BatchKey, g: nat, i: nat, rejected: set<Hash>, now: int, g': int, i': int)
    requires Inv(w) && CanSettle(w, k, g, i) && HasAddress(w.batches[k]) && KeyOf(w.batches[k]) == k
    requires g + 1 < |w.batches[k].groups| && w.batches[k].status == BatchPending && At(w.batches[k], g', i')
    requires AllSuccess(SetStatus(w.batches[k], g, i, ItemSuccess).groups[g])
    ensures var (w1, c) := Touch(w, k, w.batches[k], g, i, ItemSuccess, rejected, now);
            At(c, g', i') && EntryOk(WithoutEntry(w1, w.batches[k].groups[g][i].hash), k, c, c.groups[g'][i'])
  {
    var b := w.batches[k];
    var d := SetStatus(b, g, i, ItemSuccess);
    var next := d.groups[g + 1];
    assert BatchOk(w, k, b) && EntryOk(w, k, b, b.groups[g'][i']);
    DistinctKept(b, d);
    DistinctGroup(d, g + 1);
    StartedItems(next, rejected);
    StartEffect(w, d, g + 1, rejected, now, k);
    var (w1, c) := Touch(w, k, b, g, i, ItemSuccess, rejected, now);
    if g' == g + 1 && c.groups[g'][i'] != d.groups[g'][i'] {
      assert AnyInvalid(c.groups[g + 1]);
    }
    if b.groups[g'][i'].hash in Registered(next, rejected) {
      var j :| 0 <= j < |next| && next[j].hash == b.groups[g'][i'].hash;
      assert At(b, g + 1, j);
    }
  }

  lemma ReportPreserves(w: World, h: Hash, status: ItemStatus, rejected: set<Hash>, now: int)
    requires Inv(w) && WellFormed(w)
    ensures Inv(Report(w, h, status, rejected, now))
  {
    if h in w.pending {
      var k := EntryKey(w.pending[h]);
      if k in w.batches && Has(w.batches[k], h) {
        var g: nat, i: nat :| At(w.batches[k], g, i) && w.batches[k].groups[g][i].hash == h;
        var b := w.batches[k];
        assert BatchOk(w, k, b);
        ReportOne(w, k, g, i, status, rejected, now);
        var c := SetStatus(b, g, i, status);
        if b.status == BatchPending && status == ItemSuccess && AllSuccess(c.groups[g]) && g + 1 < |b.groups| {
          AndStartOk(w, k, g, i, rejected, now);
        } else {
          InPlaceOk(w, k, g, i, status, Settle(w, b, g, i, status, rejected, now).1.status);
        }
      } else {
        ReportLost(w, h, status, rejected, now);
        EntriesMayGo(w, h);
      }
    }
  }

  lemma SubmitPreserves(w: World, b: Batch, rejected: set<Hash>, now: int)
    requires Inv(w) && DistinctHashes(b)
    ensures Inv(Submit(w, b, rejected, now).0)
  {
    var w' := Submit(w, b, rejected, now).0;
    if Accepted(w, b, rejected) {
      var r := Reset(b);
      AcceptedEffect(w, b, rejected, now);
      DistinctKept(b, r);
      forall k | k != KeyOf(b) ensures Aside(w, w', k) { StartEffect(w, r, 0, rejected, now, k); }
      StartTellsTrueSenders(w, r, 0, rejected, now);
      OneBatchChanges(w, w', KeyOf(b));
    } else {
      forall k | k in w.batches ensures BatchOk(w', k, w.batches[k]) {
        RefusedEffect(w, b, rejected, now, k);
        AsideKeepsOk(w, w', k);
      }
      RefusedEffect(w, b, rejected, now, BatchKey("", ""));
      if HasAddress(b) && KeyOf(b) !in w.batches && OneSender(b) {
        OneSenderKept(b, Reset(b));
        StartTellsTrueSenders(w, Reset(b), 0, rejected, now);
      }
    }
  }

  lemma DropPreserves(w: World, h: Hash, found: bool, now: int)
    requires Inv(w)
    ensures Inv(Drop(w, h, found, now))
  {
    DropEffect(w, h, found, now);
    if Drop(w, h, found, now) != w {
      var k, g: nat, i: nat :| CanSettle(w, k, g, i) && Drop(w, h, found, now) == Dropped(w, k, g, i);
      DroppedOk(w, k, g, i);
    }
  }

  lemma DroppedOk(w: World, k: BatchKey, g: nat, i: nat)
    requires Inv(w) && CanSettle(w, k, g, i)
    ensures Inv(Dropped(w, k, g, i))
  {
    InPlaceOk(w, k, g, i, ItemDropped, BatchDropped);
  }

  /** Every step, of any kind and on any batch, keeps the invariant. */
  lemma StepPreserves(w: World, s: Step)
    requires Inv(w) && WellFormed(w) && Enabled(s)
    ensures Inv(Next(w, s))
  {
    match s
    case SubmitStep(b, rejected, now) => SubmitPreserves(w, b, rejected, now);
    case ReportStep(h, status, rejected, now) => ReportPreserves(w, h, status, rejected, now);
    case DropStep(h, found, now) => DropPreserves(w, h, found, now);
    case ExpireBatch(k) => BatchMayGo(w, k);
    case ExpirePending(h) => EntriesMayGo(w, h);
  }

  lemma {:induction false} RunPreserves(w: World, steps: seq<Step>, w': World)
    requires Inv(w) && Run(w, steps, w')
    ensures Inv(w')
    decreases |steps|
  {
    if steps != [] {
      StepPreserves(w, steps[0]);
      RunPreserves(Next(w, steps[0]), steps[1..], w');
    }
  }
}
