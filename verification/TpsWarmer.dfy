/**
 Counting transactions per time bucket: the per-shard nonce cursor with its bounded look-behind,
 and the increments into three nested families of buckets.
 */
module TpsWarmer {
  import opened Collections

  type Shard = int

  datatype Block = Block(numTxs: nat, timestamp: nat)
  datatype BucketKey = BucketKey(timestamp: int, frequency: int)
  datatype Increment = Increment(key: BucketKey, amount: nat)

  const FREQUENCIES := [5, 30, 600]

  function TimestampByFrequency(timestamp: nat, frequency: int): int
    requires frequency > 0
  {
    timestamp / frequency * frequency
  }

  // ----- the cursor ---------------------------------------------------------------------------

  /** A stored nonce of 0 is read like a missing one. */
  function StartNonce(cursor: Option<int>, endNonce: int, lookBehind: nat): int {
    if cursor.None? || cursor.value == 0 then endNonce - lookBehind
    else if cursor.value < endNonce - lookBehind then endNonce - lookBehind
    else cursor.value
  }

  function Between(low: int, high: int): (s: seq<int>)
    ensures |s| == if high > low then high - low else 0
    ensures forall i :: 0 <= i < |s| ==> s[i] == low + 1 + i
  {
    if high > low then seq(high - low, i requires i >= 0 => low + 1 + i) else []
  }

  /** One run over a shard: the end nonce it saw, and after how many nonces it stopped at the latest. */
  datatype Run = Run(endNonce: int, budget: nat)

  function Visited(cursor: Option<int>, run: Run, lookBehind: nat): seq<int> {
    var start := StartNonce(cursor, run.endNonce, lookBehind);
    Between(start, if run.endNonce < start + run.budget then run.endNonce else start + run.budget)
  }

  function CursorAfter(cursor: Option<int>, run: Run, lookBehind: nat): Option<int> {
    var visited := Visited(cursor, run, lookBehind);
    if visited == [] then cursor else Some(visited[|visited| - 1])
  }

  function AllVisited(cursor: Option<int>, runs: seq<Run>, lookBehind: nat): seq<int>
    decreases |runs|
  {
    if runs == [] then []
    else
      Visited(cursor, runs[0], lookBehind)
      + AllVisited(CursorAfter(cursor, runs[0], lookBehind), runs[1..], lookBehind)
  }

  ghost predicate StrictlyIncreasing(s: seq<int>) {
    forall i, j :: 0 <= i < j < |s| ==> s[i] < s[j]
  }

  ghost predicate Above(cursor: Option<int>, s: seq<int>) {
    forall n :: n in s ==> cursor.Some? ==> cursor.value < n
  }

  /** A run visits the nonces above both the cursor and the look-behind window, and nothing else. */
  lemma VisitedExactly(cursor: Option<int>, run: Run, lookBehind: nat, n: int)
    requires cursor.Some? ==> cursor.value > 0
    requires run.budget >= lookBehind
    ensures |Visited(cursor, run, lookBehind)| <= lookBehind
    ensures n in Visited(cursor, run, lookBehind) <==>
            n <= run.endNonce && run.endNonce - lookBehind < n && (cursor.Some? ==> cursor.value < n)
  {
    var start := StartNonce(cursor, run.endNonce, lookBehind);
    var visited := Visited(cursor, run, lookBehind);
    if start < n <= run.endNonce {
      assert visited[n - start - 1] == n;
    }
  }

  /**
   A run goes back to nonces at or below the cursor exactly when the cursor is 0 and the chain is
   shorter than the window.
   */
  lemma GoesBackIff(cursor: int, run: Run, lookBehind: nat)
    ensures (exists n :: n in Visited(Some(cursor), run, lookBehind) && n <= cursor) <==>
            cursor == 0 && run.endNonce < lookBehind && lookBehind > 0 && run.budget > 0
  {
    var visited := Visited(Some(cursor), run, lookBehind);
    if cursor == 0 && run.endNonce < lookBehind && lookBehind > 0 && run.budget > 0 {
      assert visited[0] in visited && visited[0] <= cursor;
    }
  }

  /**
   Over any sequence of runs, complete or cut short, that see end nonces of at least the window:
   every nonce is counted at most once and in increasing order, no run counts more nonces than the
   window holds, and the cursor ends at the last nonce counted.
   */
  lemma {:induction false} CountedAtMostOnce(cursor: Option<int>, runs: seq<Run>, lookBehind: nat)
    requires cursor.Some? ==> cursor.value > 0
    requires forall r :: r in runs ==> r.endNonce >= lookBehind
    ensures StrictlyIncreasing(AllVisited(cursor, runs, lookBehind)) &&
            Above(cursor, AllVisited(cursor, runs, lookBehind))
    ensures forall n :: n in AllVisited(cursor, runs, lookBehind) ==> n > 0
    ensures FinalCursor(cursor, runs, lookBehind) ==
            if AllVisited(cursor, runs, lookBehind) == [] then cursor
            else Some(AllVisited(cursor, runs, lookBehind)[|AllVisited(cursor, runs, lookBehind)| - 1])
    ensures forall i :: 0 <= i < |runs| ==>
              |Visited(CursorBefore(cursor, runs, lookBehind, i), runs[i], lookBehind)| <= lookBehind
  {
    forall i | 0 <= i < |runs|
      ensures |Visited(CursorBefore(cursor, runs, lookBehind, i), runs[i], lookBehind)| <= lookBehind
    {
      RunIsBounded(CursorBefore(cursor, runs, lookBehind, i), runs[i], lookBehind);
    }
    VisitsAscend(cursor, runs, lookBehind);
  }

  lemma RunIsBounded(cursor: Option<int>, run: Run, lookBehind: nat)
    ensures |Visited(cursor, run, lookBehind)| <= lookBehind
  {
  }

  lemma {:induction false} VisitsAscend(cursor: Option<int>, runs: seq<Run>, lookBehind: nat)
    requires cursor.Some? ==> cursor.value > 0
    requires forall r :: r in runs ==> r.endNonce >= lookBehind
    ensures StrictlyIncreasing(AllVisited(cursor, runs, lookBehind)) &&
            Above(cursor, AllVisited(cursor, runs, lookBehind))
    ensures forall n :: n in AllVisited(cursor, runs, lookBehind) ==> n > 0
    ensures FinalCursor(cursor, runs, lookBehind) ==
            if AllVisited(cursor, runs, lookBehind) == [] then cursor
            else Some(AllVisited(cursor, runs, lookBehind)[|AllVisited(cursor, runs, lookBehind)| - 1])
    decreases |runs|
  {
    if runs != [] {
      var visited := Visited(cursor, runs[0], lookBehind);
      var next := CursorAfter(cursor, runs[0], lookBehind);
      VisitedAbove(cursor, runs[0], lookBehind);
      VisitsAscend(next, runs[1..], lookBehind);
      Joined(cursor, visited, AllVisited(next, runs[1..], lookBehind));
    }
  }

  /** The cursor that run `i` finds. */
  function CursorBefore(cursor: Option<int>, runs: seq<Run>, lookBehind: nat, i: nat): Option<int>
    requires i <= |runs|
    decreases i
  {
    if i == 0 then cursor else CursorBefore(CursorAfter(cursor, runs[0], lookBehind), runs[1..], lookBehind, i - 1)
  }

  ghost predicate Beyond(cursor: Option<int>, n: int) {
    cursor.Some? ==> cursor.value < n
  }

  /** Run `i` counts nonces, and `n` lies above the cursor it finds but outside its window. */
  ghost predicate SkippedBy(cursor: Option<int>, runs: seq<Run>, lookBehind: nat, n: int, i: int) {
    && 0 <= i < |runs|
    && var before := CursorBefore(cursor, runs, lookBehind, i);
    && Visited(before, runs[i], lookBehind) != []
    && Beyond(before, n) && n <= runs[i].endNonce - lookBehind
  }

  /**
   Over any sequence of runs: a nonce above the first cursor and up to the last one is not counted
   exactly if some run found its cursor below it and it outside the window, and went on.
   */
  lemma {:induction false} SkippedExactly(cursor: Option<int>, runs: seq<Run>, lookBehind: nat, n: int)
    requires cursor.Some? ==> cursor.value > 0
    requires forall r :: r in runs ==> r.endNonce >= lookBehind
    requires Beyond(cursor, n) && FinalCursor(cursor, runs, lookBehind).Some? &&
             n <= FinalCursor(cursor, runs, lookBehind).value
    ensures n !in AllVisited(cursor, runs, lookBehind) <==> exists i :: SkippedBy(cursor, runs, lookBehind, n, i)
    decreases |runs|
  {
    if runs != [] {
      var visited := Visited(cursor, runs[0], lookBehind);
      var next := CursorAfter(cursor, runs[0], lookBehind);
      VisitedAbove(cursor, runs[0], lookBehind);
      CountedAtMostOnce(next, runs[1..], lookBehind);
      FirstRunVisits(cursor, runs[0], lookBehind, n);
      if Beyond(next, n) {
        SkippedExactly(next, runs[1..], lookBehind, n);
        SkippedLater(cursor, runs, lookBehind, n);
      } else {
        SkippedNow(cursor, runs, lookBehind, n);
      }
    }
  }

  /** What the first run does with a nonce above its cursor that it reaches or passes. */
  lemma FirstRunVisits(cursor: Option<int>, run: Run, lookBehind: nat, n: int)
    requires cursor.Some? ==> cursor.value > 0
    requires run.endNonce >= lookBehind && Beyond(cursor, n)
    ensures var visited, next := Visited(cursor, run, lookBehind), CursorAfter(cursor, run, lookBehind);
            && (n in visited ==> !Beyond(next, n))
            && (!Beyond(next, n) ==> visited != [] && (n in visited <==> n > run.endNonce - lookBehind))
            && (Beyond(next, n) && visited != [] ==> n > run.endNonce - lookBehind)
  {
    var start := StartNonce(cursor, run.endNonce, lookBehind);
    var visited := Visited(cursor, run, lookBehind);
    if start < n <= start + |visited| { assert visited[n - start - 1] == n; }
  }

  lemma SkippedLater(cursor: Option<int>, runs: seq<Run>, lookBehind: nat, n: int)
    requires cursor.Some? ==> cursor.value > 0
    requires runs != [] && runs[0].endNonce >= lookBehind && Beyond(cursor, n)
    requires Beyond(CursorAfter(cursor, runs[0], lookBehind), n)
    ensures (exists i :: SkippedBy(cursor, runs, lookBehind, n, i)) <==>
            exists i :: SkippedBy(CursorAfter(cursor, runs[0], lookBehind), runs[1..], lookBehind, n, i)
  {
    var next := CursorAfter(cursor, runs[0], lookBehind);
    FirstRunVisits(cursor, runs[0], lookBehind, n);
    if i :| SkippedBy(cursor, runs, lookBehind, n, i) { assert SkippedBy(next, runs[1..], lookBehind, n, i - 1); }
    if i :| SkippedBy(next, runs[1..], lookBehind, n, i) { assert SkippedBy(cursor, runs, lookBehind, n, i + 1); }
  }

  /** Cursors of later runs are not below that of an earlier one. */
  lemma {:induction false} CursorsAscend(cursor: Option<int>, runs: seq<Run>, lookBehind: nat, i: nat, n: int)
    requires cursor.Some? && cursor.value > 0 && n <= cursor.value && i < |runs|
    requires forall r :: r in runs ==> r.endNonce >= lookBehind
    ensures !Beyond(CursorBefore(cursor, runs, lookBehind, i), n)
    decreases i
  {
    if i > 0 {
      VisitedAbove(cursor, runs[0], lookBehind);
      assert CursorAfter(cursor, runs[0], lookBehind).value >= cursor.value;
      CursorsAscend(CursorAfter(cursor, runs[0], lookBehind), runs[1..], lookBehind, i - 1, n);
    }
  }

  lemma SkippedNow(cursor: Option<int>, runs: seq<Run>, lookBehind: nat, n: int)
    requires cursor.Some? ==> cursor.value > 0
    requires runs != [] && (forall r :: r in runs ==> r.endNonce >= lookBehind) && Beyond(cursor, n)
    requires !Beyond(CursorAfter(cursor, runs[0], lookBehind), n)
    ensures n !in AllVisited(cursor, runs, lookBehind) <==> exists i :: SkippedBy(cursor, runs, lookBehind, n, i)
  {
    var next := CursorAfter(cursor, runs[0], lookBehind);
    VisitedAbove(cursor, runs[0], lookBehind);
    FirstRunVisits(cursor, runs[0], lookBehind, n);
    CountedAtMostOnce(next, runs[1..], lookBehind);
    assert n !in AllVisited(next, runs[1..], lookBehind);
    forall i | SkippedBy(cursor, runs, lookBehind, n, i) ensures i == 0 {
      if i > 0 { CursorsAscend(next, runs[1..], lookBehind, i - 1, n); }
    }
    assert SkippedBy(cursor, runs, lookBehind, n, 0) <==> n <= runs[0].endNonce - lookBehind;
  }

  lemma VisitedAbove(cursor: Option<int>, run: Run, lookBehind: nat)
    requires cursor.Some? ==> cursor.value > 0
    requires run.endNonce >= lookBehind
    ensures var visited := Visited(cursor, run, lookBehind);
            StrictlyIncreasing(visited) && Above(cursor, visited) && forall n :: n in visited ==> n > 0
  {
  }

  lemma {:induction false} CursorNeverDecreases(cursor: Option<int>, runs: seq<Run>, lookBehind: nat)
    requires cursor.Some? && cursor.value > 0
    requires forall r :: r in runs ==> r.endNonce >= lookBehind
    ensures FinalCursor(cursor, runs, lookBehind).Some? && cursor.value <= FinalCursor(cursor, runs, lookBehind).value
    decreases |runs|
  {
    if runs != [] {
      var visited := Visited(cursor, runs[0], lookBehind);
      var next := CursorAfter(cursor, runs[0], lookBehind);
      assert visited != [] ==> cursor.value < visited[|visited| - 1];
      CursorNeverDecreases(next, runs[1..], lookBehind);
    }
  }

  lemma Joined(cursor: Option<int>, a: seq<int>, b: seq<int>)
    requires StrictlyIncreasing(a) && StrictlyIncreasing(b) && Above(cursor, a)
    requires Above(if a == [] then cursor else Some(a[|a| - 1]), b)
    ensures StrictlyIncreasing(a + b) && Above(cursor, a + b)
  {
    var s := a + b;
    forall i, j | 0 <= i < j < |s| ensures s[i] < s[j] {
      if i < |a| <= j {
        assert s[j] in b && s[i] <= a[|a| - 1];
      }
    }
    forall n | n in s && cursor.Some? ensures cursor.value < n {
      if n in b && a != [] { assert a[|a| - 1] in a; }
    }
  }

  function FinalCursor(cursor: Option<int>, runs: seq<Run>, lookBehind: nat): Option<int>
    decreases |runs|
  {
    if runs == [] then cursor else FinalCursor(CursorAfter(cursor, runs[0], lookBehind), runs[1..], lookBehind)
  }

  // ----- the counters -------------------------------------------------------------------------

  function Apply(counters: map<BucketKey, int>, log: seq<Increment>): map<BucketKey, int>
    decreases |log|
  {
    if log == [] then counters
    else Apply(counters[log[0].key := ValueOr0(counters, log[0].key) + log[0].amount], log[1..])
  }

  function BlockIncrements(b: Block): seq<Increment> {
    [Increment(BucketKey(TimestampByFrequency(b.timestamp, 5), 5), b.numTxs),
     Increment(BucketKey(TimestampByFrequency(b.timestamp, 30), 30), b.numTxs),
     Increment(BucketKey(TimestampByFrequency(b.timestamp, 600), 600), b.numTxs)]
  }

  function AllIncrements(blocks: seq<Block>): seq<Increment> {
    if blocks == [] then [] else BlockIncrements(blocks[0]) + AllIncrements(blocks[1..])
  }

  function TransactionCount(blocks: seq<Block>): nat {
    if blocks == [] then 0 else blocks[0].numTxs + TransactionCount(blocks[1..])
  }

  /** What a log adds to one bucket. */
  function Added(log: seq<Increment>, k: BucketKey): nat {
    if log == [] then 0 else (if log[0].key == k then log[0].amount else 0) + Added(log[1..], k)
  }

  /** What a log adds to all buckets of a frequency. */
  function AddedTo(log: seq<Increment>, frequency: int): nat {
    if log == [] then 0
    else (if log[0].key.frequency == frequency then log[0].amount else 0) + AddedTo(log[1..], frequency)
  }

  lemma {:induction false} ApplyConcat(counters: map<BucketKey, int>, a: seq<Increment>, b: seq<Increment>)
    ensures Apply(counters, a + b) == Apply(Apply(counters, a), b)
    decreases |a|
  {
    if a == [] {
      assert a + b == b;
    } else {
      assert (a + b)[1..] == a[1..] + b;
      ApplyConcat(counters[a[0].key := ValueOr0(counters, a[0].key) + a[0].amount], a[1..], b);
    }
  }

  lemma {:induction false} ApplyAdds(counters: map<BucketKey, int>, log: seq<Increment>, k: BucketKey)
    ensures ValueOr0(Apply(counters, log), k) == ValueOr0(counters, k) + Added(log, k)
    decreases |log|
  {
    if log != [] {
      ApplyAdds(counters[log[0].key := ValueOr0(counters, log[0].key) + log[0].amount], log[1..], k);
    }
  }

  ghost function Total(counters: map<BucketKey, int>, frequency: int): int {
    SumWhere(counters, (k: BucketKey) => k.frequency == frequency)
  }

  lemma {:induction false} ApplyTotal(counters: map<BucketKey, int>, log: seq<Increment>, frequency: int)
    ensures Total(Apply(counters, log), frequency) == Total(counters, frequency) + AddedTo(log, frequency)
    decreases |log|
  {
    if log != [] {
      SumUpdate(counters, (k: BucketKey) => k.frequency == frequency, log[0].key, log[0].amount);
      ApplyTotal(counters[log[0].key := ValueOr0(counters, log[0].key) + log[0].amount], log[1..], frequency);
    }
  }

  // ----- any interleaving ---------------------------------------------------------------------

  lemma {:induction false} AddedWithout(log: seq<Increment>, i: nat, k: BucketKey, frequency: int)
    requires i < |log|
    ensures Added(log, k) == Added(Without(log, i), k) + if log[i].key == k then log[i].amount else 0
    ensures AddedTo(log, frequency) == AddedTo(Without(log, i), frequency) +
            if log[i].key.frequency == frequency then log[i].amount else 0
  {
    if i == 0 {
      assert Without(log, 0) == log[1..];
    } else {
      AddedWithout(log[1..], i - 1, k, frequency);
      assert Without(log, i)[1..] == Without(log[1..], i - 1) && Without(log, i)[0] == log[0];
    }
  }

  lemma {:induction false} OrderDoesNotMatter(a: seq<Increment>, b: seq<Increment>, k: BucketKey, frequency: int)
    requires multiset(a) == multiset(b)
    ensures Added(a, k) == Added(b, k) && AddedTo(a, frequency) == AddedTo(b, frequency)
    decreases |a|
  {
    if a == [] {
      assert |b| == |multiset(b)| == 0;
    } else {
      assert a[0] in multiset(a);
      var i :| 0 <= i < |b| && b[i] == a[0];
      Removed(a, 0);
      Removed(b, i);
      assert multiset(Without(a, 0)) == multiset(a) - multiset{a[0]} == multiset(Without(b, i));
      assert Without(a, 0) == a[1..];
      OrderDoesNotMatter(a[1..], Without(b, i), k, frequency);
      AddedWithout(b, i, k, frequency);
    }
  }

  // ----- nested buckets -----------------------------------------------------------------------

  /** The sum of `count` consecutive buckets of one frequency. */
  function Covered(counters: map<BucketKey, int>, timestamp: int, frequency: int, count: nat): int
    decreases count
  {
    if count == 0 then 0
    else
      ValueOr0(counters, BucketKey(timestamp, frequency))
      + Covered(counters, timestamp + frequency, frequency, count - 1)
  }

  function AddedCovered(log: seq<Increment>, timestamp: int, frequency: int, count: nat): nat
    decreases count
  {
    if count == 0 then 0
    else Added(log, BucketKey(timestamp, frequency)) + AddedCovered(log, timestamp + frequency, frequency, count - 1)
  }

  lemma {:induction false} CoveredIsAdded(log: seq<Increment>, timestamp: int, frequency: int, count: nat)
    ensures Covered(Apply(map[], log), timestamp, frequency, count) == AddedCovered(log, timestamp, frequency, count)
    decreases count
  {
    if count > 0 {
      ApplyAdds(map[], log, BucketKey(timestamp, frequency));
      CoveredIsAdded(log, timestamp + frequency, frequency, count - 1);
    }
  }

  lemma {:induction false} AddedConcat(a: seq<Increment>, b: seq<Increment>, k: BucketKey, frequency: int)
    ensures Added(a + b, k) == Added(a, k) + Added(b, k)
    ensures AddedTo(a + b, frequency) == AddedTo(a, frequency) + AddedTo(b, frequency)
    decreases |a|
  {
    if a == [] {
      assert a + b == b;
    } else {
      assert (a + b)[1..] == a[1..] + b;
      AddedConcat(a[1..], b, k, frequency);
    }
  }

  lemma {:induction false} CoveredConcat(
      a: seq<Increment>, b: seq<Increment>, timestamp: int, frequency: int, count: nat)
    ensures AddedCovered(a + b, timestamp, frequency, count) ==
            AddedCovered(a, timestamp, frequency, count) + AddedCovered(b, timestamp, frequency, count)
    decreases count
  {
    if count > 0 {
      AddedConcat(a, b, BucketKey(timestamp, frequency), frequency);
      CoveredConcat(a, b, timestamp + frequency, frequency, count - 1);
    }
  }

  /** The start of the `s`-th bucket of a family. */
  function Grid(frequency: int, s: int): int {
    if frequency == 5 then 5 * s else if frequency == 30 then 30 * s else 600 * s
  }

  /** `high` is the end of `count` consecutive narrow buckets that start at `low`. */
  predicate Range(low: int, high: int, frequency: int, count: nat) {
    (frequency == 5 && high == low + 5 * count) || (frequency == 30 && high == low + 30 * count)
  }

  /** A wide family and the narrow one inside it. */
  predicate Nested(wide: int, narrow: int, count: nat) {
    (wide == 600 && narrow == 30 && count == 20) || (wide == 30 && narrow == 5 && count == 6)
  }

  /** One increment falls into at most one of the consecutive buckets, and into one iff it lies in their range. */
  lemma {:induction false} CoveredOnce(inc: Increment, p: int, low: int, s: int, high: int, frequency: int, count: nat)
    requires Range(low, high, frequency, count)
    requires low == Grid(frequency, s) && (inc.key.frequency == frequency ==> inc.key.timestamp == Grid(frequency, p))
    ensures AddedCovered([inc], low, frequency, count) ==
            if inc.key.frequency == frequency && low <= inc.key.timestamp < high then inc.amount else 0
    decreases count
  {
    if count > 0 {
      CoveredOnce(inc, p, low + frequency, s + 1, high, frequency, count - 1);
      AddedOne(inc, BucketKey(low, frequency));
    }
  }

  lemma FloorOnGrid(timestamp: nat, frequency: int) returns (p: int)
    requires frequency in {5, 30, 600}
    ensures TimestampByFrequency(timestamp, frequency) == Grid(frequency, p)
    ensures Grid(frequency, p) <= timestamp < Grid(frequency, p + 1)
  {
    if frequency == 5 {
      p := timestamp / 5;
    } else if frequency == 30 {
      p := timestamp / 30;
    } else {
      p := timestamp / 600;
    }
  }

  /** Flooring to the wide bucket is flooring to the narrow one first. */
  lemma NestedFloor(timestamp: nat, s: int, wide: int, narrow: int, count: nat)
    requires Nested(wide, narrow, count)
    ensures TimestampByFrequency(timestamp, wide) == Grid(wide, s) <==>
            Grid(wide, s) <= TimestampByFrequency(timestamp, narrow) < Grid(wide, s) + wide
  {
    var q := FloorOnGrid(timestamp, wide);
    var p := FloorOnGrid(timestamp, narrow);
  }

  lemma {:induction false} BlocksCovered(blocks: seq<Block>, s: int, wide: int, narrow: int, count: nat)
    requires Nested(wide, narrow, count)
    ensures Added(AllIncrements(blocks), BucketKey(Grid(wide, s), wide)) ==
              AddedCovered(AllIncrements(blocks), Grid(wide, s), narrow, count)
    decreases |blocks|
  {
    var t := Grid(wide, s);
    if blocks == [] {
      NothingCovered(t, narrow, count);
    } else {
      var incs, rest := BlockIncrements(blocks[0]), AllIncrements(blocks[1..]);
      BlocksCovered(blocks[1..], s, wide, narrow, count);
      AddedConcat(incs, rest, BucketKey(t, wide), wide);
      CoveredConcat(incs, rest, t, narrow, count);
      BlockCovered(blocks[0], s, wide, narrow, count);
      BlockAdded(blocks[0], BucketKey(t, wide));
      NestedFloor(blocks[0].timestamp, s, wide, narrow, count);
    }
  }

  lemma AddedOne(inc: Increment, k: BucketKey)
    ensures Added([inc], k) == if inc.key == k then inc.amount else 0
    ensures AddedTo([inc], k.frequency) == if inc.key.frequency == k.frequency then inc.amount else 0
  {
    assert [inc][1..] == [];
  }

  lemma BlockAdded(b: Block, k: BucketKey)
    requires k.frequency in {5, 30, 600}
    ensures Added(BlockIncrements(b), k) == if k.timestamp ==
              TimestampByFrequency(b.timestamp, k.frequency) then b.numTxs else 0
    ensures AddedTo(BlockIncrements(b), k.frequency) == b.numTxs
  {
    var incs := BlockIncrements(b);
    assert incs == [incs[0]] + ([incs[1]] + [incs[2]]);
    AddedConcat([incs[0]], [incs[1]] + [incs[2]], k, k.frequency);
    AddedConcat([incs[1]], [incs[2]], k, k.frequency);
    AddedOne(incs[0], k);
    AddedOne(incs[1], k);
    AddedOne(incs[2], k);
  }

  lemma {:induction false} NothingCovered(timestamp: int, frequency: int, count: nat)
    ensures AddedCovered([], timestamp, frequency, count) == 0
    decreases count
  {
    if count > 0 { NothingCovered(timestamp + frequency, frequency, count - 1); }
  }

  lemma TripleCovered(incs: seq<Increment>, p: int, s: int, wide: int, narrow: int, count: nat)
    requires Nested(wide, narrow, count)
    requires |incs| == 3 && incs[0].key.frequency == 5 && incs[1].key.frequency == 30 && incs[2].key.frequency == 600
    requires forall i :: 0 <= i < 3 && incs[i].key.frequency == narrow ==> incs[i].key.timestamp == Grid(narrow, p)
    ensures AddedCovered(incs, Grid(wide, s), narrow, count) ==
            if Grid(wide, s) <= Grid(narrow, p) < Grid(wide, s) +
              wide then (if narrow == 5 then incs[0].amount else incs[1].amount) else 0
  {
    var t, low := Grid(wide, s), if wide == 600 then 20 * s else 6 * s;
    assert incs == [incs[0]] + ([incs[1]] + [incs[2]]);
    CoveredConcat([incs[0]], [incs[1]] + [incs[2]], t, narrow, count);
    CoveredConcat([incs[1]], [incs[2]], t, narrow, count);
    CoveredOnce(incs[0], p, t, low, t + wide, narrow, count);
    CoveredOnce(incs[1], p, t, low, t + wide, narrow, count);
    CoveredOnce(incs[2], p, t, low, t + wide, narrow, count);
  }

  lemma BlockCovered(b: Block, s: int, wide: int, narrow: int, count: nat)
    requires Nested(wide, narrow, count)
    ensures AddedCovered(BlockIncrements(b), Grid(wide, s), narrow, count) ==
            if Grid(wide, s) <= TimestampByFrequency(b.timestamp, narrow) < Grid(wide, s) + wide then b.numTxs else 0
  {
    var p := FloorOnGrid(b.timestamp, narrow);
    TripleCovered(BlockIncrements(b), p, s, wide, narrow, count);
  }

  lemma {:induction false} BlocksTotal(blocks: seq<Block>, frequency: int)
    requires frequency in {5, 30, 600}
    ensures AddedTo(AllIncrements(blocks), frequency) == TransactionCount(blocks)
  {
    if blocks != [] {
      BlocksTotal(blocks[1..], frequency);
      BlockAdded(blocks[0], BucketKey(0, frequency));
      AddedConcat(BlockIncrements(blocks[0]), AllIncrements(blocks[1..]), BucketKey(0, frequency), frequency);
    }
  }

  lemma OneFamilyConserves(blocks: seq<Block>, log: seq<Increment>, s: int, wide: int, narrow: int, count: nat)
    requires multiset(log) == multiset(AllIncrements(blocks))
    requires Nested(wide, narrow, count)
    ensures var counters := Apply(map[], log);
            ValueOr0(counters, BucketKey(Grid(wide, s), wide)) == Covered(counters, Grid(wide, s), narrow, count)
  {
    var all, t := AllIncrements(blocks), Grid(wide, s);
    BlocksCovered(blocks, s, wide, narrow, count);
    ApplyAdds(map[], log, BucketKey(t, wide));
    OrderDoesNotMatter(log, all, BucketKey(t, wide), wide);
    CoveredIsAdded(log, t, narrow, count);
    CoveredOrder(log, all, t, narrow, count);
  }

  lemma TotalConserves(blocks: seq<Block>, log: seq<Increment>, frequency: int)
    requires multiset(log) == multiset(AllIncrements(blocks)) && frequency in {5, 30, 600}
    ensures Total(Apply(map[], log), frequency) == TransactionCount(blocks)
  {
    ApplyTotal(map[], log, frequency);
    OrderDoesNotMatter(log, AllIncrements(blocks), BucketKey(0, frequency), frequency);
    BlocksTotal(blocks, frequency);
  }

  /**
   Whatever order the increments of concurrently processed shards land in: every 600s bucket is
   the sum of its twenty 30s buckets, every 30s bucket the sum of its six 5s buckets, and each
   family adds up to the transactions of the processed blocks.
   */
  lemma BucketsConserve(blocks: seq<Block>, log: seq<Increment>, t: int, frequency: int)
    requires multiset(log) == multiset(AllIncrements(blocks))
    requires frequency in FREQUENCIES
    ensures var counters := Apply(map[], log);
            && ValueOr0(counters, BucketKey(600 * t, 600)) == Covered(counters, 600 * t, 30, 20)
            && ValueOr0(counters, BucketKey(30 * t, 30)) == Covered(counters, 30 * t, 5, 6)
            && Total(counters, frequency) == TransactionCount(blocks)
  {
    OneFamilyConserves(blocks, log, t, 600, 30, 20);
    OneFamilyConserves(blocks, log, t, 30, 5, 6);
    TotalConserves(blocks, log, frequency);
  }

  lemma {:induction false} CoveredOrder(
      a: seq<Increment>, b: seq<Increment>, timestamp: int, frequency: int, count: nat)
    requires multiset(a) == multiset(b)
    ensures AddedCovered(a, timestamp, frequency, count) == AddedCovered(b, timestamp, frequency, count)
    decreases count
  {
    if count > 0 {
      OrderDoesNotMatter(a, b, BucketKey(timestamp, frequency), frequency);
      CoveredOrder(a, b, timestamp + frequency, frequency, count - 1);
    }
  }

  // ----- the code -----------------------------------------------------------------------------

  function BlocksAt(blocks: (Shard, int) -> Block, shard: Shard, nonces: seq<int>): seq<Block> {
    seq(|nonces|, i requires 0 <= i < |nonces| => blocks(shard, nonces[i]))
  }

  class Warmer {
    var counters: map<BucketKey, int>
    var cursors: map<Shard, int>

    constructor ()
      ensures counters == map[] && cursors == map[]
    {
      counters, cursors := map[], map[];
    }

    function Cursor(shard: Shard): Option<int>
      reads this
    {
      if shard in cursors then Some(cursors[shard]) else None
    }

    method SaveTps(timestamp: nat, frequency: int, transactionCount: nat)
      requires frequency > 0
      modifies this`counters
      ensures counters ==
                Apply(old(counters),
                    [Increment(BucketKey(TimestampByFrequency(timestamp, frequency), frequency), transactionCount)])
    {
      var key := BucketKey(TimestampByFrequency(timestamp, frequency), frequency);
      counters := counters[key := ValueOr0(counters, key) + transactionCount];
    }

    method ProcessBlock(b: Block)
      modifies this`counters
      ensures counters == Apply(old(counters), BlockIncrements(b))
    {
      var all := BlockIncrements(b);
      for f := 0 to |FREQUENCIES|
        invariant counters == Apply(old(counters), all[..f])
      {
        SaveTps(b.timestamp, FREQUENCIES[f], b.numTxs);
        assert all[..f + 1] == all[..f] + [all[f]];
        ApplyConcat(old(counters), all[..f], [all[f]]);
      }
      assert all[..3] == all;
    }

    /** One run over one shard; it may be cut short after `budget` nonces. */
    method ProcessTpsForShard(shard: Shard, run: Run, lookBehind: nat, blocks: (Shard, int) -> Block)
      modifies this
      ensures var visited := Visited(old(Cursor(shard)), run, lookBehind);
              && counters == Apply(old(counters), AllIncrements(BlocksAt(blocks, shard, visited)))
              && Cursor(shard) == CursorAfter(old(Cursor(shard)), run, lookBehind)
              && cursors - {shard} == old(cursors) - {shard}
    {
      var start := StartNonce(Cursor(shard), run.endNonce, lookBehind);
      ghost var visited := Visited(Cursor(shard), run, lookBehind);
      var nonce := start + 1;
      while nonce <= run.endNonce && nonce <= start + run.budget
        invariant start + 1 <= nonce <= start + 1 + |visited|
        invariant counters == Apply(old(counters), AllIncrements(BlocksAt(blocks, shard, visited[..nonce - start - 1])))
        invariant Cursor(shard) == if nonce == start + 1 then old(Cursor(shard)) else Some(nonce - 1)
        invariant cursors - {shard} == old(cursors) - {shard}
      {
        ghost var done := visited[..nonce - start - 1];
        assert visited[..nonce - start] == done + [nonce];
        ProcessBlock(blocks(shard, nonce));
        BlocksAtSnoc(blocks, shard, done, nonce);
        ApplyConcat(old(counters), AllIncrements(BlocksAt(blocks, shard, done)), BlockIncrements(blocks(shard, nonce)));
        cursors := cursors[shard := nonce];
        nonce := nonce + 1;
      }
      assert visited[..|visited|] == visited;
    }

    /** Runs over shards, one after the other. */
    method ProcessJobs(jobs: seq<Job>, lookBehind: nat, blocks: (Shard, int) -> Block)
      modifies this
      ensures counters == Apply(old(counters), AllIncrements(BlocksOf(blocks, Visits(old(cursors), jobs, lookBehind))))
      ensures cursors == AllCursorsAfter(old(cursors), jobs, lookBehind)
    {
      ghost var done: seq<Visit> := [];
      for i := 0 to |jobs|
        invariant Visits(old(cursors), jobs, lookBehind) == done + Visits(cursors, jobs[i..], lookBehind)
        invariant counters == Apply(old(counters), AllIncrements(BlocksOf(blocks, done)))
        invariant AllCursorsAfter(old(cursors), jobs, lookBehind) == AllCursorsAfter(cursors, jobs[i..], lookBehind)
      {
        ghost var now := Visited(CursorOf(cursors, jobs[i].shard), jobs[i].run, lookBehind);
        JobDone(cursors, jobs, i, lookBehind, done);
        CursorsOfRest(cursors, jobs, i, lookBehind);
        OneMoreJob(old(counters), blocks, done, jobs[i].shard, now);
        ghost var before := cursors;
        ProcessTpsForShard(jobs[i].shard, jobs[i].run, lookBehind, blocks);
        SameCursors(before, cursors, jobs[i], lookBehind);
        done := done + VisitsOf(jobs[i].shard, now);
      }
      assert jobs[|jobs|..] == [] && done + [] == done;
    }
  }

  // ----- all shards together ------------------------------------------------------------------

  datatype Job = Job(shard: Shard, run: Run)
  datatype Visit = Visit(shard: Shard, nonce: int)

  function CursorOf(cursors: map<Shard, int>, shard: Shard): Option<int> {
    if shard in cursors then Some(cursors[shard]) else None
  }

  function VisitsOf(shard: Shard, nonces: seq<int>): (visits: seq<Visit>)
    ensures |visits| == |nonces| && forall i :: 0 <= i < |visits| ==> visits[i] == Visit(shard, nonces[i])
  {
    seq(|nonces|, i requires 0 <= i < |nonces| => Visit(shard, nonces[i]))
  }

  function CursorsAfter(cursors: map<Shard, int>, job: Job, lookBehind: nat): map<Shard, int> {
    var next := CursorAfter(CursorOf(cursors, job.shard), job.run, lookBehind);
    if next.Some? then cursors[job.shard := next.value] else cursors
  }

  /** The nonces of all shards that the jobs count. */
  function Visits(cursors: map<Shard, int>, jobs: seq<Job>, lookBehind: nat): seq<Visit>
    decreases |jobs|
  {
    if jobs == [] then []
    else
      VisitsOf(jobs[0].shard, Visited(CursorOf(cursors, jobs[0].shard), jobs[0].run, lookBehind))
      + Visits(CursorsAfter(cursors, jobs[0], lookBehind), jobs[1..], lookBehind)
  }

  /** The cursors that the jobs leave behind. */
  function AllCursorsAfter(cursors: map<Shard, int>, jobs: seq<Job>, lookBehind: nat): map<Shard, int>
    decreases |jobs|
  {
    if jobs == [] then cursors
    else AllCursorsAfter(CursorsAfter(cursors, jobs[0], lookBehind), jobs[1..], lookBehind)
  }

  /** The runs over one shard. */
  function RunsOf(jobs: seq<Job>, shard: Shard): seq<Run>
    decreases |jobs|
  {
    if jobs == [] then []
    else
      var rest := RunsOf(jobs[1..], shard);
      if jobs[0].shard == shard then [jobs[0].run] + rest else rest
  }

  /** Shards do not touch one another: each ends where its own runs alone would leave it. */
  lemma {:induction false} ShardsAreIndependent(
      cursors: map<Shard, int>, jobs: seq<Job>, lookBehind: nat, shard: Shard, n: int)
    ensures CursorOf(AllCursorsAfter(cursors, jobs, lookBehind), shard) ==
            FinalCursor(CursorOf(cursors, shard), RunsOf(jobs, shard), lookBehind)
    ensures Visit(shard, n) in Visits(cursors, jobs, lookBehind) <==>
            n in AllVisited(CursorOf(cursors, shard), RunsOf(jobs, shard), lookBehind)
    decreases |jobs|
  {
    if jobs != [] {
      var job := jobs[0];
      ShardsAreIndependent(CursorsAfter(cursors, job, lookBehind), jobs[1..], lookBehind, shard, n);
      VisitsOfShard(job.shard, Visited(CursorOf(cursors, job.shard), job.run, lookBehind), shard, n);
      FirstJob(cursors, job, lookBehind, shard);
      FirstOfRuns(CursorOf(cursors, shard), job.run, RunsOf(jobs[1..], shard), lookBehind);
    }
  }

  lemma FirstJob(cursors: map<Shard, int>, job: Job, lookBehind: nat, shard: Shard)
    ensures CursorOf(CursorsAfter(cursors, job, lookBehind), shard) ==
            if job.shard == shard then CursorAfter(CursorOf(cursors, shard), job.run, lookBehind)
            else CursorOf(cursors, shard)
  {
  }

  lemma FirstOfRuns(cursor: Option<int>, run: Run, runs: seq<Run>, lookBehind: nat)
    ensures var next := CursorAfter(cursor, run, lookBehind);
            && FinalCursor(cursor, [run] + runs, lookBehind) == FinalCursor(next, runs, lookBehind)
            && AllVisited(cursor, [run] + runs, lookBehind) ==
               Visited(cursor, run, lookBehind) + AllVisited(next, runs, lookBehind)
  {
    assert ([run] + runs)[1..] == runs;
  }

  lemma VisitsOfShard(visited: Shard, nonces: seq<int>, shard: Shard, n: int)
    ensures Visit(shard, n) in VisitsOf(visited, nonces) <==> shard == visited && n in nonces
  {
    if i :| 0 <= i < |nonces| && nonces[i] == n && shard == visited {
      assert VisitsOf(visited, nonces)[i] == Visit(shard, n);
    }
  }

  function BlocksOf(blocks: (Shard, int) -> Block, visits: seq<Visit>): seq<Block> {
    seq(|visits|, i requires 0 <= i < |visits| => blocks(visits[i].shard, visits[i].nonce))
  }

  lemma SameCursors(before: map<Shard, int>, after: map<Shard, int>, job: Job, lookBehind: nat)
    requires CursorOf(after, job.shard) == CursorAfter(CursorOf(before, job.shard), job.run, lookBehind)
    requires after - {job.shard} == before - {job.shard}
    ensures after == CursorsAfter(before, job, lookBehind)
  {
    var expected := CursorsAfter(before, job, lookBehind);
    forall k ensures (k in after <==> k in expected) && (k in after ==> after[k] == expected[k]) {
      assert k != job.shard && k in after ==> k in after - {job.shard};
      assert k != job.shard && k in before ==> k in before - {job.shard};
    }
  }

  lemma JobDone(cursors: map<Shard, int>, jobs: seq<Job>, i: nat, lookBehind: nat, done: seq<Visit>)
    requires i < |jobs|
    ensures var now := VisitsOf(jobs[i].shard, Visited(CursorOf(cursors, jobs[i].shard), jobs[i].run, lookBehind));
            var later := Visits(CursorsAfter(cursors, jobs[i], lookBehind), jobs[i + 1..], lookBehind);
            done + Visits(cursors, jobs[i..], lookBehind) == done + now + later
  {
    assert jobs[i..][1..] == jobs[i + 1..];
  }

  lemma CursorsOfRest(cursors: map<Shard, int>, jobs: seq<Job>, i: nat, lookBehind: nat)
    requires i < |jobs|
    ensures AllCursorsAfter(cursors, jobs[i..], lookBehind) ==
              AllCursorsAfter(CursorsAfter(cursors, jobs[i], lookBehind), jobs[i + 1..], lookBehind)
  {
    assert jobs[i..][1..] == jobs[i + 1..];
  }

  lemma OneMoreJob(
      counters: map<BucketKey, int>, blocks: (Shard, int) -> Block, done: seq<Visit>, shard: Shard, now: seq<int>)
    ensures Apply(Apply(counters, AllIncrements(BlocksOf(blocks, done))), AllIncrements(BlocksAt(blocks, shard, now)))
         == Apply(counters, AllIncrements(BlocksOf(blocks, done + VisitsOf(shard, now))))
  {
    assert BlocksOf(blocks, done + VisitsOf(shard, now)) == BlocksOf(blocks, done) + BlocksAt(blocks, shard, now);
    IncrementsConcat(BlocksOf(blocks, done), BlocksAt(blocks, shard, now));
    ApplyConcat(counters, AllIncrements(BlocksOf(blocks, done)), AllIncrements(BlocksAt(blocks, shard, now)));
  }

  ghost predicate Positive(cursors: map<Shard, int>) {
    forall shard :: shard in cursors ==> cursors[shard] > 0
  }

  ghost predicate AllAbove(cursors: map<Shard, int>, visits: seq<Visit>) {
    forall v :: v in visits ==> Beyond(CursorOf(cursors, v.shard), v.nonce)
  }

  /** No nonce of any shard is counted twice. */
  lemma {:induction false} VisitsAreDistinct(cursors: map<Shard, int>, jobs: seq<Job>, lookBehind: nat)
    requires Positive(cursors) && forall job :: job in jobs ==> job.run.endNonce >= lookBehind
    ensures NoRepetition(Visits(cursors, jobs, lookBehind)) && AllAbove(cursors, Visits(cursors, jobs, lookBehind))
    decreases |jobs|
  {
    if jobs != [] {
      var shard, run := jobs[0].shard, jobs[0].run;
      var visited := Visited(CursorOf(cursors, shard), run, lookBehind);
      var next := CursorsAfter(cursors, jobs[0], lookBehind);
      VisitedAbove(CursorOf(cursors, shard), run, lookBehind);
      assert visited != [] ==> visited[|visited| - 1] in visited;
      VisitsAreDistinct(next, jobs[1..], lookBehind);
      FirstThenRest(cursors, shard, visited, next, Visits(next, jobs[1..], lookBehind));
    }
  }

  lemma FirstThenRest(
      cursors: map<Shard, int>, shard: Shard, visited: seq<int>, next: map<Shard, int>, rest: seq<Visit>)
    requires StrictlyIncreasing(visited) && Above(CursorOf(cursors, shard), visited)
    requires NoRepetition(rest) && AllAbove(next, rest)
    requires next == if visited == [] then cursors else cursors[shard := visited[|visited| - 1]]
    ensures NoRepetition(VisitsOf(shard, visited) + rest) && AllAbove(cursors, VisitsOf(shard, visited) + rest)
  {
    var first := VisitsOf(shard, visited);
    forall j | 0 <= j < |rest| ensures rest[j] !in first && Beyond(CursorOf(cursors, rest[j].shard), rest[j].nonce) {
      assert rest[j] in rest && Beyond(CursorOf(next, rest[j].shard), rest[j].nonce);
      assert visited != [] ==> visited[|visited| - 1] in visited;
    }
    forall v | v in first ensures Beyond(CursorOf(cursors, v.shard), v.nonce) {
      var i :| 0 <= i < |first| && first[i] == v;
      assert visited[i] in visited;
    }
    NoRepetitionConcat(first, rest);
  }

  /**
   From empty counters, over any jobs on any shards and any order their increments land in: each
   family totals the transactions of the visited nonces, none of which is visited twice, and wide
   buckets are the sums of narrow ones.
   */
  lemma CountersAreVisits(blocks: (Shard, int) -> Block, cursors: map<Shard, int>, jobs: seq<Job>, lookBehind: nat,
                          log: seq<Increment>, t: int, frequency: int)
    requires Positive(cursors) && forall job :: job in jobs ==> job.run.endNonce >= lookBehind
    requires multiset(log) == multiset(AllIncrements(BlocksOf(blocks, Visits(cursors, jobs, lookBehind))))
    requires frequency in FREQUENCIES
    ensures var visits, counters := Visits(cursors, jobs, lookBehind), Apply(map[], log);
            && NoRepetition(visits)
            && Total(counters, frequency) == TransactionCount(BlocksOf(blocks, visits))
            && ValueOr0(counters, BucketKey(600 * t, 600)) == Covered(counters, 600 * t, 30, 20)
            && ValueOr0(counters, BucketKey(30 * t, 30)) == Covered(counters, 30 * t, 5, 6)
  {
    VisitsAreDistinct(cursors, jobs, lookBehind);
    BucketsConserve(BlocksOf(blocks, Visits(cursors, jobs, lookBehind)), log, t, frequency);
  }

  lemma {:induction false} IncrementsConcat(a: seq<Block>, b: seq<Block>)
    ensures AllIncrements(a + b) == AllIncrements(a) + AllIncrements(b)
    decreases |a|
  {
    if a == [] {
      assert a + b == b;
    } else {
      assert (a + b)[1..] == a[1..] + b;
      IncrementsConcat(a[1..], b);
    }
  }

  lemma BlocksAtSnoc(blocks: (Shard, int) -> Block, shard: Shard, nonces: seq<int>, nonce: int)
    ensures AllIncrements(BlocksAt(blocks, shard, nonces + [nonce])) ==
            AllIncrements(BlocksAt(blocks, shard, nonces)) + BlockIncrements(blocks(shard, nonce))
  {
    assert BlocksAt(blocks, shard, nonces + [nonce]) == BlocksAt(blocks, shard, nonces) + [blocks(shard, nonce)];
    IncrementsConcat(BlocksAt(blocks, shard, nonces), [blocks(shard, nonce)]);
    assert AllIncrements([blocks(shard, nonce)]) == BlockIncrements(blocks(shard, nonce));
  }
}
