/**
 Sharing one gateway request between concurrent callers that ask for the same address. A call is
 split at its awaits: entering, resuming after the awaited request, and storing the result once
 the remaining time of the round is known. Steps of different calls interleave freely.
 */
module EsdtRequests {

  type Address = string
  type Esdts = string
  type FetchId = nat

  datatype FetchStatus = Unresolved | Resolved(value: Esdts) | Rejected
  /** `cleared` is the time at which the pending entry of the request was deleted. */
  datatype Fetch = Fetch(address: Address, startedAt: nat, status: FetchStatus, cleared: Cleared)
  datatype Cleared = NotYet | ClearedAt(time: nat)

  datatype Source = FromCache | FromFetch(id: FetchId)

  datatype Phase =
    | Joined(fetch: FetchId)                  // awaits a request another call started
    | Leading(fetch: FetchId)                 // awaits the request it started
    | Storing(fetch: FetchId, value: Esdts)   // has the result, awaits the time to live
    | Returned(result: Esdts, source: Source)
    | Threw(fetch: FetchId)

  datatype Call = Call(address: Address, enteredAt: nat, phase: Phase)

  /** A cached value; the request it came from is recorded for the proofs and never read by the code. */
  datatype Cached = Cached(value: Esdts, fetch: FetchId)

  datatype State = State(
    clock: nat,
    fetches: seq<Fetch>,
    calls: seq<Call>,
    pending: map<Address, FetchId>,
    cache: map<Address, Cached>)

  datatype Step =
    | Enter(address: Address)
    | Resolve(fetch: FetchId, value: Esdts)
    | Reject(fetch: FetchId)
    | ResumeJoined(call: nat)
    | ResumeLeader(call: nat)
    | StoreResult(call: nat)
    | TimeToLiveFails(call: nat)
    | ExpireCached(address: Address)

  const INITIAL := State(0, [], [], map[], map[])

  predicate Settled(s: State, f: FetchId) {
    f < |s.fetches| && s.fetches[f].status != Unresolved
  }

  predicate Enabled(s: State, step: Step) {
    match step
    case Enter(_) => true
    case Resolve(f, _) => f < |s.fetches| && s.fetches[f].status == Unresolved
    case Reject(f) => f < |s.fetches| && s.fetches[f].status == Unresolved
    case ResumeJoined(c) => c < |s.calls| && s.calls[c].phase.Joined? && Settled(s, s.calls[c].phase.fetch)
    case ResumeLeader(c) => c < |s.calls| && s.calls[c].phase.Leading? && Settled(s, s.calls[c].phase.fetch)
    case StoreResult(c) => c < |s.calls| && s.calls[c].phase.Storing?
    case TimeToLiveFails(c) => c < |s.calls| && s.calls[c].phase.Storing?
    case ExpireCached(_) => true
  }

  function WithPhase(s: State, c: nat, phase: Phase): State
    requires c < |s.calls|
  {
    s.(calls := s.calls[c := s.calls[c].(phase := phase)])
  }

  function Entered(s: State, a: Address): State {
    if a in s.pending then s.(calls := s.calls + [Call(a, s.clock, Joined(s.pending[a]))])
    else if a in s.cache then s.(calls := s.calls + [Call(a, s.clock, Returned(s.cache[a].value, FromCache))])
    else
      var f := |s.fetches|;
      s.(fetches := s.fetches + [Fetch(a, s.clock, Unresolved, NotYet)],
         pending := s.pending[a := f],
         calls := s.calls + [Call(a, s.clock, Leading(f))])
  }

  function LeaderResumed(s: State, c: nat): State
    requires Enabled(s, ResumeLeader(c))
  {
    var f := s.calls[c].phase.fetch;
    var cleared := s.(pending := s.pending - {s.calls[c].address},
                      fetches := s.fetches[f := s.fetches[f].(cleared := ClearedAt(s.clock))]);
    WithPhase(cleared, c, if s.fetches[f].status.Resolved? then Storing(f, s.fetches[f].status.value) else Threw(f))
  }

  function Next(s: State, step: Step): (r: State)
    requires Enabled(s, step)
    ensures |s.calls| <= |r.calls| && |s.fetches| <= |r.fetches|
  {
    var after :=
      match step
      case Enter(a) => Entered(s, a)
      case Resolve(f, v) => s.(fetches := s.fetches[f := s.fetches[f].(status := Resolved(v))])
      case Reject(f) => s.(fetches := s.fetches[f := s.fetches[f].(status := Rejected)])
      case ResumeJoined(c) =>
        var f := s.calls[c].phase.fetch;
        WithPhase(s, c,
            if s.fetches[f].status.Resolved? then Returned(s.fetches[f].status.value, FromFetch(f)) else Threw(f))
      case ResumeLeader(c) => LeaderResumed(s, c)
      case StoreResult(c) =>
        var call := s.calls[c];
        WithPhase(s, c, Returned(call.phase.value, FromFetch(call.phase.fetch))).(
          cache := s.cache[call.address := Cached(call.phase.value, call.phase.fetch)])
      case TimeToLiveFails(c) => WithPhase(s, c, Threw(s.calls[c].phase.fetch))
      case ExpireCached(a) => s.(cache := s.cache - {a});
    after.(clock := s.clock + 1)
  }

  ghost predicate Run(s: State, steps: seq<Step>, s': State)
    decreases |steps|
  {
    if steps == [] then s == s' else Enabled(s, steps[0]) && Run(Next(s, steps[0]), steps[1..], s')
  }

  // ----- the invariant ------------------------------------------------------------------------

  /** The request was for the call's address and its entry was still there when the call began. */
  ghost predicate Overlaps(s: State, c: Call, f: FetchId) {
    && f < |s.fetches| && s.fetches[f].address == c.address
    && s.fetches[f].startedAt < s.clock
    && (s.fetches[f].cleared.ClearedAt? ==> c.enteredAt <= s.fetches[f].cleared.time)
  }

  ghost predicate CallOk(s: State, c: Call) {
    match c.phase
    case Joined(f) => Overlaps(s, c, f)
    case Leading(f) => Overlaps(s, c, f) && s.fetches[f].cleared.NotYet?
    case Storing(f, v) => Overlaps(s, c, f) && s.fetches[f].status == Resolved(v)
    case Returned(v, FromFetch(f)) => Overlaps(s, c, f) && s.fetches[f].status == Resolved(v)
    case Returned(v, FromCache) => Fetched(s, c.address, v)
    case Threw(f) => Overlaps(s, c, f) && s.fetches[f].status != Unresolved
  }

  ghost predicate FetchedBy(s: State, a: Address, v: Esdts, f: FetchId) {
    f < |s.fetches| && s.fetches[f].address == a && s.fetches[f].status == Resolved(v)
  }

  ghost predicate Fetched(s: State, a: Address, v: Esdts) {
    exists f :: FetchedBy(s, a, v, f)
  }

  ghost predicate Leads(s: State, c: int, f: FetchId) {
    0 <= c < |s.calls| && s.calls[c].phase == Leading(f)
  }

  ghost predicate HasLeader(s: State, f: FetchId) {
    exists c :: Leads(s, c, f)
  }

  /** Pending entries, uncleared requests and their starters correspond one to one. */
  ghost predicate EntriesOk(s: State) {
    && (forall f :: 0 <= f < |s.fetches| && s.fetches[f].cleared.NotYet? ==>
          s.fetches[f].address in s.pending && s.pending[s.fetches[f].address] == f)
    && (forall f :: 0 <= f < |s.fetches| && s.fetches[f].cleared.ClearedAt? ==>
          s.fetches[f].status != Unresolved && s.fetches[f].cleared.time < s.clock)
    && (forall a :: a in s.pending ==>
          var f := s.pending[a];
          f < |s.fetches| && s.fetches[f].address == a && s.fetches[f].cleared.NotYet? && HasLeader(s, f))
    && (forall c, d, f: nat :: Leads(s, c, f) && Leads(s, d, f) ==> c == d)
  }

  ghost predicate CallsOk(s: State) {
    && (forall c :: 0 <= c < |s.calls| ==> s.calls[c].enteredAt < s.clock && CallOk(s, s.calls[c]))
    && (forall a :: a in s.cache ==> FetchedBy(s, a, s.cache[a].value, s.cache[a].fetch))
  }

  ghost predicate Inv(s: State) {
    EntriesOk(s) && CallsOk(s)
  }

  /** Requests are numbered as they start, and one for the same address starts only after the one before was cleared. */
  ghost predicate InTurn(s: State) {
    && (forall f :: 0 <= f < |s.fetches| ==> s.fetches[f].startedAt < s.clock)
    && (forall f :: 0 <= f < |s.fetches| && s.fetches[f].cleared.ClearedAt? ==>
          s.fetches[f].startedAt < s.fetches[f].cleared.time)
    && (forall f, g :: 0 <= f < g < |s.fetches| ==> s.fetches[f].startedAt < s.fetches[g].startedAt)
    && forall f, g :: 0 <= f < g < |s.fetches| && s.fetches[f].address == s.fetches[g].address ==>
         s.fetches[f].cleared.ClearedAt? && s.fetches[f].cleared.time < s.fetches[g].startedAt
  }

  lemma FetchedStays(s: State, s': State, a: Address, v: Esdts)
    requires Fetched(s, a, v)
    requires |s.fetches| <= |s'.fetches|
    requires forall f :: 0 <= f < |s.fetches| ==>
               s'.fetches[f].address == s.fetches[f].address &&
               (s.fetches[f].status != Unresolved ==> s'.fetches[f].status == s.fetches[f].status)
    ensures Fetched(s', a, v)
  {
    var f :| FetchedBy(s, a, v, f);
    assert FetchedBy(s', a, v, f);
  }

  /** How the requests may change in one step. */
  ghost predicate FetchesGrow(s: State, s': State) {
    && |s.fetches| <= |s'.fetches| && s.clock < s'.clock
    && forall f :: 0 <= f < |s.fetches| ==>
         && s'.fetches[f].address == s.fetches[f].address && s'.fetches[f].startedAt == s.fetches[f].startedAt
         && (s.fetches[f].status != Unresolved ==> s'.fetches[f].status == s.fetches[f].status)
         && (s.fetches[f].cleared.ClearedAt? ==> s'.fetches[f].cleared == s.fetches[f].cleared)
         && (s'.fetches[f].cleared.ClearedAt? && s.fetches[f].cleared.NotYet? ==> s'.fetches[f].cleared.time == s.clock)
  }

  lemma CallStays(s: State, s': State, c: Call)
    requires FetchesGrow(s, s') && CallOk(s, c) && c.enteredAt < s.clock
    requires c.phase.Leading? ==> s'.fetches[c.phase.fetch].cleared.NotYet?
    ensures CallOk(s', c)
  {
    match c.phase
    case Returned(v, FromCache) => FetchedStays(s, s', c.address, v);
    case _ =>
  }

  ghost predicate StillLeads(s: State, c: Call) {
    c.phase.Leading? ==> c.phase.fetch < |s.fetches| && s.fetches[c.phase.fetch].cleared.NotYet?
  }

  lemma CallsStay(s: State, s': State)
    requires Inv(s) && FetchesGrow(s, s')
    ensures forall c :: 0 <= c < |s.calls| && StillLeads(s', s.calls[c]) ==> CallOk(s', s.calls[c])
    ensures forall a :: a in s.cache ==> FetchedBy(s', a, s.cache[a].value, s.cache[a].fetch)
  {
    forall c | 0 <= c < |s.calls| && StillLeads(s', s.calls[c]) ensures CallOk(s', s.calls[c]) {
      CallStays(s, s', s.calls[c]);
    }
  }

  lemma LeadersStay(s: State, s': State)
    requires |s.calls| <= |s'.calls| && forall c, f :: 0 <= c < |s.calls| && s.calls[c].phase == Leading(f) ==>
               s'.calls[c].phase == Leading(f)
    ensures forall f :: HasLeader(s, f) ==> HasLeader(s', f)
  {
    forall f | HasLeader(s, f) ensures HasLeader(s', f) {
      var c :| Leads(s, c, f);
      assert Leads(s', c, f);
    }
  }

  lemma EnterPreserves(s: State, a: Address)
    requires Inv(s)
    ensures Inv(Next(s, Enter(a)))
  {
    if a in s.pending || a in s.cache {
      EnterWithoutRequest(s, a);
    } else {
      EnterWithRequest(s, a);
    }
  }

  lemma EnterWithoutRequest(s: State, a: Address)
    requires Inv(s) && (a in s.pending || a in s.cache)
    ensures Inv(Next(s, Enter(a)))
  {
    var s' := Next(s, Enter(a));
    assert a !in s.pending ==> FetchedBy(s', a, s.cache[a].value, s.cache[a].fetch);
    CallAppended(s, s', s'.calls[|s.calls|]);
    LeadersStay(s, s');
    assert forall d, f: nat :: Leads(s', d, f) ==> Leads(s, d, f);
  }

  lemma EnterWithRequest(s: State, a: Address)
    requires Inv(s) && a !in s.pending && a !in s.cache
    ensures Inv(Next(s, Enter(a)))
  {
    CallAppended(s, Next(s, Enter(a)), Next(s, Enter(a)).calls[|s.calls|]);
    NewRequest(s, a);
  }

  lemma NewRequest(s: State, a: Address)
    requires Inv(s) && a !in s.pending && a !in s.cache
    ensures EntriesOk(Next(s, Enter(a)))
  {
    var s' := Next(s, Enter(a));
    LeadersStay(s, s');
    NoLeaderCleared(s);
    assert Leads(s', |s.calls|, |s.fetches|);
    assert forall d, f: nat :: Leads(s', d, f) && d != |s.calls| ==> Leads(s, d, f);
  }

  lemma CallAppended(s: State, s': State, call: Call)
    requires Inv(s) && FetchesGrow(s, s') && s'.calls == s.calls + [call] && s'.cache == s.cache
    requires forall f :: 0 <= f < |s.fetches| ==> s'.fetches[f].cleared == s.fetches[f].cleared
    requires call.enteredAt < s'.clock && CallOk(s', call)
    ensures CallsOk(s')
  {
    CallsStay(s, s');
    NoLeaderCleared(s);
  }

  lemma NoLeaderCleared(s: State)
    requires Inv(s)
    ensures forall d, f: nat :: Leads(s, d, f) ==> f < |s.fetches| && s.fetches[f].cleared.NotYet?
    ensures forall d :: 0 <= d < |s.calls| && s.calls[d].phase.Leading? ==>
              s.calls[d].phase.fetch < |s.fetches| && s.fetches[s.calls[d].phase.fetch].cleared.NotYet?
  {
    forall d, f: nat | Leads(s, d, f)
      ensures f < |s.fetches| && s.fetches[f].cleared.NotYet?
    {
      assert CallOk(s, s.calls[d]);
    }
    forall d | 0 <= d < |s.calls| && s.calls[d].phase.Leading?
      ensures s.calls[d].phase.fetch < |s.fetches| && s.fetches[s.calls[d].phase.fetch].cleared.NotYet?
    {
      assert CallOk(s, s.calls[d]);
    }
  }

  lemma SettlePreserves(s: State, step: Step)
    requires Inv(s) && Enabled(s, step) && (step.Resolve? || step.Reject?)
    ensures Inv(Next(s, step))
  {
    var s' := Next(s, step);
    assert FetchesGrow(s, s');
    assert forall f :: 0 <= f < |s.fetches| ==> s'.fetches[f].cleared == s.fetches[f].cleared;
    CallsUntouched(s, s');
    EntriesUntouched(s, s');
  }

  lemma CallsUntouched(s: State, s': State)
    requires Inv(s) && FetchesGrow(s, s') && s'.calls == s.calls && s'.cache == s.cache
    requires forall f :: 0 <= f < |s.fetches| ==> s'.fetches[f].cleared == s.fetches[f].cleared
    ensures CallsOk(s')
  {
    CallsStay(s, s');
    NoLeaderCleared(s);
  }

  lemma EntriesUntouched(s: State, s': State)
    requires Inv(s) && FetchesGrow(s, s') && s'.calls == s.calls && s'.pending == s.pending &&
             |s'.fetches| == |s.fetches|
    requires forall f :: 0 <= f < |s.fetches| ==> s'.fetches[f].cleared == s.fetches[f].cleared
    ensures EntriesOk(s')
  {
    LeadersStay(s, s');
    assert forall c, f: nat :: Leads(s', c, f) ==> Leads(s, c, f);
  }

  /** A call that moves on without leading a request. */
  lemma CallMovesOn(s: State, s': State, c: nat, phase: Phase)
    requires Inv(s) && c < |s.calls| && !s.calls[c].phase.Leading? && !phase.Leading?
    requires s'.calls == s.calls[c := s.calls[c].(phase := phase)] && s'.fetches == s.fetches &&
             s'.pending == s.pending && s'.clock == s.clock + 1
    requires CallOk(s, s.calls[c].(phase := phase))
    requires forall a :: a in s'.cache ==> FetchedBy(s, a, s'.cache[a].value, s'.cache[a].fetch)
    ensures Inv(s')
  {
    CallsStay(s, s');
    CallStays(s, s', s.calls[c].(phase := phase));
    LeadersStay(s, s');
    assert forall d, f: nat :: Leads(s', d, f) ==> Leads(s, d, f);
    forall d | 0 <= d < |s'.calls| ensures CallOk(s', s'.calls[d]) {
      assert s.calls[d].phase.Leading? ==> CallOk(s, s.calls[d]);
    }
  }

  lemma LeaderPreserves(s: State, c: nat)
    requires Inv(s) && Enabled(s, ResumeLeader(c))
    ensures Inv(Next(s, ResumeLeader(c)))
  {
    assert CallOk(s, s.calls[c]);
    CallsAfterResume(s, c);
    CallsStay(s, Next(s, ResumeLeader(c)));
    EntriesAfterResume(s, c);
  }

  lemma EntriesAfterResume(s: State, c: nat)
    requires Inv(s) && Enabled(s, ResumeLeader(c))
    ensures EntriesOk(Next(s, ResumeLeader(c)))
  {
    assert CallOk(s, s.calls[c]) && Leads(s, c, s.calls[c].phase.fetch);
    LeadersAfterResume(s, c);
  }

  lemma LeadersAfterResume(s: State, c: nat)
    requires Inv(s) && Enabled(s, ResumeLeader(c))
    ensures var s', f := Next(s, ResumeLeader(c)), s.calls[c].phase.fetch;
            && (forall d, g: nat :: Leads(s', d, g) ==> Leads(s, d, g) && g != f)
            && (forall g: nat :: HasLeader(s, g) && g != f ==> HasLeader(s', g))
  {
    var s' := Next(s, ResumeLeader(c));
    var f := s.calls[c].phase.fetch;
    assert Leads(s, c, f);
    forall g: nat | HasLeader(s, g) && g != f ensures HasLeader(s', g) {
      var d :| Leads(s, d, g);
      assert Leads(s', d, g);
    }
  }

  lemma CallsAfterResume(s: State, c: nat)
    requires Inv(s) && Enabled(s, ResumeLeader(c))
    ensures var s' := Next(s, ResumeLeader(c)); forall d :: 0 <= d < |s'.calls| ==> CallOk(s', s'.calls[d])
  {
    var s' := Next(s, ResumeLeader(c));
    var f := s.calls[c].phase.fetch;
    assert CallOk(s, s.calls[c]) && Leads(s, c, f);
    forall d | 0 <= d < |s'.calls| ensures CallOk(s', s'.calls[d]) {
      if d != c {
        assert s.calls[d].phase.Leading? ==> Leads(s, d, s.calls[d].phase.fetch);
        CallStays(s, s', s.calls[d]);
      }
    }
  }

  lemma StepPreserves(s: State, step: Step)
    requires Inv(s) && Enabled(s, step)
    ensures Inv(Next(s, step))
  {
    match step
    case Enter(a) => EnterPreserves(s, a);
    case Resolve(_, _) => SettlePreserves(s, step);
    case Reject(_) => SettlePreserves(s, step);
    case ResumeJoined(c) =>
      assert CallOk(s, s.calls[c]);
      CallMovesOn(s, Next(s, step), c, Next(s, step).calls[c].phase);
    case ResumeLeader(c) => LeaderPreserves(s, c);
    case StoreResult(c) =>
      assert CallOk(s, s.calls[c]);
      CallMovesOn(s, Next(s, step), c, Next(s, step).calls[c].phase);
    case TimeToLiveFails(c) =>
      assert CallOk(s, s.calls[c]);
      CallMovesOn(s, Next(s, step), c, Next(s, step).calls[c].phase);
    case ExpireCached(a) => ExpirePreserves(s, a);
  }

  lemma ExpirePreserves(s: State, a: Address)
    requires Inv(s)
    ensures Inv(Next(s, ExpireCached(a)))
  {
    var s' := Next(s, ExpireCached(a));
    CallsStay(s, s');
    LeadersStay(s, s');
    assert forall c, f: nat :: Leads(s', c, f) ==> Leads(s, c, f);
    forall c | 0 <= c < |s'.calls| ensures CallOk(s', s'.calls[c]) {
      assert CallOk(s, s.calls[c]);
    }
  }

  lemma {:induction false} RunPreserves(s: State, steps: seq<Step>, s': State)
    requires Inv(s) && Run(s, steps, s')
    ensures Inv(s')
    decreases |steps|
  {
    if steps != [] {
      StepPreserves(s, steps[0]);
      RunPreserves(Next(s, steps[0]), steps[1..], s');
    }
  }

  // ----- results ------------------------------------------------------------------------------

  /**
   In every interleaving: an address has at most one request without an answer, the pending
   entry is exactly the one request whose starter has not resumed yet, and that starter exists.
   */
  lemma OneRequestPerAddress(steps: seq<Step>, s: State)
    requires Run(INITIAL, steps, s)
    ensures forall f, g ::
              (0 <= f < |s.fetches| && 0 <= g < |s.fetches| && s.fetches[f].address == s.fetches[g].address
               && s.fetches[f].status == Unresolved && s.fetches[g].status == Unresolved) ==> f == g
    ensures forall f :: 0 <= f < |s.fetches| ==>
              (s.fetches[f].cleared.NotYet? <==>
                 s.fetches[f].address in s.pending && s.pending[s.fetches[f].address] == f)
    ensures forall f :: 0 <= f < |s.fetches| && s.fetches[f].status == Unresolved ==> s.fetches[f].cleared.NotYet?
    ensures forall a :: a in s.pending ==>
              s.pending[a] < |s.fetches| && s.fetches[s.pending[a]].address == a && HasLeader(s, s.pending[a])
  {
    RunPreserves(INITIAL, steps, s);
  }

  /**
   In every interleaving: what a call returns is the answer to a request for its own address,
   and unless it came from the cache, that request's pending entry lived until after the call began.
   */
  lemma ResultsAreAnswers(steps: seq<Step>, s: State, c: nat)
    requires Run(INITIAL, steps, s) && c < |s.calls| && s.calls[c].phase.Returned?
    ensures var call := s.calls[c];
            match call.phase.source
            case FromCache => Fetched(s, call.address, call.phase.result)
            case FromFetch(f) =>
              && f < |s.fetches| && s.fetches[f].address == call.address &&
                 s.fetches[f].status == Resolved(call.phase.result)
              && (s.fetches[f].cleared.ClearedAt? ==> call.enteredAt <= s.fetches[f].cleared.time)
  {
    RunPreserves(INITIAL, steps, s);
    assert CallOk(s, s.calls[c]);
  }

  /**
   Whenever an entry is pending, its starter can always clear it: at once if the request was
   answered, else right after any answer. If the request failed, the starter throws, and the next
   call for the address that finds nothing cached starts a new request.
   */
  lemma EntriesAreCleared(steps: seq<Step>, s: State, a: Address) returns (c: nat)
    requires Run(INITIAL, steps, s) && a in s.pending
    ensures c < |s.calls| && s.calls[c].address == a && s.calls[c].phase == Leading(s.pending[a]) &&
            s.pending[a] < |s.fetches|
    ensures s.fetches[s.pending[a]].status == Unresolved ==>
              Enabled(Next(s, Reject(s.pending[a])), ResumeLeader(c))
    ensures s.fetches[s.pending[a]].status != Unresolved ==>
              Enabled(s, ResumeLeader(c)) && a !in Next(s, ResumeLeader(c)).pending
    ensures s.fetches[s.pending[a]].status == Rejected ==>
              var s1 := Next(s, ResumeLeader(c));
              && s1.calls[c].phase == Threw(s.pending[a])
              && (a !in s1.cache ==>
                    var s2 := Next(s1, Enter(a));
                    a in s2.pending && s2.pending[a] == |s1.fetches| && s2.fetches[|s1.fetches|].status == Unresolved)
  {
    RunPreserves(INITIAL, steps, s);
    c :| Leads(s, c, s.pending[a]);
    assert CallOk(s, s.calls[c]);
  }

  /**
   Sharing ends when the starter resumes, not when the result is cached, so a second request can
   start in between; its newer result is then replaced in the cache by the older one.
   */
  lemma OlderResultMayReplaceNewer(a: Address, older: Esdts, newer: Esdts) returns (steps: seq<Step>, s: State)
    ensures Run(INITIAL, steps, s)
    ensures a in s.cache && s.cache[a] == Cached(older, 0)
    ensures |s.calls| == 2 && s.calls[0].phase == Returned(older, FromFetch(0)) &&
            s.calls[1].phase == Returned(newer, FromFetch(1))
    ensures |s.fetches| == 2 && s.fetches[0].startedAt < s.fetches[1].startedAt
  {
    var first := Fetch(a, 0, Resolved(older), ClearedAt(2));
    var s1 := State(1, [Fetch(a, 0, Unresolved, NotYet)], [Call(a, 0, Leading(0))], map[a := 0], map[]);
    var s2 := State(2, [Fetch(a, 0, Resolved(older), NotYet)], [Call(a, 0, Leading(0))], map[a := 0], map[]);
    var s3 := State(3, [first], [Call(a, 0, Storing(0, older))], map[], map[]);
    var s4 := State(4, [first, Fetch(a, 3, Unresolved, NotYet)],
        [Call(a, 0, Storing(0, older)), Call(a, 3, Leading(1))], map[a := 1], map[]);
    var s5 := State(5, [first, Fetch(a, 3, Resolved(newer), NotYet)],
        [Call(a, 0, Storing(0, older)), Call(a, 3, Leading(1))], map[a := 1], map[]);
    var second := Fetch(a, 3, Resolved(newer), ClearedAt(5));
    var s6 := State(6, [first, second], [Call(a, 0, Storing(0, older)), Call(a, 3, Storing(1, newer))], map[], map[]);
    var s7 := State(7, [first, second], [Call(a, 0, Storing(0, older)), Call(a, 3, Returned(newer, FromFetch(1)))],
        map[], map[a := Cached(newer, 1)]);
    s := State(8, [first, second],
        [Call(a, 0, Returned(older, FromFetch(0))), Call(a, 3, Returned(newer, FromFetch(1)))], map[],
          map[a := Cached(older, 0)]);
    assert Next(INITIAL, Enter(a)) == s1;
    assert Next(s1, Resolve(0, older)) == s2;
    assert Next(s2, ResumeLeader(0)) == s3;
    assert Next(s3, Enter(a)) == s4;
    assert Next(s4, Resolve(1, newer)) == s5;
    assert Next(s5, ResumeLeader(1)) == s6;
    assert Next(s6, StoreResult(1)) == s7;
    assert Next(s7, StoreResult(0)) == s;
    steps := [];
    steps := RunStep(s7, StoreResult(0), steps, s);
    steps := RunStep(s6, StoreResult(1), steps, s);
    steps := RunStep(s5, ResumeLeader(1), steps, s);
    steps := RunStep(s4, Resolve(1, newer), steps, s);
    steps := RunStep(s3, Enter(a), steps, s);
    steps := RunStep(s2, ResumeLeader(0), steps, s);
    steps := RunStep(s1, Resolve(0, older), steps, s);
    steps := RunStep(INITIAL, Enter(a), steps, s);
  }

  lemma RunStep(s: State, step: Step, steps: seq<Step>, s': State) returns (all: seq<Step>)
    requires Enabled(s, step) && Run(Next(s, step), steps, s')
    ensures Run(s, all, s')
  {
    all := [step] + steps;
    assert all[1..] == steps;
  }

  // ----- when an older result replaces a newer one --------------------------------------------

  lemma StepInTurn(s: State, step: Step)
    requires Inv(s) && InTurn(s) && Enabled(s, step)
    ensures InTurn(Next(s, step))
  {
    match step
    case Enter(a) => if a !in s.pending && a !in s.cache { EnterInTurn(s, a); } else { SameTurns(s, Next(s, step)); }
    case ResumeLeader(c) => LeaderInTurn(s, c);
    case _ => OtherInTurn(s, step);
  }

  lemma OtherInTurn(s: State, step: Step)
    requires InTurn(s) && Enabled(s, step) && !step.Enter? && !step.ResumeLeader?
    ensures InTurn(Next(s, step))
  {
    assert step.Resolve? || step.Reject? || Next(s, step).fetches == s.fetches;
    SameTurns(s, Next(s, step));
  }

  ghost predicate SameTurn(f: Fetch, g: Fetch) {
    f.address == g.address && f.startedAt == g.startedAt && f.cleared == g.cleared
  }

  lemma SameTurns(s: State, s': State)
    requires InTurn(s) && s.clock <= s'.clock && |s'.fetches| == |s.fetches|
    requires forall f :: 0 <= f < |s.fetches| ==> SameTurn(s.fetches[f], s'.fetches[f])
    ensures InTurn(s')
  {
  }

  lemma EnterInTurn(s: State, a: Address)
    requires Inv(s) && InTurn(s) && a !in s.pending && a !in s.cache
    ensures InTurn(Next(s, Enter(a)))
  {
    forall f | 0 <= f < |s.fetches| && s.fetches[f].address == a ensures s.fetches[f].cleared.ClearedAt? { }
    assert Next(s, Enter(a)).fetches == s.fetches + [Fetch(a, s.clock, Unresolved, NotYet)];
  }

  lemma LeaderInTurn(s: State, c: nat)
    requires Inv(s) && InTurn(s) && Enabled(s, ResumeLeader(c))
    ensures InTurn(Next(s, ResumeLeader(c)))
  {
    assert CallOk(s, s.calls[c]);
  }

  /** A call that is about to store has cleared its request's entry. */
  ghost predicate StorersCleared(s: State) {
    forall c :: 0 <= c < |s.calls| && s.calls[c].phase.Storing? ==>
      s.calls[c].phase.fetch < |s.fetches| && s.fetches[s.calls[c].phase.fetch].cleared.ClearedAt?
  }

  lemma {:induction false} RunInTurn(s: State, steps: seq<Step>, s': State)
    requires Inv(s) && InTurn(s) && StorersCleared(s) && Run(s, steps, s')
    ensures Inv(s') && InTurn(s') && StorersCleared(s')
    decreases |steps|
  {
    if steps != [] {
      StepPreserves(s, steps[0]);
      StepInTurn(s, steps[0]);
      StepStorersCleared(s, steps[0]);
      RunInTurn(Next(s, steps[0]), steps[1..], s');
    }
  }

  lemma StepStorersCleared(s: State, step: Step)
    requires Inv(s) && StorersCleared(s) && Enabled(s, step)
    ensures StorersCleared(Next(s, step))
  {
    if step.ResumeLeader? {
      assert CallOk(s, s.calls[step.call]);
    } else {
      OtherStorers(s, step);
    }
  }

  lemma OtherStorers(s: State, step: Step)
    requires StorersCleared(s) && Enabled(s, step) && !step.ResumeLeader?
    ensures StorersCleared(Next(s, step))
  {
    StorersStay(s, Next(s, step));
  }

  lemma StorersStay(s: State, s': State)
    requires StorersCleared(s) && |s.fetches| <= |s'.fetches|
    requires forall f :: 0 <= f < |s.fetches| ==> s'.fetches[f].cleared == s.fetches[f].cleared
    requires forall c :: 0 <= c < |s'.calls| && s'.calls[c].phase.Storing? ==>
               c < |s.calls| && s'.calls[c] == s.calls[c]
    ensures StorersCleared(s')
  {
  }

  /** Storing the result of call `c` replaces a value that a later request brought. */
  ghost predicate ReplacesNewer(s: State, c: nat)
    requires Enabled(s, StoreResult(c))
  {
    var call := s.calls[c];
    && call.phase.fetch < |s.fetches|
    && call.address in s.cache && s.cache[call.address].fetch < |s.fetches|
    && s.fetches[call.phase.fetch].startedAt < s.fetches[s.cache[call.address].fetch].startedAt
  }

  /** Step `i` of a run to `s` stored a value for `a`, and nothing stored or expired one since. */
  ghost predicate LastStored(steps: seq<Step>, s: State, i: int, a: Address) {
    && 0 <= i < |steps| && steps[i].StoreResult? && steps[i].call < |s.calls| && s.calls[steps[i].call].address == a
    && forall j :: i < j < |steps| ==> !Touches(steps[j], s, a)
  }

  ghost predicate Touches(step: Step, s: State, a: Address) {
    step == ExpireCached(a) || (step.StoreResult? && step.call < |s.calls| && s.calls[step.call].address == a)
  }

  /** The run so far and its last step. */
  lemma {:induction false} RunEnd(s: State, steps: seq<Step>, s': State) returns (mid: State)
    requires Run(s, steps, s') && steps != []
    ensures var n := |steps| - 1; Run(s, steps[..n], mid) && Enabled(mid, steps[n]) && Next(mid, steps[n]) == s'
    decreases |steps|
  {
    var n := |steps| - 1;
    if n == 0 {
      mid := s;
    } else {
      mid := RunEnd(Next(s, steps[0]), steps[1..], s');
      assert steps[..n][1..] == steps[1..][..n - 1];
    }
  }

  /** Calls keep their address, and what they returned. */
  lemma CallsKept(s: State, step: Step)
    requires Enabled(s, step)
    ensures var s' := Next(s, step);
            |s.calls| <= |s'.calls| && forall c :: 0 <= c < |s.calls| ==>
              s'.calls[c].address == s.calls[c].address && (s.calls[c].phase.Returned? ==> s'.calls[c] == s.calls[c])
  {
  }

  lemma StoreIsLast(mid: State, front: seq<Step>, step: Step, a: Address)
    requires Enabled(mid, step)
    requires Touches(step, mid, a)
    ensures forall i :: !LastStored(front + [step], Next(mid, step), i, a) || i == |front|
    ensures LastStored(front + [step], Next(mid, step), |front|, a) <==> step.StoreResult?
  {
    CallsKept(mid, step);
    var all, s := front + [step], Next(mid, step);
    forall i | 0 <= i < |front| ensures !LastStored(all, s, i, a) { assert Touches(all[|front|], s, a); }
  }

  lemma OtherKeepsLast(mid: State, front: seq<Step>, step: Step, a: Address, i: int)
    requires Enabled(mid, step) && !Touches(step, mid, a)
    requires forall j :: 0 <= j < |front| && front[j].StoreResult? ==> front[j].call < |mid.calls|
    ensures LastStored(front + [step], Next(mid, step), i, a) <==> LastStored(front, mid, i, a)
  {
    CallsKept(mid, step);
    var all, s := front + [step], Next(mid, step);
    assert forall j :: 0 <= j < |front| ==>
             all[j] == front[j] && (Touches(all[j], s, a) <==> Touches(front[j], mid, a));
    assert all[|front|] == step && !Touches(step, s, a);
  }

  /** What is cached is what was stored last and did not expire. */
  lemma {:induction false} CacheIsLastStored(steps: seq<Step>, s: State, a: Address)
    requires Run(INITIAL, steps, s)
    ensures forall j :: 0 <= j < |steps| && steps[j].StoreResult? ==> steps[j].call < |s.calls|
    ensures a in s.cache <==> exists i :: LastStored(steps, s, i, a)
    ensures forall i :: LastStored(steps, s, i, a) ==>
              a in s.cache && s.calls[steps[i].call].phase == Returned(s.cache[a].value, FromFetch(s.cache[a].fetch))
    decreases |steps|
  {
    if steps != [] {
      var n := |steps| - 1;
      var mid := RunEnd(INITIAL, steps, s);
      CacheIsLastStored(steps[..n], mid, a);
      CallsKept(mid, steps[n]);
      assert steps == steps[..n] + [steps[n]];
      if Touches(steps[n], mid, a) {
        StoreIsLast(mid, steps[..n], steps[n], a);
      } else {
        CacheUntouched(mid, steps[n], a);
        forall i ensures LastStored(steps, s, i, a) <==> LastStored(steps[..n], mid, i, a) {
          OtherKeepsLast(mid, steps[..n], steps[n], a, i);
        }
      }
    }
  }

  lemma CacheUntouched(s: State, step: Step, a: Address)
    requires Enabled(s, step) && !Touches(step, s, a)
    ensures var s' := Next(s, step); (a in s'.cache <==> a in s.cache) && (a in s.cache ==> s'.cache[a] == s.cache[a])
  {
  }

  /**
   Over every run, storing a result replaces that of a later request exactly if a request for the
   address that started after the storing call had cleared its entry was the last to be stored, and
   has not expired.
   */
  lemma ReplacesNewerIff(steps: seq<Step>, s: State, c: nat)
    requires Run(INITIAL, steps, s) && Enabled(s, StoreResult(c))
    ensures var f := s.calls[c].phase.fetch;
            && f < |s.fetches| && s.fetches[f].cleared.ClearedAt?
            && (ReplacesNewer(s, c) <==>
                exists i, g: FetchId, v ::
                  && LastStored(steps, s, i, s.calls[c].address)
                  && s.calls[steps[i].call].phase == Returned(v, FromFetch(g))
                  && g < |s.fetches| && s.fetches[g].startedAt > s.fetches[f].cleared.time)
  {
    RunInTurn(INITIAL, steps, s);
    var a, f := s.calls[c].address, s.calls[c].phase.fetch;
    CacheIsLastStored(steps, s, a);
    assert CallOk(s, s.calls[c]);
    if ReplacesNewer(s, c) {
      var i :| LastStored(steps, s, i, a);
      assert s.calls[steps[i].call].phase == Returned(s.cache[a].value, FromFetch(s.cache[a].fetch));
    }
    StartedBeforeCleared(s, c);
  }

  /** A request that started after the entry was cleared started after the request itself. */
  lemma StartedBeforeCleared(s: State, c: nat)
    requires Inv(s) && InTurn(s) && StorersCleared(s) && Enabled(s, StoreResult(c))
    ensures var f := s.calls[c].phase.fetch;
            f < |s.fetches| && s.fetches[f].cleared.ClearedAt?
            && forall g :: 0 <= g < |s.fetches| && s.fetches[g].address == s.fetches[f].address ==>
                 (s.fetches[g].startedAt > s.fetches[f].startedAt <==>
                    s.fetches[g].startedAt > s.fetches[f].cleared.time)
  {
  }

  // ----- the code -----------------------------------------------------------------------------

  class EsdtAddressService {
    var clock: nat
    var fetches: seq<Fetch>
    var calls: seq<Call>
    var pendingRequests: map<Address, FetchId>
    var localCache: map<Address, Cached>

    function Current(): State
      reads this
    {
      State(clock, fetches, calls, pendingRequests, localCache)
    }

    constructor ()
      ensures Current() == INITIAL && Inv(Current())
    {
      clock, fetches, calls, pendingRequests, localCache := 0, [], [], map[], map[];
    }

    /** From the call to its first await, or to its return when the answer is cached. */
    method GetAllEsdts(address: Address)
      requires Inv(Current())
      modifies this
      ensures Current() == Next(old(Current()), Enter(address)) && Inv(Current())
    {
      EnterPreserves(Current(), address);
      var phase: Phase;
      if address in pendingRequests {
        phase := Joined(pendingRequests[address]);
      } else if address in localCache {
        phase := Returned(localCache[address].value, FromCache);
      } else {
        var request := |fetches|;
        fetches := fetches + [Fetch(address, clock, Unresolved, NotYet)];
        pendingRequests := pendingRequests[address := request];
        phase := Leading(request);
      }
      calls := calls + [Call(address, clock, phase)];
      clock := clock + 1;
    }

    /** The starter resumes: the entry goes whether the request succeeded or failed. */
    method ResumeStarter(c: nat)
      requires Inv(Current()) && Enabled(Current(), ResumeLeader(c))
      modifies this
      ensures Current() == Next(old(Current()), ResumeLeader(c)) && Inv(Current())
      ensures calls[c].address !in pendingRequests
    {
      LeaderPreserves(Current(), c);
      var request := calls[c].phase.fetch;
      var address := calls[c].address;
      var status := fetches[request].status;
      pendingRequests := pendingRequests - {address};
      fetches := fetches[request := fetches[request].(cleared := ClearedAt(clock))];
      if status.Resolved? {
        calls := calls[c := calls[c].(phase := Storing(request, status.value))];
      } else {
        calls := calls[c := calls[c].(phase := Threw(request))];
      }
      clock := clock + 1;
    }

    /** A call that joined resumes with the outcome of the shared request. */
    method ResumeSharer(c: nat)
      requires Inv(Current()) && Enabled(Current(), ResumeJoined(c))
      modifies this
      ensures Current() == Next(old(Current()), ResumeJoined(c)) && Inv(Current())
    {
      StepPreserves(Current(), ResumeJoined(c));
      var request := calls[c].phase.fetch;
      if fetches[request].status.Resolved? {
        calls := calls[c := calls[c].(phase := Returned(fetches[request].status.value, FromFetch(request)))];
      } else {
        calls := calls[c := calls[c].(phase := Threw(request))];
      }
      clock := clock + 1;
    }

    method SetLocal(c: nat)
      requires Inv(Current()) && Enabled(Current(), StoreResult(c))
      modifies this
      ensures Current() == Next(old(Current()), StoreResult(c)) && Inv(Current())
    {
      StepPreserves(Current(), StoreResult(c));
      var call := calls[c];
      localCache := localCache[call.address := Cached(call.phase.value, call.phase.fetch)];
      calls := calls[c := call.(phase := Returned(call.phase.value, FromFetch(call.phase.fetch)))];
      clock := clock + 1;
    }
  }
}
