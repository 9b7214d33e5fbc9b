/**
 The same requests, if the starter kept the pending entry until its result is cached: then no older
 result can replace a newer one.
 */
module EsdtKeptEntry {
  import opened EsdtRequests

  function Cleared(s: State, f: FetchId, a: Address): State
    requires f < |s.fetches|
  {
    s.(pending := s.pending - {a}, fetches := s.fetches[f := s.fetches[f].(cleared := ClearedAt(s.clock))])
  }

  /** As in the code, except that the entry of a request that succeeded goes only with the end of its starter's call. */
  function NextKept(s: State, step: Step): State
    requires Enabled(s, step)
  {
    if step.ResumeLeader? && s.fetches[s.calls[step.call].phase.fetch].status.Resolved? then
      var f := s.calls[step.call].phase.fetch;
      WithPhase(s, step.call, Storing(f, s.fetches[f].status.value)).(clock := s.clock + 1)
    else if (step.StoreResult? || step.TimeToLiveFails?) && s.calls[step.call].phase.fetch < |s.fetches| then
      Next(Cleared(s, s.calls[step.call].phase.fetch, s.calls[step.call].address), step)
    else Next(s, step)
  }

  ghost predicate RunKept(s: State, steps: seq<Step>, s': State)
    decreases |steps|
  {
    if steps == [] then s == s' else Enabled(s, steps[0]) && RunKept(NextKept(s, steps[0]), steps[1..], s')
  }

  /** The call has a request whose entry it is to clear. */
  predicate Owns(call: Call, f: FetchId) {
    (call.phase.Leading? || call.phase.Storing?) && call.phase.fetch == f
  }

  ghost predicate RequestsOk(s: State) {
    && (forall a :: a in s.pending ==>
          var f := s.pending[a]; f < |s.fetches| && s.fetches[f].address == a && s.fetches[f].cleared.NotYet?)
    && (forall f :: 0 <= f < |s.fetches| && s.fetches[f].cleared.NotYet? ==>
          s.fetches[f].address in s.pending && s.pending[s.fetches[f].address] == f)
    && (forall f, g :: 0 <= f < g < |s.fetches| && s.fetches[f].address == s.fetches[g].address ==>
          s.fetches[f].cleared.ClearedAt?)
    && (forall f, g :: 0 <= f < g < |s.fetches| ==> s.fetches[f].startedAt <= s.fetches[g].startedAt)
    && (forall f :: 0 <= f < |s.fetches| ==> s.fetches[f].startedAt <= s.clock)
  }

  ghost predicate OwnersOk(s: State) {
    && (forall c :: 0 <= c < |s.calls| && (s.calls[c].phase.Leading? || s.calls[c].phase.Storing?) ==>
          var f := s.calls[c].phase.fetch;
          f < |s.fetches| && s.fetches[f].address == s.calls[c].address && s.fetches[f].cleared.NotYet?)
    && (forall c, d, f :: 0 <= c < |s.calls| && 0 <= d < |s.calls| && Owns(s.calls[c], f) && Owns(s.calls[d], f) ==>
          c == d)
    && (forall a :: a in s.cache ==> s.cache[a].fetch < |s.fetches| && s.fetches[s.cache[a].fetch].address == a)
  }

  ghost predicate InvKept(s: State) {
    RequestsOk(s) && OwnersOk(s)
  }

  lemma SameRequests(s: State, s': State)
    requires RequestsOk(s) && s'.pending == s.pending && |s'.fetches| == |s.fetches| && s.clock <= s'.clock
    requires forall f :: 0 <= f < |s.fetches| ==> SameTurn(s.fetches[f], s'.fetches[f])
    ensures RequestsOk(s')
  {
  }

  lemma SameOwners(s: State, s': State)
    requires OwnersOk(s) && s'.calls == s.calls && s'.cache == s.cache && |s'.fetches| == |s.fetches|
    requires forall f :: 0 <= f < |s.fetches| ==> SameTurn(s.fetches[f], s'.fetches[f])
    ensures OwnersOk(s')
  {
  }

  lemma NewRequest(s: State, a: Address)
    requires RequestsOk(s) && a !in s.pending && a !in s.cache
    ensures RequestsOk(NextKept(s, Enter(a)))
  {
    forall f | 0 <= f < |s.fetches| && s.fetches[f].address == a ensures s.fetches[f].cleared.ClearedAt? { }
    assert NextKept(s, Enter(a)).fetches == s.fetches + [Fetch(a, s.clock, Unresolved, NotYet)];
  }

  lemma NewOwner(s: State, s': State, call: Call)
    requires OwnersOk(s) && s'.calls == s.calls + [call] && s'.cache == s.cache && |s.fetches| <= |s'.fetches|
    requires forall f :: 0 <= f < |s.fetches| ==> SameTurn(s.fetches[f], s'.fetches[f])
    requires !call.phase.Storing?
    requires call.phase.Leading? ==> |s'.fetches| == |s.fetches| + 1 && call.phase.fetch == |s.fetches|
    requires call.phase.Leading? ==>
               s'.fetches[|s.fetches|].address == call.address && s'.fetches[|s.fetches|].cleared.NotYet?
    ensures OwnersOk(s')
  {
  }

  lemma EnterKept(s: State, a: Address)
    requires InvKept(s)
    ensures InvKept(NextKept(s, Enter(a)))
  {
    var s' := NextKept(s, Enter(a));
    NewOwner(s, s', s'.calls[|s.calls|]);
    if a !in s.pending && a !in s.cache { NewRequest(s, a); } else { SameRequests(s, s'); }
  }

  lemma AnswerKept(s: State, step: Step)
    requires InvKept(s) && Enabled(s, step) && (step.Resolve? || step.Reject?)
    ensures InvKept(NextKept(s, step))
  {
    SameRequests(s, NextKept(s, step));
    SameOwners(s, NextKept(s, step));
  }

  /** A call that keeps its request, or that never had one, moves on. */
  lemma CallMovesOn(s: State, s': State, c: nat, phase: Phase)
    requires InvKept(s) && c < |s.calls| && s'.calls == s.calls[c := s.calls[c].(phase := phase)]
    requires s'.fetches == s.fetches && s'.pending == s.pending && s'.cache == s.cache && s.clock <= s'.clock
    requires phase.Leading? || phase.Storing? ==> Owns(s.calls[c], phase.fetch)
    ensures InvKept(s')
  {
    SameRequests(s, s');
    assert forall d, f :: 0 <= d < |s'.calls| && Owns(s'.calls[d], f) ==> Owns(s.calls[d], f);
  }

  /** A call that ends clears the entry of its request. */
  lemma CallEnds(s: State, s': State, c: nat, phase: Phase)
    requires InvKept(s) && c < |s.calls| && (s.calls[c].phase.Leading? || s.calls[c].phase.Storing?)
    requires !phase.Leading? && !phase.Storing? && s'.calls == s.calls[c := s.calls[c].(phase := phase)]
    requires var f := s.calls[c].phase.fetch;
             f < |s.fetches| && s'.fetches == s.fetches[f := s.fetches[f].(cleared := ClearedAt(s.clock))]
    requires s'.pending == s.pending - {s.calls[c].address} && s.clock <= s'.clock
    requires forall a :: a in s'.cache ==> s'.cache[a].fetch < |s.fetches| && s.fetches[s'.cache[a].fetch].address == a
    ensures InvKept(s')
  {
    OthersOwnOthers(s, c);
    assert forall d, f :: 0 <= d < |s'.calls| && Owns(s'.calls[d], f) ==> Owns(s.calls[d], f) && d != c;
    ClearedRequests(s, s', c);
  }

  lemma ClearedRequests(s: State, s': State, c: nat)
    requires InvKept(s) && c < |s.calls| && (s.calls[c].phase.Leading? || s.calls[c].phase.Storing?)
    requires var f := s.calls[c].phase.fetch;
             f < |s.fetches| && s'.fetches == s.fetches[f := s.fetches[f].(cleared := ClearedAt(s.clock))]
    requires s'.pending == s.pending - {s.calls[c].address} && s.clock <= s'.clock
    ensures RequestsOk(s')
  {
  }

  lemma ResumeKept(s: State, c: nat)
    requires InvKept(s) && Enabled(s, ResumeLeader(c))
    ensures InvKept(NextKept(s, ResumeLeader(c)))
  {
    var s' := NextKept(s, ResumeLeader(c));
    if s.fetches[s.calls[c].phase.fetch].status.Resolved? {
      CallMovesOn(s, s', c, s'.calls[c].phase);
    } else {
      CallEnds(s, s', c, s'.calls[c].phase);
    }
  }

  lemma OthersOwnOthers(s: State, c: nat)
    requires OwnersOk(s) && c < |s.calls| && (s.calls[c].phase.Leading? || s.calls[c].phase.Storing?)
    ensures forall d :: 0 <= d < |s.calls| && d != c && (s.calls[d].phase.Leading? || s.calls[d].phase.Storing?) ==>
              s.calls[d].phase.fetch != s.calls[c].phase.fetch
  {
    forall d | 0 <= d < |s.calls| && d != c && (s.calls[d].phase.Leading? || s.calls[d].phase.Storing?)
      ensures s.calls[d].phase.fetch != s.calls[c].phase.fetch
    {
      assert Owns(s.calls[c], s.calls[c].phase.fetch) && Owns(s.calls[d], s.calls[d].phase.fetch);
    }
  }

  lemma EndKept(s: State, step: Step)
    requires InvKept(s) && Enabled(s, step) && (step.StoreResult? || step.TimeToLiveFails?)
    ensures InvKept(NextKept(s, step))
  {
    var s' := NextKept(s, step);
    CallEnds(s, s', step.call, s'.calls[step.call].phase);
  }

  lemma SharerKept(s: State, c: nat)
    requires InvKept(s) && Enabled(s, ResumeJoined(c))
    ensures InvKept(NextKept(s, ResumeJoined(c)))
  {
    var s' := NextKept(s, ResumeJoined(c));
    CallMovesOn(s, s', c, s'.calls[c].phase);
  }

  lemma StepKept(s: State, step: Step)
    requires InvKept(s) && Enabled(s, step)
    ensures InvKept(NextKept(s, step))
  {
    match step
    case Enter(a) => EnterKept(s, a);
    case Resolve(_, _) => AnswerKept(s, step);
    case Reject(_) => AnswerKept(s, step);
    case ResumeJoined(c) => SharerKept(s, c);
    case ResumeLeader(c) => ResumeKept(s, c);
    case StoreResult(_) => EndKept(s, step);
    case TimeToLiveFails(_) => EndKept(s, step);
    case ExpireCached(_) =>
  }

  lemma {:induction false} RunsKeep(s: State, steps: seq<Step>, s': State)
    requires InvKept(s) && RunKept(s, steps, s')
    ensures InvKept(s')
    decreases |steps|
  {
    if steps != [] {
      StepKept(s, steps[0]);
      RunsKeep(NextKept(s, steps[0]), steps[1..], s');
    }
  }

  /** With the entry kept until the store, no run ever replaces the result of a later request. */
  lemma KeptEntryNeverReplacesNewer(steps: seq<Step>, s: State, c: nat)
    requires RunKept(INITIAL, steps, s) && Enabled(s, StoreResult(c))
    ensures !ReplacesNewer(s, c)
  {
    RunsKeep(INITIAL, steps, s);
    var f := s.calls[c].phase.fetch;
    assert s.calls[c].address in s.cache ==> s.cache[s.calls[c].address].fetch <= f;
  }
}
