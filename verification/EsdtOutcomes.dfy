/** How a call for an address's tokens ends, told from the steps of the run. */
module EsdtOutcomes {
  import opened Collections
  import opened EsdtRequests

  /** The request whose answer the call waits or waited for; a cached value needs none. */
  function RequestOf(call: Call): Option<FetchId> {
    match call.phase
    case Joined(f) => Some(f)
    case Leading(f) => Some(f)
    case Storing(f, _) => Some(f)
    case Returned(_, FromFetch(f)) => Some(f)
    case Returned(_, FromCache) => None
    case Threw(f) => Some(f)
  }

  predicate IsOf(step: Step, c: nat) {
    step in {ResumeJoined(c), ResumeLeader(c), StoreResult(c), TimeToLiveFails(c)}
  }

  predicate HasCall(step: Step) {
    step.ResumeJoined? || step.ResumeLeader? || step.StoreResult? || step.TimeToLiveFails?
  }

  /** The steps a call has taken, by where it stands. */
  ghost predicate Told(steps: seq<Step>, s: State, c: nat)
    requires c < |s.calls|
  {
    var joiner, starter := ResumeJoined(c) in steps, ResumeLeader(c) in steps;
    var stored, failed := StoreResult(c) in steps, TimeToLiveFails(c) in steps;
    match s.calls[c].phase
    case Joined(f) => !joiner && !starter && !stored && !failed
    case Leading(f) => !joiner && !starter && !stored && !failed
    case Returned(_, FromCache) => !joiner && !starter && !stored && !failed
    case Storing(f, v) =>
      f < |s.fetches| && s.fetches[f].status == Resolved(v) && !joiner && starter && !stored && !failed
    case Returned(v, FromFetch(f)) =>
      f < |s.fetches| && s.fetches[f].status == Resolved(v) && !failed && starter == stored && joiner == !starter
    case Threw(f) =>
      && f < |s.fetches| && !stored
      && ((s.fetches[f].status == Rejected && joiner != starter && !failed)
          || (s.fetches[f].status.Resolved? && !joiner && starter && failed))
  }

  lemma ToldOfOthers(steps: seq<Step>, s: State, step: Step, c: nat)
    requires Enabled(s, step) && c < |s.calls| && Told(steps, s, c) && !IsOf(step, c)
    ensures c < |Next(s, step).calls| && Next(s, step).calls[c] == s.calls[c] && Told(steps + [step], Next(s, step), c)
  {
  }

  lemma ToldOfOwn(steps: seq<Step>, s: State, step: Step, c: nat)
    requires Inv(s) && Enabled(s, step) && c < |s.calls| && Told(steps, s, c) && IsOf(step, c)
    ensures c < |Next(s, step).calls| && Told(steps + [step], Next(s, step), c)
    ensures RequestOf(Next(s, step).calls[c]) == RequestOf(s.calls[c])
  {
    assert CallOk(s, s.calls[c]);
  }

  lemma ToldOfNew(steps: seq<Step>, s: State, a: Address)
    requires KnownCalls(steps, s)
    ensures Told(steps + [Enter(a)], Next(s, Enter(a)), |s.calls|)
  {
  }

  ghost predicate KnownCalls(steps: seq<Step>, s: State) {
    forall i :: 0 <= i < |steps| && HasCall(steps[i]) ==> steps[i].call < |s.calls|
  }

  lemma KnownNext(steps: seq<Step>, s: State, step: Step)
    requires KnownCalls(steps, s) && Enabled(s, step)
    ensures KnownCalls(steps + [step], Next(s, step))
  {
  }

  lemma ToldNext(steps: seq<Step>, s: State, step: Step)
    requires Inv(s) && Enabled(s, step) && KnownCalls(steps, s) && forall c :: 0 <= c < |s.calls| ==> Told(steps, s, c)
    ensures forall c :: 0 <= c < |Next(s, step).calls| ==> Told(steps + [step], Next(s, step), c)
  {
    forall c | 0 <= c < |Next(s, step).calls| ensures Told(steps + [step], Next(s, step), c) {
      if c >= |s.calls| {
        NewCallEnters(s, step);
        ToldOfNew(steps, s, step.address);
      } else if IsOf(step, c) {
        ToldOfOwn(steps, s, step, c);
      } else {
        ToldOfOthers(steps, s, step, c);
      }
    }
  }

  lemma NewCallEnters(s: State, step: Step)
    requires Enabled(s, step)
    ensures |Next(s, step).calls| > |s.calls| ==> step.Enter? && |Next(s, step).calls| == |s.calls| + 1
  {
  }

  /** Every call is where its steps have taken it. */
  lemma {:induction false} AllTold(steps: seq<Step>, s: State)
    requires Run(INITIAL, steps, s)
    ensures Inv(s) && KnownCalls(steps, s) && forall c :: 0 <= c < |s.calls| ==> Told(steps, s, c)
    decreases |steps|
  {
    RunPreserves(INITIAL, steps, s);
    if steps != [] {
      var n := |steps| - 1;
      var mid := RunEnd(INITIAL, steps, s);
      AllTold(steps[..n], mid);
      assert steps == steps[..n] + [steps[n]];
      KnownNext(steps[..n], mid, steps[n]);
      ToldNext(steps[..n], mid, steps[n]);
    }
  }

  /**
   Over every run, a call that waits or waited for request `f`: it has returned `v` exactly if the
   request was answered with `v` and it resumed, if it joined, or stored the result, if it started the
   request. It has thrown exactly if the request was rejected and it resumed, or it started the request
   and the time to live failed.
   */
  lemma OutcomesExactly(steps: seq<Step>, s: State, c: nat, f: FetchId)
    requires Run(INITIAL, steps, s) && c < |s.calls| && RequestOf(s.calls[c]) == Some(f)
    ensures f < |s.fetches| && s.fetches[f].address == s.calls[c].address
    ensures forall v :: s.calls[c].phase == Returned(v, FromFetch(f)) <==>
              s.fetches[f].status == Resolved(v) && (ResumeJoined(c) in steps || StoreResult(c) in steps)
    ensures s.calls[c].phase == Threw(f) <==>
              || (s.fetches[f].status == Rejected && (ResumeJoined(c) in steps || ResumeLeader(c) in steps))
              || TimeToLiveFails(c) in steps
    ensures StoreResult(c) in steps || TimeToLiveFails(c) in steps ==> ResumeLeader(c) in steps
    ensures !(ResumeJoined(c) in steps && ResumeLeader(c) in steps)
    ensures !(StoreResult(c) in steps && TimeToLiveFails(c) in steps)
  {
    AllTold(steps, s);
    assert CallOk(s, s.calls[c]) && Told(steps, s, c);
  }

  /** A call keeps its request, so the outcome is that of the request it entered with. */
  lemma RequestKept(steps: seq<Step>, s: State, step: Step, c: nat)
    requires Run(INITIAL, steps, s) && Enabled(s, step) && c < |s.calls|
    ensures c < |Next(s, step).calls| && RequestOf(Next(s, step).calls[c]) == RequestOf(s.calls[c])
  {
    AllTold(steps, s);
    assert Told(steps, s, c);
    if IsOf(step, c) { ToldOfOwn(steps, s, step, c); } else { ToldOfOthers(steps, s, step, c); }
  }

  /** A call joins the pending request; without one it returns what is cached, or else starts a request. */
  lemma EnterOutcome(s: State, a: Address)
    ensures var s' := Next(s, Enter(a));
            && |s'.calls| == |s.calls| + 1 && s'.calls[|s.calls|].address == a
            && (a in s.pending ==> s'.calls[|s.calls|].phase == Joined(s.pending[a]) && s'.fetches == s.fetches)
            && (a !in s.pending && a in s.cache ==>
                  s'.calls[|s.calls|].phase == Returned(s.cache[a].value, FromCache) && s'.fetches == s.fetches)
            && (a !in s.pending && a !in s.cache ==>
                  && s'.calls[|s.calls|].phase == Leading(|s.fetches|) && |s'.fetches| == |s.fetches| + 1
                  && s'.fetches[|s.fetches|].address == a && s'.fetches[|s.fetches|].status == Unresolved
                  && s'.pending == s.pending[a := |s.fetches|])
  {
  }

  /** A joined call whose request was answered returns the answer when it resumes. */
  lemma JoinerReturns(s: State, c: nat, v: Esdts)
    requires c < |s.calls| && s.calls[c].phase.Joined? && s.calls[c].phase.fetch < |s.fetches|
    requires s.fetches[s.calls[c].phase.fetch].status == Resolved(v)
    ensures Enabled(s, ResumeJoined(c))
    ensures Next(s, ResumeJoined(c)).calls[c].phase == Returned(v, FromFetch(s.calls[c].phase.fetch))
  {
  }

  /** A starter whose request was answered clears the entry, and returns and caches the answer when it stores it. */
  lemma StarterReturns(s: State, c: nat, v: Esdts)
    requires c < |s.calls| && s.calls[c].phase.Leading? && s.calls[c].phase.fetch < |s.fetches|
    requires s.fetches[s.calls[c].phase.fetch].status == Resolved(v)
    ensures Enabled(s, ResumeLeader(c))
    ensures var s1, a := Next(s, ResumeLeader(c)), s.calls[c].address;
            && a !in s1.pending && Enabled(s1, StoreResult(c))
            && var s2 := Next(s1, StoreResult(c));
            && s2.calls[c].phase == Returned(v, FromFetch(s.calls[c].phase.fetch))
            && a in s2.cache && s2.cache[a].value == v
  {
  }
}
