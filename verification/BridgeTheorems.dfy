/** What the bridge promises over every run, derived from its invariant. */
module BridgeTheorems {
  import opened Options
  import opened Resolutions
  import opened BridgeProtocol
  import opened BridgeInvariant

  /** `s` is reached from the start by some interleaving of `threads` threads. */
  ghost predicate Reaches(threads: nat, events: seq<Event>, s: State) {
    Run(Initial(threads), events) == Some(s)
  }

  lemma ReachesInv(threads: nat, events: seq<Event>, s: State)
    requires Reaches(threads, events, s)
    ensures Inv(s)
  {
    InitialInv(threads);
    RunInv(Initial(threads), events);
  }

  /**
    Each id is applied at most once and held at most once by the protocol's log, which forgets
    nothing, and both for one claim: the decision the gateway took and the reviewer the log names
    are that claim's, even when the claim was evicted and its id claimed again.
   */
  lemma AppliedAndLoggedOnce(threads: nat, events: seq<Event>, s: State)
    requires Reaches(threads, events, s)
    ensures forall i, j :: 0 <= i < j < |s.applied| ==> s.applied[i].id != s.applied[j].id
    ensures forall i, j :: 0 <= i < j < |s.trail| ==> s.trail[i].record.id != s.trail[j].record.id
    ensures forall i, j :: 0 <= i < |s.applied| && 0 <= j < |s.trail| && s.applied[i].id == s.trail[j].record.id ==>
              s.applied[i].claim == s.trail[j].claim && s.applied[i].decision == s.trail[j].record.decision
    ensures forall j :: 0 <= j < |s.trail| ==>
              Applied(s.trail[j].record.id, s.trail[j].record.decision, s.trail[j].claim) in s.applied
    ensures forall j :: 0 <= j < |s.trail| ==>
              s.trail[j].claim < |s.claims| && s.claims[s.trail[j].claim].progress.record == s.trail[j].record
  {
    ReachesInv(threads, events, s);
    forall j | 0 <= j < |s.trail|
      ensures LoggedOk(s.trail[j], s.claims)
      ensures Applied(s.trail[j].record.id, s.trail[j].record.decision, s.trail[j].claim) in s.applied
    {
      assert LoggedOk(s.trail[j], s.claims);
      var c := s.trail[j].claim;
      assert ProgressOk(c, s.claims[c].progress, s.applied, s.trail);
    }
  }

  /** The flags are set in phase order and each one tells the truth about the outside world. */
  lemma FlagsTellTheTruth(threads: nat, events: seq<Event>, s: State, c: nat)
    requires Reaches(threads, events, s) && c < |s.claims|
    ensures var p := s.claims[c].progress;
            && (p.chatUpdated ==> p.audited)
            && (p.audited ==> p.gatewayApplied)
            && (p.gatewayApplied <==> Applied(p.record.id, p.decision, c) in s.applied)
            && (p.audited ==> Logged(p.record, c) in s.trail)
            && (Logged(p.record, c) in s.trail ==> p.gatewayApplied)
  {
    ReachesInv(threads, events, s);
    var p := s.claims[c].progress;
    assert ProgressOk(c, p, s.applied, s.trail);
    if Applied(p.record.id, p.decision, c) in s.applied {
      var i :| 0 <= i < |s.applied| && s.applied[i] == Applied(p.record.id, p.decision, c);
      assert AppliedOk(s.applied[i], s.claims);
    }
  }

  /** The registry is bounded, evicts only finished claims, and `mark_terminal` never evicts. */
  lemma RegistryIsBounded(threads: nat, events: seq<Event>, s: State)
    requires Reaches(threads, events, s)
    ensures |s.registry.entries| <= MAX_RESOLUTION_ENTRIES
    ensures Distinct(s.registry.terminalOrder)
    ensures forall id <- s.registry.terminalOrder ::
              id in s.registry.entries && s.registry.entries[id] < |s.claims| &&
              s.claims[s.registry.entries[id]].progress.chatUpdated
    ensures forall c :: 0 <= c < |s.claims| && !s.claims[c].progress.chatUpdated ==>
              s.claims[c].progress.record.id in s.registry.entries &&
              s.registry.entries[s.claims[c].progress.record.id] == c
    ensures forall t :: 0 <= t < |s.threads| && s.threads[t].Marking? ==>
              Retire(s.registry, s.threads[t].id) ==
              s.registry.(terminalOrder := s.registry.terminalOrder + [s.threads[t].id])
  {
    ReachesInv(threads, events, s);
    forall t | 0 <= t < |s.threads| && s.threads[t].Marking?
      ensures Retire(s.registry, s.threads[t].id) ==
              s.registry.(terminalOrder := s.registry.terminalOrder + [s.threads[t].id])
    {
      assert MarkOk(s.threads[t], s.registry, s.claims);
      RetireNeverEvicts(s.registry, s.threads[t].id);
    }
  }

  /**
    Prompt conservation: posted minus closed is one while the prompt's token is stored or on its
    way into the map, and zero otherwise; at most one thread posts for an id.
   */
  lemma PromptsAreConserved(threads: nat, events: seq<Event>, s: State, id: Id)
    requires Reaches(threads, events, s)
    ensures s.posted[id] == s.closed[id] +
              (if (id in s.tokens && s.tokens[id].Notified?) || Stored(s.threads, id) then 1 else 0)
    ensures !(id in s.tokens && s.tokens[id].Notified? && Stored(s.threads, id))
    ensures forall t, u :: 0 <= t < u < |s.threads| && s.threads[t].Posting() && s.threads[u].Posting() ==>
              s.threads[t].id != s.threads[u].id
  {
    ReachesInv(threads, events, s);
    if t :| 0 <= t < |s.threads| && s.threads[t].PollStore? && s.threads[t].id == id {
      assert PostOk(s.threads[t], s.tokens, s.issued);
    }
  }

  /** Chat shows a decision only after the trail holds it, and only on the prompt of its own request. */
  lemma ResponsesFollowTheTrail(threads: nat, events: seq<Event>, s: State)
    requires Reaches(threads, events, s)
    ensures forall i :: 0 <= i < |s.responses| ==>
              var r := s.responses[i];
              && r.token < |s.issued| && s.issued[r.token] == r.id
              && InTrail(s, r)
  {
    ReachesInv(threads, events, s);
    forall i | 0 <= i < |s.responses|
      ensures s.responses[i].token < |s.issued| && s.issued[s.responses[i].token] == s.responses[i].id
      ensures InTrail(s, s.responses[i])
    {
      ResponseFollows(s, s.responses[i]);
    }
  }

  ghost predicate InTrail(s: State, r: Response) {
    exists j :: 0 <= j < |s.trail| && s.trail[j].record.id == r.id &&
      s.trail[j].record.decision == r.decision && s.trail[j].record.decidedBy == r.who
  }

  lemma ResponseFollows(s: State, r: Response)
    requires ResponseOk(r, s.issued, s.claims) && ClaimsInv(s.claims, s.applied, s.trail)
    ensures InTrail(s, r)
  {
    var p := s.claims[r.claim].progress;
    assert ProgressOk(r.claim, p, s.applied, s.trail);
    var j :| 0 <= j < |s.trail| && s.trail[j] == Logged(p.record, r.claim);
    assert s.trail[j].record.id == r.id;
  }

  /** A thread waits only for a progress lock, and whoever holds it can always go on. */
  lemma NobodyIsStuck(threads: nat, events: seq<Event>, s: State, t: nat, reply: Reply)
    requires Reaches(threads, events, s)
    requires t < |s.threads| && s.threads[t] != Idle && Next(s, Advance(t, reply)).None?
    ensures s.threads[t].Locking? && s.threads[t].claim < |s.claims|
    ensures var holder := s.claims[s.threads[t].claim].holder;
            && holder.Some? && holder.value < |s.threads| && holder.value != t
            && forall r :: Next(s, Advance(holder.value, r)).Some?
  {
    ReachesInv(threads, events, s);
    assert WorkOk(t, s.threads[t], s.claims);
    var c := s.threads[t].claim;
    var u := s.claims[c].holder.value;
    assert s.threads[u].HoldsProgress();
    assert WorkOk(u, s.threads[u], s.claims);
  }

  /**
    A competing reviewer, a changed decision, or a repeat after completion changes nothing:
    whatever the external calls would answer, the call leaves the state exactly as it found it.
   */
  lemma CompetitorChangesNothing(s: State, t: nat, call: Call, r1: Reply, r2: Reply)
    requires t < |s.threads| && s.threads[t] == Idle
    requires call.id in s.registry.entries && s.registry.entries[call.id] < |s.claims|
    requires var claim := s.claims[s.registry.entries[call.id]];
             && claim.holder.None?
             && (!claim.progress.IsSameDecision(call.decision, call.who) || claim.progress.chatUpdated)
    ensures Run(s, [StartResolve(t, call), Advance(t, r1), Advance(t, r2)]) == Some(s)
  {
    var e1, e2, e3 := StartResolve(t, call), Advance(t, r1), Advance(t, r2);
    var s1 := Goto(s, t, Claiming(call));
    var s2 := Goto(s, t, Locking(call, s.registry.entries[call.id]));
    assert s1.threads[t := Locking(call, s.registry.entries[call.id])] == s2.threads;
    assert s2.threads[t := Idle] == s.threads;
    assert Next(s, e1) == Some(s1) && Next(s1, e2) == Some(s2) && Next(s2, e3) == Some(s);
    assert [e1, e2, e3][1..] == [e2, e3] && [e2, e3][1..] == [e3] && [e3][1..] == [];
    assert Run(s2, [e3]) == Some(s);
    assert Run(s1, [e2, e3]) == Some(s);
  }

  /** `k` steps of thread `t` alone, every external call succeeding. */
  function Solo(s: State, t: nat, k: nat): Option<State>
    decreases k
  {
    if k == 0 then Some(s)
    else
      var next := Next(s, Advance(t, Ok));
      if next.None? then None else Solo(next.value, t, k - 1)
  }

  /** How a completed call leaves the claim it worked on. */
  ghost predicate Completed(s: State, s': State, t: nat, call: Call, c: nat) {
    && t < |s.threads| && c < |s.claims|
    && var p := s.claims[c].progress;
    && s' == s.(pending := if !p.gatewayApplied && Reports(s, call.id) then None else s.pending,
                open := if p.gatewayApplied then s.open else s.open - {call.id},
                applied := s.applied + (if p.gatewayApplied then [] else [Applied(call.id, call.decision, c)]),
                trail := s.trail + (if Known(s, call.id) then [] else [Logged(p.record, c)]),
                tokens := s.tokens - {call.id},
                closed := s.closed + (if call.id in s.tokens then multiset{call.id} else multiset{}),
                responses := s.responses +
                  (if call.id in s.tokens && s.tokens[call.id].Notified?
                   then [Response(call.id, s.tokens[call.id].token, call.decision, call.who, c)] else []),
                claims := s.claims[c := Claim(p.(gatewayApplied := true, audited := true, chatUpdated := true), None)],
                threads := s.threads[t := Marking(call.id, c)])
  }

  lemma ChatPhase(s: State, t: nat, call: Call, c: nat) returns (k: nat)
    requires t < |s.threads| && c < |s.claims| && s.threads[t] == ReadingToken(call, c)
    requires call.id in s.tokens ==> s.tokens[call.id].Notified?
    requires s.claims[c].progress.gatewayApplied && s.claims[c].progress.audited && Known(s, call.id)
    ensures Solo(s, t, k).Some? && Completed(s, Solo(s, t, k).value, t, call, c)
  {
    if call.id in s.tokens {
      k := 3;
      var token := s.tokens[call.id].token;
      var s1 := Goto(s, t, Responding(call, c, token));
      var response := Response(call.id, token, call.decision, call.who, c);
      var s2 := Goto(s1.(responses := s.responses + [response]), t, DroppingToken(call, c));
      assert Next(s, Advance(t, Ok)) == Some(s1) && Next(s1, Advance(t, Ok)) == Some(s2);
      var s3 := StepDroppingToken(s2, t, call, c);
      assert Next(s2, Advance(t, Ok)) == Some(s3);
      assert Solo(s2, t, 1) == Some(s3);
      assert Solo(s1, t, 2) == Some(s3);
      assert s3.threads == s.threads[t := Marking(call.id, c)];
    } else {
      k := 1;
      var s1 := Finish(s, t, call, c);
      assert Next(s, Advance(t, Ok)) == Some(s1) && Solo(s1, t, 0) == Some(s1);
      assert s.tokens - {call.id} == s.tokens;
    }
  }

  lemma AuditPhase(s: State, t: nat, call: Call, c: nat) returns (k: nat)
    requires t < |s.threads| && c < |s.claims| && s.threads[t] == Auditing(call, c)
    requires call.id in s.tokens ==> s.tokens[call.id].Notified?
    requires s.claims[c].progress.gatewayApplied && s.claims[c].progress.record.id == call.id
    requires Known(s, call.id) ==> KnownAs(s, s.claims[c].progress.record)
    ensures Solo(s, t, k).Some? && Completed(s, Solo(s, t, k).value, t, call, c)
  {
    var s1 := StepAuditing(s, t, call, c, Ok);
    assert Next(s, Advance(t, Ok)) == Some(s1);
    if !Known(s, call.id) {
      assert s1.trail[|s.trail|].record.id == call.id;
    }
    assert Known(s1, call.id);
    var j := ChatPhase(s1, t, call, c);
    k := j + 1;
    var s' := Solo(s1, t, j).value;
    assert s'.claims == s.claims[c := s'.claims[c]] && s'.threads == s.threads[t := s'.threads[t]];
  }

  lemma GatewayPhase(s: State, t: nat, call: Call, c: nat) returns (k: nat)
    requires t < |s.threads| && c < |s.claims| && s.threads[t] == Preparing(call, c)
    requires call.id in s.tokens ==> s.tokens[call.id].Notified?
    requires !s.claims[c].progress.gatewayApplied && !s.claims[c].progress.audited
    requires s.claims[c].progress.record.id == call.id
    requires call.id in s.open && !Known(s, call.id)
    ensures Solo(s, t, k).Some? && Completed(s, Solo(s, t, k).value, t, call, c)
  {
    var s1 := Goto(s, t, Applying(call, c));
    var s2 := StepApplying(s1, t, call, c, Ok);
    assert Next(s, Advance(t, Ok)) == Some(s1) && Next(s1, Advance(t, Ok)) == Some(s2);
    assert s2.threads[t] == Auditing(call, c);
    var j := AuditPhase(s2, t, call, c);
    k := j + 2;
    assert Solo(s1, t, j + 1) == Solo(s2, t, j);
    var s' := Solo(s2, t, j).value;
    assert s'.claims == s.claims[c := s'.claims[c]] && s'.threads == s.threads[t := s'.threads[t]];
  }

  /**
    The owner's retry resumes at the first unfinished phase and completes the request: whichever
    phases failed before, it applies, logs and reports exactly what is still missing, once.
   */
  lemma RetryCompletes(threads: nat, events: seq<Event>, s: State, t: nat, call: Call, c: nat) returns (k: nat)
    requires Reaches(threads, events, s)
    requires t < |s.threads| && s.threads[t] == Locking(call, c) && c < |s.claims|
    requires s.claims[c].holder.None? && !s.claims[c].progress.chatUpdated
    requires s.claims[c].progress.IsSameDecision(call.decision, call.who)
    requires s.claims[c].progress.gatewayApplied || call.id in s.open
    requires call.id in s.tokens ==> s.tokens[call.id].Notified?
    ensures Solo(s, t, k).Some? && Completed(s, Solo(s, t, k).value, t, call, c)
  {
    ReachesInv(threads, events, s);
    assert WorkOk(t, s.threads[t], s.claims);
    LogMatchesClaim(s, c);
    k := ResumeAt(s, t, call, c);
  }

  /** From the lock on, the first unfinished phase decides where the call resumes. */
  lemma ResumeAt(s: State, t: nat, call: Call, c: nat) returns (k: nat)
    requires t < |s.threads| && s.threads[t] == Locking(call, c) && c < |s.claims|
    requires s.claims[c].holder.None? && !s.claims[c].progress.chatUpdated
    requires call.id in s.tokens ==> s.tokens[call.id].Notified?
    requires var p := s.claims[c].progress;
             && p.IsSameDecision(call.decision, call.who)
             && p.record.id == call.id
             && (p.audited ==> p.gatewayApplied && Known(s, call.id))
             && (p.gatewayApplied ==> (Known(s, call.id) ==> KnownAs(s, p.record)))
             && (!p.gatewayApplied ==> call.id in s.open && !Known(s, call.id))
    ensures Solo(s, t, k).Some? && Completed(s, Solo(s, t, k).value, t, call, c)
  {
    var p := s.claims[c].progress;
    var s1 := StepLocking(s, t, call, c).value;
    assert Next(s, Advance(t, Ok)) == Some(s1);
    assert s1.claims[c].progress == p;
    var j: nat;
    if !p.gatewayApplied {
      j := GatewayPhase(s1, t, call, c);
    } else if !p.audited {
      j := AuditPhase(s1, t, call, c);
    } else {
      j := ChatPhase(s1, t, call, c);
    }
    k := j + 1;
    var s' := Solo(s1, t, j).value;
    assert s'.claims == s.claims[c := s'.claims[c]] && s'.threads == s.threads[t := s'.threads[t]];
  }

  /** The trail never holds a foreign record under the id of a claim that may still be worked on. */
  lemma LogMatchesClaim(s: State, c: nat)
    requires Inv(s) && c < |s.claims|
    ensures var p := s.claims[c].progress;
            && (Known(s, p.record.id) && p.gatewayApplied ==> KnownAs(s, p.record))
            && (p.record.id in s.open ==> !Known(s, p.record.id))
            && (p.audited ==> p.gatewayApplied && Known(s, p.record.id))
  {
    var p := s.claims[c].progress;
    assert ProgressOk(c, p, s.applied, s.trail);
    if p.audited {
      var j :| 0 <= j < |s.trail| && s.trail[j] == Logged(p.record, c);
      assert s.trail[j].record.id == p.record.id;
    }
    if i :| 0 <= i < |s.trail| && s.trail[i].record.id == p.record.id {
      assert LoggedOk(s.trail[i], s.claims);
      var d := s.trail[i].claim;
      assert ProgressOk(d, s.claims[d].progress, s.applied, s.trail);
      var k :| 0 <= k < |s.applied| && s.applied[k] == Applied(p.record.id, s.claims[d].progress.decision, d);
      if p.gatewayApplied {
        var j :| 0 <= j < |s.applied| && s.applied[j] == Applied(p.record.id, p.decision, c);
        assert j == k;
        assert s.trail[i].record == p.record;
      }
    }
  }

  lemma {:induction false} RunAppend(s: State, first: seq<Event>, second: seq<Event>)
    requires Run(s, first).Some?
    ensures Run(s, first + second) == Run(Run(s, first).value, second)
    decreases |first|
  {
    if first == [] {
      assert first + second == second;
    } else {
      assert (first + second)[0] == first[0] && (first + second)[1..] == first[1..] + second;
      RunAppend(Next(s, first[0]).value, first[1..], second);
    }
  }

  lemma RunSteps(s: State, e: Event, s1: State, rest: seq<Event>, s2: State)
    requires Next(s, e) == Some(s1) && Run(s1, rest) == Some(s2)
    ensures Run(s, [e] + rest) == Some(s2)
  {
    assert ([e] + rest)[1..] == rest;
  }

  /** The three remaining steps of a poll by thread `t`. */
  function Post(t: nat): seq<Event> {
    [Advance(t, Ok)] + ([Advance(t, Ok)] + ([Advance(t, Ok)] + []))
  }

  function Posted(s: State, t: nat, id: Id): State
    requires t < |s.threads|
  {
    s.(tokens := s.tokens[id := Notified(|s.issued|)], issued := s.issued + [id],
       posted := s.posted + multiset{id}, threads := s.threads[t := Idle])
  }

  /** A poller whose reading is not in the token map posts a prompt, however stale the reading is. */
  lemma PostRuns(s: State, t: nat, id: Id)
    requires t < |s.threads| && s.threads[t] == PollCheck(id) && id !in s.tokens
    ensures Run(s, Post(t)) == Some(Posted(s, t, id))
  {
    var e := Advance(t, Ok);
    var s1 := Goto(s.(tokens := s.tokens[id := Notifying]), t, PollNotify(id));
    var s2 := Goto(s1.(issued := s1.issued + [id], posted := s1.posted + multiset{id}), t, PollStore(id, |s.issued|));
    var s3 := Goto(s2.(tokens := s2.tokens[id := Notified(|s.issued|)]), t, Idle);
    assert Next(s, e) == Some(s1);
    assert Next(s1, e) == Some(s2);
    assert Next(s2, e) == Some(s3);
    assert s3.tokens == s.tokens[id := Notified(|s.issued|)] && s3.threads == s.threads[t := Idle];
    RunSteps(s2, e, s3, [], s3);
    RunSteps(s1, e, s2, [e] + [], s3);
    RunSteps(s, e, s1, [e] + ([e] + []), s3);
  }

  /** A request is raised; poller 0 reads it and stalls while poller 1 posts the prompt. */
  function RaiseAndPost(): seq<Event> {
    [NewRequest(None)] + ([StartPoll(0)] + ([StartPoll(1)] + Post(1)))
  }

  /** The prompt is out, nothing is claimed, poller 0 is stale, and reviewer 2 has not started. */
  ghost predicate Prompted(s: State) {
    && |s.threads| == 3 && s.threads[0] == PollCheck(0) && s.threads[2] == Idle
    && s.pending == Some(Pending(0, None)) && s.open == {0} && s.tokens == map[0 := Notified(0)]
    && s.posted == multiset{0} && s.closed == multiset{} && s.issued == [0]
    && s.claims == [] && s.trail == [] && s.registry == Registry(map[], [])
  }

  lemma RaiseAndPostRuns() returns (s: State)
    ensures Run(Initial(3), RaiseAndPost()) == Some(s) && Prompted(s)
  {
    var s0 := Initial(3);
    var s1 := s0.(pending := Some(Pending(0, None)), open := {0}, nextId := 1);
    var s2 := Goto(s1, 0, PollCheck(0));
    var s3 := Goto(s2, 1, PollCheck(0));
    assert {} + {0} == {0};
    assert Next(s0, NewRequest(None)) == Some(s1);
    assert Next(s1, StartPoll(0)) == Some(s2);
    assert Next(s2, StartPoll(1)) == Some(s3);
    PostRuns(s3, 1, 0);
    s := Posted(s3, 1, 0);
    RunSteps(s2, StartPoll(1), s3, Post(1), s);
    RunSteps(s1, StartPoll(0), s2, [StartPoll(1)] + Post(1), s);
    RunSteps(s0, NewRequest(None), s1, [StartPoll(0)] + ([StartPoll(1)] + Post(1)), s);
  }

  lemma {:induction false} SoloIsRun(s: State, t: nat, k: nat) returns (events: seq<Event>)
    requires Solo(s, t, k).Some?
    ensures Run(s, events) == Solo(s, t, k)
    decreases k
  {
    if k == 0 {
      events := [];
    } else {
      var next := Next(s, Advance(t, Ok)).value;
      var rest := SoloIsRun(next, t, k - 1);
      RunSteps(s, Advance(t, Ok), next, rest, Solo(next, t, k - 1).value);
      events := [Advance(t, Ok)] + rest;
    }
  }

  /** Reviewer 2 resolves the prompted request from start to finish. */
  lemma ReviewRuns(a: State) returns (events: seq<Event>, d: State)
    requires Prompted(a)
    ensures Run(a, events) == Some(d)
    ensures d.posted == a.posted && d.closed == multiset{0} && d.issued == a.issued
    ensures |d.threads| == 3 && d.threads[0] == PollCheck(0) && 0 !in d.tokens
    ensures d.registry.entries == map[0 := 0] && |d.claims| == 1 && d.claims[0].progress.chatUpdated
  {
    var call := Call(0, Approved, "alice", 0);
    var b := Goto(a, 2, Claiming(call));
    var c := StepClaiming(b, 2, call);
    assert MakeRoom(a.registry) == (a.registry, true);
    assert Next(a, StartResolve(2, call)) == Some(b);
    assert Next(b, Advance(2, Ok)) == Some(c);
    RunSteps(b, Advance(2, Ok), c, [], c);
    RunSteps(a, StartResolve(2, call), b, [Advance(2, Ok)] + [], c);
    var k := ResumeAt(c, 2, call, 0);
    d := Solo(c, 2, k).value;
    var solo := SoloIsRun(c, 2, k);
    var claiming := [StartResolve(2, call)] + ([Advance(2, Ok)] + []);
    RunAppend(a, claiming, solo);
    events := claiming + solo;
  }

  /**
    "One prompt per id ever" is false: a poll that read the request before it was resolved posts
    it again afterwards, and the second prompt can no longer be answered, because the claim is
    already complete.
   */
  lemma SamePromptTwice() returns (events: seq<Event>, s: State)
    ensures Reaches(3, events, s)
    ensures s.posted[0] == 2 && s.closed[0] == 1
    ensures 0 in s.tokens && s.tokens[0].Notified?
    ensures 0 in s.registry.entries && s.registry.entries[0] < |s.claims| &&
            s.claims[s.registry.entries[0]].progress.chatUpdated
  {
    var a := RaiseAndPostRuns();
    var review, d := ReviewRuns(a);
    PostRuns(d, 0, 0);
    RunAppend(a, review, Post(0));
    RunAppend(Initial(3), RaiseAndPost(), review + Post(0));
    events := RaiseAndPost() + (review + Post(0));
    s := Run(d, Post(0)).value;
  }
}
