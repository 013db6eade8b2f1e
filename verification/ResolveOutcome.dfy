/**
  What one `resolve` does that nothing disturbs, said from the state it finds and the answers it
  gets, without its phases.
 */
module ResolveOutcome {
  import opened Options
  import opened Resolutions
  import opened BridgeProtocol

  /** How the external calls of one `resolve` answer. */
  datatype Replies = Replies(prepare: Reply, gateway: Reply, audit: Reply, chat: Reply)

  /** The gateway takes the decision: an audit trail that can be prepared, and a request still open. */
  predicate Applies(s: State, p: Progress, r: Replies) {
    !p.gatewayApplied && r.prepare == Ok && r.gateway == Ok && p.record.id in s.open
  }

  predicate Decided(s: State, p: Progress, r: Replies) {
    p.gatewayApplied || Applies(s, p, r)
  }

  predicate Audits(s: State, p: Progress, r: Replies) {
    p.audited || (Decided(s, p, r) && r.audit == Ok)
  }

  /** There is no prompt, or it is stored and the chat takes the answer; one still being posted is an error. */
  predicate Answers(s: State, id: Id, chat: Reply) {
    id !in s.tokens || (s.tokens[id].Notified? && chat == Ok)
  }

  /** The first two phases, as far as they get; the log is written even when the call then fails. */
  function Decides(s: State, c: nat, r: Replies): State
    requires c < |s.claims|
  {
    var p := s.claims[c].progress;
    var id := p.record.id;
    var applies := Applies(s, p, r);
    s.(pending := if applies && Reports(s, id) then None else s.pending,
       open := if applies then s.open - {id} else s.open,
       applied := s.applied + (if applies then [Applied(id, p.decision, c)] else []),
       trail := s.trail + (if Decided(s, p, r) && !p.audited && r.audit != Err && !Known(s, id)
                           then [Logged(p.record, c)] else []),
       claims := s.claims[c := s.claims[c].(progress := p.(gatewayApplied := Decided(s, p, r),
                                                            audited := Audits(s, p, r)))])
  }

  /** The last phase: the answer is shown, the token dropped, the claim finished, or none of it. */
  function Chats(s: State, c: nat, chat: Reply): State
    requires c < |s.claims|
  {
    var p := s.claims[c].progress;
    var id := p.record.id;
    var prompted := id in s.tokens && s.tokens[id].Notified?;
    var done := Answers(s, id, chat);
    s.(responses := s.responses + (if prompted && chat != Err
                                   then [Response(id, s.tokens[id].token, p.decision, p.record.decidedBy, c)] else []),
       tokens := if done then s.tokens - {id} else s.tokens,
       closed := if done && id in s.tokens then s.closed + multiset{id} else s.closed,
       claims := s.claims[c := Claim(p.(chatUpdated := p.chatUpdated || done), None)])
  }

  predicate HasRoom(r: Registry) {
    |r.entries| < MAX_RESOLUTION_ENTRIES || r.terminalOrder != []
  }

  /** A new claim with the call's own decision, reviewer and time, and the outcome the request is reported with. */
  function NewClaim(s: State, call: Call): Claim {
    var outcome := if s.pending.Some? && s.pending.value.id == call.id then s.pending.value.outcome else None;
    Claim(Progress(call.decision, AuditRecord(call.id, call.decision, call.who, call.nowMs, outcome),
                   false, false, false), None)
  }

  /** The claim enters the registry, in the place of the oldest finished one when there is no other. */
  function Registers(s: State, call: Call): State {
    var r := if |s.registry.entries| < MAX_RESOLUTION_ENTRIES || s.registry.terminalOrder == [] then s.registry
             else Registry(s.registry.entries - {s.registry.terminalOrder[0]}, s.registry.terminalOrder[1..]);
    s.(claims := s.claims + [NewClaim(s, call)], registry := r.(entries := r.entries[call.id := |s.claims|]))
  }

  /** The caller owns the claim: its own decision and name, and not finished. */
  predicate Owns(p: Progress, call: Call) {
    p.decision == call.decision && p.record.decidedBy == call.who && !p.chatUpdated
  }

  /** The claim the call works on, made if there is none. */
  function Taken(s: State, call: Call): State {
    if call.id in s.registry.entries then s else Registers(s, call)
  }

  predicate Admitted(s: State, call: Call) {
    call.id in s.registry.entries || HasRoom(s.registry)
  }

  /** Exactly when the call succeeds. */
  predicate Succeeds(s: State, call: Call, r: Replies) {
    && Admitted(s, call)
    && var s1 := Taken(s, call);
    && var c := s1.registry.entries[call.id];
    && c < |s1.claims|
    && var p := s1.claims[c].progress;
    Owns(p, call) && Audits(s, p, r) && Answers(s, call.id, r.chat)
  }

  /** What becomes of a claim that the call has taken; a finished one may now be evicted. */
  function Concludes(s: State, c: nat, call: Call, r: Replies): State
    requires c < |s.claims|
  {
    var p := s.claims[c].progress;
    if !Owns(p, call) then s
    else if !Audits(s, p, r) then Decides(s, c, r)
    else
      var end := Chats(Decides(s, c, r), c, r.chat);
      if !Answers(s, call.id, r.chat) then end
      else end.(registry := end.registry.(terminalOrder := end.registry.terminalOrder + [call.id]))
  }

  /** The state a whole call leaves. */
  function Resolves(s: State, call: Call, r: Replies): State {
    if !Admitted(s, call) then s
    else
      var s1 := Taken(s, call);
      var c := s1.registry.entries[call.id];
      if c >= |s1.claims| then s1 else Concludes(s1, c, call, r)
  }

  lemma ClaimingTakes(s: State, t: nat, call: Call)
    requires Sound(s.registry) && t < |s.threads|
    ensures StepClaiming(s, t, call) ==
            if !Admitted(s, call) then Goto(s, t, Idle)
            else Goto(Taken(s, call), t, Locking(call, Taken(s, call).registry.entries[call.id]))
  {
    MakeRoomEvictsOnlyTheOldestFinished(s.registry);
  }

  // ---- the phases of the machine, one after the other ----

  /** What a call that owns the lock knows of its claim. */
  predicate Own(s: State, t: nat, call: Call, c: nat) {
    && t < |s.threads| && c < |s.claims|
    && var p := s.claims[c].progress;
    && p.record.id == call.id && p.decision == call.decision && p.record.decidedBy == call.who
    && (p.audited ==> p.gatewayApplied)
  }

  lemma UndecidedIsSame(s: State, c: nat, r: Replies)
    requires c < |s.claims| && !Decided(s, s.claims[c].progress, r) && !s.claims[c].progress.audited
    ensures Decides(s, c, r) == s
  {
    assert s.claims[c := s.claims[c].(progress := s.claims[c].progress)] == s.claims;
  }

  lemma AuditedIsSame(s: State, c: nat, r: Replies)
    requires c < |s.claims| && s.claims[c].progress.audited && s.claims[c].progress.gatewayApplied
    ensures Decides(s, c, r) == s
  {
    assert s.claims[c := s.claims[c].(progress := s.claims[c].progress)] == s.claims;
  }

  lemma AuditPhaseDecides(s: State, t: nat, call: Call, c: nat, r: Replies)
    requires Own(s, t, call, c) && s.claims[c].progress.gatewayApplied && !s.claims[c].progress.audited
    requires Known(s, call.id) ==> KnownAs(s, s.claims[c].progress.record)
    ensures StepAuditing(s, t, call, c, r.audit) ==
            if r.audit == Ok then Goto(Decides(s, c, r), t, ReadingToken(call, c)) else Bail(Decides(s, c, r), t, c)
  {
  }

  /** The gateway phase that was refused leaves nothing, and the other one leaves the audit to do. */
  lemma GatewayPhaseDecides(s: State, t: nat, call: Call, c: nat, r: Replies)
    requires Own(s, t, call, c) && !s.claims[c].progress.gatewayApplied
    requires r.prepare == Ok
    ensures var s1 := StepApplying(Goto(s, t, Applying(call, c)), t, call, c, r.gateway);
            if !Applies(s, s.claims[c].progress, r) then s1 == Bail(Decides(s, c, r), t, c)
            else
              && Own(s1, t, call, c) && s1.threads[t] == Auditing(call, c)
              && s1.claims[c].progress == s.claims[c].progress.(gatewayApplied := true)
              && s1.threads == s.threads[t := Auditing(call, c)]
              && Decides(s1, c, r) == Decides(s, c, r).(threads := s1.threads)
  {
    var s1 := StepApplying(Goto(s, t, Applying(call, c)), t, call, c, r.gateway);
    if !Applies(s, s.claims[c].progress, r) {
      UndecidedIsSame(s, c, r);
      assert s.threads[t := Applying(call, c)][t := Idle] == s.threads[t := Idle];
    } else {
      assert s.threads[t := Applying(call, c)][t := Auditing(call, c)] == s.threads[t := Auditing(call, c)];
      ApplyThenAudit(s, s1, t, call, c, r);
    }
  }

  lemma ApplyThenAudit(s: State, s1: State, t: nat, call: Call, c: nat, r: Replies)
    requires Own(s, t, call, c) && Applies(s, s.claims[c].progress, r)
    requires s1 == StepApplying(Goto(s, t, Applying(call, c)), t, call, c, r.gateway) && !s.claims[c].progress.audited
    ensures Decides(s1, c, r) == Decides(s, c, r).(threads := s1.threads)
  {
    assert Known(s1, call.id) == Known(s, call.id);
    assert Decides(s1, c, r).claims == Decides(s, c, r).claims;
    assert Decides(s1, c, r).applied == Decides(s, c, r).applied;
    assert Decides(s1, c, r).trail == Decides(s, c, r).trail;
  }

  /** The chat phase without a prompt, or with one that is still being posted. */
  lemma ReadingDecides(s: State, t: nat, call: Call, c: nat, chat: Reply)
    requires Own(s, t, call, c) && (call.id in s.tokens ==> s.tokens[call.id].Notifying?)
    ensures Goto(Chats(s, c, chat), t, if Answers(s, call.id, chat) then Marking(call.id, c) else Idle) ==
            if call.id in s.tokens then Bail(s, t, c) else Finish(s, t, call, c)
  {
    if call.id !in s.tokens {
      assert s.tokens - {call.id} == s.tokens;
    }
  }

  lemma RespondingDecides(s: State, t: nat, call: Call, c: nat, chat: Reply, shown: State)
    requires Own(s, t, call, c) && call.id in s.tokens && s.tokens[call.id].Notified?
    requires chat == Ok ==> shown.threads == s.threads[t := DroppingToken(call, c)]
    requires var response := Response(call.id, s.tokens[call.id].token, call.decision, call.who, c);
             shown == s.(responses := s.responses + (if chat != Err then [response] else []), threads := shown.threads)
    ensures Goto(Chats(s, c, chat), t, if chat == Ok then Marking(call.id, c) else Idle) ==
            if chat == Ok then StepDroppingToken(shown, t, call, c) else Bail(shown.(threads := s.threads), t, c)
  {
    if chat == Ok {
      assert shown.threads[t := Marking(call.id, c)] == s.threads[t := Marking(call.id, c)];
    }
  }

  /** The state of an owner at its first phase. */
  function Locked(s: State, t: nat, c: nat, threads: seq<Thread>): State
    requires c < |s.claims|
  {
    s.(claims := s.claims[c := s.claims[c].(holder := Some(t))], threads := threads)
  }

  lemma AuditsUnderLock(s: State, t: nat, c: nat, r: Replies, threads: seq<Thread>)
    requires c < |s.claims| && t < |threads|
    ensures Audits(Locked(s, t, c, threads), s.claims[c].progress, r) == Audits(s, s.claims[c].progress, r)
    ensures Locked(s, t, c, threads).claims[c].progress == s.claims[c].progress
    ensures Decides(s, c, r).tokens == s.tokens && Decides(Locked(s, t, c, threads), c, r).tokens == s.tokens
    ensures Decides(s, c, r).registry == s.registry
  {
  }

  lemma DecidesUnderLock(s: State, t: nat, c: nat, r: Replies, threads: seq<Thread>)
    requires c < |s.claims| && s.claims[c].holder.None? && t < |threads|
    ensures Bail(Decides(Locked(s, t, c, threads), c, r), t, c) == Decides(s, c, r).(threads := threads[t := Idle])
  {
    var locked := Locked(s, t, c, threads);
    assert Known(locked, s.claims[c].progress.record.id) == Known(s, s.claims[c].progress.record.id);
    assert Bail(Decides(locked, c, r), t, c).claims == Decides(s, c, r).claims;
  }

  lemma ChatsUnderLock(s: State, t: nat, c: nat, r: Replies, threads: seq<Thread>, pc: Thread)
    requires c < |s.claims| && t < |threads|
    ensures Chats(Goto(Decides(Locked(s, t, c, threads), c, r), t, pc), c, r.chat) ==
            Chats(Decides(s, c, r), c, r.chat).(threads := threads[t := pc])
  {
    var locked := Locked(s, t, c, threads);
    assert Known(locked, s.claims[c].progress.record.id) == Known(s, s.claims[c].progress.record.id);
    assert Chats(Goto(Decides(locked, c, r), t, pc), c, r.chat).claims == Chats(Decides(s, c, r), c, r.chat).claims;
  }

  lemma BackToIdle(threads: seq<Thread>, t: nat, pc: Thread)
    requires t < |threads| && threads[t] == Idle
    ensures threads[t := pc][t := Idle] == threads
  {
  }

  lemma TakenFrame(s: State, call: Call, threads: seq<Thread>)
    ensures Taken(s.(threads := threads), call) == Taken(s, call).(threads := threads)
    ensures call.id in Taken(s, call).registry.entries && s.claims <= Taken(s, call).claims
    ensures call.id !in s.registry.entries ==>
              Taken(s, call).registry.entries[call.id] == |s.claims| && Taken(s, call).claims[|s.claims|].holder.None?
  {
  }

  lemma ConcludedIsDone(s: State, c: nat, call: Call, r: Replies)
    requires c < |s.claims| && s.claims[c].progress.record.id == call.id
    ensures |Concludes(s, c, call, r).claims| == |s.claims| && Concludes(s, c, call, r).threads == s.threads
    ensures var p, p' := s.claims[c].progress, Concludes(s, c, call, r).claims[c].progress;
            && p'.record == p.record && p'.decision == p.decision
            && (Owns(p, call) && Audits(s, p, r) && Answers(s, call.id, r.chat) ==> p'.chatUpdated)
  {
  }

  lemma ResolvesIsConcluding(s: State, call: Call, c: nat, r: Replies)
    requires Admitted(s, call) && call.id in Taken(s, call).registry.entries
    requires c == Taken(s, call).registry.entries[call.id] && c < |Taken(s, call).claims|
    ensures Resolves(s, call, r) == Concludes(Taken(s, call), c, call, r)
    ensures var s1 := Taken(s, call);
            var p := s1.claims[c].progress;
            Succeeds(s, call, r) <==> Owns(p, call) && Audits(s1, p, r) && Answers(s1, call.id, r.chat)
    ensures Resolves(s, call, r).threads == s.threads && Taken(s, call).threads == s.threads
  {
  }

  lemma UnansweredDecides(s: State, c: nat, call: Call, r: Replies)
    requires c < |s.claims| && s.claims[c].progress.record.id == call.id && !Answers(s, call.id, r.chat)
    requires call.id in s.tokens && s.tokens[call.id].Notifying?
    ensures var s' := Concludes(s, c, call, r);
            && s'.tokens == s.tokens && |s'.claims| == |s.claims|
            && (forall i :: 0 <= i < |s.claims| && i != c ==> s'.claims[i] == s.claims[i])
            && s'.claims[c].progress.chatUpdated == s.claims[c].progress.chatUpdated
  {
  }

  lemma TakenKeeps(s: State, call: Call)
    ensures Taken(s, call).tokens == s.tokens && s.claims <= Taken(s, call).claims
    ensures call.id !in s.registry.entries ==>
              Taken(s, call).registry.entries[call.id] == |s.claims| &&
              Taken(s, call).claims == s.claims + [NewClaim(s, call)]
  {
  }

  /** While a prompt of the id is still being posted no call can succeed, and none completes a claim. */
  lemma PostedPromptIsNotOvertaken(s: State, call: Call, r: Replies, c: nat)
    requires call.id in s.tokens && s.tokens[call.id].Notifying? && c < |s.claims|
    requires call.id in s.registry.entries && s.registry.entries[call.id] < |s.claims| ==>
               s.claims[s.registry.entries[call.id]].progress.record.id == call.id
    ensures !Succeeds(s, call, r)
    ensures c < |Resolves(s, call, r).claims| && Resolves(s, call, r).tokens == s.tokens
    ensures s.claims[c].progress.record.id == call.id ==>
              Resolves(s, call, r).claims[c].progress.chatUpdated == s.claims[c].progress.chatUpdated
  {
    TakenKeeps(s, call);
    if Admitted(s, call) {
      var s1 := Taken(s, call);
      var own := s1.registry.entries[call.id];
      assert s1.claims[c] == s.claims[c];
      if own < |s1.claims| {
        UnansweredDecides(s1, own, call, r);
      }
    }
  }
}
