/** A claim from its making to its completion: what it is made of, what never changes, what must be true at the end. */
module BridgeClaims {
  import opened Options
  import opened Resolutions
  import opened BridgeProtocol
  import opened BridgeInvariant
  import O = ResolveOutcome
  import T = BridgeTheorems

  /** Flags are set and never cleared; decision and record stay. */
  predicate Grows(p: Progress, p': Progress) {
    && p'.decision == p.decision && p'.record == p.record
    && (p.gatewayApplied ==> p'.gatewayApplied) && (p.audited ==> p'.audited) && (p.chatUpdated ==> p'.chatUpdated)
  }

  /** The claims of `s` are still there, and the one at `own` alone may have been completed, with no prompt left. */
  predicate KeepsClaims(s: State, s': State, own: nat) {
    && |s.claims| <= |s'.claims|
    && forall c :: 0 <= c < |s.claims| ==>
         && Grows(s.claims[c].progress, s'.claims[c].progress)
         && (s'.claims[c].progress.chatUpdated ==>
               s.claims[c].progress.chatUpdated || (c == own && s.claims[c].progress.record.id !in s'.tokens))
  }

  lemma ApplyingKeeps(s: State, t: nat, call: Call, c: nat, reply: Reply)
    requires t < |s.threads| && c < |s.claims|
    ensures KeepsClaims(s, StepApplying(s, t, call, c, reply), c)
  {
  }

  lemma AuditingKeeps(s: State, t: nat, call: Call, c: nat, reply: Reply)
    requires t < |s.threads| && c < |s.claims|
    ensures KeepsClaims(s, StepAuditing(s, t, call, c, reply), c)
  {
  }

  lemma DecidingKeeps(s: State, t: nat, pc: Thread, reply: Reply)
    requires t < |s.threads| && (pc.Preparing? || pc.Applying? || pc.Auditing?) && pc.claim < |s.claims|
    ensures KeepsClaims(s, StepOwner(s, t, pc, reply), pc.claim)
  {
    match pc
    case Applying(call, c) => ApplyingKeeps(s, t, call, c, reply);
    case Auditing(call, c) => AuditingKeeps(s, t, call, c, reply);
    case _ =>
  }

  lemma AnsweringKeeps(s: State, t: nat, pc: Thread, reply: Reply)
    requires t < |s.threads| && (pc.ReadingToken? || pc.Responding? || pc.DroppingToken?) && pc.claim < |s.claims|
    requires s.claims[pc.claim].progress.record.id == pc.call.id
    ensures KeepsClaims(s, StepOwner(s, t, pc, reply), pc.claim)
  {
  }

  lemma OwnerKeeps(s: State, t: nat, pc: Thread, reply: Reply)
    requires t < |s.threads| && pc.HoldsProgress() && pc.claim < |s.claims|
    requires s.claims[pc.claim].progress.record.id == pc.call.id
    ensures KeepsClaims(s, StepOwner(s, t, pc, reply), pc.claim)
  {
    if pc.Preparing? || pc.Applying? || pc.Auditing? {
      DecidingKeeps(s, t, pc, reply);
    } else {
      AnsweringKeeps(s, t, pc, reply);
    }
  }

  lemma UnlockedKeeps(s: State, t: nat, pc: Thread, reply: Reply, own: nat)
    requires t < |s.threads| && !pc.HoldsProgress() && StepUnlocked(s, t, pc, reply).Some?
    ensures var s' := StepUnlocked(s, t, pc, reply).value;
            && |s.claims| <= |s'.claims|
            && (!pc.Claiming? ==> |s'.claims| == |s.claims|)
            && forall c :: 0 <= c < |s.claims| ==> s'.claims[c].progress == s.claims[c].progress
  {
  }

  /**
    A claim is completed only by the thread inside its own progress lock, and then no prompt of its
    id is stored or on its way: a prompt still being posted never loses its answer to a completion.
   */
  lemma CompletionLeavesNoPrompt(s: State, e: Event, c: nat)
    requires Inv(s) && Next(s, e).Some? && c < |s.claims|
    ensures var s' := Next(s, e).value;
            && c < |s'.claims| && Grows(s.claims[c].progress, s'.claims[c].progress)
            && (s'.claims[c].progress.chatUpdated && !s.claims[c].progress.chatUpdated ==>
                  && e.Advance? && e.t < |s.threads| && s.threads[e.t].HoldsProgress() && s.threads[e.t].claim == c
                  && s.claims[c].progress.record.id !in s'.tokens)
  {
    if e.Advance? {
      var pc := s.threads[e.t];
      assert WorkOk(e.t, pc, s.claims);
      if pc.HoldsProgress() {
        OwnerKeeps(s, e.t, pc, e.reply);
        assert KeepsClaims(s, Next(s, e).value, pc.claim);
      } else {
        UnlockedKeeps(s, e.t, pc, e.reply, c);
      }
    }
  }

  /** Over every run a claim keeps its decision and its record, time and outcome included, and no flag is cleared. */
  lemma {:induction false} ClaimsOnlyGrow(s: State, events: seq<Event>, c: nat)
    requires Inv(s) && Run(s, events).Some? && c < |s.claims|
    ensures c < |Run(s, events).value.claims|
    ensures Grows(s.claims[c].progress, Run(s, events).value.claims[c].progress)
    decreases |events|
  {
    if events != [] {
      CompletionLeavesNoPrompt(s, events[0], c);
      NextInv(s, events[0]);
      ClaimsOnlyGrow(Next(s, events[0]).value, events[1..], c);
    }
  }

  /** Only the claim section makes a claim, and makes it of the call that is in it. */
  lemma ClaimIsMadeOfItsCall(s: State, e: Event)
    requires Inv(s) && Next(s, e).Some?
    ensures var s' := Next(s, e).value;
            |s'.claims| > |s.claims| ==>
              && e.Advance? && e.t < |s.threads| && s.threads[e.t].Claiming?
              && var call := s.threads[e.t].call;
              && s'.claims == s.claims + [O.NewClaim(s, call)]
              && call.id !in s.registry.entries
              && call.id in s'.registry.entries && s'.registry.entries[call.id] == |s.claims|
  {
    if e.Advance? {
      var pc := s.threads[e.t];
      assert WorkOk(e.t, pc, s.claims);
      if pc.Claiming? {
        O.ClaimingTakes(s, e.t, pc.call);
      } else if !pc.HoldsProgress() {
        UnlockedKeeps(s, e.t, pc, e.reply, 0);
      } else {
        OwnerMakesNone(s, e.t, pc, e.reply);
      }
    }
  }

  lemma OwnerMakesNone(s: State, t: nat, pc: Thread, reply: Reply)
    requires t < |s.threads| && pc.HoldsProgress() && pc.claim < |s.claims|
    ensures |StepOwner(s, t, pc, reply).claims| == |s.claims|
  {
    if pc.Preparing? || pc.Applying? || pc.Auditing? {
      DeciderMakesNone(s, t, pc, reply);
    } else {
      AnswererMakesNone(s, t, pc, reply);
    }
  }

  lemma DeciderMakesNone(s: State, t: nat, pc: Thread, reply: Reply)
    requires t < |s.threads| && (pc.Preparing? || pc.Applying? || pc.Auditing?) && pc.claim < |s.claims|
    ensures |StepOwner(s, t, pc, reply).claims| == |s.claims|
  {
  }

  lemma AnswererMakesNone(s: State, t: nat, pc: Thread, reply: Reply)
    requires t < |s.threads| && (pc.ReadingToken? || pc.Responding? || pc.DroppingToken?) && pc.claim < |s.claims|
    ensures |StepOwner(s, t, pc, reply).claims| == |s.claims|
  {
  }

  // ---- an outside call that fails ----

  /** Inside the progress lock, before a call to the gateway, the audit trail or the chat. */
  predicate CallsOut(pc: Thread) {
    pc.Preparing? || pc.Applying? || pc.Auditing? || pc.Responding?
  }

  /** The call is over and its lock free. */
  predicate Over(s: State, t: nat, c: nat, s': State)
    requires t < |s.threads| && c < |s.claims|
  {
    s'.threads == s.threads[t := Idle] && s'.claims == s.claims[c := s.claims[c].(holder := None)]
  }

  /**
    An outside call that fails ends the `resolve` there: the lock is dropped, no flag is set, no token
    goes, and nothing else is different but what the failing call itself did, if it failed late.
   */
  lemma FailureEndsTheCall(s: State, t: nat, reply: Reply)
    requires t < |s.threads| && CallsOut(s.threads[t]) && s.threads[t].claim < |s.claims| && reply != Ok
    ensures var pc := s.threads[t];
            var step := Next(s, Advance(t, reply));
            && step.Some? && Over(s, t, pc.claim, step.value)
            && var s' := step.value;
            && s' == s.(threads := s'.threads, claims := s'.claims, trail := s'.trail, responses := s'.responses)
            && (s'.trail != s.trail ==>
                  pc.Auditing? && reply == LateErr && s'.trail == s.trail + [Logged(s.claims[pc.claim].progress.record,
                                                                                    pc.claim)])
            && (s'.responses != s.responses ==>
                  pc.Responding? && reply == LateErr &&
                  s'.responses == s.responses + [Response(pc.call.id, pc.token, pc.call.decision, pc.call.who,
                                                          pc.claim)])
  {
  }

  /** A poll whose notify fails leaves no mark: after its next step the map is as it was without the id. */
  lemma FailedNotifyLeavesNoMark(s: State, t: nat, first: Reply, second: Reply)
    requires t < |s.threads| && s.threads[t].PollNotify? && first != Ok
    ensures Run(s, [Advance(t, first), Advance(t, second)]) ==
            Some(s.(tokens := s.tokens - {s.threads[t].id}, threads := s.threads[t := Idle]))
  {
    var events := [Advance(t, first), Advance(t, second)];
    var s1 := Goto(s, t, PollUndo(s.threads[t].id));
    assert events[1..] == [Advance(t, second)] && events[1..][1..] == [];
    assert s1.threads[t := Idle] == s.threads[t := Idle];
    assert Next(s, events[0]) == Some(s1);
    var s2 := Next(s1, events[1]).value;
    assert Run(s2, []) == Some(s2);
    assert Run(s1, events[1..]) == Some(s2);
  }
}
