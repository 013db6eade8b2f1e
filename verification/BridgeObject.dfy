/**
  The bridge as an object: `resolve` and `poll_once` in the source's own order over fields updated
  in place, each critical section proved equal to its step of the protocol, and each whole call
  proved to be a run of it.
 */
module BridgeObject {
  import opened Options
  import opened Resolutions
  import opened BridgeProtocol
  import opened ResolveOutcome
  import I = BridgeInvariant
  import T = BridgeTheorems

  /** The gateway, the audit log and the chat, with what they have seen. */
  datatype Outside = Outside(
    pending: Option<Pending>,
    open: set<Id>,
    nextId: Id,
    applied: seq<Applied>,
    trail: seq<Logged>,
    issued: seq<Id>,
    posted: multiset<Id>,
    closed: multiset<Id>,
    responses: seq<Response>
  )

  /** Decision, reviewer and record of a claim never change once it is made. */
  predicate SameClaim(a: Progress, b: Progress) {
    a.decision == b.decision && a.record == b.record
  }

  /** A prompt went out for the id and its token is stored. */
  function Prompted(s: State, id: Id): State {
    s.(tokens := s.tokens[id := Notified(|s.issued|)], issued := s.issued + [id], posted := s.posted + multiset{id})
  }

  predicate OwnedAndDone(p: Progress, call: Call) {
    p.chatUpdated && p.record.id == call.id && p.IsSameDecision(call.decision, call.who)
  }

  class Bridge {
    const registry: ResolutionRegistry
    var tokens: map<Id, NotificationState>
    var claims: seq<Claim>
    var outside: Outside
    ghost const count: nat
    ghost var threads: seq<Thread>
    ghost var trace: seq<Event>

    constructor (registry: ResolutionRegistry, ghost count: nat)
      requires registry.View() == Registry(map[], [])
      ensures this.registry == registry && this.count == count && trace == [] && Valid()
    {
      this.registry, this.count := registry, count;
      tokens, claims := map[], [];
      outside := Outside(None, {}, 0, [], [], [], multiset{}, multiset{}, []);
      threads, trace := seq(count, _ => Idle), [];
    }

    ghost function View(): State
      reads this, registry
    {
      State(outside.pending, outside.open, outside.nextId, outside.applied, outside.trail, tokens, outside.issued,
            outside.posted, outside.closed, outside.responses, claims, registry.View(), threads)
    }

    /** The object is in the state its trace leads to. */
    ghost predicate Valid()
      reads this, registry
    {
      T.Reaches(count, trace, View())
    }

    ghost predicate At(t: nat, pc: Thread)
      reads this
    {
      t < |threads| && threads[t] == pc
    }

    /** At a point inside the progress lock of claim `c`. */
    ghost predicate Inside(t: nat, pc: Thread, c: nat)
      reads this
    {
      At(t, pc) && c < |claims|
    }

    /** Appends a step that was just taken to the trace. */
    ghost method Traced(before: State, e: Event)
      requires T.Reaches(count, trace, before) && Next(before, e) == Some(View())
      modifies this`trace
      ensures trace == old(trace) + [e] && Valid()
    {
      T.RunAppend(Initial(count), trace, [e]);
      assert [e][1..] == [];
      assert Run(before, [e]) == Run(View(), []);
      trace := trace + [e];
    }

    method Begin(t: nat, call: Call)
      requires Valid() && At(t, Idle)
      modifies this
      ensures Valid() && At(t, Claiming(call)) && trace == old(trace) + [StartResolve(t, call)]
      ensures View() == old(View()).(threads := old(threads)[t := Claiming(call)])
    {
      ghost var v := View();
      threads := threads[t := Claiming(call)];
      Traced(v, StartResolve(t, call));
    }

    /** Under the registry lock: the existing claim of the id, or a new one if there is room. */
    method TakeClaim(t: nat, call: Call) returns (c: Option<nat>)
      requires Valid() && At(t, Claiming(call))
      modifies this, registry
      ensures Valid() && trace == old(trace) + [Advance(t, Ok)]
      ensures At(t, if c.Some? then Locking(call, c.value) else Idle)
      ensures c.Some? <==> Admitted(old(View()), call)
      ensures View() == Goto(if c.Some? then Taken(old(View()), call) else old(View()), t,
                             if c.Some? then Locking(call, c.value) else Idle)
      ensures c.Some? ==> call.id in registry.entries && c.value == registry.entries[call.id]
    {
      ghost var v := View();
      T.ReachesInv(count, trace, v);
      ClaimingTakes(v, t, call);
      c := ClaimSection(t, call);
      Traced(v, Advance(t, Ok));
      assert View().claims == claims && View().registry == registry.View();
    }

    method ClaimSection(t: nat, call: Call) returns (c: Option<nat>)
      requires t < |threads| && Sound(registry.View())
      modifies this`claims, this`threads, registry
      ensures View() == StepClaiming(old(View()), t, call)
      ensures c == if call.id in registry.entries then Some(registry.entries[call.id]) else None
    {
      if call.id in registry.entries {
        c := Some(registry.entries[call.id]);
        threads := threads[t := Locking(call, c.value)];
        return;
      }
      MakeRoomEvictsOnlyTheOldestFinished(registry.View());
      var ok := registry.MakeRoomForClaim();
      if !ok {
        threads := threads[t := Idle];
        return None;
      }
      c := Some(|claims|);
      AddClaim(t, call);
    }

    /** A new claim in the room that was made, with the outcome the request is reported with. */
    method AddClaim(t: nat, call: Call)
      requires t < |threads|
      modifies this`claims, this`threads, registry`entries
      ensures var v, c := old(View()), |old(claims)|;
              var outcome := if Reports(v, call.id) then v.pending.value.outcome else None;
              View() == Goto(v.(claims := v.claims + [Claim(NewProgress(call, outcome), None)],
                                registry := v.registry.(entries := v.registry.entries[call.id := c])),
                             t, Locking(call, c))
    {
      var pending := outside.pending;
      var outcome := if pending.Some? && pending.value.id == call.id then pending.value.outcome else None;
      registry.entries := registry.entries[call.id := |claims|];
      threads := threads[t := Locking(call, |claims|)];
      claims := claims + [Claim(NewProgress(call, outcome), None)];
    }

    /** Takes the free progress lock; refuses a competitor or a finished claim. */
    method LockProgress(t: nat, call: Call, c: nat) returns (owner: bool)
      requires Valid() && Inside(t, Locking(call, c), c) && claims[c].holder.None?
      modifies this
      ensures Valid() && trace == old(trace) + [Advance(t, Ok)]
      ensures c < |claims| && Inside(t, if owner then FirstUnfinished(claims[c].progress, call, c) else Idle, c)
      ensures owner == (claims[c].progress.IsSameDecision(call.decision, call.who) && !claims[c].progress.chatUpdated)
      ensures claims[c].progress == old(claims)[c].progress
      ensures View() == old(View()).(claims := if owner then old(claims)[c := old(claims)[c].(holder := Some(t))]
                                               else old(claims), threads := threads)
      ensures threads == old(threads)[t := if owner then FirstUnfinished(claims[c].progress, call, c) else Idle]
    {
      ghost var v := View();
      var p := claims[c].progress;
      if !p.IsSameDecision(call.decision, call.who) || p.chatUpdated {
        threads := threads[t := Idle];
        Traced(v, Advance(t, Ok));
        return false;
      }
      claims := claims[c := claims[c].(holder := Some(t))];
      threads := threads[t := FirstUnfinished(p, call, c)];
      Traced(v, Advance(t, Ok));
      return true;
    }

    /** An early return drops the guard. */
    method DropGuard(t: nat, c: nat)
      requires t < |threads| && c < |claims|
      modifies this`claims, this`threads
      ensures View() == Bail(old(View()), t, c)
    {
      claims := claims[c := claims[c].(holder := None)];
      threads := threads[t := Idle];
    }

    method PrepareAudit(t: nat, call: Call, c: nat, reply: Reply) returns (ok: bool)
      requires Valid() && Inside(t, Preparing(call, c), c)
      modifies this
      ensures Valid() && trace == old(trace) + [Advance(t, reply)]
      ensures Inside(t, if ok then Applying(call, c) else Idle, c) && ok == (reply == Ok)
      ensures View() == if ok then Goto(old(View()), t, Applying(call, c)) else Bail(old(View()), t, c)
    {
      ghost var v := View();
      if reply != Ok {
        DropGuard(t, c);
        Traced(v, Advance(t, reply));
        return false;
      }
      threads := threads[t := Applying(call, c)];
      Traced(v, Advance(t, reply));
      return true;
    }

    method ApplyDecision(t: nat, call: Call, c: nat, reply: Reply) returns (ok: bool)
      requires Valid() && Inside(t, Applying(call, c), c)
      modifies this
      ensures Valid() && trace == old(trace) + [Advance(t, reply)]
      ensures c < |claims| && Inside(t, if ok then FirstUnfinished(claims[c].progress, call, c) else Idle, c)
      ensures ok == (reply == Ok && call.id in old(outside.open))
      ensures var before := old(claims)[c].progress;
              claims[c].progress == before.(gatewayApplied := before.gatewayApplied || ok)
      ensures View() == StepApplying(old(View()), t, call, c, reply)
    {
      ghost var v := View();
      if reply != Ok || call.id !in outside.open {
        DropGuard(t, c);
        Traced(v, Advance(t, reply));
        return false;
      }
      var reported := outside.pending.Some? && outside.pending.value.id == call.id;
      outside := outside.(pending := if reported then None else outside.pending, open := outside.open - {call.id},
                          applied := outside.applied + [Applied(call.id, call.decision, c)]);
      claims := claims[c := claims[c].(progress := claims[c].progress.(gatewayApplied := true))];
      threads := threads[t := FirstUnfinished(claims[c].progress, call, c)];
      Traced(v, Advance(t, reply));
      return true;
    }

    /** The audit call: appends a new id, accepts an identical record, refuses a different one. */
    method CallRecord(c: nat, reply: Reply) returns (ok: bool)
      requires c < |claims|
      modifies this`outside
      ensures var v, record := old(View()), claims[c].progress.record;
              && ok == (reply == Ok && (Known(v, record.id) ==> KnownAs(v, record)))
              && outside == if reply == Err || Known(v, record.id) then old(outside)
                            else old(outside).(trail := old(outside).trail + [Logged(record, c)])
    {
      var record := claims[c].progress.record;
      var known := exists i :: 0 <= i < |outside.trail| && outside.trail[i].record.id == record.id;
      var same := exists i :: 0 <= i < |outside.trail| && outside.trail[i].record == record;
      if reply == Err || (known && !same) {
        return false;
      }
      if !known {
        outside := outside.(trail := outside.trail + [Logged(record, c)]);
      }
      return reply != LateErr;
    }

    method RecordDecision(t: nat, call: Call, c: nat, reply: Reply) returns (ok: bool)
      requires Valid() && Inside(t, Auditing(call, c), c)
      modifies this
      ensures Valid() && trace == old(trace) + [Advance(t, reply)]
      ensures Inside(t, if ok then ReadingToken(call, c) else Idle, c) && ok == (reply == Ok)
      ensures claims[c].progress == old(claims)[c].progress.(audited := old(claims)[c].progress.audited || ok)
      ensures View() == StepAuditing(old(View()), t, call, c, reply)
    {
      ghost var v := View();
      OwnerOwns(t, call, c);
      ok := AuditClaim(t, call, c, reply);
      assert threads == View().threads && claims == View().claims;
      Traced(v, Advance(t, reply));
    }

    /** A thread inside the progress lock owns its claim, and the trail holds no foreign record of it. */
    lemma OwnerOwns(t: nat, call: Call, c: nat)
      requires Valid() && t < |threads| && threads[t].HoldsProgress() && threads[t].call == call
      requires threads[t].claim == c
      ensures Own(View(), t, call, c) && !claims[c].progress.chatUpdated
      ensures claims[c].progress.gatewayApplied <==> !threads[t].Preparing? && !threads[t].Applying?
      ensures claims[c].progress.gatewayApplied && Known(View(), call.id) ==>
                KnownAs(View(), claims[c].progress.record)
    {
      T.ReachesInv(count, trace, View());
      assert I.WorkOk(t, View().threads[t], View().claims);
      T.LogMatchesClaim(View(), c);
    }

    /** The audit call, and what its answer does to the claim and to the thread. */
    method AuditClaim(t: nat, call: Call, c: nat, reply: Reply) returns (ok: bool)
      requires t < |threads| && c < |claims|
      modifies this`outside, this`claims, this`threads
      ensures View() == StepAuditing(old(View()), t, call, c, reply) && c < |claims| && t < |threads|
      ensures threads[t] == if ok then ReadingToken(call, c) else Idle
      ensures claims[c].progress == old(claims)[c].progress.(audited := old(claims)[c].progress.audited || ok)
      ensures var v, record := old(View()), old(claims)[c].progress.record;
              ok == (reply == Ok && (Known(v, record.id) ==> KnownAs(v, record)))
    {
      ok := CallRecord(c, reply);
      if !ok {
        DropGuard(t, c);
        return;
      }
      claims := claims[c := claims[c].(progress := claims[c].progress.(audited := true))];
      threads := threads[t := ReadingToken(call, c)];
    }

    /** Sets `chat_updated` and drops the guard; the id is then retired. */
    method FinishProgress(t: nat, call: Call, c: nat)
      requires t < |threads| && c < |claims|
      modifies this`claims, this`threads
      ensures View() == Finish(old(View()), t, call, c)
    {
      claims := claims[c := Claim(claims[c].progress.(chatUpdated := true), None)];
      threads := threads[t := Marking(call.id, c)];
    }

    /** Under the token lock: no prompt finishes the claim, one still being posted is an error. */
    method ReadToken(t: nat, call: Call, c: nat) returns (ok: bool, token: Option<Token>)
      requires Valid() && Inside(t, ReadingToken(call, c), c)
      modifies this
      ensures Valid() && trace == old(trace) + [Advance(t, Ok)]
      ensures Inside(t, if !ok then Idle else if token.Some? then Responding(call, c, token.value)
                        else Marking(call.id, c), c)
      ensures ok <==> call.id !in old(tokens) || old(tokens)[call.id].Notified?
      ensures token.Some? <==> call.id in old(tokens) && old(tokens)[call.id].Notified?
      ensures token.Some? ==> old(tokens)[call.id] == Notified(token.value)
      ensures View() == if !ok then Bail(old(View()), t, c)
                        else if token.Some? then Goto(old(View()), t, Responding(call, c, token.value))
                        else Finish(old(View()), t, call, c)
    {
      ghost var v := View();
      if call.id !in tokens {
        FinishProgress(t, call, c);
        Traced(v, Advance(t, Ok));
        return true, None;
      }
      match tokens[call.id]
      case Notifying =>
        DropGuard(t, c);
        Traced(v, Advance(t, Ok));
        return false, None;
      case Notified(k) =>
        threads := threads[t := Responding(call, c, k)];
        Traced(v, Advance(t, Ok));
        return true, Some(k);
    }

    method Respond(t: nat, call: Call, c: nat, token: Token, reply: Reply) returns (ok: bool)
      requires Valid() && Inside(t, Responding(call, c, token), c)
      modifies this
      ensures Valid() && trace == old(trace) + [Advance(t, reply)]
      ensures Inside(t, if ok then DroppingToken(call, c) else Idle, c) && ok == (reply == Ok)
      ensures var v, response := old(View()), Response(call.id, token, call.decision, call.who, c);
              var shown := v.(responses := v.responses + (if reply != Err then [response] else []));
              View() == if ok then Goto(shown, t, DroppingToken(call, c)) else Bail(shown, t, c)
    {
      ghost var v := View();
      if reply != Err {
        outside := outside.(responses := outside.responses + [Response(call.id, token, call.decision, call.who, c)]);
      }
      if reply != Ok {
        DropGuard(t, c);
        Traced(v, Advance(t, reply));
        return false;
      }
      threads := threads[t := DroppingToken(call, c)];
      Traced(v, Advance(t, reply));
      return true;
    }

    method DropToken(t: nat, call: Call, c: nat)
      requires Valid() && Inside(t, DroppingToken(call, c), c)
      modifies this
      ensures Valid() && trace == old(trace) + [Advance(t, Ok)]
      ensures Inside(t, Marking(call.id, c), c)
      ensures View() == StepDroppingToken(old(View()), t, call, c)
    {
      ghost var v := View();
      tokens := tokens - {call.id};
      outside := outside.(closed := outside.closed + multiset{call.id});
      FinishProgress(t, call, c);
      Traced(v, Advance(t, Ok));
    }

    method MarkRetired(t: nat, id: Id, c: nat)
      requires Valid() && Inside(t, Marking(id, c), c)
      modifies this, registry
      ensures Valid() && trace == old(trace) + [Advance(t, Ok)]
      ensures var v := old(View());
              View() == Goto(v.(registry := v.registry.(terminalOrder := v.registry.terminalOrder + [id])), t, Idle)
    {
      ghost var v := View();
      T.ReachesInv(count, trace, v);
      assert I.MarkOk(v.threads[t], v.registry, v.claims);
      RetireNeverEvicts(v.registry, id);
      registry.MarkTerminal(id);
      threads := threads[t := Idle];
      Traced(v, Advance(t, Ok));
    }

    /** The gateway and audit phases, each skipped when an earlier call already completed it. */
    method Decide(t: nat, call: Call, c: nat, replies: Replies) returns (ok: bool)
      requires c < |claims| && Valid() && Inside(t, FirstUnfinished(claims[c].progress, call, c), c)
      modifies this
      ensures Valid() && Inside(t, if ok then ReadingToken(call, c) else Idle, c)
      ensures ok == Audits(old(View()), old(claims)[c].progress, replies)
      ensures var decided := Decides(old(View()), c, replies);
              View() == if ok then Goto(decided, t, ReadingToken(call, c)) else Bail(decided, t, c)
    {
      ghost var v := View();
      if !claims[c].progress.gatewayApplied {
        ok := AskGateway(t, call, c, replies);
        if !ok {
          return;
        }
        assert v.threads[t := Auditing(call, c)][t := ReadingToken(call, c)] == v.threads[t := ReadingToken(call, c)];
        assert v.threads[t := Auditing(call, c)][t := Idle] == v.threads[t := Idle];
      }
      ok := AuditIfNeeded(t, call, c, replies);
    }

    /** Prepares the trail and hands the decision to the gateway. */
    method AskGateway(t: nat, call: Call, c: nat, replies: Replies) returns (ok: bool)
      requires Valid() && Inside(t, Preparing(call, c), c)
      modifies this
      ensures Valid() && Inside(t, if ok then Auditing(call, c) else Idle, c)
      ensures ok == Applies(old(View()), old(claims)[c].progress, replies)
      ensures !ok ==> !Audits(old(View()), old(claims)[c].progress, replies)
      ensures !ok ==> View() == Bail(Decides(old(View()), c, replies), t, c)
      ensures ok ==> claims[c].progress == old(claims)[c].progress.(gatewayApplied := true)
      ensures ok ==> threads == old(threads)[t := Auditing(call, c)] && !claims[c].progress.audited
      ensures ok ==> Decides(View(), c, replies) == Decides(old(View()), c, replies).(threads := threads)
    {
      ghost var v := View();
      OwnerOwns(t, call, c);
      ok := PrepareAudit(t, call, c, replies.prepare);
      if !ok {
        UndecidedIsSame(v, c, replies);
        return;
      }
      GatewayPhaseDecides(v, t, call, c, replies);
      ok := ApplyDecision(t, call, c, replies.gateway);
    }

    method AuditIfNeeded(t: nat, call: Call, c: nat, replies: Replies) returns (ok: bool)
      requires Valid() && c < |claims| && claims[c].progress.gatewayApplied
      requires Inside(t, if claims[c].progress.audited then ReadingToken(call, c) else Auditing(call, c), c)
      modifies this
      ensures Valid() && Inside(t, if ok then ReadingToken(call, c) else Idle, c)
      ensures ok == (old(claims)[c].progress.audited || replies.audit == Ok)
      ensures var decided := Decides(old(View()), c, replies);
              View() == if ok then Goto(decided, t, ReadingToken(call, c)) else Bail(decided, t, c)
    {
      ghost var v := View();
      OwnerOwns(t, call, c);
      if claims[c].progress.audited {
        AuditedIsSame(v, c, replies);
        assert v.threads[t := ReadingToken(call, c)] == v.threads;
        return true;
      }
      AuditPhaseDecides(v, t, call, c, replies);
      ok := RecordDecision(t, call, c, replies.audit);
    }

    /** The chat phase: the prompt's token, if any, is answered and dropped, then the claim finishes. */
    method UpdateChat(t: nat, call: Call, c: nat, reply: Reply) returns (ok: bool)
      requires Valid() && Inside(t, ReadingToken(call, c), c)
      modifies this
      ensures Valid() && Inside(t, if ok then Marking(call.id, c) else Idle, c)
      ensures ok <==> call.id !in old(tokens) || (old(tokens)[call.id].Notified? && reply == Ok)
      ensures View() == Goto(Chats(old(View()), c, reply), t, if ok then Marking(call.id, c) else Idle)
    {
      ghost var v := View();
      OwnerOwns(t, call, c);
      var token;
      ok, token := ReadToken(t, call, c);
      if !ok || token.None? {
        ReadingDecides(v, t, call, c, reply);
        return;
      }
      ok := Respond(t, call, c, token.value, reply);
      RespondingDecides(v, t, call, c, reply, View().(claims := v.claims));
      if ok {
        DropToken(t, call, c);
      }
    }

    /**
      `resolve`, when no other call holds the progress lock of its claim.  It leaves the object on a
      run of the protocol with this thread idle again, succeeds exactly when it should, and then has
      completed a claim of its own request, decision and reviewer.
     */
    method Resolve(t: nat, call: Call, replies: Replies) returns (ok: bool)
      requires Valid() && At(t, Idle)
      requires call.id in registry.entries && registry.entries[call.id] < |claims| ==>
                 claims[registry.entries[call.id]].holder.None?
      modifies this, registry
      ensures Valid() && At(t, Idle)
      ensures ok == Succeeds(old(View()), call, replies)
      ensures View() == Resolves(old(View()), call, replies)
      ensures ok ==> exists c :: 0 <= c < |claims| && OwnedAndDone(claims[c].progress, call)
    {
      ghost var v := View();
      var claim := StartCall(t, call);
      if claim.None? {
        return false;
      }
      ResolvesIsConcluding(v, call, claim.value, replies);
      BackToIdle(v.threads, t, Locking(call, claim.value));
      ok := WorkOn(t, call, claim.value, replies, Taken(v, call));
    }

    /** The call begins and takes its claim, or finds no room. */
    method StartCall(t: nat, call: Call) returns (c: Option<nat>)
      requires Valid() && At(t, Idle)
      requires call.id in registry.entries && registry.entries[call.id] < |claims| ==>
                 claims[registry.entries[call.id]].holder.None?
      modifies this, registry
      ensures Valid() && (c.Some? <==> Admitted(old(View()), call))
      ensures c.None? ==> View() == old(View())
      ensures c.Some? ==>
                && View() == Taken(old(View()), call).(threads := old(threads)[t := Locking(call, c.value)])
                && c.value < |claims| && claims[c.value].holder.None?
                && call.id in Taken(old(View()), call).registry.entries
                && c.value == Taken(old(View()), call).registry.entries[call.id]
    {
      ghost var v := View();
      Begin(t, call);
      c := TakeClaim(t, call);
      TakenFrame(v, call, v.threads[t := Claiming(call)]);
      BackToIdle(v.threads, t, Claiming(call));
      if c.Some? {
        assert v.threads[t := Claiming(call)][t := Locking(call, c.value)] == v.threads[t := Locking(call, c.value)];
        ClaimExists(t, call, c.value);
      }
    }

    /** The rest of a call, from its claim on; `taken` is the state without the call's own thread. */
    method WorkOn(t: nat, call: Call, c: nat, replies: Replies, ghost taken: State) returns (ok: bool)
      requires Valid() && At(t, Locking(call, c)) && c < |claims| && claims[c].holder.None?
      requires View() == taken.(threads := threads)
      modifies this, registry
      ensures Valid()
      ensures ok <==> Owns(taken.claims[c].progress, call) && Audits(taken, taken.claims[c].progress, replies) &&
                      Answers(taken, call.id, replies.chat)
      ensures View() == Concludes(taken, c, call, replies).(threads := old(threads)[t := Idle])
      ensures ok ==> c < |claims| && OwnedAndDone(claims[c].progress, call)
    {
      ClaimExists(t, call, c);
      ConcludedIsDone(taken, c, call, replies);
      var owner := LockProgress(t, call, c);
      if !owner {
        return false;
      }
      ok := OwnerWorks(t, call, c, replies, taken);
    }

    /** The phases of an owner. */
    method OwnerWorks(t: nat, call: Call, c: nat, replies: Replies, ghost taken: State) returns (ok: bool)
      requires c < |taken.claims| && taken.claims[c].holder.None? && Owns(taken.claims[c].progress, call)
      requires taken.claims[c].progress.record.id == call.id
      requires Valid() && View() == Locked(taken, t, c, threads)
      requires Inside(t, FirstUnfinished(taken.claims[c].progress, call, c), c)
      modifies this, registry
      ensures Valid()
      ensures ok <==> Audits(taken, taken.claims[c].progress, replies) && Answers(taken, call.id, replies.chat)
      ensures View() == Concludes(taken, c, call, replies).(threads := old(threads)[t := Idle])
    {
      ghost var at := threads;
      AuditsUnderLock(taken, t, c, replies, at);
      DecidesUnderLock(taken, t, c, replies, at);
      ok := Decide(t, call, c, replies);
      if !ok {
        return;
      }
      ChatsUnderLock(taken, t, c, replies, at, ReadingToken(call, c));
      ok := UpdateChat(t, call, c, replies.chat);
      if ok {
        MarkRetired(t, call.id, c);
        assert at[t := ReadingToken(call, c)][t := Marking(call.id, c)][t := Idle] == at[t := Idle];
      } else {
        assert at[t := ReadingToken(call, c)][t := Idle] == at[t := Idle];
      }
    }

    /** A thread on its way to a lock holds a reference to a claim of its own id. */
    lemma ClaimExists(t: nat, call: Call, c: nat)
      requires Valid() && At(t, Locking(call, c))
      ensures c < |claims| && claims[c].progress.record.id == call.id
    {
      T.ReachesInv(count, trace, View());
      assert I.WorkOk(t, View().threads[t], View().claims);
    }

    lemma MarkedClaimIsOwn(t: nat, id: Id, c: nat)
      requires Valid() && At(t, Marking(id, c))
      ensures c < |claims| && claims[c].progress.record.id == id
    {
      T.ReachesInv(count, trace, View());
      assert I.MarkOk(View().threads[t], View().registry, View().claims);
    }

    /** `poll_once`: one pending read, then a prompt unless the id is already in the token map. */
    method PollOnce(t: nat, reply: Reply) returns (notified: Option<Id>)
      requires Valid() && At(t, Idle)
      modifies this
      ensures Valid() && At(t, Idle)
      ensures notified == if old(outside.pending).Some? && old(outside.pending).value.id !in old(tokens) && reply == Ok
                          then Some(old(outside.pending).value.id) else None
      ensures View() == if notified.Some? then Prompted(old(View()), notified.value) else old(View())
    {
      if outside.pending.None? {
        return None;
      }
      var id := outside.pending.value.id;
      ghost var v := View();
      BeginPoll(t, id);
      BackToIdle(v.threads, t, PollCheck(id));
      var posting := ClaimPrompt(t, id);
      if !posting {
        return None;
      }
      BackToIdle(v.threads, t, PollNotify(id));
      assert v.tokens[id := Notifying] - {id} == v.tokens;
      assert v.tokens[id := Notifying][id := Notified(|v.issued|)] == v.tokens[id := Notified(|v.issued|)];
      assert v.threads[t := PollCheck(id)][t := PollNotify(id)] == v.threads[t := PollNotify(id)];
      var posted := PostPrompt(t, id, reply);
      return if posted then Some(id) else None;
    }

    /** The notify call, then the token stored or the mark taken back. */
    method PostPrompt(t: nat, id: Id, reply: Reply) returns (posted: bool)
      requires Valid() && At(t, PollNotify(id))
      modifies this
      ensures Valid() && At(t, Idle) && posted == (reply == Ok)
      ensures View() == Goto(if posted then Prompted(old(View()), id)
                             else old(View()).(tokens := old(tokens) - {id}), t, Idle)
    {
      ghost var v := View();
      var token := Notify(t, id, reply);
      posted := token.Some?;
      if posted {
        StoreToken(t, id, token.value);
        assert v.threads[t := PollStore(id, token.value)][t := Idle] == v.threads[t := Idle];
      } else {
        UndoPrompt(t, id);
        assert v.threads[t := PollUndo(id)][t := Idle] == v.threads[t := Idle];
      }
    }

    method BeginPoll(t: nat, id: Id)
      requires Valid() && At(t, Idle) && outside.pending.Some? && outside.pending.value.id == id
      modifies this
      ensures Valid() && At(t, PollCheck(id)) && View() == Goto(old(View()), t, PollCheck(id))
    {
      ghost var v := View();
      threads := threads[t := PollCheck(id)];
      Traced(v, StartPoll(t));
    }

    method ClaimPrompt(t: nat, id: Id) returns (posting: bool)
      requires Valid() && At(t, PollCheck(id))
      modifies this
      ensures Valid() && At(t, if posting then PollNotify(id) else Idle)
      ensures posting == (id !in old(tokens))
      ensures View() == if posting then Goto(old(View()).(tokens := old(tokens)[id := Notifying]), t, PollNotify(id))
                        else Goto(old(View()), t, Idle)
    {
      ghost var v := View();
      if id in tokens {
        threads := threads[t := Idle];
        Traced(v, Advance(t, Ok));
        return false;
      }
      tokens := tokens[id := Notifying];
      threads := threads[t := PollNotify(id)];
      Traced(v, Advance(t, Ok));
      return true;
    }

    method Notify(t: nat, id: Id, reply: Reply) returns (token: Option<Token>)
      requires Valid() && At(t, PollNotify(id))
      modifies this
      ensures Valid() && At(t, if token.Some? then PollStore(id, token.value) else PollUndo(id))
      ensures token == (if reply == Ok then Some(|old(outside.issued)|) else None)
      ensures var v := old(View());
              View() == if token.None? then Goto(v, t, PollUndo(id))
                        else Goto(v.(issued := v.issued + [id], posted := v.posted + multiset{id}), t,
                                  PollStore(id, token.value))
    {
      ghost var v := View();
      if reply != Ok {
        threads := threads[t := PollUndo(id)];
        Traced(v, Advance(t, reply));
        return None;
      }
      token := Some(|outside.issued|);
      outside := outside.(issued := outside.issued + [id], posted := outside.posted + multiset{id});
      threads := threads[t := PollStore(id, token.value)];
      Traced(v, Advance(t, reply));
    }

    method UndoPrompt(t: nat, id: Id)
      requires Valid() && At(t, PollUndo(id))
      modifies this
      ensures Valid() && At(t, Idle)
      ensures View() == Goto(old(View()).(tokens := old(tokens) - {id}), t, Idle)
    {
      ghost var v := View();
      tokens := tokens - {id};
      threads := threads[t := Idle];
      Traced(v, Advance(t, Ok));
    }

    method StoreToken(t: nat, id: Id, token: Token)
      requires Valid() && At(t, PollStore(id, token))
      modifies this
      ensures Valid() && At(t, Idle)
      ensures View() == Goto(old(View()).(tokens := old(tokens)[id := Notified(token)]), t, Idle)
    {
      ghost var v := View();
      tokens := tokens[id := Notified(token)];
      threads := threads[t := Idle];
      Traced(v, Advance(t, Ok));
    }
  }
}
