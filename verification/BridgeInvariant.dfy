/** The inductive invariant of the bridge over all interleavings, one lemma for each kind of step. */
module BridgeInvariant {
  import opened Options
  import opened Resolutions
  import opened BridgeProtocol

  ghost predicate AppliedOk(a: Applied, claims: seq<Claim>) {
    && a.claim < |claims|
    && var p := claims[a.claim].progress;
    p.gatewayApplied && p.record.id == a.id && p.decision == a.decision
  }

  ghost predicate AppliedInv(applied: seq<Applied>, claims: seq<Claim>) {
    && (forall i :: 0 <= i < |applied| ==> AppliedOk(applied[i], claims))
    && (forall i, j :: 0 <= i < j < |applied| ==> applied[i].id != applied[j].id)
  }

  /** An id that was resolved is never open again. */
  ghost predicate OpenInv(open: set<Id>, nextId: Id, applied: seq<Applied>) {
    && (forall id <- open :: id < nextId)
    && (forall i :: 0 <= i < |applied| ==> applied[i].id < nextId)
    && (forall i :: 0 <= i < |applied| ==> applied[i].id !in open)
  }

  ghost predicate LoggedOk(l: Logged, claims: seq<Claim>) {
    && l.claim < |claims|
    && claims[l.claim].progress.gatewayApplied
    && claims[l.claim].progress.record == l.record
  }

  ghost predicate TrailInv(trail: seq<Logged>, claims: seq<Claim>) {
    && (forall i :: 0 <= i < |trail| ==> LoggedOk(trail[i], claims))
    && (forall i, j :: 0 <= i < j < |trail| ==> trail[i].record.id != trail[j].record.id)
  }

  /** Each progress flag means that the effect happened, and the flags are set in order. */
  ghost predicate ProgressOk(c: nat, p: Progress, applied: seq<Applied>, trail: seq<Logged>) {
    && p.record.decision == p.decision
    && (p.chatUpdated ==> p.audited)
    && (p.audited ==> p.gatewayApplied)
    && (p.gatewayApplied ==> Applied(p.record.id, p.decision, c) in applied)
    && (p.audited ==> Logged(p.record, c) in trail)
  }

  ghost predicate ClaimsInv(claims: seq<Claim>, applied: seq<Applied>, trail: seq<Logged>) {
    forall c :: 0 <= c < |claims| ==> ProgressOk(c, claims[c].progress, applied, trail)
  }

  /** An unfinished claim owns its id's registry entry: it is never evicted. */
  ghost predicate OwnersInv(claims: seq<Claim>, entries: map<Id, nat>) {
    forall c :: 0 <= c < |claims| && !claims[c].progress.chatUpdated ==>
      var id := claims[c].progress.record.id;
      id in entries && entries[id] == c
  }

  ghost predicate EntriesInv(entries: map<Id, nat>, claims: seq<Claim>) {
    forall id <- entries :: entries[id] < |claims| && claims[entries[id]].progress.record.id == id
  }

  ghost predicate FinishedInv(registry: Registry, claims: seq<Claim>) {
    && Sound(registry)
    && (forall id <- registry.terminalOrder ::
          && id in registry.entries && registry.entries[id] < |claims|
          && claims[registry.entries[id]].progress.chatUpdated)
  }

  /** What a thread inside the progress lock knows about its claim, phase by phase. */
  ghost predicate OwnerOk(t: nat, pc: Thread, claims: seq<Claim>)
    requires pc.HoldsProgress()
  {
    && pc.claim < |claims|
    && claims[pc.claim].holder == Some(t)
    && var p := claims[pc.claim].progress;
    && p.record.id == pc.call.id
    && p.IsSameDecision(pc.call.decision, pc.call.who)
    && !p.chatUpdated
    && (pc.Preparing? || pc.Applying? <==> !p.gatewayApplied)
    && (pc.Auditing? <==> p.gatewayApplied && !p.audited)
  }

  ghost predicate WorkOk(t: nat, pc: Thread, claims: seq<Claim>) {
    && (pc.Locking? ==> pc.claim < |claims| && claims[pc.claim].progress.record.id == pc.call.id)
    && (pc.HoldsProgress() ==> OwnerOk(t, pc, claims))
  }

  ghost predicate WorkInv(threads: seq<Thread>, claims: seq<Claim>) {
    forall t :: 0 <= t < |threads| ==> WorkOk(t, threads[t], claims)
  }

  ghost predicate HoldersInv(threads: seq<Thread>, claims: seq<Claim>) {
    forall c :: 0 <= c < |claims| && claims[c].holder.Some? ==>
      var t := claims[c].holder.value;
      t < |threads| && threads[t].HoldsProgress() && threads[t].claim == c
  }

  ghost predicate MarkOk(pc: Thread, registry: Registry, claims: seq<Claim>) {
    pc.Marking? ==>
      && pc.id in registry.entries && registry.entries[pc.id] == pc.claim
      && pc.claim < |claims| && claims[pc.claim].progress.chatUpdated
      && pc.id !in registry.terminalOrder
  }

  ghost predicate MarkInv(threads: seq<Thread>, registry: Registry, claims: seq<Claim>) {
    && (forall t :: 0 <= t < |threads| ==> MarkOk(threads[t], registry, claims))
    && (forall t, u :: 0 <= t < u < |threads| && threads[t].Marking? && threads[u].Marking? ==>
          threads[t].id != threads[u].id)
  }

  ghost predicate PostOk(pc: Thread, tokens: map<Id, NotificationState>, issued: seq<Id>) {
    && (pc.Posting() ==> pc.id in tokens && tokens[pc.id] == Notifying)
    && (pc.PollStore? ==> pc.token < |issued| && issued[pc.token] == pc.id)
    && (pc.Responding? ==> pc.call.id in tokens && tokens[pc.call.id] == Notified(pc.token))
    && (pc.DroppingToken? ==> pc.call.id in tokens && tokens[pc.call.id].Notified?)
  }

  ghost predicate PostInv(threads: seq<Thread>, tokens: map<Id, NotificationState>, issued: seq<Id>) {
    && (forall t :: 0 <= t < |threads| ==> PostOk(threads[t], tokens, issued))
    && (forall t, u :: 0 <= t < u < |threads| && threads[t].Posting() && threads[u].Posting() ==>
          threads[t].id != threads[u].id)
  }

  ghost predicate TokensInv(tokens: map<Id, NotificationState>, issued: seq<Id>) {
    forall id <- tokens :: tokens[id].Notified? ==> tokens[id].token < |issued| && issued[tokens[id].token] == id
  }

  ghost predicate Stored(threads: seq<Thread>, id: Id) {
    exists t :: 0 <= t < |threads| && threads[t].PollStore? && threads[t].id == id
  }

  /** A prompt is outstanding from the successful notify until its token is removed. */
  ghost predicate Outstanding(tokens: map<Id, NotificationState>, threads: seq<Thread>, id: Id) {
    || (id in tokens && tokens[id].Notified?)
    || Stored(threads, id)
  }

  ghost predicate PromptInv(s: State) {
    forall id: Id :: s.posted[id] == s.closed[id] + (if Outstanding(s.tokens, s.threads, id) then 1 else 0)
  }

  /** Chat only ever shows an audited decision, on the prompt issued for its request. */
  ghost predicate ResponseOk(r: Response, issued: seq<Id>, claims: seq<Claim>) {
    && r.token < |issued| && issued[r.token] == r.id
    && r.claim < |claims|
    && var p := claims[r.claim].progress;
    p.audited && p.record.id == r.id && p.decision == r.decision && p.record.decidedBy == r.who
  }

  ghost predicate ResponsesInv(responses: seq<Response>, issued: seq<Id>, claims: seq<Claim>) {
    forall i :: 0 <= i < |responses| ==> ResponseOk(responses[i], issued, claims)
  }

  /** What the claims, the gateway, the trail and the registry keep. */
  ghost predicate WorldInv(s: State) {
    && OpenInv(s.open, s.nextId, s.applied)
    && AppliedInv(s.applied, s.claims)
    && TrailInv(s.trail, s.claims)
    && ClaimsInv(s.claims, s.applied, s.trail)
    && OwnersInv(s.claims, s.registry.entries)
    && EntriesInv(s.registry.entries, s.claims)
    && FinishedInv(s.registry, s.claims)
    && TokensInv(s.tokens, s.issued)
    && ResponsesInv(s.responses, s.issued, s.claims)
  }

  ghost predicate Inv(s: State) {
    && WorldInv(s)
    && WorkInv(s.threads, s.claims)
    && HoldersInv(s.threads, s.claims)
    && MarkInv(s.threads, s.registry, s.claims)
    && PostInv(s.threads, s.tokens, s.issued)
    && PromptInv(s)
  }

  lemma InitialInv(threads: nat)
    ensures Inv(Initial(threads))
  {
  }

  /** A thread that neither stops nor starts storing a token leaves the outstanding prompts alone. */
  lemma StoredFrame(threads: seq<Thread>, t: nat, pc: Thread)
    requires t < |threads| && !threads[t].PollStore? && !pc.PollStore?
    ensures forall id: Id :: Stored(threads[t := pc], id) == Stored(threads, id)
  {
    var threads' := threads[t := pc];
    forall id: Id
      ensures Stored(threads', id) == Stored(threads, id)
    {
      if u :| 0 <= u < |threads| && threads[u].PollStore? && threads[u].id == id {
        assert threads'[u].PollStore?;
      }
    }
  }

  lemma StoredAdded(threads: seq<Thread>, t: nat, id: Id, token: Token)
    requires t < |threads| && !threads[t].PollStore?
    ensures forall x: Id :: Stored(threads[t := PollStore(id, token)], x) == (Stored(threads, x) || x == id)
  {
    var threads' := threads[t := PollStore(id, token)];
    assert threads'[t].PollStore?;
    forall x: Id
      ensures Stored(threads', x) == (Stored(threads, x) || x == id)
    {
      if u :| 0 <= u < |threads| && threads[u].PollStore? && threads[u].id == x {
        assert threads'[u].PollStore?;
      }
    }
  }

  lemma StoredDropped(threads: seq<Thread>, t: nat)
    requires t < |threads| && threads[t].PollStore?
    requires forall u :: 0 <= u < |threads| && u != t && threads[u].PollStore? ==> threads[u].id != threads[t].id
    ensures forall x: Id :: Stored(threads[t := Idle], x) == (Stored(threads, x) && x != threads[t].id)
  {
    var threads' := threads[t := Idle];
    forall x: Id
      ensures Stored(threads', x) == (Stored(threads, x) && x != threads[t].id)
    {
      if u :| 0 <= u < |threads| && threads[u].PollStore? && threads[u].id == x {
        if u != t {
          assert threads'[u].PollStore?;
        }
      }
    }
  }

  lemma PromptFrame(s: State, s': State)
    requires PromptInv(s) && s'.posted == s.posted && s'.closed == s.closed
    requires forall id: Id :: Outstanding(s'.tokens, s'.threads, id) == Outstanding(s.tokens, s.threads, id)
    ensures PromptInv(s')
  {
  }

  // What moving one thread asks of each part of the invariant.

  lemma WorkMove(threads: seq<Thread>, t: nat, pc: Thread, claims: seq<Claim>)
    requires WorkInv(threads, claims) && t < |threads| && WorkOk(t, pc, claims)
    ensures WorkInv(threads[t := pc], claims)
  {
  }

  lemma HoldersMove(threads: seq<Thread>, t: nat, pc: Thread, claims: seq<Claim>)
    requires HoldersInv(threads, claims) && t < |threads|
    requires threads[t].HoldsProgress() ==> pc.HoldsProgress() && pc.claim == threads[t].claim
    ensures HoldersInv(threads[t := pc], claims)
  {
  }

  lemma MarkMove(threads: seq<Thread>, t: nat, pc: Thread, registry: Registry, claims: seq<Claim>)
    requires MarkInv(threads, registry, claims) && t < |threads| && !pc.Marking?
    ensures MarkInv(threads[t := pc], registry, claims)
  {
  }

  lemma PostMove(threads: seq<Thread>, t: nat, pc: Thread, tokens: map<Id, NotificationState>, issued: seq<Id>)
    requires PostInv(threads, tokens, issued) && t < |threads|
    requires PostOk(pc, tokens, issued)
    requires pc.Posting() ==> threads[t].Posting() && threads[t].id == pc.id
    ensures PostInv(threads[t := pc], tokens, issued)
  {
  }

  lemma PostBegin(threads: seq<Thread>, t: nat, id: Id, tokens: map<Id, NotificationState>, issued: seq<Id>)
    requires PostInv(threads, tokens, issued) && t < |threads| && id !in tokens
    ensures PostInv(threads[t := PollNotify(id)], tokens[id := Notifying], issued)
  {
  }

  lemma PostIssue(threads: seq<Thread>, t: nat, id: Id, tokens: map<Id, NotificationState>, issued: seq<Id>)
    requires PostInv(threads, tokens, issued) && t < |threads| && threads[t] == PollNotify(id)
    ensures PostInv(threads[t := PollStore(id, |issued|)], tokens, issued + [id])
  {
  }

  lemma PostEnd(threads: seq<Thread>, t: nat, tokens: map<Id, NotificationState>, tokens': map<Id, NotificationState>,
                issued: seq<Id>)
    requires PostInv(threads, tokens, issued) && t < |threads| && threads[t].Posting()
    requires forall x: Id :: x != threads[t].id ==> (x in tokens' <==> x in tokens)
    requires forall x: Id :: x != threads[t].id && x in tokens ==> tokens'[x] == tokens[x]
    ensures PostInv(threads[t := Idle], tokens', issued)
  {
  }

  /** Everything but the tokens and the prompts, for a thread outside the progress lock. */
  lemma QuietMove(s: State, s': State, t: nat, pc: Thread)
    requires Inv(s) && t < |s.threads|
    requires !s.threads[t].HoldsProgress() && !pc.HoldsProgress() && !pc.Marking? && WorkOk(t, pc, s.claims)
    requires s' == Goto(s, t, pc).(tokens := s'.tokens, issued := s'.issued, posted := s'.posted)
    requires TokensInv(s'.tokens, s'.issued) && s.issued <= s'.issued
    requires PostInv(s'.threads, s'.tokens, s'.issued)
    requires PromptInv(s')
    ensures Inv(s')
  {
    WorkMove(s.threads, t, pc, s.claims);
    HoldersMove(s.threads, t, pc, s.claims);
    MarkMove(s.threads, t, pc, s.registry, s.claims);
  }

  lemma PollCheckInv(s: State, t: nat, id: Id)
    requires Inv(s) && t < |s.threads| && s.threads[t] == PollCheck(id)
    ensures Inv(StepPollCheck(s, t, id))
  {
    var s' := StepPollCheck(s, t, id);
    if id in s.tokens {
      PostMove(s.threads, t, Idle, s.tokens, s.issued);
    } else {
      PostBegin(s.threads, t, id, s.tokens, s.issued);
    }
    StoredFrame(s.threads, t, s'.threads[t]);
    PromptFrame(s, s');
    QuietMove(s, s', t, s'.threads[t]);
  }

  lemma PollNotifyInv(s: State, t: nat, id: Id, reply: Reply)
    requires Inv(s) && t < |s.threads| && s.threads[t] == PollNotify(id)
    ensures Inv(StepPollNotify(s, t, id, reply))
  {
    var s' := StepPollNotify(s, t, id, reply);
    if reply == Ok {
      PostIssue(s.threads, t, id, s.tokens, s.issued);
      StoredAdded(s.threads, t, id, |s.issued|);
      assert !Stored(s.threads, id);
    } else {
      PostMove(s.threads, t, PollUndo(id), s.tokens, s.issued);
      StoredFrame(s.threads, t, PollUndo(id));
      PromptFrame(s, s');
    }
    QuietMove(s, s', t, s'.threads[t]);
  }

  lemma PollUndoInv(s: State, t: nat, id: Id)
    requires Inv(s) && t < |s.threads| && s.threads[t] == PollUndo(id)
    ensures Inv(Goto(s.(tokens := s.tokens - {id}), t, Idle))
  {
    var s' := Goto(s.(tokens := s.tokens - {id}), t, Idle);
    PostEnd(s.threads, t, s.tokens, s'.tokens, s.issued);
    StoredFrame(s.threads, t, Idle);
    PromptFrame(s, s');
    QuietMove(s, s', t, Idle);
  }

  lemma PollStoreInv(s: State, t: nat, id: Id, token: Token)
    requires Inv(s) && t < |s.threads| && s.threads[t] == PollStore(id, token)
    ensures Inv(Goto(s.(tokens := s.tokens[id := Notified(token)]), t, Idle))
  {
    var s' := Goto(s.(tokens := s.tokens[id := Notified(token)]), t, Idle);
    PostEnd(s.threads, t, s.tokens, s'.tokens, s.issued);
    StoredDropped(s.threads, t);
    assert Stored(s.threads, id);
    PromptFrame(s, s');
    QuietMove(s, s', t, Idle);
  }

  // Claims only gain effects: what was recorded about them stays true.

  ghost predicate Later(p: Progress, q: Progress) {
    && q.decision == p.decision && q.record == p.record
    && (p.gatewayApplied ==> q.gatewayApplied)
    && (p.audited ==> q.audited)
    && (p.chatUpdated ==> q.chatUpdated)
  }

  ghost predicate Grows(claims: seq<Claim>, claims': seq<Claim>) {
    && |claims| <= |claims'|
    && (forall c :: 0 <= c < |claims| ==> Later(claims[c].progress, claims'[c].progress))
  }

  lemma GrowsKeepsHistory(s: State, claims': seq<Claim>)
    requires Grows(s.claims, claims')
    requires AppliedInv(s.applied, s.claims) && TrailInv(s.trail, s.claims)
    requires ResponsesInv(s.responses, s.issued, s.claims)
    ensures AppliedInv(s.applied, claims') && TrailInv(s.trail, claims')
    ensures ResponsesInv(s.responses, s.issued, claims')
  {
  }

  lemma GrowsKeepsRegistry(s: State, claims': seq<Claim>)
    requires Grows(s.claims, claims')
    requires EntriesInv(s.registry.entries, s.claims) && FinishedInv(s.registry, s.claims)
    ensures EntriesInv(s.registry.entries, claims') && FinishedInv(s.registry, claims')
  {
  }

  lemma GrowsKeepsMarks(threads: seq<Thread>, registry: Registry, claims: seq<Claim>, claims': seq<Claim>)
    requires Grows(claims, claims') && MarkInv(threads, registry, claims)
    ensures MarkInv(threads, registry, claims')
  {
  }

  /** The owner of claim `c` rewrites it and moves on, inside the lock or out of it. */
  lemma OwnerMoves(threads: seq<Thread>, t: nat, pc: Thread, claims: seq<Claim>, c: nat, claim: Claim)
    requires WorkInv(threads, claims) && HoldersInv(threads, claims)
    requires t < |threads| && c < |claims|
    requires claims[c].holder == Some(t) && threads[t].HoldsProgress() && threads[t].claim == c
    requires Later(claims[c].progress, claim.progress)
    requires WorkOk(t, pc, claims[c := claim])
    requires if pc.HoldsProgress() then pc.claim == c && claim.holder == Some(t) else claim.holder == None
    ensures WorkInv(threads[t := pc], claims[c := claim])
    ensures HoldersInv(threads[t := pc], claims[c := claim])
  {
    var claims' := claims[c := claim];
    forall u | 0 <= u < |threads| && u != t
      ensures WorkOk(u, threads[u], claims')
    {
      if threads[u].HoldsProgress() {
        assert OwnerOk(u, threads[u], claims);
        assert threads[u].claim != c;
      }
    }
  }

  /** A free claim is taken by the thread waiting for it. */
  lemma OwnerEnters(threads: seq<Thread>, t: nat, pc: Thread, claims: seq<Claim>, c: nat)
    requires WorkInv(threads, claims) && HoldersInv(threads, claims)
    requires t < |threads| && c < |claims| && claims[c].holder.None?
    requires !threads[t].HoldsProgress() && pc.HoldsProgress() && pc.claim == c
    requires WorkOk(t, pc, claims[c := claims[c].(holder := Some(t))])
    ensures WorkInv(threads[t := pc], claims[c := claims[c].(holder := Some(t))])
    ensures HoldersInv(threads[t := pc], claims[c := claims[c].(holder := Some(t))])
  {
    var claims' := claims[c := claims[c].(holder := Some(t))];
    forall u | 0 <= u < |threads| && u != t
      ensures WorkOk(u, threads[u], claims')
    {
      if threads[u].HoldsProgress() {
        assert OwnerOk(u, threads[u], claims);
        assert threads[u].claim != c;
      }
    }
  }

  lemma ClaimAdded(threads: seq<Thread>, claims: seq<Claim>, claim: Claim)
    requires WorkInv(threads, claims) && HoldersInv(threads, claims) && claim.holder.None?
    ensures WorkInv(threads, claims + [claim]) && HoldersInv(threads, claims + [claim])
  {
    forall u | 0 <= u < |threads|
      ensures WorkOk(u, threads[u], claims + [claim])
    {
      if threads[u].HoldsProgress() {
        assert OwnerOk(u, threads[u], claims);
      }
    }
  }

  /** A lock change leaves every progress as it was. */
  lemma LockKeepsProgress(claims: seq<Claim>, c: nat, holder: Option<nat>, applied: seq<Applied>, trail: seq<Logged>,
                          entries: map<Id, nat>)
    requires c < |claims| && ClaimsInv(claims, applied, trail) && OwnersInv(claims, entries)
    ensures Grows(claims, claims[c := claims[c].(holder := holder)])
    ensures ClaimsInv(claims[c := claims[c].(holder := holder)], applied, trail)
    ensures OwnersInv(claims[c := claims[c].(holder := holder)], entries)
  {
  }

  /** What a step that only touches locks, tokens' readers and program counters must show. */
  lemma LockMove(s: State, t: nat, c: nat, holder: Option<nat>, pc: Thread)
    requires Inv(s) && t < |s.threads| && c < |s.claims|
    requires !s.threads[t].Posting() && !pc.Posting() && !pc.Marking?
    requires PostOk(pc, s.tokens, s.issued)
    requires WorkInv(s.threads[t := pc], s.claims[c := s.claims[c].(holder := holder)])
    requires HoldersInv(s.threads[t := pc], s.claims[c := s.claims[c].(holder := holder)])
    ensures Inv(Goto(SetClaim(s, c, s.claims[c].(holder := holder)), t, pc))
  {
    var claims' := s.claims[c := s.claims[c].(holder := holder)];
    LockKeepsProgress(s.claims, c, holder, s.applied, s.trail, s.registry.entries);
    GrowsKeepsHistory(s, claims');
    GrowsKeepsRegistry(s, claims');
    MarkMove(s.threads, t, pc, s.registry, s.claims);
    GrowsKeepsMarks(s.threads[t := pc], s.registry, s.claims, claims');
    PostMove(s.threads, t, pc, s.tokens, s.issued);
    StoredFrame(s.threads, t, pc);
    PromptFrame(s, Goto(SetClaim(s, c, s.claims[c].(holder := holder)), t, pc));
  }

  lemma BailInv(s: State, t: nat, c: nat)
    requires Inv(s) && t < |s.threads| && s.threads[t].HoldsProgress() && s.threads[t].claim == c
    ensures c < |s.claims| && Inv(Bail(s, t, c))
  {
    assert OwnerOk(t, s.threads[t], s.claims) by {
      assert WorkOk(t, s.threads[t], s.claims);
    }
    OwnerMoves(s.threads, t, Idle, s.claims, c, s.claims[c].(holder := None));
    LockMove(s, t, c, None, Idle);
  }

  /** A step inside the lock that changes nothing but the program counter. */
  lemma InsideMove(s: State, t: nat, pc: Thread)
    requires Inv(s) && t < |s.threads| && s.threads[t].HoldsProgress()
    requires pc.HoldsProgress() && pc.claim == s.threads[t].claim
    requires WorkOk(t, pc, s.claims) && PostOk(pc, s.tokens, s.issued)
    ensures Inv(Goto(s, t, pc))
  {
    WorkMove(s.threads, t, pc, s.claims);
    HoldersMove(s.threads, t, pc, s.claims);
    MarkMove(s.threads, t, pc, s.registry, s.claims);
    PostMove(s.threads, t, pc, s.tokens, s.issued);
    StoredFrame(s.threads, t, pc);
    PromptFrame(s, Goto(s, t, pc));
  }

  lemma LockingInv(s: State, t: nat, call: Call, c: nat)
    requires Inv(s) && t < |s.threads| && s.threads[t] == Locking(call, c)
    requires StepLocking(s, t, call, c).Some?
    ensures Inv(StepLocking(s, t, call, c).value)
  {
    var p := s.claims[c].progress;
    if !p.IsSameDecision(call.decision, call.who) || p.chatUpdated {
      PostMove(s.threads, t, Idle, s.tokens, s.issued);
      StoredFrame(s.threads, t, Idle);
      PromptFrame(s, Goto(s, t, Idle));
      QuietMove(s, Goto(s, t, Idle), t, Idle);
    } else {
      assert WorkOk(t, s.threads[t], s.claims);
      assert ProgressOk(c, p, s.applied, s.trail);
      var pc := FirstUnfinished(p, call, c);
      OwnerEnters(s.threads, t, pc, s.claims, c);
      LockMove(s, t, c, Some(t), pc);
    }
  }

  lemma PreparingInv(s: State, t: nat, call: Call, c: nat, reply: Reply)
    requires Inv(s) && t < |s.threads| && s.threads[t] == Preparing(call, c)
    ensures c < |s.claims|
    ensures Inv(if reply == Ok then Goto(s, t, Applying(call, c)) else Bail(s, t, c))
  {
    assert WorkOk(t, s.threads[t], s.claims);
    if reply == Ok {
      InsideMove(s, t, Applying(call, c));
    } else {
      BailInv(s, t, c);
    }
  }

  /** Rewriting the claim a thread owns, once its new progress is known to be sound. */
  lemma ProgressMade(claims: seq<Claim>, c: nat, claim: Claim, entries: map<Id, nat>,
                     applied: seq<Applied>, applied': seq<Applied>, trail: seq<Logged>, trail': seq<Logged>)
    requires c < |claims| && Later(claims[c].progress, claim.progress)
    requires ClaimsInv(claims, applied, trail) && OwnersInv(claims, entries)
    requires applied <= applied' && trail <= trail'
    requires ProgressOk(c, claim.progress, applied', trail')
    ensures Grows(claims, claims[c := claim])
    ensures ClaimsInv(claims[c := claim], applied', trail')
    ensures OwnersInv(claims[c := claim], entries)
  {
    var claims' := claims[c := claim];
    forall d | 0 <= d < |claims|
      ensures ProgressOk(d, claims'[d].progress, applied', trail')
    {
      assert ProgressOk(d, claims[d].progress, applied, trail);
    }
  }

  /** A step of the owner that sets progress flags: everything but its new effects follows. */
  lemma OwnerStep(s: State, s': State, t: nat, c: nat, pc: Thread)
    requires Inv(s) && t < |s.threads| && s.threads[t].HoldsProgress() && s.threads[t].claim == c
    requires c < |s.claims| && c < |s'.claims|
    requires Later(s.claims[c].progress, s'.claims[c].progress)
    requires s' == s.(pending := s'.pending, open := s'.open, applied := s'.applied, trail := s'.trail,
                      tokens := s'.tokens, closed := s'.closed, claims := s.claims[c := s'.claims[c]],
                      threads := s.threads[t := pc])
    requires s.applied <= s'.applied && s.trail <= s'.trail
    requires OpenInv(s'.open, s'.nextId, s'.applied)
    requires AppliedInv(s'.applied, s'.claims) && TrailInv(s'.trail, s'.claims)
    requires ProgressOk(c, s'.claims[c].progress, s'.applied, s'.trail)
    requires WorkOk(t, pc, s'.claims)
    requires if pc.HoldsProgress() then pc.claim == c && s'.claims[c].holder == Some(t) else s'.claims[c].holder == None
    requires TokensInv(s'.tokens, s'.issued) && PostInv(s'.threads, s'.tokens, s'.issued) && PromptInv(s')
    requires pc.Marking? ==>
               pc.id == s.claims[c].progress.record.id && pc.claim == c && s'.claims[c].progress.chatUpdated
    ensures Inv(s')
  {
    assert WorkOk(t, s.threads[t], s.claims);
    ProgressMade(s.claims, c, s'.claims[c], s.registry.entries, s.applied, s'.applied, s.trail, s'.trail);
    GrowsKeepsHistory(s, s'.claims);
    GrowsKeepsRegistry(s, s'.claims);
    OwnerMoves(s.threads, t, pc, s.claims, c, s'.claims[c]);
    GrowsKeepsMarks(s.threads, s.registry, s.claims, s'.claims);
    if pc.Marking? {
      MarkBegins(s.threads, t, pc, s.registry, s.claims, s'.claims);
    } else {
      MarkMove(s.threads, t, pc, s.registry, s'.claims);
    }
  }

  /** A claim about to be retired was unfinished until now, so no other thread retires its id. */
  lemma MarkBegins(threads: seq<Thread>, t: nat, pc: Thread, registry: Registry, claims: seq<Claim>,
                   claims': seq<Claim>)
    requires MarkInv(threads, registry, claims) && MarkInv(threads, registry, claims')
    requires FinishedInv(registry, claims) && OwnersInv(claims, registry.entries)
    requires t < |threads| && pc.Marking? && pc.claim < |claims| && pc.claim < |claims'|
    requires !claims[pc.claim].progress.chatUpdated && claims[pc.claim].progress.record.id == pc.id
    requires claims'[pc.claim].progress.chatUpdated
    ensures MarkInv(threads[t := pc], registry, claims')
  {
    assert registry.entries[pc.id] == pc.claim;
    forall u | 0 <= u < |threads| && threads[u].Marking?
      ensures threads[u].id != pc.id
    {
      assert MarkOk(threads[u], registry, claims);
    }
  }

  lemma AppliedGrows(s: State, c: nat, claim: Claim, a: Applied)
    requires AppliedInv(s.applied, s.claims) && OpenInv(s.open, s.nextId, s.applied)
    requires c < |s.claims| && Later(s.claims[c].progress, claim.progress)
    requires a.id in s.open && a.claim == c
    requires AppliedOk(a, s.claims[c := claim])
    ensures AppliedInv(s.applied + [a], s.claims[c := claim])
    ensures OpenInv(s.open - {a.id}, s.nextId, s.applied + [a])
  {
  }

  lemma TrailFrame(trail: seq<Logged>, claims: seq<Claim>, claims': seq<Claim>)
    requires TrailInv(trail, claims) && Grows(claims, claims')
    ensures TrailInv(trail, claims')
  {
  }

  lemma ApplyingInv(s: State, t: nat, call: Call, c: nat, reply: Reply)
    requires Inv(s) && t < |s.threads| && s.threads[t] == Applying(call, c)
    ensures c < |s.claims| && Inv(StepApplying(s, t, call, c, reply))
  {
    assert WorkOk(t, s.threads[t], s.claims);
    if reply != Ok || call.id !in s.open {
      BailInv(s, t, c);
    } else {
      var s' := StepApplying(s, t, call, c, reply);
      var p := s.claims[c].progress;
      assert ProgressOk(c, p, s.applied, s.trail);
      var claim := s.claims[c].(progress := p.(gatewayApplied := true));
      AppliedGrows(s, c, claim, Applied(call.id, call.decision, c));
      TrailFrame(s.trail, s.claims, s'.claims);
      PostMove(s.threads, t, Auditing(call, c), s.tokens, s.issued);
      StoredFrame(s.threads, t, Auditing(call, c));
      PromptFrame(s, s');
      OwnerStep(s, s', t, c, Auditing(call, c));
    }
  }

  /** A record the trail already holds for this id is this very claim's record. */
  lemma KnownIsOwn(s: State, c: nat)
    requires WorldInv(s) && c < |s.claims| && s.claims[c].progress.gatewayApplied
    requires KnownAs(s, s.claims[c].progress.record)
    ensures Logged(s.claims[c].progress.record, c) in s.trail
  {
    var p := s.claims[c].progress;
    var i :| 0 <= i < |s.trail| && s.trail[i].record == p.record;
    assert LoggedOk(s.trail[i], s.claims);
    var d := s.trail[i].claim;
    assert ProgressOk(c, p, s.applied, s.trail);
    assert ProgressOk(d, s.claims[d].progress, s.applied, s.trail);
    var j :| 0 <= j < |s.applied| && s.applied[j] == Applied(p.record.id, p.decision, c);
    var k :| 0 <= k < |s.applied| && s.applied[k] == Applied(p.record.id, s.claims[d].progress.decision, d);
    assert j == k;
    assert s.trail[i] == Logged(p.record, c);
  }

  /** Appending the record of an applied claim whose id the trail does not know. */
  lemma TrailGrows(s: State, c: nat)
    requires Inv(s) && c < |s.claims| && s.claims[c].progress.gatewayApplied
    requires !Known(s, s.claims[c].progress.record.id)
    ensures Inv(s.(trail := s.trail + [Logged(s.claims[c].progress.record, c)]))
  {
    var trail' := s.trail + [Logged(s.claims[c].progress.record, c)];
    assert TrailInv(trail', s.claims);
    forall d | 0 <= d < |s.claims|
      ensures ProgressOk(d, s.claims[d].progress, s.applied, trail')
    {
      assert ProgressOk(d, s.claims[d].progress, s.applied, s.trail);
    }
  }

  lemma AuditedInv(s: State, t: nat, call: Call, c: nat)
    requires Inv(s) && t < |s.threads| && s.threads[t] == Auditing(call, c) && c < |s.claims|
    requires Logged(s.claims[c].progress.record, c) in s.trail
    ensures Inv(Goto(SetClaim(s, c, s.claims[c].(progress := s.claims[c].progress.(audited := true))),
                     t, ReadingToken(call, c)))
  {
    assert WorkOk(t, s.threads[t], s.claims);
    var p := s.claims[c].progress;
    assert ProgressOk(c, p, s.applied, s.trail);
    var pc := ReadingToken(call, c);
    var s' := Goto(SetClaim(s, c, s.claims[c].(progress := p.(audited := true))), t, pc);
    GrowsKeepsHistory(s, s'.claims);
    PostMove(s.threads, t, pc, s.tokens, s.issued);
    StoredFrame(s.threads, t, pc);
    PromptFrame(s, s');
    OwnerStep(s, s', t, c, pc);
  }

  lemma AuditingInv(s: State, t: nat, call: Call, c: nat, reply: Reply)
    requires Inv(s) && t < |s.threads| && s.threads[t] == Auditing(call, c)
    ensures c < |s.claims| && Inv(StepAuditing(s, t, call, c, reply))
  {
    assert WorkOk(t, s.threads[t], s.claims);
    var p := s.claims[c].progress;
    if reply == Err || (Known(s, p.record.id) && !KnownAs(s, p.record)) {
      BailInv(s, t, c);
    } else {
      var s1 := s;
      if Known(s, p.record.id) {
        KnownIsOwn(s, c);
      } else {
        s1 := s.(trail := s.trail + [Logged(p.record, c)]);
        TrailGrows(s, c);
      }
      if reply == LateErr {
        BailInv(s1, t, c);
      } else {
        AuditedInv(s1, t, call, c);
      }
    }
  }

  lemma ReadingTokenInv(s: State, t: nat, call: Call, c: nat)
    requires Inv(s) && t < |s.threads| && s.threads[t] == ReadingToken(call, c)
    ensures c < |s.claims| && Inv(StepReadingToken(s, t, call, c))
  {
    assert WorkOk(t, s.threads[t], s.claims);
    if call.id !in s.tokens {
      PostMove(s.threads, t, Marking(call.id, c), s.tokens, s.issued);
      StoredFrame(s.threads, t, Marking(call.id, c));
      FinishInv(s, s, t, call, c);
    } else if s.tokens[call.id].Notifying? {
      BailInv(s, t, c);
    } else {
      InsideMove(s, t, Responding(call, c, s.tokens[call.id].token));
    }
  }

  /** Finishing a claim, with its token possibly removed on the way. */
  lemma FinishInv(s: State, s1: State, t: nat, call: Call, c: nat)
    requires Inv(s) && t < |s.threads| && (s.threads[t].ReadingToken? || s.threads[t].DroppingToken?)
    requires s.threads[t].call == call && s.threads[t].claim == c
    requires s1 == s.(tokens := s1.tokens, closed := s1.closed)
    requires TokensInv(s1.tokens, s.issued)
    requires PostInv(s.threads[t := Marking(call.id, c)], s1.tokens, s.issued)
    requires forall id: Id :: s1.posted[id] == s1.closed[id] +
               (if Outstanding(s1.tokens, s.threads[t := Marking(call.id, c)], id) then 1 else 0)
    ensures c < |s.claims| && Inv(Finish(s1, t, call, c))
  {
    assert WorkOk(t, s.threads[t], s.claims);
    var p := s.claims[c].progress;
    assert ProgressOk(c, p, s.applied, s.trail);
    var s' := Finish(s1, t, call, c);
    assert Later(p, s'.claims[c].progress);
    GrowsKeepsHistory(s, s'.claims);
    OwnerStep(s, s', t, c, Marking(call.id, c));
  }

  /** Two threads cannot both own a claim on one id. */
  lemma OneOwnerPerId(s: State, t: nat, u: nat)
    requires WorldInv(s) && WorkInv(s.threads, s.claims)
    requires t < |s.threads| && s.threads[t].HoldsProgress()
    requires u < |s.threads| && s.threads[u].HoldsProgress()
    requires s.threads[t].call.id == s.threads[u].call.id
    ensures t == u
  {
    assert WorkOk(t, s.threads[t], s.claims);
    assert WorkOk(u, s.threads[u], s.claims);
    assert s.registry.entries[s.threads[t].call.id] == s.threads[t].claim;
    assert s.registry.entries[s.threads[u].call.id] == s.threads[u].claim;
  }

  lemma DroppingTokenInv(s: State, t: nat, call: Call, c: nat)
    requires Inv(s) && t < |s.threads| && s.threads[t] == DroppingToken(call, c)
    ensures c < |s.claims| && Inv(StepDroppingToken(s, t, call, c))
  {
    assert WorkOk(t, s.threads[t], s.claims);
    var pc := Marking(call.id, c);
    var s1 := s.(tokens := s.tokens - {call.id}, closed := s.closed + multiset{call.id});
    assert PostOk(s.threads[t], s.tokens, s.issued);
    forall u | 0 <= u < |s.threads| && u != t
      ensures PostOk(s.threads[u], s1.tokens, s.issued)
    {
      assert PostOk(s.threads[u], s.tokens, s.issued);
      if s.threads[u].HoldsProgress() && s.threads[u].call.id == call.id {
        OneOwnerPerId(s, t, u);
      }
    }
    DropIsCounted(s.threads, t, pc, s.tokens, s.issued, call.id);
    FinishInv(s, s1, t, call, c);
  }

  /** Removing a notified token takes exactly one outstanding prompt away. */
  lemma DropIsCounted(threads: seq<Thread>, t: nat, pc: Thread, tokens: map<Id, NotificationState>,
                      issued: seq<Id>, id: Id)
    requires PostInv(threads, tokens, issued) && t < |threads|
    requires !threads[t].PollStore? && !pc.PollStore?
    requires id in tokens && tokens[id].Notified?
    ensures forall x: Id ::
              Outstanding(tokens - {id}, threads[t := pc], x) <==> x != id && Outstanding(tokens, threads, x)
  {
    StoredFrame(threads, t, pc);
    assert !Stored(threads, id);
    forall x: Id
      ensures Outstanding(tokens - {id}, threads[t := pc], x) <==> x != id && Outstanding(tokens, threads, x)
    {
      assert Stored(threads[t := pc], x) == Stored(threads, x);
    }
  }

  lemma RespondingInv(s: State, t: nat, call: Call, c: nat, token: Token, reply: Reply)
    requires Inv(s) && t < |s.threads| && s.threads[t] == Responding(call, c, token)
    ensures c < |s.claims| && Inv(StepResponding(s, t, call, c, token, reply))
  {
    assert WorkOk(t, s.threads[t], s.claims);
    assert PostOk(s.threads[t], s.tokens, s.issued);
    if reply == Err {
      BailInv(s, t, c);
    } else {
      var p := s.claims[c].progress;
      assert ProgressOk(c, p, s.applied, s.trail);
      var r := Response(call.id, token, call.decision, call.who, c);
      var s1 := s.(responses := s.responses + [r]);
      assert ResponseOk(r, s.issued, s.claims);
      assert PromptInv(s1);
      if reply == LateErr {
        BailInv(s1, t, c);
      } else {
        InsideMove(s1, t, DroppingToken(call, c));
      }
    }
  }

  lemma MarkingInv(s: State, t: nat, id: Id, c: nat)
    requires Inv(s) && t < |s.threads| && s.threads[t] == Marking(id, c)
    ensures Inv(Goto(s.(registry := Retire(s.registry, id)), t, Idle))
  {
    var s' := Goto(s.(registry := Retire(s.registry, id)), t, Idle);
    assert MarkOk(s.threads[t], s.registry, s.claims);
    RetireNeverEvicts(s.registry, id);
    MarkEnds(s.threads, t, s.registry, s.claims);
    WorkMove(s.threads, t, Idle, s.claims);
    HoldersMove(s.threads, t, Idle, s.claims);
    PostMove(s.threads, t, Idle, s.tokens, s.issued);
    StoredFrame(s.threads, t, Idle);
    PromptFrame(s, s');
  }

  lemma MarkEnds(threads: seq<Thread>, t: nat, registry: Registry, claims: seq<Claim>)
    requires MarkInv(threads, registry, claims) && FinishedInv(registry, claims)
    requires t < |threads| && threads[t].Marking?
    requires Retire(registry, threads[t].id) == registry.(terminalOrder := registry.terminalOrder + [threads[t].id])
    requires Sound(Retire(registry, threads[t].id))
    ensures MarkInv(threads[t := Idle], Retire(registry, threads[t].id), claims)
    ensures FinishedInv(Retire(registry, threads[t].id), claims)
  {
    assert MarkOk(threads[t], registry, claims);
    forall u | 0 <= u < |threads| && u != t
      ensures MarkOk(threads[u], Retire(registry, threads[t].id), claims)
    {
      assert MarkOk(threads[u], registry, claims);
    }
  }

  lemma ClaimingInv(s: State, t: nat, call: Call)
    requires Inv(s) && t < |s.threads| && s.threads[t] == Claiming(call)
    ensures Inv(StepClaiming(s, t, call))
  {
    if call.id in s.registry.entries || !MakeRoom(s.registry).1 {
      NoClaimInv(s, t, call);
    } else {
      NewClaimInv(s, t, call);
    }
  }

  lemma NoClaimInv(s: State, t: nat, call: Call)
    requires Inv(s) && t < |s.threads| && s.threads[t] == Claiming(call)
    requires call.id in s.registry.entries || !MakeRoom(s.registry).1
    ensures Inv(StepClaiming(s, t, call))
  {
    var pc := if call.id in s.registry.entries then Locking(call, s.registry.entries[call.id]) else Idle;
    NoClaimStep(s, t, call, pc);
    SharedClaimInv(s, t, pc);
  }

  lemma NoClaimStep(s: State, t: nat, call: Call, pc: Thread)
    requires Sound(s.registry) && t < |s.threads|
    requires call.id in s.registry.entries || !MakeRoom(s.registry).1
    requires pc == if call.id in s.registry.entries then Locking(call, s.registry.entries[call.id]) else Idle
    ensures StepClaiming(s, t, call) == Goto(s, t, pc)
  {
    MakeRoomEvictsOnlyTheOldestFinished(s.registry);
  }

  lemma SharedClaimInv(s: State, t: nat, pc: Thread)
    requires Inv(s) && t < |s.threads| && s.threads[t].Claiming? && (pc.Idle? || pc.Locking?)
    requires WorkOk(t, pc, s.claims)
    ensures Inv(Goto(s, t, pc))
  {
    PostMove(s.threads, t, pc, s.tokens, s.issued);
    StoredFrame(s.threads, t, pc);
    PromptFrame(s, Goto(s, t, pc));
    QuietMove(s, Goto(s, t, pc), t, pc);
  }

  lemma NewClaimInv(s: State, t: nat, call: Call)
    requires Inv(s) && t < |s.threads| && s.threads[t] == Claiming(call)
    requires call.id !in s.registry.entries && MakeRoom(s.registry).1
    ensures Inv(StepClaiming(s, t, call))
  {
    var s' := StepClaiming(s, t, call);
    var claim, pc := s'.claims[|s.claims|], s'.threads[t];
    ClaimMade(s, call.id, claim);
    ClaimAdded(s.threads, s.claims, claim);
    WorkMove(s.threads, t, pc, s'.claims);
    HoldersMove(s.threads, t, pc, s'.claims);
    ClaimKeepsMarks(s.threads, s.registry, s.claims, call.id, claim);
    MarkMove(s.threads, t, pc, s'.registry, s'.claims);
    PostMove(s.threads, t, pc, s.tokens, s.issued);
    StoredFrame(s.threads, t, pc);
    PromptFrame(s, s');
  }

  function Admit(registry: Registry, id: Id, c: nat): Registry {
    var r := MakeRoom(registry).0;
    r.(entries := r.entries[id := c])
  }

  lemma AdmitIsSound(registry: Registry, id: Id, c: nat)
    requires Sound(registry) && id !in registry.entries && MakeRoom(registry).1
    ensures Sound(Admit(registry, id, c))
    ensures forall x <- Admit(registry, id, c).terminalOrder :: x in registry.terminalOrder && x != id
    ensures forall x <- registry.entries :: x !in registry.terminalOrder ==>
              x in Admit(registry, id, c).entries && Admit(registry, id, c).entries[x] == registry.entries[x]
    ensures forall x <- Admit(registry, id, c).entries :: x != id ==>
              x in registry.entries && Admit(registry, id, c).entries[x] == registry.entries[x]
  {
    MakeRoomEvictsOnlyTheOldestFinished(registry);
  }

  /** A new claim evicts no unfinished one. */
  lemma ClaimMade(s: State, id: Id, claim: Claim)
    requires WorldInv(s) && id !in s.registry.entries && MakeRoom(s.registry).1
    requires claim.progress.record.id == id && claim.progress.record.decision == claim.progress.decision
    requires !claim.progress.gatewayApplied && !claim.progress.audited && !claim.progress.chatUpdated
    ensures WorldInv(s.(claims := s.claims + [claim], registry := Admit(s.registry, id, |s.claims|)))
  {
    AdmitIsSound(s.registry, id, |s.claims|);
    var s' := s.(claims := s.claims + [claim], registry := Admit(s.registry, id, |s.claims|));
    GrowsKeepsHistory(s, s'.claims);
    assert OwnersInv(s'.claims, s'.registry.entries) by {
      forall c | 0 <= c < |s'.claims| && !s'.claims[c].progress.chatUpdated
        ensures s'.claims[c].progress.record.id in s'.registry.entries
        ensures s'.registry.entries[s'.claims[c].progress.record.id] == c
      {
        if c < |s.claims| {
          var x := s.claims[c].progress.record.id;
          assert s.registry.entries[x] == c;
          assert x !in s.registry.terminalOrder;
        }
      }
    }
  }

  lemma ClaimKeepsMarks(threads: seq<Thread>, registry: Registry, claims: seq<Claim>, id: Id, claim: Claim)
    requires MarkInv(threads, registry, claims) && Sound(registry)
    requires id !in registry.entries && MakeRoom(registry).1
    ensures MarkInv(threads, Admit(registry, id, |claims|), claims + [claim])
  {
    AdmitIsSound(registry, id, |claims|);
    forall t | 0 <= t < |threads|
      ensures MarkOk(threads[t], Admit(registry, id, |claims|), claims + [claim])
    {
      assert MarkOk(threads[t], registry, claims);
    }
  }

  lemma StartInv(s: State, t: nat, pc: Thread)
    requires Inv(s) && t < |s.threads| && s.threads[t] == Idle && (pc.PollCheck? || pc.Claiming?)
    ensures Inv(Goto(s, t, pc))
  {
    PostMove(s.threads, t, pc, s.tokens, s.issued);
    StoredFrame(s.threads, t, pc);
    PromptFrame(s, Goto(s, t, pc));
    QuietMove(s, Goto(s, t, pc), t, pc);
  }

  lemma PollThreadInv(s: State, t: nat, pc: Thread, reply: Reply)
    requires Inv(s) && t < |s.threads| && s.threads[t] == pc
    requires pc.PollCheck? || pc.PollNotify? || pc.PollUndo? || pc.PollStore?
    ensures Inv(StepUnlocked(s, t, pc, reply).value)
  {
    match pc
    case PollCheck(id) => PollCheckInv(s, t, id);
    case PollNotify(id) => PollNotifyInv(s, t, id, reply);
    case PollUndo(id) => PollUndoInv(s, t, id);
    case PollStore(id, token) => PollStoreInv(s, t, id, token);
  }

  lemma UnlockedThreadInv(s: State, t: nat, pc: Thread, reply: Reply)
    requires Inv(s) && t < |s.threads| && s.threads[t] == pc && !pc.HoldsProgress()
    requires StepUnlocked(s, t, pc, reply).Some?
    ensures Inv(StepUnlocked(s, t, pc, reply).value)
  {
    match pc
    case PollCheck(_) => PollThreadInv(s, t, pc, reply);
    case PollNotify(_) => PollThreadInv(s, t, pc, reply);
    case PollUndo(_) => PollThreadInv(s, t, pc, reply);
    case PollStore(_, _) => PollThreadInv(s, t, pc, reply);
    case Claiming(call) => ClaimingInv(s, t, call);
    case Locking(call, c) => LockingInv(s, t, call, c);
    case Marking(id, c) => MarkingInv(s, t, id, c);
  }

  lemma OwnerThreadInv(s: State, t: nat, pc: Thread, reply: Reply)
    requires Inv(s) && t < |s.threads| && s.threads[t] == pc && pc.HoldsProgress() && pc.claim < |s.claims|
    ensures Inv(StepOwner(s, t, pc, reply))
  {
    match pc
    case Preparing(call, c) => PreparingInv(s, t, call, c, reply);
    case Applying(call, c) => ApplyingInv(s, t, call, c, reply);
    case Auditing(call, c) => AuditingInv(s, t, call, c, reply);
    case ReadingToken(call, c) => ReadingTokenInv(s, t, call, c);
    case Responding(call, c, token) => RespondingInv(s, t, call, c, token, reply);
    case DroppingToken(call, c) => DroppingTokenInv(s, t, call, c);
  }

  /** What the gateway reports and closes on its own touches nothing of the bridge. */
  lemma GatewayMoves(s: State, e: Event)
    requires Inv(s) && (e.NewRequest? || e.Report? || e.Close?) && Next(s, e).Some?
    ensures Inv(Next(s, e).value)
  {
    var s' := Next(s, e).value;
    assert WorldInv(s');
    assert PromptInv(s');
  }

  /** Every step of the bridge keeps the invariant, whatever the external calls answer. */
  lemma NextInv(s: State, e: Event)
    requires Inv(s) && Next(s, e).Some?
    ensures Inv(Next(s, e).value)
  {
    match e
    case NewRequest(outcome) => GatewayMoves(s, e);
    case Report(seen) => GatewayMoves(s, e);
    case Close(id) => GatewayMoves(s, e);
    case StartPoll(t) =>
      if s.pending.Some? {
        StartInv(s, t, PollCheck(s.pending.value.id));
      }
    case StartResolve(t, call) => StartInv(s, t, Claiming(call));
    case Advance(t, reply) =>
      if s.threads[t].HoldsProgress() {
        OwnerThreadInv(s, t, s.threads[t], reply);
      } else {
        UnlockedThreadInv(s, t, s.threads[t], reply);
      }
  }

  lemma {:induction false} RunInv(s: State, events: seq<Event>)
    requires Inv(s) && Run(s, events).Some?
    ensures Inv(Run(s, events).value)
    decreases |events|
  {
    if events != [] {
      NextInv(s, events[0]);
      RunInv(Next(s, events[0]).value, events[1..]);
    }
  }
}
