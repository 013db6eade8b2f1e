/**
  What the bounded registry cannot forget: claims on requests that disappeared are never finished,
  never evicted, and 1024 of them refuse every other id from then on.
 */
module BridgeCapacity {
  import opened Maps
  import opened Options
  import opened Resolutions
  import opened BridgeProtocol
  import opened BridgeInvariant
  import T = BridgeTheorems

  /** The decision was not applied, and its request can no longer be resolved. */
  predicate Dead(s: State, c: nat) {
    && c < |s.claims| && !s.claims[c].progress.gatewayApplied
    && s.claims[c].progress.record.id < s.nextId && s.claims[c].progress.record.id !in s.open
  }

  ghost predicate Clogged(s: State) {
    |s.registry.entries| == MAX_RESOLUTION_ENTRIES && forall id <- s.registry.entries :: Dead(s, s.registry.entries[id])
  }

  // ---- a dead claim stays dead ----

  /** What the steps of a thread keep of a dead claim and of the requests. */
  predicate KeepsDead(s: State, s': State, c: nat)
    requires c < |s.claims|
  {
    && c < |s'.claims| && s'.claims[c].progress.record == s.claims[c].progress.record
    && !s'.claims[c].progress.gatewayApplied && s'.nextId == s.nextId && s'.open <= s.open
  }

  lemma DecidingKeepsDead(s: State, t: nat, pc: Thread, reply: Reply, c: nat)
    requires t < |s.threads| && s.threads[t] == pc && pc.HoldsProgress() && OwnerOk(t, pc, s.claims)
    requires (pc.Preparing? || pc.Applying? || pc.Auditing?) && Dead(s, c)
    ensures KeepsDead(s, StepOwner(s, t, pc, reply), c)
  {
  }

  lemma AnsweringKeepsDead(s: State, t: nat, pc: Thread, reply: Reply, c: nat)
    requires t < |s.threads| && s.threads[t] == pc && pc.HoldsProgress() && OwnerOk(t, pc, s.claims)
    requires (pc.ReadingToken? || pc.Responding? || pc.DroppingToken?) && Dead(s, c)
    ensures KeepsDead(s, StepOwner(s, t, pc, reply), c)
  {
  }

  lemma OwnerKeepsDead(s: State, t: nat, pc: Thread, reply: Reply, c: nat)
    requires t < |s.threads| && s.threads[t] == pc && pc.HoldsProgress() && OwnerOk(t, pc, s.claims)
    requires Dead(s, c)
    ensures KeepsDead(s, StepOwner(s, t, pc, reply), c)
  {
    if pc.Preparing? || pc.Applying? || pc.Auditing? {
      DecidingKeepsDead(s, t, pc, reply, c);
    } else {
      AnsweringKeepsDead(s, t, pc, reply, c);
    }
  }

  lemma UnlockedKeepsDead(s: State, t: nat, pc: Thread, reply: Reply, c: nat)
    requires t < |s.threads| && !pc.HoldsProgress() && StepUnlocked(s, t, pc, reply).Some?
    requires Dead(s, c)
    ensures KeepsDead(s, StepUnlocked(s, t, pc, reply).value, c)
  {
  }

  lemma DeadStaysDead(s: State, e: Event, c: nat)
    requires Inv(s) && Next(s, e).Some? && Dead(s, c)
    ensures Dead(Next(s, e).value, c)
  {
    if e.Advance? {
      assert WorkOk(e.t, s.threads[e.t], s.claims);
      if s.threads[e.t].HoldsProgress() {
        OwnerKeepsDead(s, e.t, s.threads[e.t], e.reply, c);
      } else {
        UnlockedKeepsDead(s, e.t, s.threads[e.t], e.reply, c);
      }
    }
  }

  /** Over all runs a dead claim is never applied, never finished, and keeps its registry entry. */
  lemma {:induction false} DeadForever(s: State, events: seq<Event>, c: nat)
    requires Inv(s) && Run(s, events).Some? && Dead(s, c)
    ensures var s' := Run(s, events).value;
            && Dead(s', c) && !s'.claims[c].progress.chatUpdated
            && s'.claims[c].progress.record.id in s'.registry.entries
            && s'.registry.entries[s'.claims[c].progress.record.id] == c
    decreases |events|
  {
    if events == [] {
      assert ProgressOk(c, s.claims[c].progress, s.applied, s.trail);
    } else {
      DeadStaysDead(s, events[0], c);
      NextInv(s, events[0]);
      DeadForever(Next(s, events[0]).value, events[1..], c);
    }
  }

  // ---- a clogged registry stays clogged ----

  lemma DeadIsUnfinished(s: State, c: nat)
    requires Inv(s) && Dead(s, c)
    ensures !s.claims[c].progress.chatUpdated
  {
    assert ProgressOk(c, s.claims[c].progress, s.applied, s.trail);
  }

  lemma NothingToEvict(s: State)
    requires Inv(s) && Clogged(s)
    ensures s.registry.terminalOrder == [] && MakeRoom(s.registry) == (s.registry, false)
    ensures forall t :: 0 <= t < |s.threads| ==> !s.threads[t].Marking?
  {
    if s.registry.terminalOrder != [] {
      var id := s.registry.terminalOrder[0];
      assert id in s.registry.terminalOrder;
      DeadIsUnfinished(s, s.registry.entries[id]);
      assert false;
    }
    forall t | 0 <= t < |s.threads|
      ensures !s.threads[t].Marking?
    {
      assert MarkOk(s.threads[t], s.registry, s.claims);
      if s.threads[t].Marking? {
        DeadIsUnfinished(s, s.registry.entries[s.threads[t].id]);
      }
    }
  }

  lemma DecidingKeepsRegistry(s: State, t: nat, pc: Thread, reply: Reply)
    requires t < |s.threads| && (pc.Preparing? || pc.Applying? || pc.Auditing?) && pc.claim < |s.claims|
    ensures StepOwner(s, t, pc, reply).registry == s.registry && |StepOwner(s, t, pc, reply).claims| == |s.claims|
  {
  }

  lemma AnsweringKeepsRegistry(s: State, t: nat, pc: Thread, reply: Reply)
    requires t < |s.threads| && (pc.ReadingToken? || pc.Responding? || pc.DroppingToken?) && pc.claim < |s.claims|
    ensures StepOwner(s, t, pc, reply).registry == s.registry && |StepOwner(s, t, pc, reply).claims| == |s.claims|
  {
  }

  lemma OwnerKeepsRegistry(s: State, t: nat, pc: Thread, reply: Reply)
    requires t < |s.threads| && pc.HoldsProgress() && pc.claim < |s.claims|
    ensures StepOwner(s, t, pc, reply).registry == s.registry && |StepOwner(s, t, pc, reply).claims| == |s.claims|
  {
    if pc.Preparing? || pc.Applying? || pc.Auditing? {
      DecidingKeepsRegistry(s, t, pc, reply);
    } else {
      AnsweringKeepsRegistry(s, t, pc, reply);
    }
  }

  lemma UnlockedKeepsRegistry(s: State, t: nat, pc: Thread, reply: Reply)
    requires t < |s.threads| && !pc.HoldsProgress() && !pc.Marking? && StepUnlocked(s, t, pc, reply).Some?
    requires MakeRoom(s.registry) == (s.registry, false)
    ensures StepUnlocked(s, t, pc, reply).value.registry == s.registry
    ensures |StepUnlocked(s, t, pc, reply).value.claims| == |s.claims|
  {
  }

  lemma CloggedKeepsRegistry(s: State, e: Event)
    requires Inv(s) && Clogged(s) && Next(s, e).Some?
    ensures Next(s, e).value.registry == s.registry && |Next(s, e).value.claims| == |s.claims|
  {
    NothingToEvict(s);
    if e.Advance? {
      if s.threads[e.t].HoldsProgress() {
        assert WorkOk(e.t, s.threads[e.t], s.claims);
        OwnerKeepsRegistry(s, e.t, s.threads[e.t], e.reply);
      } else {
        UnlockedKeepsRegistry(s, e.t, s.threads[e.t], e.reply);
      }
    }
  }

  lemma CloggedStaysClogged(s: State, e: Event)
    requires Inv(s) && Clogged(s) && Next(s, e).Some?
    ensures var s' := Next(s, e).value;
            Clogged(s') && s'.registry == s.registry && |s'.claims| == |s.claims|
  {
    var s' := Next(s, e).value;
    CloggedKeepsRegistry(s, e);
    forall id | id in s.registry.entries
      ensures Dead(s', s.registry.entries[id])
    {
      DeadStaysDead(s, e, s.registry.entries[id]);
    }
  }

  /**
    Once the registry is full of claims that can never finish, no run ever changes it again: no
    claim is made, none is evicted, and a call for any other id is refused.
   */
  lemma {:induction false} CloggedForever(s: State, events: seq<Event>)
    requires Inv(s) && Clogged(s) && Run(s, events).Some?
    ensures var s' := Run(s, events).value;
            && Clogged(s') && s'.registry == s.registry && |s'.claims| == |s.claims|
            && forall t: nat, call: Call, reply: Reply ::
                 t < |s'.threads| && s'.threads[t] == Claiming(call) && call.id !in s'.registry.entries ==>
                   Next(s', Advance(t, reply)) == Some(Goto(s', t, Idle))
    decreases |events|
  {
    if events == [] {
      NothingToEvict(s);
    } else {
      CloggedStaysClogged(s, events[0]);
      NextInv(s, events[0]);
      CloggedForever(Next(s, events[0]).value, events[1..]);
    }
  }

  // ---- it happens ----

  function Decision(n: nat): Call {
    Call(n, Approved, "alice", 0)
  }

  function Stranded(n: nat): Claim {
    Claim(NewProgress(Decision(n), None), None)
  }

  /** `n` requests were claimed after they disappeared. */
  ghost predicate Filling(s: State, n: nat) {
    && s.threads == [Idle] && s.nextId == n && s.open == {} && (s.pending.Some? ==> s.pending.value.outcome == None)
    && |s.claims| == n && (forall i :: 0 <= i < n ==> s.claims[i] == Stranded(i))
    && s.registry.terminalOrder == [] && Numbered(s.registry.entries, n)
  }

  ghost predicate Numbered(entries: map<Id, nat>, n: nat) {
    && |entries| == n
    && (forall id: Id :: id in entries <==> id < n)
    && (forall id <- entries :: entries[id] == id)
  }

  lemma NumberedGrows(entries: map<Id, nat>, n: nat)
    requires Numbered(entries, n)
    ensures Numbered(entries[n := n], n + 1)
  {
    OneMore(entries, n, n);
    var entries' := entries[n := n];
    forall id: Id
      ensures id in entries' <==> id < n + 1
    {
      assert id in entries' <==> id in entries || id == n;
    }
  }

  /** One more event at the end of a run. */
  lemma Then(s: State, events: seq<Event>, mid: State, e: Event) returns (longer: seq<Event>)
    requires Run(s, events) == Some(mid) && Next(mid, e).Some?
    ensures Run(s, longer) == Next(mid, e)
  {
    longer := events + [e];
    T.RunAppend(s, events, [e]);
    assert [e][1..] == [] && Run(Next(mid, e).value, []) == Next(mid, e);
    assert Run(mid, [e]) == Next(mid, e);
  }

  lemma IsClaimed(s: State, n: nat) returns (s1: State, s2: State, s3: State, s4: State)
    requires Filling(s, n) && n < MAX_RESOLUTION_ENTRIES
    ensures Next(s, NewRequest(None)) == Some(s1) && Next(s1, Close(n)) == Some(s2)
    ensures Next(s2, StartResolve(0, Decision(n))) == Some(s3) && Next(s3, Advance(0, Ok)) == Some(s4)
    ensures s4.threads == [Locking(Decision(n), n)] && s4.claims == s.claims + [Stranded(n)]
    ensures s4.registry == Registry(s.registry.entries[n := n], [])
    ensures s4.nextId == n + 1 && s4.open == {} && s4.pending == Some(Pending(n, None))
  {
    s1 := s.(pending := Some(Pending(n, None)), open := s.open + {n}, nextId := n + 1);
    s2 := s1.(open := s1.open - {n});
    assert s2.open == {};
    s3 := Goto(s2, 0, Claiming(Decision(n)));
    assert MakeRoom(s3.registry) == (s3.registry, true);
    s4 := StepClaiming(s3, 0, Decision(n));
    assert s4.threads == [Locking(Decision(n), n)];
  }

  lemma IsStranded(s: State, s4: State, n: nat) returns (s5: State, s6: State)
    requires Filling(s, n)
    requires s4.threads == [Locking(Decision(n), n)] && s4.claims == s.claims + [Stranded(n)]
    requires s4.registry == Registry(s.registry.entries[n := n], [])
    requires s4.nextId == n + 1 && s4.open == {} && s4.pending == Some(Pending(n, None))
    ensures Next(s4, Advance(0, Ok)) == Some(s5) && Next(s5, Advance(0, Err)) == Some(s6)
    ensures Filling(s6, n + 1)
  {
    s5 := StepLocking(s4, 0, Decision(n), n).value;
    assert s5.threads == [Preparing(Decision(n), n)];
    s6 := Bail(s5, 0, n);
    assert s6.threads == [Idle];
    assert s6.claims == s.claims + [Stranded(n)];
    NumberedGrows(s.registry.entries, n);
  }

  lemma OneMoreStranded(before: seq<Event>, s: State, n: nat) returns (events: seq<Event>, end: State)
    requires T.Reaches(1, before, s) && Filling(s, n) && n < MAX_RESOLUTION_ENTRIES
    ensures T.Reaches(1, events, end) && Filling(end, n + 1)
  {
    var s1, s2, s3, s4 := IsClaimed(s, n);
    events := Then(Initial(1), before, s, NewRequest(None));
    events := Then(Initial(1), events, s1, Close(n));
    events := Then(Initial(1), events, s2, StartResolve(0, Decision(n)));
    events := Then(Initial(1), events, s3, Advance(0, Ok));
    var s5;
    s5, end := IsStranded(s, s4, n);
    events := Then(Initial(1), events, s4, Advance(0, Ok));
    events := Then(Initial(1), events, s5, Advance(0, Err));
  }

  lemma {:induction false} FillUp(before: seq<Event>, s: State, n: nat) returns (events: seq<Event>, end: State)
    requires T.Reaches(1, before, s) && Filling(s, n) && n <= MAX_RESOLUTION_ENTRIES
    ensures T.Reaches(1, events, end) && Filling(end, MAX_RESOLUTION_ENTRIES)
    decreases MAX_RESOLUTION_ENTRIES - n
  {
    if n == MAX_RESOLUTION_ENTRIES {
      events, end := before, s;
    } else {
      var events1, s1 := OneMoreStranded(before, s, n);
      events, end := FillUp(events1, s1, n + 1);
    }
  }

  /** One reviewer and 1024 requests that disappear before they are decided clog the registry. */
  lemma RegistryCanClog() returns (events: seq<Event>, s: State)
    ensures T.Reaches(1, events, s) && Clogged(s)
  {
    var s0 := Initial(1);
    assert s0.threads == [Idle];
    assert T.Reaches(1, [], s0);
    assert Numbered(map[], 0);
    assert Filling(s0, 0);
    events, s := FillUp([], s0, 0);
    forall id | id in s.registry.entries
      ensures Dead(s, s.registry.entries[id])
    {
      assert s.claims[id] == Stranded(id);
    }
  }
}
