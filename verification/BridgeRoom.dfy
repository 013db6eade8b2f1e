/** When exactly the registry can take a new claim: unless it is full of dead ones. */
module BridgeRoom {
  import opened Options
  import opened Resolutions
  import opened BridgeProtocol
  import opened BridgeInvariant
  import T = BridgeTheorems
  import P = BridgePrompts
  import C = BridgeCapacity

  // ---- two more invariants ----

  ghost predicate Posts(threads: seq<Thread>, t: nat, id: Id) {
    t < |threads| && threads[t].Posting() && threads[t].id == id
  }

  ghost predicate Marks(threads: seq<Thread>, t: nat, id: Id) {
    t < |threads| && threads[t].Marking? && threads[t].id == id
  }

  ghost predicate BeingPosted(s: State, id: Id) {
    id in s.tokens && s.tokens[id].Notifying?
  }

  /** The id's entry is that of a finished claim. */
  ghost predicate Finished(s: State, id: Id) {
    && id in s.registry.entries && s.registry.entries[id] < |s.claims|
    && s.claims[s.registry.entries[id]].progress.chatUpdated
  }

  /** A prompt that is being posted has a thread that posts it. */
  ghost predicate Posters(s: State) {
    forall id <- s.tokens :: BeingPosted(s, id) ==> exists t: nat :: Posts(s.threads, t, id)
  }

  /** A finished claim can be evicted, or a thread is about to list it for that. */
  ghost predicate Listed(s: State) {
    forall id <- s.registry.entries :: Finished(s, id) && id !in s.registry.terminalOrder ==>
      exists t: nat :: Marks(s.threads, t, id)
  }

  ghost predicate Good(s: State) {
    Inv(s) && Posters(s) && Listed(s)
  }

  lemma OwnerPostsNothing(s: State, t: nat, pc: Thread, reply: Reply, id: Id)
    requires t < |s.threads| && pc.HoldsProgress() && pc.claim < |s.claims|
    ensures BeingPosted(StepOwner(s, t, pc, reply), id) ==> BeingPosted(s, id)
  {
  }

  lemma UnlockedPosts(s: State, t: nat, pc: Thread, reply: Reply, id: Id)
    requires t < |s.threads| && !pc.HoldsProgress() && StepUnlocked(s, t, pc, reply).Some?
    ensures var s' := StepUnlocked(s, t, pc, reply).value;
            BeingPosted(s', id) ==>
              Posts(s'.threads, t, id) || (BeingPosted(s, id) && !(pc.Posting() && pc.id == id))
  {
  }

  /** Whoever posts the prompt of an id goes on with it, or another takes over. */
  lemma PostStays(s: State, e: Event, id: Id)
    requires Inv(s) && Next(s, e).Some? && BeingPosted(Next(s, e).value, id)
    ensures (e.Advance? && Posts(Next(s, e).value.threads, e.t, id)) ||
            (BeingPosted(s, id) && !(e.Advance? && Posts(s.threads, e.t, id)))
  {
    if e.Advance? {
      if s.threads[e.t].HoldsProgress() {
        OwnerPostsNothing(s, e.t, s.threads[e.t], e.reply, id);
      } else {
        UnlockedPosts(s, e.t, s.threads[e.t], e.reply, id);
      }
    }
  }

  lemma ActorIsIdle(s: State, e: Event, t: nat)
    requires Next(s, e).Some? && P.IsActor(e, t) && !e.Advance?
    ensures t < |s.threads| && s.threads[t] == Idle
  {
  }

  lemma StepKeepsPosters(s: State, e: Event)
    requires Inv(s) && Posters(s) && Next(s, e).Some?
    ensures Posters(Next(s, e).value)
  {
    var s' := Next(s, e).value;
    P.StepMoves(s, e);
    forall id | id in s'.tokens && BeingPosted(s', id)
      ensures exists t: nat :: Posts(s'.threads, t, id)
    {
      PostStays(s, e, id);
      if !(e.Advance? && Posts(s'.threads, e.t, id)) {
        var t: nat :| Posts(s.threads, t, id);
        if P.IsActor(e, t) {
          ActorIsIdle(s, e, t);
        }
        assert Posts(s'.threads, t, id);
      }
    }
  }

  /** A step inside the progress lock finishes only its own claim, and then is about to list it. */
  predicate FinishesOwn(s: State, s': State, t: nat, pc: Thread)
    requires pc.HoldsProgress()
  {
    && |s'.claims| == |s.claims|
    && forall c :: 0 <= c < |s.claims| && s'.claims[c].progress.chatUpdated ==>
         || s.claims[c].progress.chatUpdated
         || (c == pc.claim && t < |s'.threads| && s'.threads[t] == Marking(pc.call.id, c))
  }

  lemma DecidingFinishes(s: State, t: nat, pc: Thread, reply: Reply)
    requires t < |s.threads| && (pc.Preparing? || pc.Applying? || pc.Auditing?) && pc.claim < |s.claims|
    ensures FinishesOwn(s, StepOwner(s, t, pc, reply), t, pc)
  {
  }

  lemma AnsweringFinishes(s: State, t: nat, pc: Thread, reply: Reply)
    requires t < |s.threads| && (pc.ReadingToken? || pc.Responding? || pc.DroppingToken?) && pc.claim < |s.claims|
    ensures FinishesOwn(s, StepOwner(s, t, pc, reply), t, pc)
  {
  }

  lemma OwnerFinishes(s: State, t: nat, pc: Thread, reply: Reply, id: Id)
    requires Inv(s) && t < |s.threads| && s.threads[t] == pc && pc.HoldsProgress() && pc.claim < |s.claims|
    ensures var s' := StepOwner(s, t, pc, reply);
            Finished(s', id) ==> Finished(s, id) || Marks(s'.threads, t, id)
  {
    assert OwnerOk(t, pc, s.claims) by {
      assert WorkOk(t, pc, s.claims);
    }
    C.OwnerKeepsRegistry(s, t, pc, reply);
    if pc.Preparing? || pc.Applying? || pc.Auditing? {
      DecidingFinishes(s, t, pc, reply);
    } else {
      AnsweringFinishes(s, t, pc, reply);
    }
  }

  lemma OthersKeepRegistry(s: State, t: nat, pc: Thread, reply: Reply)
    requires t < |s.threads| && !pc.HoldsProgress() && !pc.Claiming? && !pc.Marking?
    requires StepUnlocked(s, t, pc, reply).Some?
    ensures var s' := StepUnlocked(s, t, pc, reply).value;
            && s'.registry == s.registry && |s'.claims| == |s.claims|
            && forall c :: 0 <= c < |s.claims| ==> s'.claims[c].progress == s.claims[c].progress
  {
  }

  /** Outside the progress locks only the retiring of a marked claim and an eviction touch the list. */
  lemma UnlockedLists(s: State, t: nat, pc: Thread, reply: Reply, id: Id)
    requires Inv(s) && t < |s.threads| && s.threads[t] == pc && !pc.HoldsProgress()
    requires StepUnlocked(s, t, pc, reply).Some?
    ensures var s' := StepUnlocked(s, t, pc, reply).value;
            Finished(s', id) && id !in s'.registry.terminalOrder ==>
              Finished(s, id) && id !in s.registry.terminalOrder && !(pc.Marking? && pc.id == id)
  {
    if pc.Marking? {
      assert MarkOk(pc, s.registry, s.claims);
      RetireNeverEvicts(s.registry, pc.id);
    } else if pc.Claiming? {
      ClaimingLists(s, t, pc.call, id);
    } else {
      OthersKeepRegistry(s, t, pc, reply);
    }
  }

  lemma ClaimingLists(s: State, t: nat, call: Call, id: Id)
    requires Inv(s) && t < |s.threads|
    ensures var s' := StepClaiming(s, t, call);
            Finished(s', id) && id !in s'.registry.terminalOrder ==> Finished(s, id) && id !in s.registry.terminalOrder
  {
    var s' := StepClaiming(s, t, call);
    if Finished(s', id) && call.id !in s.registry.entries && MakeRoom(s.registry).1 {
      MakeRoomLists(s.registry, id);
    } else {
      MakeRoomEvictsOnlyTheOldestFinished(s.registry);
    }
  }

  /** Making room takes an id from the list only together with its entry. */
  lemma MakeRoomLists(r: Registry, id: Id)
    requires Sound(r)
    ensures var r' := MakeRoom(r).0;
            id in r'.entries ==> id in r.entries && r.entries[id] == r'.entries[id] &&
                                 (id in r.terminalOrder ==> id in r'.terminalOrder)
  {
    MakeRoomEvictsOnlyTheOldestFinished(r);
    if r.terminalOrder != [] && id in r.terminalOrder && id != r.terminalOrder[0] {
      InRest(r.terminalOrder, id);
    }
  }

  lemma InRest(order: seq<Id>, id: Id)
    requires order != [] && id in order && id != order[0]
    ensures id in order[1..]
  {
    assert order == [order[0]] + order[1..];
  }

  lemma UnlistedStays(s: State, e: Event, id: Id)
    requires Inv(s) && Next(s, e).Some?
    requires Finished(Next(s, e).value, id) && id !in Next(s, e).value.registry.terminalOrder
    ensures (e.Advance? && Marks(Next(s, e).value.threads, e.t, id)) ||
            (Finished(s, id) && id !in s.registry.terminalOrder && !(e.Advance? && Marks(s.threads, e.t, id)))
  {
    if e.Advance? {
      if s.threads[e.t].HoldsProgress() {
        assert WorkOk(e.t, s.threads[e.t], s.claims);
        OwnerFinishes(s, e.t, s.threads[e.t], e.reply, id);
        C.OwnerKeepsRegistry(s, e.t, s.threads[e.t], e.reply);
      } else {
        UnlockedLists(s, e.t, s.threads[e.t], e.reply, id);
      }
    }
  }

  lemma StepKeepsListed(s: State, e: Event)
    requires Inv(s) && Listed(s) && Next(s, e).Some?
    ensures Listed(Next(s, e).value)
  {
    var s' := Next(s, e).value;
    P.StepMoves(s, e);
    forall id | id in s'.registry.entries && Finished(s', id) && id !in s'.registry.terminalOrder
      ensures exists t: nat :: Marks(s'.threads, t, id)
    {
      UnlistedStays(s, e, id);
      if !(e.Advance? && Marks(s'.threads, e.t, id)) {
        var t: nat :| Marks(s.threads, t, id);
        if P.IsActor(e, t) {
          ActorIsIdle(s, e, t);
        }
        assert Marks(s'.threads, t, id);
      }
    }
  }

  lemma StepKeepsGood(s: State, e: Event)
    requires Good(s) && Next(s, e).Some?
    ensures Good(Next(s, e).value)
  {
    NextInv(s, e);
    StepKeepsPosters(s, e);
    StepKeepsListed(s, e);
  }

  lemma {:induction false} RunKeepsGood(s: State, events: seq<Event>)
    requires Good(s) && Run(s, events).Some?
    ensures Good(Run(s, events).value)
    decreases |events|
  {
    if events != [] {
      StepKeepsGood(s, events[0]);
      RunKeepsGood(Next(s, events[0]).value, events[1..]);
    }
  }

  // ---- runs that register a new id ----

  /** The run ends with an id in the registry that is none of `ids`. */
  ghost predicate Grows(s: State, events: seq<Event>, ids: set<Id>) {
    Run(s, events).Some? && !(Run(s, events).value.registry.entries.Keys <= ids)
  }

  ghost predicate CanGrow(s: State, ids: set<Id>) {
    exists events :: Grows(s, events, ids)
  }

  lemma GrownAlready(s: State, ids: set<Id>)
    requires !(s.registry.entries.Keys <= ids)
    ensures CanGrow(s, ids)
  {
    assert Grows(s, [], ids);
  }

  lemma GrowsAfterStep(s: State, e: Event, ids: set<Id>)
    requires Next(s, e).Some? && CanGrow(Next(s, e).value, ids)
    ensures CanGrow(s, ids)
  {
    var next := Next(s, e).value;
    var events :| Grows(next, events, ids);
    T.RunSteps(s, e, next, events, Run(next, events).value);
    assert Grows(s, [e] + events, ids);
  }

  lemma GrowsAfterRun(s: State, first: seq<Event>, ids: set<Id>)
    requires Run(s, first).Some? && CanGrow(Run(s, first).value, ids)
    ensures CanGrow(s, ids)
  {
    var events :| Grows(Run(s, first).value, events, ids);
    T.RunAppend(s, first, events);
    assert Grows(s, first + events, ids);
  }

  lemma {:induction false} FreshId(ids: set<Id>) returns (above: Id)
    ensures forall id <- ids :: id < above
    decreases ids
  {
    if ids == {} {
      above := 0;
    } else {
      var id :| id in ids;
      var rest := FreshId(ids - {id});
      above := if rest <= id then id + 1 else rest;
      forall x | x in ids
        ensures x < above
      {
        assert x == id || x in ids - {id};
      }
    }
  }

  lemma ClaimRegisters(s: State, u: nat, call: Call)
    requires Sound(s.registry) && u < |s.threads| && call.id !in s.registry.entries
    requires |s.registry.entries| < MAX_RESOLUTION_ENTRIES || s.registry.terminalOrder != []
    ensures call.id in StepClaiming(s, u, call).registry.entries
  {
    MakeRoomEvictsOnlyTheOldestFinished(s.registry);
  }

  /** An idle thread registers a fresh id as soon as there is room for it or a finished claim to evict. */
  lemma IdleAdmits(s: State, u: nat, ids: set<Id>)
    requires Inv(s) && u < |s.threads| && s.threads[u] == Idle && s.registry.entries.Keys <= ids
    requires |s.registry.entries| < MAX_RESOLUTION_ENTRIES || s.registry.terminalOrder != []
    ensures CanGrow(s, ids)
  {
    var id := FreshId(ids);
    var call := Call(id, Approved, "reviewer", 0);
    assert call.id !in s.registry.entries.Keys;
    CallAdmits(s, u, call, ids);
  }

  lemma CallAdmits(s: State, u: nat, call: Call, ids: set<Id>)
    requires Sound(s.registry) && u < |s.threads| && s.threads[u] == Idle
    requires call.id !in ids && call.id !in s.registry.entries
    requires |s.registry.entries| < MAX_RESOLUTION_ENTRIES || s.registry.terminalOrder != []
    ensures CanGrow(s, ids)
  {
    var s1 := Goto(s, u, Claiming(call));
    ClaimRegisters(s1, u, call);
    assert Next(s1, Advance(u, Ok)) == Some(StepClaiming(s1, u, call));
    GrownBy(StepClaiming(s1, u, call), call.id, ids);
    GrowsAfterStep(s1, Advance(u, Ok), ids);
    GrowsAfterStep(s, StartResolve(u, call), ids);
  }

  lemma GrownBy(s: State, id: Id, ids: set<Id>)
    requires id in s.registry.entries && id !in ids
    ensures CanGrow(s, ids)
  {
    assert id in s.registry.entries.Keys;
    GrownAlready(s, ids);
  }

  /** A thread that lists a finished claim for eviction makes room, and is idle. */
  lemma MarkerAdmits(s: State, u: nat, ids: set<Id>)
    requires Inv(s) && u < |s.threads| && s.threads[u].Marking? && s.registry.entries.Keys <= ids
    ensures CanGrow(s, ids)
  {
    var e := Advance(u, Ok);
    assert MarkOk(s.threads[u], s.registry, s.claims);
    RetireNeverEvicts(s.registry, s.threads[u].id);
    NextInv(s, e);
    IdleAdmits(Next(s, e).value, u, ids);
    GrowsAfterStep(s, e, ids);
  }

  // ---- finishing a claim ----

  /** The claim of `id` is free, and its request was decided or still can be. */
  ghost predicate Free(s: State, id: Id) {
    && id in s.registry.entries && s.registry.entries[id] < |s.claims|
    && s.claims[s.registry.entries[id]].holder.None?
    && !s.claims[s.registry.entries[id]].progress.chatUpdated
  }

  function Retry(s: State, id: Id): Call
    requires id in s.registry.entries && s.registry.entries[id] < |s.claims|
  {
    var p := s.claims[s.registry.entries[id]].progress;
    Call(id, p.decision, p.record.decidedBy, 0)
  }

  /** The owner calls again and its call is at the progress lock. */
  lemma RetryReachesLock(s: State, u: nat, id: Id) returns (s': State)
    requires Inv(s) && u < |s.threads| && s.threads[u] == Idle && Free(s, id)
    ensures Run(s, [StartResolve(u, Retry(s, id))] + ([Advance(u, Ok)] + [])) == Some(s') && Inv(s')
    ensures s' == Goto(s, u, Locking(Retry(s, id), s.registry.entries[id]))
  {
    var call := Retry(s, id);
    var s1 := Goto(s, u, Claiming(call));
    s' := Goto(s, u, Locking(call, s.registry.entries[id]));
    assert Goto(s1, u, Locking(call, s.registry.entries[id])) == s';
    T.RunSteps(s1, Advance(u, Ok), s', [], s');
    T.RunSteps(s, StartResolve(u, call), s1, [Advance(u, Ok)] + [], s');
    RunInv(s, [StartResolve(u, call)] + ([Advance(u, Ok)] + []));
  }

  lemma RetryAdmits(s: State, u: nat, id: Id, ids: set<Id>)
    requires Inv(s) && u < |s.threads| && s.threads[u] == Idle && s.registry.entries.Keys <= ids
    requires Free(s, id) && !BeingPosted(s, id)
    requires s.claims[s.registry.entries[id]].progress.gatewayApplied || id in s.open
    ensures CanGrow(s, ids)
  {
    var s1 := RetryReachesLock(s, u, id);
    var call, c := Retry(s, id), s.registry.entries[id];
    T.LogMatchesClaim(s1, c);
    var k := T.ResumeAt(s1, u, call, c);
    var events := T.SoloIsRun(s1, u, k);
    var s2 := T.Solo(s1, u, k).value;
    RunInv(s1, events);
    assert s2.threads[u] == Marking(id, c) && s2.registry == s.registry;
    MarkerAdmits(s2, u, ids);
    GrowsAfterRun(s1, events, ids);
    GrowsAfterRun(s, [StartResolve(u, call)] + ([Advance(u, Ok)] + []), ids);
  }

  /** The thread that posts the prompt gives up, or stores the token. */
  lemma PostEnds(s: State, t: nat, id: Id) returns (events: seq<Event>, s': State)
    requires Posts(s.threads, t, id)
    ensures Run(s, events) == Some(s') && !BeingPosted(s', id)
    ensures s' == s.(tokens := s'.tokens, threads := s.threads[t := Idle])
  {
    var undo := Advance(t, Err);
    if s.threads[t].PollStore? {
      s' := s.(tokens := s.tokens[id := Notified(s.threads[t].token)], threads := s.threads[t := Idle]);
      events := [undo] + [];
      T.RunSteps(s, undo, s', [], s');
    } else {
      var s1 := Goto(s, t, PollUndo(id));
      s' := s.(tokens := s.tokens - {id}, threads := s.threads[t := Idle]);
      assert s1.threads[t := Idle] == s'.threads;
      T.RunSteps(s1, undo, s', [], s');
      events := [undo] + [];
      if s.threads[t].PollNotify? {
        T.RunSteps(s, undo, s1, events, s');
        events := [undo] + events;
      } else {
        assert s1.threads == s.threads;
      }
    }
  }

  lemma PostedRetryAdmits(s: State, u: nat, id: Id, ids: set<Id>)
    requires Good(s) && u < |s.threads| && s.threads[u] == Idle && s.registry.entries.Keys <= ids
    requires Free(s, id)
    requires s.claims[s.registry.entries[id]].progress.gatewayApplied || id in s.open
    ensures CanGrow(s, ids)
  {
    if BeingPosted(s, id) {
      var t: nat :| Posts(s.threads, t, id);
      var events, s' := PostEnds(s, t, id);
      RunInv(s, events);
      RetryAdmits(s', u, id, ids);
      GrowsAfterRun(s, events, ids);
    } else {
      RetryAdmits(s, u, id, ids);
    }
  }

  /** An id that was never issued may still come. */
  lemma {:induction false} IdIsIssued(s: State, id: Id) returns (events: seq<Event>, s': State)
    requires s.nextId <= id
    ensures Run(s, events) == Some(s') && id in s'.open
    ensures s' == s.(pending := s'.pending, open := s'.open, nextId := s'.nextId)
    decreases id - s.nextId
  {
    var e := NewRequest(None);
    var s1 := Next(s, e).value;
    if s.nextId == id {
      events, s' := [], s1;
    } else {
      events, s' := IdIsIssued(s1, id);
    }
    T.RunSteps(s, e, s1, events, s');
    events := [e] + events;
  }

  lemma FreeClaimAdmits(s: State, u: nat, id: Id, ids: set<Id>)
    requires Good(s) && u < |s.threads| && s.threads[u] == Idle && s.registry.entries.Keys <= ids
    requires Free(s, id) && !C.Dead(s, s.registry.entries[id])
    ensures CanGrow(s, ids)
  {
    var p := s.claims[s.registry.entries[id]].progress;
    assert p.record.id == id;
    if p.gatewayApplied || id in s.open {
      PostedRetryAdmits(s, u, id, ids);
    } else {
      var events, s' := IdIsIssued(s, id);
      RunKeepsGood(s, events);
      PostedRetryAdmits(s', u, id, ids);
      GrowsAfterRun(s, events, ids);
    }
  }

  // ---- freeing a thread ----

  /** How many failing steps a thread is from idle. */
  function Rank(pc: Thread): nat {
    match pc
    case Idle => 0
    case PollCheck(_) => 3
    case PollNotify(_) => 2
    case PollUndo(_) => 1
    case PollStore(_, _) => 1
    case Claiming(_) => 5
    case Locking(_, _) => 4
    case Preparing(_, _) => 1
    case Applying(_, _) => 1
    case Auditing(_, _) => 1
    case ReadingToken(_, _) => 3
    case Responding(_, _, _) => 1
    case DroppingToken(_, _) => 2
    case Marking(_, _) => 1
  }

  /** What a failing step of thread `t` leaves of claim `c`, and of what decides its fate. */
  ghost predicate Fails(s: State, s': State, t: nat, c: nat) {
    && s'.open == s.open && s'.nextId == s.nextId
    && (c < |s.claims| ==>
          && c < |s'.claims| && s'.claims[c].progress.record == s.claims[c].progress.record
          && s'.claims[c].progress.gatewayApplied == s.claims[c].progress.gatewayApplied
          && (s'.claims[c].holder == s.claims[c].holder || s'.claims[c].holder.None? || s'.claims[c].holder == Some(t)))
  }

  lemma DecidingFails(s: State, t: nat, pc: Thread, c: nat)
    requires t < |s.threads| && (pc.Preparing? || pc.Applying? || pc.Auditing?) && pc.claim < |s.claims|
    ensures StepOwner(s, t, pc, Err) == Bail(s, t, pc.claim)
    ensures Fails(s, Bail(s, t, pc.claim), t, c)
  {
  }

  lemma AnsweringFails(s: State, t: nat, pc: Thread, c: nat)
    requires t < |s.threads| && (pc.ReadingToken? || pc.Responding? || pc.DroppingToken?) && pc.claim < |s.claims|
    ensures var s' := StepOwner(s, t, pc, Err);
            Fails(s, s', t, c) && t < |s'.threads| && Rank(s'.threads[t]) < Rank(pc)
  {
  }

  lemma OwnerFails(s: State, t: nat, pc: Thread, c: nat)
    requires t < |s.threads| && pc.HoldsProgress() && pc.claim < |s.claims|
    ensures var s' := StepOwner(s, t, pc, Err);
            Fails(s, s', t, c) && t < |s'.threads| && Rank(s'.threads[t]) < Rank(pc)
  {
    if pc.Preparing? || pc.Applying? || pc.Auditing? {
      DecidingFails(s, t, pc, c);
    } else {
      AnsweringFails(s, t, pc, c);
    }
  }

  lemma UnlockedFails(s: State, t: nat, pc: Thread, c: nat)
    requires t < |s.threads| && !pc.HoldsProgress() && StepUnlocked(s, t, pc, Err).Some?
    ensures var s' := StepUnlocked(s, t, pc, Err).value;
            Fails(s, s', t, c) && t < |s'.threads| && Rank(s'.threads[t]) < Rank(pc)
  {
  }

  lemma ClaimingStays(s: State, t: nat, call: Call)
    requires Sound(s.registry) && t < |s.threads|
    ensures var s' := StepClaiming(s, t, call);
            s'.registry == s.registry || !(s'.registry.entries.Keys <= s.registry.entries.Keys)
  {
    MakeRoomEvictsOnlyTheOldestFinished(s.registry);
    if call.id !in s.registry.entries && MakeRoom(s.registry).1 {
      assert call.id in StepClaiming(s, t, call).registry.entries.Keys;
    }
  }

  /** Short of listing a claim, a step registers a new id or leaves the registry alone. */
  lemma RegistryStays(s: State, t: nat)
    requires Inv(s) && t < |s.threads| && Next(s, Advance(t, Err)).Some? && !s.threads[t].Marking?
    ensures var s' := Next(s, Advance(t, Err)).value;
            s'.registry == s.registry || !(s'.registry.entries.Keys <= s.registry.entries.Keys)
  {
    var pc := s.threads[t];
    if pc.HoldsProgress() {
      assert WorkOk(t, pc, s.claims);
      C.OwnerKeepsRegistry(s, t, pc, Err);
    } else if pc.Claiming? {
      ClaimingStays(s, t, pc.call);
    } else {
      OthersKeepRegistry(s, t, pc, Err);
    }
  }

  /** There is room, or the claim of `id` is not dead and no thread but `u` is at work on it. */
  ghost predicate Hope(s: State, u: nat, id: Id) {
    || |s.registry.entries| < MAX_RESOLUTION_ENTRIES
    || (&& id in s.registry.entries && s.registry.entries[id] < |s.claims|
        && !C.Dead(s, s.registry.entries[id])
        && (s.claims[s.registry.entries[id]].holder.None? || s.claims[s.registry.entries[id]].holder == Some(u)))
  }

  lemma IdleGrows(s: State, u: nat, id: Id, ids: set<Id>)
    requires Good(s) && u < |s.threads| && s.threads[u] == Idle && s.registry.entries.Keys <= ids && Hope(s, u, id)
    ensures CanGrow(s, ids)
  {
    if |s.registry.entries| < MAX_RESOLUTION_ENTRIES || s.registry.terminalOrder != [] {
      IdleAdmits(s, u, ids);
    } else if Finished(s, id) {
      var t: nat :| Marks(s.threads, t, id);
      MarkerAdmits(s, t, ids);
    } else {
      FreeClaimAdmits(s, u, id, ids);
    }
  }

  lemma HopeStays(s: State, s': State, u: nat, id: Id)
    requires Hope(s, u, id) && s'.registry == s.registry
    requires id in s.registry.entries ==> Fails(s, s', u, s.registry.entries[id])
    ensures Hope(s', u, id)
  {
  }

  lemma FailingStep(s: State, u: nat, c: nat)
    requires Inv(s) && u < |s.threads| && Next(s, Advance(u, Err)).Some?
    ensures var s' := Next(s, Advance(u, Err)).value;
            Fails(s, s', u, c) && u < |s'.threads| && Rank(s'.threads[u]) < Rank(s.threads[u])
  {
    var pc := s.threads[u];
    if pc.HoldsProgress() {
      assert WorkOk(u, pc, s.claims);
      OwnerFails(s, u, pc, c);
    } else {
      UnlockedFails(s, u, pc, c);
    }
  }

  /** Whoever a thread waits for is inside a progress lock, and can take over. */
  lemma HolderHasHope(s: State, u: nat, id: Id)
    requires Inv(s) && u < |s.threads| && s.threads[u].Locking? && Hope(s, u, id)
    requires s.threads[u].claim < |s.claims| && s.claims[s.threads[u].claim].holder.Some?
    ensures var v := s.claims[s.threads[u].claim].holder.value;
            v < |s.threads| && Rank(s.threads[v]) < Rank(s.threads[u]) && Hope(s, v, id)
  {
    var v := s.claims[s.threads[u].claim].holder.value;
    assert s.threads[v].HoldsProgress() && s.threads[v].claim == s.threads[u].claim;
  }

  /** Every call of the thread, and of whoever it waits for, fails until one of them can be of use. */
  lemma {:induction false} ThreadGrows(s: State, u: nat, id: Id, ids: set<Id>)
    requires Good(s) && u < |s.threads| && s.registry.entries.Keys == ids && Hope(s, u, id)
    ensures CanGrow(s, ids)
    decreases Rank(s.threads[u])
  {
    var pc, e := s.threads[u], Advance(u, Err);
    assert WorkOk(u, pc, s.claims);
    if pc.Idle? {
      IdleGrows(s, u, id, ids);
    } else if pc.Marking? {
      MarkerAdmits(s, u, ids);
    } else if pc.Locking? && s.claims[pc.claim].holder.Some? {
      HolderHasHope(s, u, id);
      ThreadGrows(s, s.claims[pc.claim].holder.value, id, ids);
    } else {
      var s' := Next(s, e).value;
      FailingStep(s, u, if id in s.registry.entries then s.registry.entries[id] else 0);
      RegistryStays(s, u);
      if s'.registry == s.registry {
        StepKeepsGood(s, e);
        HopeStays(s, s', u, id);
        ThreadGrows(s', u, id, ids);
      } else {
        GrownAlready(s', ids);
      }
      GrowsAfterStep(s, e, ids);
    }
  }

  /**
    The exact condition: from a reachable state no run ever registers another id if and only if the
    registry is full of claims that can never finish.
   */
  lemma CloggedIffNothingNewFits(threads: nat, before: seq<Event>, s: State)
    requires T.Reaches(threads, before, s) && threads > 0
    ensures C.Clogged(s) <==>
              forall events :: !Grows(s, events, s.registry.entries.Keys)
  {
    T.ReachesInv(threads, before, s);
    if C.Clogged(s) {
      forall events
        ensures !Grows(s, events, s.registry.entries.Keys)
      {
        if Run(s, events).Some? {
          C.CloggedForever(s, events);
        }
      }
    } else {
      UncloggedGrows(threads, before, s);
    }
  }

  lemma UncloggedGrows(threads: nat, before: seq<Event>, s: State)
    requires T.Reaches(threads, before, s) && threads > 0 && !C.Clogged(s)
    ensures CanGrow(s, s.registry.entries.Keys)
  {
    InitialInv(threads);
    RunKeepsGood(Initial(threads), before);
    RunKeepsThreads(Initial(threads), before);
    if |s.registry.entries| < MAX_RESOLUTION_ENTRIES {
      ThreadGrows(s, 0, 0, s.registry.entries.Keys);
    } else {
      var id :| id in s.registry.entries && !C.Dead(s, s.registry.entries[id]);
      var holder := s.claims[s.registry.entries[id]].holder;
      ThreadGrows(s, if holder.Some? then holder.value else 0, id, s.registry.entries.Keys);
    }
  }

  lemma {:induction false} RunKeepsThreads(s: State, events: seq<Event>)
    requires Run(s, events).Some?
    ensures |Run(s, events).value.threads| == |s.threads|
    decreases |events|
  {
    if events != [] {
      P.StepMoves(s, events[0]);
      RunKeepsThreads(Next(s, events[0]).value, events[1..]);
    }
  }
}
