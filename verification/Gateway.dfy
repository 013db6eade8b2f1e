/**
  The approval gateway over live sessions: which pending request a bridge-minted id stands for, when
  requests come, go and are replaced, and the session itself is swapped, between any two steps.
 */
module Gateway {
  import opened Options

  /** Runtime identity of one approval cycle; a session is identified by its allocation. */
  type RequestId = nat
  type SessionId = nat
  /** A bridge-minted id; the next fresh one is a counter. */
  type BridgeId = nat

  datatype RequestKey = RequestKey(session: SessionId, request: RequestId)

  /** The single slot: the key observed last and the id minted for it. */
  datatype Cache = Cache(slot: Option<(RequestKey, BridgeId)>, nextId: BridgeId)

  function Peek(c: Cache, key: RequestKey): Option<BridgeId> {
    if c.slot.Some? && c.slot.value.0 == key then Some(c.slot.value.1) else None
  }

  function IdFor(c: Cache, key: RequestKey): (Cache, BridgeId) {
    var known := Peek(c, key);
    if known.Some? then (c, known.value) else (Cache(Some((key, c.nextId)), c.nextId + 1), c.nextId)
  }

  class MintedIdCache {
    var slot: Option<(RequestKey, BridgeId)>
    var nextId: BridgeId

    constructor ()
      ensures View() == Cache(None, 0)
    {
      slot, nextId := None, 0;
    }

    ghost function View(): Cache
      reads this
    {
      Cache(slot, nextId)
    }

    method IdForKey(key: RequestKey) returns (id: BridgeId)
      modifies this
      ensures (View(), id) == IdFor(old(View()), key)
    {
      if slot.Some? {
        if slot.value.0 == key {
          return slot.value.1;
        }
      }
      id := nextId;
      nextId := nextId + 1;
      slot := Some((key, id));
    }

    /** Never mints, so checking an id cannot invalidate one a client already holds. */
    method PeekAt(key: RequestKey) returns (id: Option<BridgeId>)
      ensures id == Peek(View(), key)
    {
      if slot.Some? && slot.value.0 == key {
        return Some(slot.value.1);
      }
      return None;
    }

    method Clear()
      modifies this
      ensures View() == old(View()).(slot := None)
    {
      slot := None;
    }
  }

  datatype Thread =
    | Idle
    | PollSession(session: SessionId)
    | PollSnapshot(session: SessionId, seen: Option<RequestId>)
    | DecideSession(id: BridgeId, approve: bool, session: SessionId)
    | DecideSnapshot(id: BridgeId, approve: bool, session: SessionId, request: RequestId)
    | DecideValidated(id: BridgeId, approve: bool, session: SessionId, request: RequestId)

  datatype Resolution = Resolution(id: BridgeId, approve: bool, session: SessionId, request: RequestId)

  datatype State = State(
    pending: seq<Option<RequestId>>,   // one entry for each session ever opened
    active: SessionId,
    nextRequest: RequestId,
    cache: Cache,
    minted: seq<RequestKey>,           // minted[id] is the key id was minted for
    resolved: seq<Resolution>,
    threads: seq<Thread>
  )

  datatype Event =
    | Raise(session: SessionId)        // a new or replacing request on a session
    | Withdraw(session: SessionId)     // cleared without the bridge
    | Swap                             // the provider moves to a new session
    | Restart                          // the gateway's process stops and a new one begins
    | StartPoll(t: nat)
    | StartDecide(t: nat, id: BridgeId, approve: bool)
    | Advance(t: nat, fails: bool)

  function Initial(threads: nat): State {
    State([None], 0, 0, Cache(None, 0), [], [], seq(threads, _ => Idle))
  }

  function Goto(s: State, t: nat, pc: Thread): State
    requires t < |s.threads|
  {
    s.(threads := s.threads[t := pc])
  }

  /** The id a poll reports for what it saw; minting is remembered. */
  function Mint(s: State, key: RequestKey): State {
    var (cache, id) := IdFor(s.cache, key);
    s.(cache := cache, minted := if Peek(s.cache, key).Some? then s.minted else s.minted + [key])
  }

  /** `*_if_current`: compare and resolve in one step under the session's approval lock. */
  function ResolveIfCurrent(s: State, r: Resolution, fails: bool): State {
    if fails || r.session >= |s.pending| || s.pending[r.session] != Some(r.request) then s
    else s.(pending := s.pending[r.session := None], resolved := s.resolved + [r])
  }

  function StepThread(s: State, t: nat, fails: bool): Option<State>
    requires t < |s.threads|
  {
    match s.threads[t]
    case Idle => None
    case PollSession(session) =>
      if session >= |s.pending| then None else Some(Goto(s, t, PollSnapshot(session, s.pending[session])))
    case PollSnapshot(session, request) =>
      if request.None? then Some(Goto(s.(cache := s.cache.(slot := None)), t, Idle))
      else Some(Goto(Mint(s, RequestKey(session, request.value)), t, Idle))
    case DecideSession(id, approve, session) =>
      if session >= |s.pending| then None
      else if s.pending[session].None? then Some(Goto(s, t, Idle))
      else Some(Goto(s, t, DecideSnapshot(id, approve, session, s.pending[session].value)))
    case DecideSnapshot(id, approve, session, request) =>
      if Peek(s.cache, RequestKey(session, request)) == Some(id)
      then Some(Goto(s, t, DecideValidated(id, approve, session, request)))
      else Some(Goto(s, t, Idle))
    case DecideValidated(id, approve, session, request) =>
      Some(Goto(ResolveIfCurrent(s, Resolution(id, approve, session, request), fails), t, Idle))
  }

  function Next(s: State, e: Event): Option<State> {
    match e
    case Raise(session) =>
      if session >= |s.pending| then None
      else Some(s.(pending := s.pending[session := Some(s.nextRequest)], nextRequest := s.nextRequest + 1))
    case Withdraw(session) =>
      if session >= |s.pending| then None else Some(s.(pending := s.pending[session := None]))
    case Swap => Some(s.(pending := s.pending + [None], active := |s.pending|))
    case Restart => Some(s.(cache := s.cache.(slot := None), threads := seq(|s.threads|, _ => Idle)))
    case StartPoll(t) =>
      if t >= |s.threads| || s.threads[t] != Idle then None else Some(Goto(s, t, PollSession(s.active)))
    case StartDecide(t, id, approve) =>
      if t >= |s.threads| || s.threads[t] != Idle then None else Some(Goto(s, t, DecideSession(id, approve, s.active)))
    case Advance(t, fails) => if t >= |s.threads| then None else StepThread(s, t, fails)
  }

  function Run(s: State, events: seq<Event>): Option<State>
    decreases |events|
  {
    if events == [] then Some(s)
    else
      var next := Next(s, events[0]);
      if next.None? then None else Run(next.value, events[1..])
  }

  // ---- the invariant ----

  ghost predicate MintedInv(s: State) {
    && s.cache.nextId == |s.minted|
    && (forall id :: 0 <= id < |s.minted| ==> s.minted[id].request < s.nextRequest)
    && (s.cache.slot.Some? ==>
          s.cache.slot.value.1 < |s.minted| && s.minted[s.cache.slot.value.1] == s.cache.slot.value.0)
  }

  ghost predicate PendingInv(s: State) {
    && s.active < |s.pending|
    && (forall a :: 0 <= a < |s.pending| && s.pending[a].Some? ==> s.pending[a].value < s.nextRequest)
    && (forall a, b :: 0 <= a < b < |s.pending| && s.pending[a].Some? ==> s.pending[a] != s.pending[b])
  }

  ghost predicate ResolvedInv(s: State) {
    && (forall i :: 0 <= i < |s.resolved| ==>
          && s.resolved[i].id < |s.minted|
          && s.minted[s.resolved[i].id] == RequestKey(s.resolved[i].session, s.resolved[i].request)
          && s.resolved[i].request < s.nextRequest)
    && (forall i, j :: 0 <= i < j < |s.resolved| ==> s.resolved[i].request != s.resolved[j].request)
    && (forall i, a :: 0 <= i < |s.resolved| && 0 <= a < |s.pending| ==> s.pending[a] != Some(s.resolved[i].request))
  }

  ghost predicate ThreadOk(s: State, pc: Thread) {
    && (pc.DecideValidated? ==> pc.id < |s.minted| && s.minted[pc.id] == RequestKey(pc.session, pc.request))
    && (pc.PollSnapshot? && pc.seen.Some? ==> pc.seen.value < s.nextRequest)
  }

  ghost predicate Inv(s: State) {
    && MintedInv(s) && PendingInv(s) && ResolvedInv(s)
    && (forall t :: 0 <= t < |s.threads| ==> ThreadOk(s, s.threads[t]))
  }

  lemma MintKeeps(s: State, key: RequestKey)
    requires Inv(s) && key.request < s.nextRequest
    ensures Inv(Mint(s, key)) && s.minted <= Mint(s, key).minted
  {
  }

  lemma ResolveKeeps(s: State, r: Resolution, fails: bool)
    requires Inv(s) && r.id < |s.minted| && s.minted[r.id] == RequestKey(r.session, r.request)
    ensures Inv(ResolveIfCurrent(s, r, fails))
  {
  }

  lemma GotoKeeps(s: State, t: nat, pc: Thread)
    requires Inv(s) && t < |s.threads| && ThreadOk(s, pc)
    ensures Inv(Goto(s, t, pc))
  {
  }

  lemma RaiseKeeps(s: State, session: SessionId)
    requires Inv(s) && session < |s.pending|
    ensures Inv(s.(pending := s.pending[session := Some(s.nextRequest)], nextRequest := s.nextRequest + 1))
    ensures Inv(s.(pending := s.pending[session := None]))
  {
  }

  lemma PollInv(s: State, t: nat, fails: bool)
    requires Inv(s) && t < |s.threads| && StepThread(s, t, fails).Some?
    requires s.threads[t].PollSession? || s.threads[t].PollSnapshot?
    ensures Inv(StepThread(s, t, fails).value)
    ensures s.minted <= StepThread(s, t, fails).value.minted
  {
    if s.threads[t].PollSession? {
      GotoKeeps(s, t, PollSnapshot(s.threads[t].session, s.pending[s.threads[t].session]));
    } else if s.threads[t].seen.None? {
      ClearKeeps(s);
      GotoKeeps(s.(cache := s.cache.(slot := None)), t, Idle);
    } else {
      assert ThreadOk(s, s.threads[t]);
      var key := RequestKey(s.threads[t].session, s.threads[t].seen.value);
      MintKeeps(s, key);
      GotoKeeps(Mint(s, key), t, Idle);
    }
  }

  lemma ResolveInv(s: State, t: nat, fails: bool)
    requires Inv(s) && t < |s.threads| && s.threads[t].DecideValidated?
    ensures Inv(StepThread(s, t, fails).value)
    ensures s.minted <= StepThread(s, t, fails).value.minted
  {
    var pc := s.threads[t];
    assert ThreadOk(s, pc);
    var r := Resolution(pc.id, pc.approve, pc.session, pc.request);
    ResolveKeeps(s, r, fails);
    GotoKeeps(ResolveIfCurrent(s, r, fails), t, Idle);
  }

  lemma ThreadInv(s: State, t: nat, fails: bool)
    requires Inv(s) && t < |s.threads| && StepThread(s, t, fails).Some?
    ensures Inv(StepThread(s, t, fails).value)
    ensures s.minted <= StepThread(s, t, fails).value.minted
  {
    match s.threads[t]
    case PollSession(_) => PollInv(s, t, fails);
    case PollSnapshot(_, _) => PollInv(s, t, fails);
    case DecideSession(_, _, _) => GotoKeeps(s, t, StepThread(s, t, fails).value.threads[t]);
    case DecideSnapshot(_, _, _, _) => GotoKeeps(s, t, StepThread(s, t, fails).value.threads[t]);
    case DecideValidated(_, _, _, _) => ResolveInv(s, t, fails);
  }

  lemma ClearKeeps(s: State)
    requires Inv(s)
    ensures Inv(s.(cache := s.cache.(slot := None)))
  {
  }

  lemma SwapKeeps(s: State)
    requires Inv(s)
    ensures Inv(s.(pending := s.pending + [None], active := |s.pending|))
  {
  }

  lemma RestartKeeps(s: State)
    requires Inv(s)
    ensures Inv(s.(cache := s.cache.(slot := None), threads := seq(|s.threads|, _ => Idle)))
  {
  }

  lemma NextInv(s: State, e: Event)
    requires Inv(s) && Next(s, e).Some?
    ensures Inv(Next(s, e).value)
    ensures s.minted <= Next(s, e).value.minted
  {
    match e
    case Raise(session) => RaiseKeeps(s, session);
    case Withdraw(session) => RaiseKeeps(s, session);
    case Swap => SwapKeeps(s);
    case Restart => RestartKeeps(s);
    case StartPoll(t) => GotoKeeps(s, t, PollSession(s.active));
    case StartDecide(t, id, approve) => GotoKeeps(s, t, DecideSession(id, approve, s.active));
    case Advance(t, fails) => ThreadInv(s, t, fails);
  }

  lemma {:induction false} RunInv(s: State, events: seq<Event>)
    requires Inv(s) && Run(s, events).Some?
    ensures Inv(Run(s, events).value) && s.minted <= Run(s, events).value.minted
    decreases |events|
  {
    if events != [] {
      NextInv(s, events[0]);
      RunInv(Next(s, events[0]).value, events[1..]);
    }
  }

  /**
    Over all runs of polls, replacements, withdrawals and session swaps, every decision that took
    effect resolved exactly the request its id was minted for, no request and no id is resolved
    twice, and what an id stands for never changes.
   */
  lemma DecisionsHitTheirRequest(threads: nat, events: seq<Event>)
    requires Run(Initial(threads), events).Some?
    ensures var s := Run(Initial(threads), events).value;
            && (forall i :: 0 <= i < |s.resolved| ==>
                  && s.resolved[i].id < |s.minted|
                  && s.minted[s.resolved[i].id] == RequestKey(s.resolved[i].session, s.resolved[i].request))
            && (forall i, j :: 0 <= i < j < |s.resolved| ==>
                  s.resolved[i].request != s.resolved[j].request && s.resolved[i].id != s.resolved[j].id)
  {
    RunInv(Initial(threads), events);
    var s := Run(Initial(threads), events).value;
    forall i, j | 0 <= i < j < |s.resolved|
      ensures s.resolved[i].id != s.resolved[j].id
    {
      assert s.resolved[i].request != s.resolved[j].request;
    }
  }

  /** The request of a key is the one its session has pending. */
  predicate Live(s: State, key: RequestKey) {
    key.session < |s.pending| && s.pending[key.session] == Some(key.request)
  }

  lemma StaleStep(s: State, e: Event, id: BridgeId)
    requires Inv(s) && Next(s, e).Some? && id < |s.minted| && !Live(s, s.minted[id])
    ensures var s' := Next(s, e).value;
            && id < |s'.minted| && s'.minted[id] == s.minted[id] && !Live(s', s'.minted[id])
            && s.resolved <= s'.resolved
            && forall i :: |s.resolved| <= i < |s'.resolved| ==> s'.resolved[i].id != id
  {
    NextInv(s, e);
    if e.Advance? && s.threads[e.t].DecideValidated? {
      assert ThreadOk(s, s.threads[e.t]);
    }
  }

  /**
    An id whose request is gone never resolves anything again: over every run from there on, whole
    decisions and decisions already validated included, whatever is raised, swapped or minted.
   */
  lemma {:induction false} StaleIdNeverResolves(s: State, events: seq<Event>, id: BridgeId)
    requires Inv(s) && id < |s.minted| && !Live(s, s.minted[id])
    requires Run(s, events).Some?
    ensures var s' := Run(s, events).value;
            && s.resolved <= s'.resolved
            && forall i :: |s.resolved| <= i < |s'.resolved| ==> s'.resolved[i].id != id
    decreases |events|
  {
    if events != [] {
      NextInv(s, events[0]);
      StaleStep(s, events[0], id);
      StaleIdNeverResolves(Next(s, events[0]).value, events[1..], id);
    }
  }

  /** A decision on its way to the session: the id was checked, nothing is resolved yet. */
  function Validate(t: nat, id: BridgeId, approve: bool): seq<Event> {
    [StartDecide(t, id, approve)] + ([Advance(t, false)] + ([Advance(t, false)] + []))
  }

  /** The four steps of one decision without interference. */
  function Decide(t: nat, id: BridgeId, approve: bool): seq<Event> {
    Validate(t, id, approve) + [Advance(t, false)]
  }

  lemma RunCons(s: State, e: Event, s1: State, rest: seq<Event>, end: State)
    requires Next(s, e) == Some(s1) && Run(s1, rest) == Some(end)
    ensures Run(s, [e] + rest) == Some(end)
  {
    assert ([e] + rest)[1..] == rest;
  }

  /** The decision's walk through its program counters. */
  lemma DecideSteps(s: State, t: nat, id: BridgeId, approve: bool, request: RequestId) returns (s3: State)
    requires t < |s.threads| && s.threads[t] == Idle && s.active < |s.pending|
    requires s.pending[s.active] == Some(request)
    requires Peek(s.cache, RequestKey(s.active, request)) == Some(id)
    ensures s3 == Goto(s, t, DecideValidated(id, approve, s.active, request))
    ensures Run(s, Validate(t, id, approve)) == Some(s3)
  {
    var e := Advance(t, false);
    var s1 := Goto(s, t, DecideSession(id, approve, s.active));
    var s2 := Goto(s1, t, DecideSnapshot(id, approve, s.active, request));
    s3 := Goto(s2, t, DecideValidated(id, approve, s.active, request));
    RunCons(s2, e, s3, [], s3);
    RunCons(s1, e, s2, [e] + [], s3);
    RunCons(s, StartDecide(t, id, approve), s1, [e] + ([e] + []), s3);
  }

  lemma {:induction false} RunAppend(s: State, first: seq<Event>, last: Event)
    requires Run(s, first).Some?
    ensures Run(s, first + [last]) == Next(Run(s, first).value, last)
    decreases |first|
  {
    if first == [] {
      assert [last][1..] == [];
    } else {
      assert (first + [last])[1..] == first[1..] + [last];
      RunAppend(Next(s, first[0]).value, first[1..], last);
    }
  }

  lemma DecisionTakesEffect(s: State, t: nat, id: BridgeId, approve: bool)
    requires t < |s.threads| && s.threads[t] == Idle
    requires s.active < |s.pending| && s.pending[s.active].Some?
    requires Peek(s.cache, RequestKey(s.active, s.pending[s.active].value)) == Some(id)
    ensures Run(s, Decide(t, id, approve)) ==
            Some(s.(pending := s.pending[s.active := None],
                    resolved := s.resolved + [Resolution(id, approve, s.active, s.pending[s.active].value)]))
  {
    var request := s.pending[s.active].value;
    var s3 := DecideSteps(s, t, id, approve, request);
    RunAppend(s, Validate(t, id, approve), Advance(t, false));
    ValidatedStep(s, t, id, approve, request);
  }

  /** The slot holds the id for the live session's pending request. */
  predicate SlotHolds(s: State, id: BridgeId) {
    && s.active < |s.pending| && s.pending[s.active].Some?
    && Peek(s.cache, RequestKey(s.active, s.pending[s.active].value)) == Some(id)
  }

  predicate IsDecision(events: seq<Event>, t: nat, id: BridgeId, approve: bool) {
    && events != [] && events[0] == StartDecide(t, id, approve)
    && forall k :: 1 <= k < |events| ==> events[k] == Advance(t, false)
  }

  /**
    A whole undisturbed decision resolves the live session's pending request if and only if the slot
    holds its id for that request, and otherwise leaves everything as it was.
   */
  lemma DecisionAlone(s: State, t: nat, id: BridgeId, approve: bool) returns (events: seq<Event>)
    requires t < |s.threads| && s.threads[t] == Idle && s.active < |s.pending|
    ensures IsDecision(events, t, id, approve)
    ensures Run(s, events) ==
            Some(if SlotHolds(s, id)
                 then s.(pending := s.pending[s.active := None],
                         resolved := s.resolved + [Resolution(id, approve, s.active, s.pending[s.active].value)])
                 else s)
  {
    var e := Advance(t, false);
    if SlotHolds(s, id) {
      events := Decide(t, id, approve);
      DecisionTakesEffect(s, t, id, approve);
      return;
    }
    var s1 := Goto(s, t, DecideSession(id, approve, s.active));
    if s.pending[s.active].None? {
      events := [StartDecide(t, id, approve)] + ([e] + []);
      assert s1.threads[t := Idle] == s.threads;
      RunCons(s1, e, s, [], s);
      RunCons(s, StartDecide(t, id, approve), s1, [e] + [], s);
    } else {
      events := [StartDecide(t, id, approve)] + ([e] + ([e] + []));
      var s2 := Goto(s1, t, DecideSnapshot(id, approve, s.active, s.pending[s.active].value));
      assert s2.threads[t := Idle] == s.threads;
      RunCons(s2, e, s, [], s);
      RunCons(s1, e, s2, [e] + [], s);
      RunCons(s, StartDecide(t, id, approve), s1, [e] + ([e] + []), s);
    }
  }

  lemma ValidatedStep(s: State, t: nat, id: BridgeId, approve: bool, request: RequestId)
    requires t < |s.threads| && s.threads[t] == Idle
    requires s.active < |s.pending| && s.pending[s.active] == Some(request)
    ensures Next(Goto(s, t, DecideValidated(id, approve, s.active, request)), Advance(t, false)) ==
            Some(s.(pending := s.pending[s.active := None],
                    resolved := s.resolved + [Resolution(id, approve, s.active, request)]))
  {
    assert s.threads[t := DecideValidated(id, approve, s.active, request)][t := Idle] == s.threads;
  }

  /** The three steps of one poll without interference. */
  function Poll(t: nat): seq<Event> {
    [StartPoll(t)] + ([Advance(t, false)] + ([Advance(t, false)] + []))
  }

  /** After an undisturbed poll the slot holds the id it reported for the request it saw. */
  lemma PollFillsTheSlot(s: State, t: nat)
    requires t < |s.threads| && s.threads[t] == Idle && s.active < |s.pending| && s.pending[s.active].Some?
    ensures var key := RequestKey(s.active, s.pending[s.active].value);
            && Run(s, Poll(t)) == Some(Mint(s, key))
            && Peek(Mint(s, key).cache, key) == Some(IdFor(s.cache, key).1)
            && (Peek(s.cache, key).Some? ==> Mint(s, key) == s)
  {
    var key := RequestKey(s.active, s.pending[s.active].value);
    var e := Advance(t, false);
    var s1 := Goto(s, t, PollSession(s.active));
    var s2 := Goto(s1, t, PollSnapshot(s.active, s.pending[s.active]));
    var s3 := Goto(Mint(s2, key), t, Idle);
    assert s3.threads == s.threads;
    assert s3 == Mint(s, key);
    RunCons(s2, e, s3, [], s3);
    RunCons(s1, e, s2, [e] + [], s3);
    RunCons(s, StartPoll(t), s1, [e] + ([e] + []), s3);
  }

  lemma EmptyPollClears(s: State, t: nat)
    requires t < |s.threads| && s.threads[t] == Idle && s.active < |s.pending| && s.pending[s.active].None?
    ensures Run(s, Poll(t)) == Some(s.(cache := s.cache.(slot := None)))
  {
    var e := Advance(t, false);
    var s1 := Goto(s, t, PollSession(s.active));
    var s2 := Goto(s1, t, PollSnapshot(s.active, None));
    var s3 := s.(cache := s.cache.(slot := None));
    assert s2.threads[t := Idle] == s.threads;
    RunCons(s2, e, s3, [], s3);
    RunCons(s1, e, s2, [e] + [], s3);
    RunCons(s, StartPoll(t), s1, [e] + ([e] + []), s3);
  }

  // ---- the in-place form: calls of one thread ----

  /** What the gateway reads and changes outside: the sessions and what was decided on them. */
  datatype Sessions =
    Sessions(pending: seq<Option<RequestId>>, active: SessionId, nextRequest: RequestId, resolved: seq<Resolution>)

  class PageSessionGateway {
    const cache: MintedIdCache
    var sessions: Sessions
    ghost var minted: seq<RequestKey>

    constructor ()
      ensures Valid() && fresh(cache) && View() == Initial(1)
    {
      cache := new MintedIdCache();
      sessions, minted := Sessions([None], 0, 0, []), [];
      new;
      assert View().threads == Initial(1).threads;
    }

    ghost function View(): State
      reads this, cache
    {
      State(sessions.pending, sessions.active, sessions.nextRequest, cache.View(), minted, sessions.resolved, [Idle])
    }

    ghost predicate Valid()
      reads this, cache
    {
      Inv(View())
    }

    /** A poll; an id is reported exactly when the live session has a request, and the slot then holds it. */
    method PendingRequest() returns (id: Option<BridgeId>)
      requires Valid()
      modifies this`minted, cache
      ensures Valid() && Run(old(View()), Poll(0)) == Some(View())
      ensures id.Some? <==> sessions.pending[sessions.active].Some?
      ensures id.Some? ==> SlotHolds(View(), id.value)
      ensures id.None? ==> cache.slot == None
    {
      ghost var before := View();
      var session := sessions.active;
      var snapshot := sessions.pending[session];
      if snapshot.None? {
        EmptyPollClears(before, 0);
        ClearKeeps(before);
        cache.Clear();
        return None;
      }
      var key := RequestKey(session, snapshot.value);
      PollFillsTheSlot(before, 0);
      MintKeeps(before, key);
      minted := Mint(before, key).minted;
      var known := cache.IdForKey(key);
      return Some(known);
    }

    /** The runtime identity that must still match at the commit, if the id is the slot's. */
    method ExpectedRequestId(session: SessionId, id: BridgeId) returns (expected: Option<RequestId>)
      requires session < |sessions.pending|
      ensures expected ==
              if sessions.pending[session].Some? &&
                 Peek(cache.View(), RequestKey(session, sessions.pending[session].value)) == Some(id)
              then sessions.pending[session] else None
    {
      var snapshot := sessions.pending[session];
      if snapshot.None? {
        return None;
      }
      var current := cache.PeekAt(RequestKey(session, snapshot.value));
      return if current == Some(id) then snapshot else None;
    }

    /** `approve` and `reject`: the live session's request is resolved, or nothing changes. */
    method Resolve(id: BridgeId, approve: bool, fails: bool) returns (ok: bool)
      requires Valid()
      modifies this`sessions
      ensures Valid() && ok == (SlotHolds(old(View()), id) && !fails)
      ensures ok ==> Run(old(View()), Decide(0, id, approve)) == Some(View())
      ensures ok ==> !SlotHolds(View(), id) && |sessions.resolved| == |old(sessions).resolved| + 1
      ensures !ok ==> sessions == old(sessions)
    {
      ghost var before := View();
      var session := sessions.active;
      var expected := ExpectedRequestId(session, id);
      if expected.None? || fails || sessions.pending[session] != expected {
        return false;
      }
      DecisionTakesEffect(before, 0, id, approve);
      var r := Resolution(id, approve, session, expected.value);
      ResolveKeeps(before, r, false);
      sessions := sessions.(pending := sessions.pending[session := None], resolved := sessions.resolved + [r]);
      return true;
    }
  }
}
