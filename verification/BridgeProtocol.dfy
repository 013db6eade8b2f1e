/**
  The approval bridge as a step machine.

  Any number of threads run `poll_once` and `resolve`.  A thread's program counter moves at lock
  boundaries and external calls, and the caller of `Next` chooses how each external call answers.
  A critical section holding a mutex that contains at most one external call is one step.
 */
module BridgeProtocol {
  import opened Options
  import opened Resolutions

  type Token = nat
  type Reviewer = string
  /** Projected amount and risk level, opaque to the bridge. */
  type Outcome = string

  datatype Decision = Approved | Rejected

  datatype AuditRecord =
    AuditRecord(id: Id, decision: Decision, decidedBy: Reviewer, decidedAtMs: nat, outcome: Option<Outcome>)

  datatype Progress =
    Progress(decision: Decision, record: AuditRecord, gatewayApplied: bool, audited: bool, chatUpdated: bool)
  {
    predicate IsSameDecision(d: Decision, who: Reviewer) {
      decision == d && record.decidedBy == who
    }
  }

  /** Claims outlive their registry entry: a thread may still hold a reference to an evicted one. */
  datatype Claim = Claim(progress: Progress, holder: Option<nat>)

  datatype NotificationState = Notifying | Notified(token: Token)

  datatype Pending = Pending(id: Id, outcome: Option<Outcome>)

  /** One call of `resolve`; `nowMs` is what the clock shows when a claim is made. */
  datatype Call = Call(id: Id, decision: Decision, who: Reviewer, nowMs: nat)

  /** What the outside world saw, each entry tagged with the claim on whose behalf it happened. */
  datatype Applied = Applied(id: Id, decision: Decision, claim: nat)
  datatype Logged = Logged(record: AuditRecord, claim: nat)
  datatype Response = Response(id: Id, token: Token, decision: Decision, who: Reviewer, claim: nat)

  datatype Thread =
    | Idle
    | PollCheck(id: Id)
    | PollNotify(id: Id)
    | PollUndo(id: Id)
    | PollStore(id: Id, token: Token)
    | Claiming(call: Call)
    | Locking(call: Call, claim: nat)
    | Preparing(call: Call, claim: nat)
    | Applying(call: Call, claim: nat)
    | Auditing(call: Call, claim: nat)
    | ReadingToken(call: Call, claim: nat)
    | Responding(call: Call, claim: nat, token: Token)
    | DroppingToken(call: Call, claim: nat)
    | Marking(id: Id, claim: nat)
  {
    /** Between `progress.lock()` and the drop of the guard. */
    predicate HoldsProgress() {
      Preparing? || Applying? || Auditing? || ReadingToken? || Responding? || DroppingToken?
    }

    predicate Posting() {
      PollNotify? || PollUndo? || PollStore?
    }
  }

  datatype State = State(
    pending: Option<Pending>,      // what the gateway reports, however stale
    open: set<Id>,                 // issued ids whose request can still be resolved
    nextId: Id,                    // ids from here on were never issued
    applied: seq<Applied>,         // decisions the gateway accepted
    trail: seq<Logged>,            // the audit log
    tokens: map<Id, NotificationState>,
    issued: seq<Id>,               // token k was issued for issued[k]
    posted: multiset<Id>,          // successful notify calls
    closed: multiset<Id>,          // tokens removed after a successful respond
    responses: seq<Response>,
    claims: seq<Claim>,
    registry: Registry,
    threads: seq<Thread>
  )

  /** How an external call answers. `LateErr` fails after taking effect. */
  datatype Reply = Ok | Err | LateErr

  datatype Event =
    | NewRequest(outcome: Option<Outcome>)    // a request is first reported, under a fresh id
    | Report(seen: Option<Pending>)           // the gateway reports nothing, or an id it issued before
    | Close(id: Id)                           // a request disappears without the bridge
    | StartPoll(t: nat)
    | StartResolve(t: nat, call: Call)
    | Advance(t: nat, reply: Reply)

  function Initial(threads: nat): State {
    State(None, {}, 0, [], [], map[], [], multiset{}, multiset{}, [], [], Registry(map[], []), seq(threads, _ => Idle))
  }

  function Goto(s: State, t: nat, pc: Thread): State
    requires t < |s.threads|
  {
    s.(threads := s.threads[t := pc])
  }

  /** Stores new progress in a claim, with or without keeping its lock. */
  function SetClaim(s: State, c: nat, claim: Claim): State
    requires c < |s.claims|
  {
    s.(claims := s.claims[c := claim])
  }

  /** Leaves `resolve` early: the progress guard is dropped, the progress stays as it is. */
  function Bail(s: State, t: nat, c: nat): State
    requires t < |s.threads| && c < |s.claims|
  {
    Goto(SetClaim(s, c, s.claims[c].(holder := None)), t, Idle)
  }

  function NewProgress(call: Call, outcome: Option<Outcome>): Progress {
    Progress(call.decision, AuditRecord(call.id, call.decision, call.who, call.nowMs, outcome), false, false, false)
  }

  predicate Known(s: State, id: Id) {
    exists i :: 0 <= i < |s.trail| && s.trail[i].record.id == id
  }

  predicate KnownAs(s: State, record: AuditRecord) {
    exists i :: 0 <= i < |s.trail| && s.trail[i].record == record
  }

  /** The thread takes an entry of the registry, or makes one if there is room. */
  function StepClaiming(s: State, t: nat, call: Call): State
    requires t < |s.threads|
  {
    if call.id in s.registry.entries then
      Goto(s, t, Locking(call, s.registry.entries[call.id]))
    else
      var (registry, ok) := MakeRoom(s.registry);
      if !ok then Goto(s.(registry := registry), t, Idle)
      else
        var outcome := if Reports(s, call.id) then s.pending.value.outcome else None;
        var c := |s.claims|;
        Goto(s.(claims := s.claims + [Claim(NewProgress(call, outcome), None)],
                registry := registry.(entries := registry.entries[call.id := c])),
             t, Locking(call, c))
  }

  /** Where a call goes once it owns the progress lock: the first phase not yet done. */
  function FirstUnfinished(p: Progress, call: Call, c: nat): Thread {
    if !p.gatewayApplied then Preparing(call, c)
    else if !p.audited then Auditing(call, c)
    else ReadingToken(call, c)
  }

  /** Disabled while another thread holds the progress lock. */
  function StepLocking(s: State, t: nat, call: Call, c: nat): Option<State>
    requires t < |s.threads|
  {
    if c >= |s.claims| || s.claims[c].holder.Some? then None
    else
      var p := s.claims[c].progress;
      if !p.IsSameDecision(call.decision, call.who) || p.chatUpdated then Some(Goto(s, t, Idle))
      else Some(Goto(SetClaim(s, c, s.claims[c].(holder := Some(t))), t, FirstUnfinished(p, call, c)))
  }

  predicate Reports(s: State, id: Id) {
    s.pending.Some? && s.pending.value.id == id
  }

  /** The gateway resolves the id exactly when its request is still open. */
  function StepApplying(s: State, t: nat, call: Call, c: nat, reply: Reply): State
    requires t < |s.threads| && c < |s.claims|
  {
    if reply != Ok || call.id !in s.open then Bail(s, t, c)
    else
      var p := s.claims[c].progress;
      var next := p.(gatewayApplied := true);
      Goto(SetClaim(s.(pending := if Reports(s, call.id) then None else s.pending, open := s.open - {call.id},
                       applied := s.applied + [Applied(call.id, call.decision, c)]),
                    c, s.claims[c].(progress := next)),
           t, FirstUnfinished(next, call, c))
  }

  /**
    The audit trail as an append-once log that forgets nothing and whose last fsync may fail;
    `BridgeOverTrail` puts the real trail in its place.
   */
  function StepAuditing(s: State, t: nat, call: Call, c: nat, reply: Reply): State
    requires t < |s.threads| && c < |s.claims|
  {
    var p := s.claims[c].progress;
    if reply == Err || (Known(s, p.record.id) && !KnownAs(s, p.record)) then Bail(s, t, c)
    else
      var s1 := if Known(s, p.record.id) then s else s.(trail := s.trail + [Logged(p.record, c)]);
      if reply == LateErr then Bail(s1, t, c)
      else Goto(SetClaim(s1, c, s.claims[c].(progress := p.(audited := true))), t, ReadingToken(call, c))
  }

  /** Sets `chat_updated` and drops the guard. */
  function Finish(s: State, t: nat, call: Call, c: nat): State
    requires t < |s.threads| && c < |s.claims|
  {
    Goto(SetClaim(s, c, Claim(s.claims[c].progress.(chatUpdated := true), None)), t, Marking(call.id, c))
  }

  function StepReadingToken(s: State, t: nat, call: Call, c: nat): State
    requires t < |s.threads| && c < |s.claims|
  {
    if call.id !in s.tokens then Finish(s, t, call, c)
    else match s.tokens[call.id]
      case Notifying => Bail(s, t, c)
      case Notified(token) => Goto(s, t, Responding(call, c, token))
  }

  function StepResponding(s: State, t: nat, call: Call, c: nat, token: Token, reply: Reply): State
    requires t < |s.threads| && c < |s.claims|
  {
    if reply == Err then Bail(s, t, c)
    else
      var s1 := s.(responses := s.responses + [Response(call.id, token, call.decision, call.who, c)]);
      if reply == LateErr then Bail(s1, t, c) else Goto(s1, t, DroppingToken(call, c))
  }

  function StepDroppingToken(s: State, t: nat, call: Call, c: nat): State
    requires t < |s.threads| && c < |s.claims|
  {
    Finish(s.(tokens := s.tokens - {call.id}, closed := s.closed + multiset{call.id}), t, call, c)
  }

  function StepPollCheck(s: State, t: nat, id: Id): State
    requires t < |s.threads|
  {
    if id in s.tokens then Goto(s, t, Idle)
    else Goto(s.(tokens := s.tokens[id := Notifying]), t, PollNotify(id))
  }

  function StepPollNotify(s: State, t: nat, id: Id, reply: Reply): State
    requires t < |s.threads|
  {
    if reply == Ok then
      Goto(s.(issued := s.issued + [id], posted := s.posted + multiset{id}), t, PollStore(id, |s.issued|))
    else Goto(s, t, PollUndo(id))
  }

  /** A step inside the progress lock of an existing claim. */
  function StepOwner(s: State, t: nat, pc: Thread, reply: Reply): State
    requires t < |s.threads| && pc.HoldsProgress() && pc.claim < |s.claims|
  {
    match pc
    case Preparing(call, c) => if reply == Ok then Goto(s, t, Applying(call, c)) else Bail(s, t, c)
    case Applying(call, c) => StepApplying(s, t, call, c, reply)
    case Auditing(call, c) => StepAuditing(s, t, call, c, reply)
    case ReadingToken(call, c) => StepReadingToken(s, t, call, c)
    case Responding(call, c, token) => StepResponding(s, t, call, c, token, reply)
    case DroppingToken(call, c) => StepDroppingToken(s, t, call, c)
  }

  /** A step of a thread outside every progress lock. */
  function StepUnlocked(s: State, t: nat, pc: Thread, reply: Reply): Option<State>
    requires t < |s.threads| && !pc.HoldsProgress()
  {
    match pc
    case Idle => None
    case PollCheck(id) => Some(StepPollCheck(s, t, id))
    case PollNotify(id) => Some(StepPollNotify(s, t, id, reply))
    case PollUndo(id) => Some(Goto(s.(tokens := s.tokens - {id}), t, Idle))
    case PollStore(id, token) => Some(Goto(s.(tokens := s.tokens[id := Notified(token)]), t, Idle))
    case Claiming(call) => Some(StepClaiming(s, t, call))
    case Locking(call, c) => StepLocking(s, t, call, c)
    case Marking(id, c) => Some(Goto(s.(registry := Retire(s.registry, id)), t, Idle))
  }

  function StepThread(s: State, t: nat, reply: Reply): Option<State>
    requires t < |s.threads|
  {
    var pc := s.threads[t];
    if !pc.HoldsProgress() then StepUnlocked(s, t, pc, reply)
    else if pc.claim >= |s.claims| then None
    else Some(StepOwner(s, t, pc, reply))
  }

  /** One step of the whole bridge; `None` when the event cannot happen in `s`. */
  function Next(s: State, e: Event): Option<State> {
    match e
    case NewRequest(outcome) =>
      Some(s.(pending := Some(Pending(s.nextId, outcome)), open := s.open + {s.nextId}, nextId := s.nextId + 1))
    case Report(seen) => if seen.Some? && seen.value.id >= s.nextId then None else Some(s.(pending := seen))
    case Close(id) => Some(s.(open := s.open - {id}))
    case StartPoll(t) =>
      if t >= |s.threads| || s.threads[t] != Idle then None
      else if s.pending.None? then Some(s)
      else Some(Goto(s, t, PollCheck(s.pending.value.id)))
    case StartResolve(t, call) =>
      if t >= |s.threads| || s.threads[t] != Idle then None
      else Some(Goto(s, t, Claiming(call)))
    case Advance(t, reply) =>
      if t >= |s.threads| then None else StepThread(s, t, reply)
  }

  /** A run takes every event in turn; `None` when one of them cannot happen. */
  function Run(s: State, events: seq<Event>): Option<State>
    decreases |events|
  {
    if events == [] then Some(s)
    else
      var next := Next(s, events[0]);
      if next.None? then None else Run(next.value, events[1..])
  }
}
