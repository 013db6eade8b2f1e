/**
  The whole approval path in one machine: the bridge's threads, the real gateway behind their polls
  and decisions, and the real trail behind their audit phases, interleaved step by step with every
  fault and with restarts of the process.  Each run of it is a run of the bridge over the trail.
 */
module BridgeSystem {
  import opened Options
  import opened Resolutions
  import opened BridgeProtocol
  import opened BridgeOverTrail
  import opened BridgeOverGateway
  import A = AuditTrail
  import G = Gateway
  import P = BridgePrompts
  import T = BridgeTheorems

  /**
    The bridge's own `pending`, `open`, `nextId` and `trail` are not used here; `decided` is what the
    gateway took from the bridges of earlier processes.
   */
  datatype System = System(bridge: State, trail: A.Trail, gateway: G.State, decided: seq<Applied>)

  datatype SystemEvent =
    | World(change: G.Event)                         // requests come and go, sessions are swapped
    | GatewayStep(t: nat)                            // a step inside the thread's gateway call
    | PollDone(t: nat, outcome: Option<Outcome>)     // `pending_request` returns to `poll_once`
    | ClaimDone(t: nat, outcome: Option<Outcome>)    // it returns to the claim section
    | Commit(t: nat, fails: bool)                    // the decision reaches the session
    | TrailStep(t: nat, faults: A.Faults)
    | Local(event: Event)                            // locks, tokens and the chat service
    | Restart                                        // between any two steps of anyone

  function Start(threads: nat): System {
    System(Initial(threads), EmptyTrail(), G.Initial(threads), [])
  }

  function WithGate(b: State, like: State): State {
    b.(pending := like.pending, open := like.open, nextId := like.nextId)
  }

  /** The bridge once the gateway took its decision. */
  function Resolved(s: State, t: nat, call: Call, c: nat): State
    requires t < |s.threads| && c < |s.claims|
  {
    var next := s.claims[c].progress.(gatewayApplied := true);
    Goto(SetClaim(s.(applied := s.applied + [Applied(call.id, call.decision, c)]),
                  c, s.claims[c].(progress := next)),
         t, FirstUnfinished(next, call, c))
  }

  predicate Has(x: System, t: nat) {
    t < |x.bridge.threads| && t < |x.gateway.threads|
  }

  /** A step of the bridge that asks neither the gateway nor the trail. */
  predicate IsLocal(x: System, e: Event) {
    && (e.StartResolve? || e.Advance?) && Has(x, e.t) && x.gateway.threads[e.t] == G.Idle
    && (e.Advance? ==> NeedsNobody(x.bridge, x.bridge.threads[e.t]))
  }

  predicate NeedsNobody(s: State, pc: Thread) {
    && !pc.Applying? && !UsesTrail(pc)
    && (pc.Claiming? ==> pc.call.id in s.registry.entries || !MakeRoom(s.registry).1)
  }

  /** A thread turns to the gateway. */
  function CallGateway(x: System, t: nat): Option<G.State>
    requires Has(x, t)
  {
    match x.bridge.threads[t]
    case Idle => G.Next(x.gateway, G.StartPoll(t))
    case Claiming(_) => G.Next(x.gateway, G.StartPoll(t))
    case Applying(call, _) => G.Next(x.gateway, G.StartDecide(t, call.id, call.decision.Approved?))
    case _ => None
  }

  /** A decision on its way to the session; the gateway may refuse its id. */
  function ValidateStep(x: System, t: nat): Option<System>
    requires Has(x, t)
  {
    var next := G.Next(x.gateway, G.Advance(t, false));
    var pc := x.bridge.threads[t];
    if next.None? || !pc.Applying? || pc.claim >= |x.bridge.claims| || t >= |next.value.threads| then None
    else if next.value.threads[t] == G.Idle
    then Some(x.(gateway := next.value, bridge := Bail(x.bridge, t, pc.claim)))
    else Some(x.(gateway := next.value))
  }

  function StepGateway(x: System, t: nat): Option<System>
    requires Has(x, t)
  {
    match x.gateway.threads[t]
    case Idle =>
      var next := CallGateway(x, t);
      if next.None? then None else Some(x.(gateway := next.value))
    case PollSession(_) =>
      var next := G.Next(x.gateway, G.Advance(t, false));
      if next.None? then None else Some(x.(gateway := next.value))
    case DecideSession(_, _, _) => ValidateStep(x, t)
    case DecideSnapshot(_, _, _, _) => ValidateStep(x, t)
    case _ => None
  }

  function StepPollDone(x: System, t: nat, outcome: Option<Outcome>): Option<System>
    requires Has(x, t)
  {
    match x.gateway.threads[t]
    case PollSnapshot(session, seen) =>
      if x.bridge.threads[t] != Idle then None
      else
        var report := ReportOf(x.gateway, session, seen, outcome);
        Some(x.(gateway := G.StepThread(x.gateway, t, false).value,
                bridge := if report.None? then x.bridge else Goto(x.bridge, t, PollCheck(report.value.id))))
    case _ => None
  }

  function StepClaimDone(x: System, t: nat, outcome: Option<Outcome>): Option<System>
    requires Has(x, t)
  {
    match x.gateway.threads[t]
    case PollSnapshot(session, seen) =>
      if !x.bridge.threads[t].Claiming? then None
      else
        var reported := x.bridge.(pending := ReportOf(x.gateway, session, seen, outcome));
        Some(x.(gateway := G.StepThread(x.gateway, t, false).value,
                bridge := WithGate(StepClaiming(reported, t, x.bridge.threads[t].call), x.bridge)))
    case _ => None
  }

  function StepCommit(x: System, t: nat, fails: bool): Option<System>
    requires Has(x, t)
  {
    var pc := x.bridge.threads[t];
    if !x.gateway.threads[t].DecideValidated? || !pc.Applying? || pc.claim >= |x.bridge.claims| then None
    else
      var gateway := G.StepThread(x.gateway, t, fails).value;
      Some(x.(gateway := gateway,
              bridge := if gateway.resolved != x.gateway.resolved then Resolved(x.bridge, t, pc.call, pc.claim)
                        else Bail(x.bridge, t, pc.claim)))
  }

  function SystemNext(x: System, e: SystemEvent): Option<System> {
    match e
    case World(event) =>
      if !(event.Raise? || event.Withdraw? || event.Swap?) || G.Next(x.gateway, event).None? then None
      else Some(x.(gateway := G.Next(x.gateway, event).value))
    case GatewayStep(t) => if Has(x, t) then StepGateway(x, t) else None
    case PollDone(t, outcome) => if Has(x, t) then StepPollDone(x, t, outcome) else None
    case ClaimDone(t, outcome) => if Has(x, t) then StepClaimDone(x, t, outcome) else None
    case Commit(t, fails) => if Has(x, t) then StepCommit(x, t, fails) else None
    case TrailStep(t, faults) =>
      var next := RealNext(Real(x.bridge, x.trail, []), OnTrail(t, faults));
      if next.None? then None else Some(x.(bridge := next.value.bridge, trail := next.value.trail))
    case Local(event) =>
      if !IsLocal(x, event) || Next(x.bridge, event).None? then None
      else Some(x.(bridge := Next(x.bridge, event).value))
    case Restart =>
      Some(System(Restarted(x.bridge), A.Restart(x.trail), G.Next(x.gateway, G.Restart).value,
                  x.decided + x.bridge.applied))
  }

  function SystemRun(x: System, events: seq<SystemEvent>): Option<System>
    decreases |events|
  {
    if events == [] then Some(x)
    else
      var next := SystemNext(x, events[0]);
      if next.None? then None else SystemRun(next.value, events[1..])
  }

  // ---- the coupling ----

  /** What a thread's place in its gateway call says about its place in the bridge. */
  predicate ThreadsMatch(pc: Thread, gate: G.Thread) {
    match gate
    case Idle => true
    case PollSession(_) => pc.Idle? || pc.Claiming?
    case PollSnapshot(_, _) => pc.Idle? || pc.Claiming?
    case DecideSession(id, approve, _) => IsDecision(pc, id, approve)
    case DecideSnapshot(id, approve, _, _) => IsDecision(pc, id, approve)
    case DecideValidated(id, approve, _, _) => IsDecision(pc, id, approve)
  }

  predicate IsDecision(pc: Thread, id: nat, approve: bool) {
    pc.Applying? && pc.call.id == id && approve == pc.call.decision.Approved?
  }

  predicate SameDecision(r: G.Resolution, a: Applied) {
    r.id == a.id && r.approve == a.decision.Approved?
  }

  predicate SameDecisions(resolved: seq<G.Resolution>, applied: seq<Applied>) {
    |resolved| == |applied| && forall i :: 0 <= i < |resolved| ==> SameDecision(resolved[i], applied[i])
  }

  /** `before` holds the decisions of the processes before this one. */
  ghost predicate Coupled(bridge: State, gateway: G.State, before: seq<Applied>) {
    && G.Inv(gateway)
    && |gateway.threads| == |bridge.threads|
    && (forall t :: 0 <= t < |bridge.threads| ==> ThreadsMatch(bridge.threads[t], gateway.threads[t]))
    && SameDecisions(gateway.resolved, before + bridge.applied)
  }

  ghost predicate Refines(x: System, r: Real) {
    && r.trail == x.trail && r.bridge == WithGate(x.bridge, r.bridge)
    && Provides(x.gateway, r.bridge) && Coupled(x.bridge, x.gateway, x.decided)
    && Decisions(r.earlier) == x.decided
  }

  /** Only thread `t` moves, in the bridge or in the gateway, and no decision is taken. */
  lemma CoupledMove(bridge: State, gateway: G.State, bridge': State, gateway': G.State, t: nat,
                    before: seq<Applied>)
    requires Coupled(bridge, gateway, before) && G.Inv(gateway') && t < |bridge.threads|
    requires |bridge'.threads| == |bridge.threads| && |gateway'.threads| == |gateway.threads|
    requires forall u :: 0 <= u < |bridge.threads| && u != t ==>
               bridge'.threads[u] == bridge.threads[u] && gateway'.threads[u] == gateway.threads[u]
    requires ThreadsMatch(bridge'.threads[t], gateway'.threads[t])
    requires SameDecisions(gateway'.resolved, before + bridge'.applied)
    ensures Coupled(bridge', gateway', before)
  {
  }

  // ---- sequences of events over the trail ----

  function Plains(events: seq<Event>): seq<RealEvent>
    decreases |events|
  {
    if events == [] then [] else [Plain(events[0])] + Plains(events[1..])
  }

  lemma {:induction false} PlainRun(r: Real, events: seq<Event>)
    requires GatewayEvents(events) && Run(r.bridge, events).Some?
    ensures RealRun(r, Plains(events)) == Some(r.(bridge := Run(r.bridge, events).value))
    decreases |events|
  {
    if events != [] {
      var r1 := r.(bridge := Next(r.bridge, events[0]).value);
      assert GatewayEvent(events[0]) && GatewayEvents(events[1..]);
      PlainRun(r1, events[1..]);
      assert ([Plain(events[0])] + Plains(events[1..]))[1..] == Plains(events[1..]);
    }
  }

  lemma {:induction false} RealRunConcat(r: Real, first: seq<RealEvent>, second: seq<RealEvent>)
    requires RealRun(r, first).Some?
    ensures RealRun(r, first + second) == RealRun(RealRun(r, first).value, second)
    decreases |first|
  {
    if first == [] {
      assert first + second == second;
    } else {
      assert (first + second)[1..] == first[1..] + second;
      RealRunConcat(RealNext(r, first[0]).value, first[1..], second);
    }
  }

  lemma RealOne(r: Real, e: RealEvent)
    requires RealNext(r, e).Some?
    ensures RealRun(r, [e]) == RealNext(r, e)
  {
    assert [e][1..] == [] && RealRun(RealNext(r, e).value, []) == RealNext(r, e);
  }

  /** The bridge takes a step, and closes what the gateway has closed meanwhile. */
  lemma StepThenCatchUp(r: Real, e: RealEvent, gateway: G.State) returns (events: seq<RealEvent>, r': Real)
    requires RealNext(r, e).Some?
    requires var s := RealNext(r, e).value.bridge; s.nextId == |gateway.minted| && OpenIds(gateway) <= s.open
    ensures RealRun(r, events) == Some(r') && Provides(gateway, r'.bridge)
    ensures r'.trail == RealNext(r, e).value.trail && r'.earlier == RealNext(r, e).value.earlier
    ensures SameBridge(RealNext(r, e).value.bridge, r'.bridge)
  {
    var r1 := RealNext(r, e).value;
    var closing := CatchUp(gateway, r1.bridge);
    PlainRun(r1, closing);
    RealOne(r, e);
    RealRunConcat(r, [e], Plains(closing));
    events := [e] + Plains(closing);
    r' := r1.(bridge := Run(r1.bridge, closing).value);
  }

  /** The gateway reports, the bridge takes a step on it, and catches up. */
  lemma ReportThenStep(r: Real, e: Event, r1: Real, step: Event, gateway: G.State)
    returns (events: seq<RealEvent>, r': Real)
    requires RealNext(r, Plain(e)) == Some(r1) && RealNext(r1, Plain(step)).Some?
    requires var s := RealNext(r1, Plain(step)).value.bridge;
             s.nextId == |gateway.minted| && OpenIds(gateway) <= s.open
    ensures RealRun(r, events) == Some(r') && Provides(gateway, r'.bridge)
    ensures var r2 := RealNext(r1, Plain(step)).value;
            r'.trail == r2.trail && r'.earlier == r2.earlier && SameBridge(r2.bridge, r'.bridge)
  {
    var rest;
    rest, r' := StepThenCatchUp(r1, Plain(step), gateway);
    RealOne(r, Plain(e));
    RealRunConcat(r, [Plain(e)], rest);
    events := [Plain(e)] + rest;
  }

  // ---- the steps that ask nobody ----

  lemma OwnerIsGateFree(s: State, like: State, t: nat, pc: Thread, reply: Reply)
    requires t < |s.threads| && pc.HoldsProgress() && !pc.Applying? && !UsesTrail(pc) && pc.claim < |s.claims|
    ensures StepOwner(WithGate(s, like), t, pc, reply) == WithGate(StepOwner(s, t, pc, reply), like)
    ensures StepOwner(s, t, pc, reply).applied == s.applied
  {
  }

  lemma UnlockedIsGateFree(s: State, like: State, t: nat, pc: Thread, reply: Reply)
    requires t < |s.threads| && !pc.HoldsProgress() && NeedsNobody(s, pc)
    ensures var next := StepUnlocked(s, t, pc, reply);
            && (StepUnlocked(WithGate(s, like), t, pc, reply) ==
                  if next.None? then None else Some(WithGate(next.value, like)))
            && (next.Some? ==> next.value.applied == s.applied)
  {
  }

  lemma LocalIsGateFree(x: System, e: Event, like: State)
    requires IsLocal(x, e) && Next(x.bridge, e).Some?
    ensures Next(WithGate(x.bridge, like), e) == Some(WithGate(Next(x.bridge, e).value, like))
    ensures Next(x.bridge, e).value.applied == x.bridge.applied
  {
    if e.Advance? {
      var pc := x.bridge.threads[e.t];
      if pc.HoldsProgress() {
        OwnerIsGateFree(x.bridge, like, e.t, pc, e.reply);
      } else {
        UnlockedIsGateFree(x.bridge, like, e.t, pc, e.reply);
      }
    }
  }

  lemma LocalRefines(x: System, r: Real, e: Event) returns (events: seq<RealEvent>, r': Real)
    requires Refines(x, r) && SystemNext(x, Local(e)).Some?
    ensures RealRun(r, events) == Some(r') && Refines(SystemNext(x, Local(e)).value, r')
  {
    LocalIsGateFree(x, e, r.bridge);
    P.StepMoves(x.bridge, e);
    var s' := Next(x.bridge, e).value;
    events, r' := [Plain(e)], r.(bridge := WithGate(s', r.bridge));
    RealOne(r, Plain(e));
    CoupledMove(x.bridge, x.gateway, s', x.gateway, e.t, x.decided);
  }

  /** The audit phases read nothing of the gateway. */
  lemma TrailIsGateFree(x: System, r: Real, t: nat, faults: A.Faults) returns (r': Real)
    requires r.trail == x.trail && r.bridge == WithGate(x.bridge, r.bridge)
    requires SystemNext(x, TrailStep(t, faults)).Some?
    ensures RealNext(r, OnTrail(t, faults)) == Some(r')
    ensures var x' := SystemNext(x, TrailStep(t, faults)).value;
            && r' == r.(bridge := WithGate(x'.bridge, r.bridge), trail := x'.trail)
            && x'.bridge.applied == x.bridge.applied
            && x' == x.(bridge := x'.bridge, trail := x'.trail)
  {
    var x' := SystemNext(x, TrailStep(t, faults)).value;
    r' := r.(bridge := WithGate(x'.bridge, r.bridge), trail := x'.trail);
  }

  lemma TrailRefines(x: System, r: Real, t: nat, faults: A.Faults) returns (events: seq<RealEvent>, r': Real)
    requires Refines(x, r) && SystemNext(x, TrailStep(t, faults)).Some?
    ensures RealRun(r, events) == Some(r') && Refines(SystemNext(x, TrailStep(t, faults)).value, r')
  {
    var x' := SystemNext(x, TrailStep(t, faults)).value;
    r' := TrailIsGateFree(x, r, t, faults);
    events := [OnTrail(t, faults)];
    RealOne(r, OnTrail(t, faults));
    assert ThreadsMatch(x.bridge.threads[t], x.gateway.threads[t]);
    CoupledMove(x.bridge, x.gateway, x'.bridge, x.gateway, t, x.decided);
  }

  // ---- the steps of the gateway ----

  predicate ActsIn(e: G.Event, t: nat) {
    (e.StartPoll? || e.StartDecide? || e.Advance?) && e.t == t
  }

  lemma GateMoves(g: G.State, e: G.Event)
    requires G.Inv(g) && !e.Restart? && G.Next(g, e).Some?
    ensures var g' := G.Next(g, e).value;
            && G.Inv(g') && |g'.threads| == |g.threads|
            && forall u :: 0 <= u < |g.threads| && !ActsIn(e, u) ==> g'.threads[u] == g.threads[u]
  {
    G.NextInv(g, e);
  }

  lemma ClosingRefines(x: System, r: Real, e: G.Event, x': System) returns (events: seq<RealEvent>, r': Real)
    requires Refines(x, r) && G.Next(x.gateway, e).Some? && x' == x.(gateway := G.Next(x.gateway, e).value)
    requires !(e.Advance? && (x.gateway.threads[e.t].PollSnapshot? || x.gateway.threads[e.t].DecideValidated?))
    requires Coupled(x.bridge, x'.gateway, x.decided)
    ensures RealRun(r, events) == Some(r') && Refines(x', r')
  {
    var closing := StepIsClosing(x.gateway, r.bridge, e);
    PlainRun(r, closing);
    events, r' := Plains(closing), r.(bridge := Run(r.bridge, closing).value);
  }

  lemma WorldRefines(x: System, r: Real, e: G.Event) returns (events: seq<RealEvent>, r': Real)
    requires Refines(x, r) && SystemNext(x, World(e)).Some?
    ensures RealRun(r, events) == Some(r') && Refines(SystemNext(x, World(e)).value, r')
  {
    GateMoves(x.gateway, e);
    events, r' := ClosingRefines(x, r, e, SystemNext(x, World(e)).value);
  }

  lemma CallRefines(x: System, r: Real, t: nat) returns (events: seq<RealEvent>, r': Real)
    requires Refines(x, r) && Has(x, t) && x.gateway.threads[t] == G.Idle && CallGateway(x, t).Some?
    ensures RealRun(r, events) == Some(r') && Refines(x.(gateway := CallGateway(x, t).value), r')
  {
    var pc := x.bridge.threads[t];
    var e := if pc.Applying? then G.StartDecide(t, pc.call.id, pc.call.decision.Approved?) else G.StartPoll(t);
    GateMoves(x.gateway, e);
    CoupledMove(x.bridge, x.gateway, x.bridge, CallGateway(x, t).value, t, x.decided);
    events, r' := ClosingRefines(x, r, e, x.(gateway := CallGateway(x, t).value));
  }

  lemma SessionRefines(x: System, r: Real, t: nat) returns (events: seq<RealEvent>, r': Real)
    requires Refines(x, r) && Has(x, t) && x.gateway.threads[t].PollSession?
    requires G.Next(x.gateway, G.Advance(t, false)).Some?
    ensures RealRun(r, events) == Some(r')
    ensures Refines(x.(gateway := G.Next(x.gateway, G.Advance(t, false)).value), r')
  {
    var gateway := G.Next(x.gateway, G.Advance(t, false)).value;
    GateMoves(x.gateway, G.Advance(t, false));
    assert ThreadsMatch(x.bridge.threads[t], x.gateway.threads[t]);
    CoupledMove(x.bridge, x.gateway, x.bridge, gateway, t, x.decided);
    events, r' := ClosingRefines(x, r, G.Advance(t, false), x.(gateway := gateway));
  }

  lemma ValidateRefines(x: System, r: Real, t: nat) returns (events: seq<RealEvent>, r': Real)
    requires Refines(x, r) && Has(x, t) && ValidateStep(x, t).Some?
    requires x.gateway.threads[t].DecideSession? || x.gateway.threads[t].DecideSnapshot?
    ensures RealRun(r, events) == Some(r') && Refines(ValidateStep(x, t).value, r')
  {
    var e := G.Advance(t, false);
    var x1 := x.(gateway := G.Next(x.gateway, e).value);
    var pc := x.bridge.threads[t];
    GateMoves(x.gateway, e);
    assert ThreadsMatch(pc, x.gateway.threads[t]);
    CoupledMove(x.bridge, x.gateway, x.bridge, x1.gateway, t, x.decided);
    events, r' := ClosingRefines(x, r, e, x1);
    if x1.gateway.threads[t] == G.Idle {
      var refused := Plain(Advance(t, Err));
      var r1 := RefusalRefines(x1, r', t);
      RealOne(r', refused);
      RealRunConcat(r, events, [refused]);
      events, r' := events + [refused], r1;
    }
  }

  /** A call whose decision the gateway refused gives up. */
  lemma RefusalRefines(x: System, r: Real, t: nat) returns (r': Real)
    requires Refines(x, r) && Has(x, t) && x.gateway.threads[t] == G.Idle
    requires x.bridge.threads[t].Applying? && x.bridge.threads[t].claim < |x.bridge.claims|
    ensures RealNext(r, Plain(Advance(t, Err))) == Some(r')
    ensures Refines(x.(bridge := Bail(x.bridge, t, x.bridge.threads[t].claim)), r')
  {
    var pc := x.bridge.threads[t];
    r' := ApplyingSteps(r, t, Err);
    CoupledMove(x.bridge, x.gateway, Bail(x.bridge, t, pc.claim), x.gateway, t, x.decided);
  }

  lemma GatewayStepRefines(x: System, r: Real, t: nat) returns (events: seq<RealEvent>, r': Real)
    requires Refines(x, r) && SystemNext(x, GatewayStep(t)).Some?
    ensures RealRun(r, events) == Some(r') && Refines(SystemNext(x, GatewayStep(t)).value, r')
  {
    match x.gateway.threads[t]
    case Idle => events, r' := CallRefines(x, r, t);
    case PollSession(_) => events, r' := SessionRefines(x, r, t);
    case DecideSession(_, _, _) => events, r' := ValidateRefines(x, r, t);
    case DecideSnapshot(_, _, _, _) => events, r' := ValidateRefines(x, r, t);
  }

  // ---- polls and commits ----

  /** The gateway's side of a poll that returns. */
  lemma PollReturns(x: System, t: nat)
    requires Coupled(x.bridge, x.gateway, x.decided) && Has(x, t) && x.gateway.threads[t].PollSnapshot?
    ensures G.StepThread(x.gateway, t, false).Some?
    ensures var g' := G.StepThread(x.gateway, t, false).value;
            && G.Inv(g') && g'.resolved == x.gateway.resolved && g'.threads == x.gateway.threads[t := G.Idle]
  {
    G.PollInv(x.gateway, t, false);
  }

  lemma ReportedReal(x: System, r: Real, t: nat, outcome: Option<Outcome>) returns (e: Event, r1: Real)
    requires Refines(x, r) && Has(x, t) && x.gateway.threads[t].PollSnapshot?
    ensures RealNext(r, Plain(e)) == Some(r1) && r1 == r.(bridge := r1.bridge) && SameBridge(r.bridge, r1.bridge)
    ensures var g' := G.StepThread(x.gateway, t, false).value;
            r1.bridge.nextId == |g'.minted| && OpenIds(g') <= r1.bridge.open
    ensures r1.bridge.pending == ReportOf(x.gateway, x.gateway.threads[t].session, x.gateway.threads[t].seen, outcome)
  {
    var pc := x.gateway.threads[t];
    e := FirstReport(x.gateway, r.bridge, t, pc.session, pc.seen, outcome);
    r1 := r.(bridge := Next(r.bridge, e).value);
  }

  lemma PollDoneRefines(x: System, r: Real, t: nat, outcome: Option<Outcome>)
    returns (events: seq<RealEvent>, r': Real)
    requires Refines(x, r) && SystemNext(x, PollDone(t, outcome)).Some?
    ensures RealRun(r, events) == Some(r') && Refines(SystemNext(x, PollDone(t, outcome)).value, r')
  {
    var x' := SystemNext(x, PollDone(t, outcome)).value;
    PollReturns(x, t);
    CoupledMove(x.bridge, x.gateway, x'.bridge, x'.gateway, t, x.decided);
    var e, r1 := ReportedReal(x, r, t, outcome);
    if r1.bridge.pending.None? {
      events, r' := StepThenCatchUp(r, Plain(e), x'.gateway);
    } else {
      events, r' := ReportThenStep(r, e, r1, StartPoll(t), x'.gateway);
    }
  }

  /** The claim section reads of the gateway only what it reports. */
  lemma ClaimIsGateFree(s: State, like: State, t: nat, call: Call)
    requires t < |s.threads| && s.pending == like.pending
    ensures StepClaiming(WithGate(s, like), t, call) == WithGate(StepClaiming(s, t, call), like)
    ensures var s' := StepClaiming(s, t, call);
            && s'.applied == s.applied && |s'.threads| == |s.threads|
            && (forall u :: 0 <= u < |s.threads| && u != t ==> s'.threads[u] == s.threads[u])
            && s'.pending == s.pending && s'.open == s.open && s'.nextId == s.nextId
  {
  }

  /** The bridge that the report reached takes the claim section as the system's does. */
  lemma ClaimIsStep(x: System, s: State, t: nat, outcome: Option<Outcome>)
    requires Coupled(x.bridge, x.gateway, x.decided) && SystemNext(x, ClaimDone(t, outcome)).Some?
    requires s == WithGate(x.bridge, s)
    requires s.pending == ReportOf(x.gateway, x.gateway.threads[t].session, x.gateway.threads[t].seen, outcome)
    ensures var x' := SystemNext(x, ClaimDone(t, outcome)).value;
            var s' := StepClaiming(s, t, x.bridge.threads[t].call);
            && s' == WithGate(x'.bridge, s') && s'.pending == s.pending && s'.open == s.open && s'.nextId == s.nextId
            && Coupled(x'.bridge, x'.gateway, x.decided)
  {
    var x' := SystemNext(x, ClaimDone(t, outcome)).value;
    var call := x.bridge.threads[t].call;
    PollReturns(x, t);
    var reported := x.bridge.(pending := s.pending);
    ClaimIsGateFree(reported, s, t, call);
    assert WithGate(reported, s) == s;
    CoupledMove(x.bridge, x.gateway, x'.bridge, x'.gateway, t, x.decided);
  }

  lemma ClaimDoneRefines(x: System, r: Real, t: nat, outcome: Option<Outcome>)
    returns (events: seq<RealEvent>, r': Real)
    requires Refines(x, r) && SystemNext(x, ClaimDone(t, outcome)).Some?
    ensures RealRun(r, events) == Some(r') && Refines(SystemNext(x, ClaimDone(t, outcome)).value, r')
  {
    var x' := SystemNext(x, ClaimDone(t, outcome)).value;
    var e, r1 := ReportedReal(x, r, t, outcome);
    ClaimIsStep(x, r1.bridge, t, outcome);
    ClaimingSteps(r1, t);
    events, r' := ReportThenStep(r, e, r1, Advance(t, Ok), x'.gateway);
  }

  lemma ClaimingSteps(r: Real, t: nat)
    requires t < |r.bridge.threads| && r.bridge.threads[t].Claiming?
    ensures RealNext(r, Plain(Advance(t, Ok))) ==
            Some(r.(bridge := StepClaiming(r.bridge, t, r.bridge.threads[t].call)))
  {
  }

  /** The gateway's side of a commit. */
  lemma CommitReturns(x: System, t: nat, fails: bool)
    requires Coupled(x.bridge, x.gateway, x.decided) && Has(x, t) && x.gateway.threads[t].DecideValidated?
    ensures var g' := G.StepThread(x.gateway, t, fails).value;
            G.Inv(g') && g'.threads == x.gateway.threads[t := G.Idle]
  {
    G.ResolveInv(x.gateway, t, fails);
  }

  lemma ApplyingSteps(r: Real, t: nat, reply: Reply) returns (r': Real)
    requires t < |r.bridge.threads| && r.bridge.threads[t].Applying? && r.bridge.threads[t].claim < |r.bridge.claims|
    ensures RealNext(r, Plain(Advance(t, reply))) == Some(r')
    ensures var pc := r.bridge.threads[t];
            r' == r.(bridge := StepApplying(r.bridge, t, pc.call, pc.claim, reply))
            && Next(r.bridge, Advance(t, reply)) == Some(r'.bridge)
  {
    r' := RealNext(r, Plain(Advance(t, reply))).value;
  }

  lemma ResolvedIsApplied(s: State, like: State, t: nat, call: Call, c: nat)
    requires t < |s.threads| && c < |s.claims|
    ensures var applied := StepApplying(WithGate(s, like), t, call, c, Ok);
            applied == WithGate(if call.id in like.open then Resolved(s, t, call, c) else Bail(s, t, c), applied)
    ensures StepApplying(WithGate(s, like), t, call, c, Err) == WithGate(Bail(s, t, c), like)
  {
  }

  lemma OneMoreDecision(resolved: seq<G.Resolution>, before: seq<Applied>, applied: seq<Applied>, r: G.Resolution,
                        a: Applied)
    requires SameDecisions(resolved, before + applied) && SameDecision(r, a)
    ensures SameDecisions(resolved + [r], before + (applied + [a]))
  {
    assert before + (applied + [a]) == (before + applied) + [a];
  }

  lemma FailedCommitRefines(x: System, r: Real, t: nat) returns (events: seq<RealEvent>, r': Real)
    requires Refines(x, r) && SystemNext(x, Commit(t, true)).Some?
    ensures RealRun(r, events) == Some(r') && Refines(SystemNext(x, Commit(t, true)).value, r')
  {
    var x' := SystemNext(x, Commit(t, true)).value;
    var pc := x.bridge.threads[t];
    assert ThreadsMatch(pc, x.gateway.threads[t]);
    CommitReturns(x, t, true);
    ResolvedIsApplied(x.bridge, r.bridge, t, pc.call, pc.claim);
    var closing := CommitIsApply(x.gateway, r.bridge, t, t, pc.call, pc.claim);
    CoupledMove(x.bridge, x.gateway, x'.bridge, x'.gateway, t, x.decided);
    r' := ApplyingSteps(r, t, Err);
    events := [Plain(Advance(t, Err))];
    RealOne(r, events[0]);
  }

  lemma CommitIsCoupled(x: System, r: Real, t: nat)
    requires Refines(x, r) && SystemNext(x, Commit(t, false)).Some?
    ensures var x' := SystemNext(x, Commit(t, false)).value;
            var pc := x.bridge.threads[t];
            && Coupled(x'.bridge, x'.gateway, x.decided)
            && x'.bridge == (if pc.call.id in r.bridge.open then Resolved(x.bridge, t, pc.call, pc.claim)
                             else Bail(x.bridge, t, pc.claim))
  {
    var x' := SystemNext(x, Commit(t, false)).value;
    var pc := x.bridge.threads[t];
    assert ThreadsMatch(pc, x.gateway.threads[t]);
    CommitReturns(x, t, false);
    var closing := CommitIsApply(x.gateway, r.bridge, t, t, pc.call, pc.claim);
    if pc.call.id in r.bridge.open {
      OneMoreDecision(x.gateway.resolved, x.decided, x.bridge.applied, x'.gateway.resolved[|x.gateway.resolved|],
                      Applied(pc.call.id, pc.call.decision, pc.claim));
    }
    CoupledMove(x.bridge, x.gateway, x'.bridge, x'.gateway, t, x.decided);
  }

  lemma ReachedCommitRefines(x: System, r: Real, t: nat) returns (events: seq<RealEvent>, r': Real)
    requires Refines(x, r) && SystemNext(x, Commit(t, false)).Some?
    ensures RealRun(r, events) == Some(r') && Refines(SystemNext(x, Commit(t, false)).value, r')
  {
    var pc := x.bridge.threads[t];
    assert ThreadsMatch(pc, x.gateway.threads[t]);
    CommitIsCoupled(x, r, t);
    ResolvedIsApplied(x.bridge, r.bridge, t, pc.call, pc.claim);
    var closing := CommitIsApply(x.gateway, r.bridge, t, t, pc.call, pc.claim);
    var e := Plain(Advance(t, Ok));
    var r1 := ApplyingSteps(r, t, Ok);
    RealOne(r, e);
    PlainRun(r1, closing);
    RealRunConcat(r, [e], Plains(closing));
    events, r' := [e] + Plains(closing), r1.(bridge := Run(r1.bridge, closing).value);
  }

  // ---- restarts ----

  lemma RestartRefines(x: System, r: Real) returns (events: seq<RealEvent>, r': Real)
    requires Refines(x, r)
    ensures RealRun(r, events) == Some(r') && Refines(SystemNext(x, Restart).value, r')
  {
    events, r' := [NewProcess], RealNext(r, NewProcess).value;
    RealOne(r, NewProcess);
    DecisionsGrow(r.earlier, Life(r.bridge, r.trail));
    G.NextInv(x.gateway, G.Restart);
    var x' := SystemNext(x, Restart).value;
    assert x'.decided + x'.bridge.applied == x.decided + x.bridge.applied;
    assert OpenIds(x'.gateway) == OpenIds(x.gateway);
  }

  // ---- whole runs ----

  lemma StepRefines(x: System, r: Real, e: SystemEvent) returns (events: seq<RealEvent>, r': Real)
    requires Refines(x, r) && SystemNext(x, e).Some?
    ensures RealRun(r, events) == Some(r') && Refines(SystemNext(x, e).value, r')
  {
    match e
    case World(event) => events, r' := WorldRefines(x, r, event);
    case GatewayStep(t) => events, r' := GatewayStepRefines(x, r, t);
    case PollDone(t, outcome) => events, r' := PollDoneRefines(x, r, t, outcome);
    case ClaimDone(t, outcome) => events, r' := ClaimDoneRefines(x, r, t, outcome);
    case Commit(t, fails) =>
      if fails {
        events, r' := FailedCommitRefines(x, r, t);
      } else {
        events, r' := ReachedCommitRefines(x, r, t);
      }
    case TrailStep(t, faults) => events, r' := TrailRefines(x, r, t, faults);
    case Local(event) => events, r' := LocalRefines(x, r, event);
    case Restart => events, r' := RestartRefines(x, r);
  }

  lemma {:induction false} RunRefines(x: System, r: Real, run: seq<SystemEvent>)
    returns (events: seq<RealEvent>, r': Real)
    requires Refines(x, r) && SystemRun(x, run).Some?
    ensures RealRun(r, events) == Some(r') && Refines(SystemRun(x, run).value, r')
    decreases |run|
  {
    if run == [] {
      events, r' := [], r;
    } else {
      var first, r1 := StepRefines(x, r, run[0]);
      var rest;
      rest, r' := RunRefines(SystemNext(x, run[0]).value, r1, run[1..]);
      RealRunConcat(r, first, rest);
      events := first + rest;
    }
  }

  /**
    Every run of the whole path, with the real gateway and the real trail and any faults, is a run
    of the bridge over the trail that ends in the same bridge, trail and open requests.
   */
  lemma SystemRunsRefine(threads: nat, run: seq<SystemEvent>) returns (events: seq<RealEvent>, r: Real)
    requires SystemRun(Start(threads), run).Some?
    ensures RealRun(RealInitial(threads), events) == Some(r)
    ensures Refines(SystemRun(Start(threads), run).value, r)
  {
    InitialProvides(threads);
    assert Refines(Start(threads), RealInitial(threads));
    events, r := RunRefines(Start(threads), RealInitial(threads), run);
  }

  /** The log names a decision that a session took, on the request the id was minted for. */
  ghost predicate OfResolution(x: System, record: AuditRecord) {
    exists i :: 0 <= i < |x.gateway.resolved| &&
      x.gateway.resolved[i].id == record.id && x.gateway.resolved[i].approve == record.decision.Approved?
  }

  lemma AppliedIsTaken(x: System, a: Applied)
    requires SameDecisions(x.gateway.resolved, x.decided + x.bridge.applied)
    requires a in x.decided + x.bridge.applied
    ensures exists i :: 0 <= i < |x.gateway.resolved| && x.gateway.resolved[i].id == a.id &&
              x.gateway.resolved[i].approve == a.decision.Approved?
  {
    var i :| 0 <= i < |x.decided + x.bridge.applied| && (x.decided + x.bridge.applied)[i] == a;
    assert SameDecision(x.gateway.resolved[i], a);
  }

  lemma DecisionIsTaken(x: System, r: Real, record: AuditRecord)
    requires Refines(x, r)
    requires OfAppliedClaim(r.bridge, record) || OfEarlierClaim(r.earlier, record)
    ensures OfResolution(x, record)
  {
    if OfAppliedClaim(r.bridge, record) {
      var c: nat :| IsClaimOf(r.bridge, c, record);
      AppliedIsTaken(x, Applied(record.id, record.decision, c));
    } else {
      var k :| 0 <= k < |r.earlier| && OfAppliedClaim(r.earlier[k].bridge, record);
      var c: nat :| IsClaimOf(r.earlier[k].bridge, c, record);
      DecidedThen(r.earlier, k, Applied(record.id, record.decision, c));
      AppliedIsTaken(x, Applied(record.id, record.decision, c));
    }
  }

  /**
    From the request to the log, over every run of the whole path and all its restarts: each runtime request and each id
    is resolved at most once, on the session and request the id was minted for; every record in the
    trail carries the decision of such a resolution; and the trail never contradicts itself.
   */
  lemma LoggedDecisionsWereTaken(threads: nat, run: seq<SystemEvent>)
    requires SystemRun(Start(threads), run).Some?
    ensures var x := SystemRun(Start(threads), run).value;
            var resolved := x.gateway.resolved;
            && (forall i, j :: 0 <= i < j < |resolved| ==>
                  resolved[i].request != resolved[j].request && resolved[i].id != resolved[j].id)
            && (forall i :: 0 <= i < |resolved| ==>
                  resolved[i].id < |x.gateway.minted| &&
                  x.gateway.minted[resolved[i].id] == G.RequestKey(resolved[i].session, resolved[i].request))
            && (forall a :: a in A.History(x.trail) ==> OfResolution(x, a))
            && (forall a, b :: a in A.History(x.trail) && b in A.History(x.trail) && a.id == b.id ==> a == b)
  {
    var x := SystemRun(Start(threads), run).value;
    var events, r := SystemRunsRefine(threads, run);
    TrailNeverContradictsItself(threads, events);
    var resolved := x.gateway.resolved;
    forall i, j | 0 <= i < j < |resolved|
      ensures resolved[i].id != resolved[j].id
    {
      assert resolved[i].request != resolved[j].request;
    }
    forall a | a in A.History(x.trail)
      ensures OfResolution(x, a)
    {
      DecisionIsTaken(x, r, a);
    }
  }
}
