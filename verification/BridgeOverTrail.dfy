/**
  The bridge over the real audit trail: the step machine with the three-tier trail and all its
  faults in place of the ideal log, through any number of process restarts.  Every run of it is,
  between two restarts, a run of the protocol, failed fsyncs and forgotten index entries included.
 */
module BridgeOverTrail {
  import opened Options
  import opened Resolutions
  import opened BridgeProtocol
  import I = BridgeInvariant
  import T = BridgeTheorems
  import G = BridgeOverGateway
  import P = BridgePrompts
  import A = AuditTrail
  import AT = AuditTrailTheorems

  /** A process that is gone: the last state of its bridge, and the trail as it left it. */
  datatype Life = Life(bridge: State, trail: A.Trail)

  /** The bridge, whose own `trail` stays empty here, the trail it records into, and what came before. */
  datatype Real = Real(bridge: State, trail: A.Trail, earlier: seq<Life>)

  datatype RealEvent = Plain(event: Event) | OnTrail(t: nat, faults: A.Faults) | NewProcess

  function EmptyTrail(): A.Trail {
    A.Trail(None, map[], false, false, [])
  }

  function RealInitial(threads: nat): Real {
    Real(Initial(threads), EmptyTrail(), [])
  }

  /** In a new process nothing is left but the requests that are open and the ids already issued. */
  function Restarted(s: State): State {
    Initial(|s.threads|).(open := s.open, nextId := s.nextId)
  }

  predicate UsesTrail(pc: Thread) {
    pc.Preparing? || pc.Auditing?
  }

  /** What the audit phase does to the bridge once `record` has answered. */
  function AfterRecord(s: State, t: nat, call: Call, c: nat, ok: bool): State
    requires t < |s.threads| && c < |s.claims|
  {
    if ok then Goto(SetClaim(s, c, s.claims[c].(progress := s.claims[c].progress.(audited := true))),
                    t, ReadingToken(call, c))
    else Bail(s, t, c)
  }

  function AfterPrepare(s: State, t: nat, call: Call, c: nat, ok: bool): State
    requires t < |s.threads| && c < |s.claims|
  {
    if ok then Goto(s, t, Applying(call, c)) else Bail(s, t, c)
  }

  function RealNext(r: Real, e: RealEvent): Option<Real> {
    match e
    case Plain(event) =>
      if event.Advance? && event.t < |r.bridge.threads| && UsesTrail(r.bridge.threads[event.t]) then None
      else
        var next := Next(r.bridge, event);
        if next.None? then None else Some(r.(bridge := next.value))
    case OnTrail(t, faults) =>
      if t >= |r.bridge.threads| || !UsesTrail(r.bridge.threads[t]) || r.bridge.threads[t].claim >= |r.bridge.claims|
      then None
      else
        var pc := r.bridge.threads[t];
        if pc.Preparing? then
          var (trail, ok) := A.Prepare(r.trail, faults.prepare);
          Some(r.(bridge := AfterPrepare(r.bridge, t, pc.call, pc.claim, ok), trail := trail))
        else
          var (trail, ok) := A.Record(r.trail, r.bridge.claims[pc.claim].progress.record, faults);
          Some(r.(bridge := AfterRecord(r.bridge, t, pc.call, pc.claim, ok), trail := trail))
    case NewProcess =>
      Some(Real(Restarted(r.bridge), A.Restart(r.trail), r.earlier + [Life(r.bridge, r.trail)]))
  }

  function RealRun(r: Real, events: seq<RealEvent>): Option<Real>
    decreases |events|
  {
    if events == [] then Some(r)
    else
      var next := RealNext(r, events[0]);
      if next.None? then None else RealRun(next.value, events[1..])
  }

  // ---- simulation ----

  /** What the log held when the process started. */
  function Inherited(r: Real): seq<AuditRecord> {
    if r.earlier == [] then [] else A.History(r.earlier[|r.earlier| - 1].trail)
  }

  /** Beside what was inherited the protocol's log holds the same records, a repeated one once. */
  ghost predicate SameRecords(history: seq<AuditRecord>, inherited: seq<AuditRecord>, trail: seq<Logged>) {
    forall record: AuditRecord :: record in history <==> record in inherited || InLog(record, trail)
  }

  ghost predicate InLog(record: AuditRecord, trail: seq<Logged>) {
    exists i :: 0 <= i < |trail| && trail[i].record == record
  }

  ghost predicate Simulates(r: Real, s: State) {
    && s == r.bridge.(trail := s.trail)
    && AT.Drawn(r.trail)
    && SameRecords(A.History(r.trail), Inherited(r), s.trail)
  }

  function WithTrail(s: State, trail: seq<Logged>): State {
    s.(trail := trail)
  }

  /** Only the audit phase looks at the log. */
  lemma TrailIsFramed(s: State, e: Event, trail: seq<Logged>)
    requires !(e.Advance? && e.t < |s.threads| && s.threads[e.t].Auditing?)
    ensures var next := Next(s, e);
            Next(WithTrail(s, trail), e) == if next.None? then None else Some(WithTrail(next.value, trail))
    ensures Next(s, e).Some? ==> Next(s, e).value.trail == s.trail
  {
    if e.Advance? && e.t < |s.threads| {
      var pc := s.threads[e.t];
      if pc.HoldsProgress() && pc.claim < |s.claims| {
        OwnerIsFramed(s, e.t, pc, e.reply, trail);
      } else if !pc.HoldsProgress() {
        UnlockedIsFramed(s, e.t, pc, e.reply, trail);
      }
    }
  }

  lemma OwnerIsFramed(s: State, t: nat, pc: Thread, reply: Reply, trail: seq<Logged>)
    requires t < |s.threads| && pc.HoldsProgress() && !pc.Auditing? && pc.claim < |s.claims|
    ensures StepOwner(WithTrail(s, trail), t, pc, reply) == WithTrail(StepOwner(s, t, pc, reply), trail)
    ensures StepOwner(s, t, pc, reply).trail == s.trail
  {
  }

  lemma UnlockedIsFramed(s: State, t: nat, pc: Thread, reply: Reply, trail: seq<Logged>)
    requires t < |s.threads| && !pc.HoldsProgress()
    ensures var next := StepUnlocked(s, t, pc, reply);
            && (StepUnlocked(WithTrail(s, trail), t, pc, reply) ==
                  if next.None? then None else Some(WithTrail(next.value, trail)))
            && (next.Some? ==> next.value.trail == s.trail)
  {
  }

  lemma InLogGrows(trail: seq<Logged>, l: Logged)
    ensures forall x: AuditRecord :: InLog(x, trail + [l]) <==> InLog(x, trail) || x == l.record
  {
    forall x: AuditRecord
      ensures InLog(x, trail + [l]) <==> InLog(x, trail) || x == l.record
    {
      if i :| 0 <= i < |trail| && trail[i].record == x {
        assert (trail + [l])[i].record == x;
      }
      assert (trail + [l])[|trail|] == l;
    }
  }

  lemma SameRecordsGrow(history: seq<AuditRecord>, inherited: seq<AuditRecord>, trail: seq<Logged>, l: Logged)
    requires SameRecords(history, inherited, trail)
    ensures SameRecords(history + [l.record], inherited, trail + [l])
    ensures InLog(l.record, trail) ==> SameRecords(history + [l.record], inherited, trail)
    ensures l.record in history ==> SameRecords(history, inherited, trail + [l])
  {
    InLogGrows(trail, l);
    forall x: AuditRecord
      ensures x in history + [l.record] <==> x in history || x == l.record
    {
    }
  }

  /** The protocol's audit step on a record that meets no conflict. */
  lemma AuditStepLogs(s: State, t: nat, call: Call, c: nat, reply: Reply)
    requires t < |s.threads| && c < |s.claims|
    requires Known(s, s.claims[c].progress.record.id) ==> KnownAs(s, s.claims[c].progress.record)
    ensures var record := s.claims[c].progress.record;
            var trail := if reply == Err || Known(s, record.id) then s.trail else s.trail + [Logged(record, c)];
            StepAuditing(s, t, call, c, reply) == WithTrail(AfterRecord(s, t, call, c, reply == Ok), trail)
  {
  }

  /**
    Whatever a `record` call does to the real trail under whatever faults, and whatever its tiers
    have forgotten, the protocol's audit step does to its log for some reply: the record is in
    both or in neither, and the call succeeds just when the thread moves on.
   */
  lemma AuditStepIsRecordCall(s: State, t: nat, call: Call, c: nat, trail: A.Trail, faults: A.Faults,
                              inherited: seq<AuditRecord>)
    returns (reply: Reply)
    requires t < |s.threads| && c < |s.claims|
    requires AT.Drawn(trail) && SameRecords(A.History(trail), inherited, s.trail)
    requires Known(s, s.claims[c].progress.record.id) ==> KnownAs(s, s.claims[c].progress.record)
    ensures var (trail', ok) := A.Record(trail, s.claims[c].progress.record, faults);
            var s' := StepAuditing(s, t, call, c, reply);
            && AT.Drawn(trail') && SameRecords(A.History(trail'), inherited, s'.trail)
            && s' == WithTrail(AfterRecord(s, t, call, c, ok), s'.trail)
  {
    var record := s.claims[c].progress.record;
    AT.RecordOutcome(trail, record, faults);
    SameRecordsGrow(A.History(trail), inherited, s.trail, Logged(record, c));
    var ok := A.Record(trail, record, faults).1;
    reply := if ok then Ok else if AT.Appends(trail, record, faults) then LateErr else Err;
    AuditStepLogs(s, t, call, c, reply);
    assert Known(s, record.id) ==> InLog(record, s.trail);
  }

  lemma PrepareIsProtocolStep(r: Real, s: State, t: nat, faults: A.Faults) returns (event: Event)
    requires Simulates(r, s) && RealNext(r, OnTrail(t, faults)).Some? && s.threads[t].Preparing?
    ensures Next(s, event).Some? && Simulates(RealNext(r, OnTrail(t, faults)).value, Next(s, event).value)
  {
    var pc := s.threads[t];
    AT.PrepareRestoresTheIndex(r.trail, faults.prepare);
    var ok := A.Prepare(r.trail, faults.prepare).1;
    event := Advance(t, if ok then Ok else Err);
    assert Next(s, event) == Some(AfterPrepare(s, t, pc.call, pc.claim, ok));
  }

  lemma RecordIsProtocolStep(r: Real, s: State, t: nat, faults: A.Faults) returns (event: Event)
    requires I.Inv(s) && Simulates(r, s) && RealNext(r, OnTrail(t, faults)).Some? && s.threads[t].Auditing?
    ensures Next(s, event).Some? && Simulates(RealNext(r, OnTrail(t, faults)).value, Next(s, event).value)
  {
    var pc := s.threads[t];
    assert I.WorkOk(t, pc, s.claims);
    T.LogMatchesClaim(s, pc.claim);
    var reply := AuditStepIsRecordCall(s, t, pc.call, pc.claim, r.trail, faults, Inherited(r));
    event := Advance(t, reply);
    AuditingSteps(s, t, reply);
    RecordSteps(r, t, faults);
  }

  lemma AuditingSteps(s: State, t: nat, reply: Reply)
    requires t < |s.threads| && s.threads[t].Auditing? && s.threads[t].claim < |s.claims|
    ensures Next(s, Advance(t, reply)) ==
            Some(StepAuditing(s, t, s.threads[t].call, s.threads[t].claim, reply))
  {
  }

  lemma RecordSteps(r: Real, t: nat, faults: A.Faults)
    requires t < |r.bridge.threads| && r.bridge.threads[t].Auditing? && r.bridge.threads[t].claim < |r.bridge.claims|
    ensures var pc := r.bridge.threads[t];
            var (trail, ok) := A.Record(r.trail, r.bridge.claims[pc.claim].progress.record, faults);
            RealNext(r, OnTrail(t, faults)) ==
            Some(r.(bridge := AfterRecord(r.bridge, t, pc.call, pc.claim, ok), trail := trail))
  {
  }

  /** Every step over the real trail is a step of the protocol, as long as the process lives. */
  lemma StepIsProtocolStep(r: Real, s: State, e: RealEvent) returns (event: Event)
    requires I.Inv(s) && Simulates(r, s) && !e.NewProcess? && RealNext(r, e).Some?
    ensures Next(s, event).Some? && Simulates(RealNext(r, e).value, Next(s, event).value)
  {
    match e
    case Plain(plain) =>
      event := plain;
      TrailIsFramed(r.bridge, plain, s.trail);
    case OnTrail(t, faults) =>
      if s.threads[t].Preparing? {
        event := PrepareIsProtocolStep(r, s, t, faults);
      } else {
        event := RecordIsProtocolStep(r, s, t, faults);
      }
  }

  // ---- from one process to the next ----

  lemma ReachesNext(threads: nat, before: seq<Event>, s: State, e: Event) returns (all: seq<Event>)
    requires T.Reaches(threads, before, s) && Next(s, e).Some?
    ensures T.Reaches(threads, all, Next(s, e).value)
  {
    T.RunAppend(Initial(threads), before, [e]);
    assert [e][1..] == [] && Run(Next(s, e).value, []) == Next(s, e);
    assert Run(s, [e]) == Next(s, e);
    all := before + [e];
  }

  function Requested(threads: nat, n: nat): State {
    Initial(threads).(pending := if n == 0 then None else Some(Pending(n - 1, None)),
                      open := Below(n), nextId := n)
  }

  function Below(n: nat): (ids: set<Id>)
    ensures forall id: Id :: id in ids <==> id < n
  {
    if n == 0 then {} else Below(n - 1) + {n - 1}
  }

  lemma {:induction false} RequestsReach(threads: nat, n: nat) returns (events: seq<Event>)
    ensures T.Reaches(threads, events, Requested(threads, n))
    decreases n
  {
    if n == 0 {
      events := [];
      assert Requested(threads, 0) == Initial(threads);
    } else {
      var before := RequestsReach(threads, n - 1);
      events := ReachesNext(threads, before, Requested(threads, n - 1), NewRequest(None));
    }
  }

  /** What a new process starts from is reachable: requests come, some go, the last report is none. */
  lemma RestartReaches(threads: nat, open: set<Id>, nextId: Id) returns (events: seq<Event>)
    requires forall id <- open :: id < nextId
    ensures T.Reaches(threads, events, Initial(threads).(open := open, nextId := nextId))
  {
    var s := Requested(threads, nextId);
    events := RequestsReach(threads, nextId);
    var closing := G.CloseAll(s, s.open - open);
    assert s.open - (s.open - open) == open;
    T.RunAppend(Initial(threads), events, closing);
    events := ReachesNext(threads, events + closing, s.(open := open), Report(None));
  }

  /** Everything that earlier processes had the gateway decide. */
  function Decisions(earlier: seq<Life>): seq<Applied>
    decreases |earlier|
  {
    if earlier == [] then []
    else Decisions(earlier[..|earlier| - 1]) + earlier[|earlier| - 1].bridge.applied
  }

  function AllDecisions(r: Real): seq<Applied> {
    Decisions(r.earlier) + r.bridge.applied
  }

  lemma DecisionsGrow(earlier: seq<Life>, life: Life)
    ensures Decisions(earlier + [life]) == Decisions(earlier) + life.bridge.applied
  {
    assert (earlier + [life])[..|earlier|] == earlier;
  }

  lemma {:induction false} DecidedThen(earlier: seq<Life>, k: nat, a: Applied)
    requires k < |earlier| && a in earlier[k].bridge.applied
    ensures a in Decisions(earlier)
    decreases |earlier|
  {
    if k < |earlier| - 1 {
      DecidedThen(earlier[..|earlier| - 1], k, a);
    }
  }

  /** The id was issued and can no longer be resolved; this process has not decided it. */
  ghost predicate Gone(s: State, id: Id) {
    id < s.nextId && id !in s.open && forall i :: 0 <= i < |s.applied| ==> s.applied[i].id != id
  }

  lemma OwnerKeepsGone(s: State, t: nat, pc: Thread, reply: Reply, id: Id)
    requires t < |s.threads| && pc.HoldsProgress() && pc.claim < |s.claims| && Gone(s, id)
    ensures Gone(StepOwner(s, t, pc, reply), id)
  {
    if !pc.Applying? {
      assert StepOwner(s, t, pc, reply).applied == s.applied;
    }
  }

  lemma UnlockedKeepsGone(s: State, t: nat, pc: Thread, reply: Reply, id: Id)
    requires t < |s.threads| && !pc.HoldsProgress() && StepUnlocked(s, t, pc, reply).Some? && Gone(s, id)
    ensures Gone(StepUnlocked(s, t, pc, reply).value, id)
  {
  }

  lemma StepKeepsGone(s: State, e: Event, id: Id)
    requires Next(s, e).Some? && Gone(s, id)
    ensures Gone(Next(s, e).value, id)
  {
    if e.Advance? {
      if s.threads[e.t].HoldsProgress() {
        OwnerKeepsGone(s, e.t, s.threads[e.t], e.reply, id);
      } else {
        UnlockedKeepsGone(s, e.t, s.threads[e.t], e.reply, id);
      }
    }
  }

  ghost predicate IsClaimOf(s: State, c: nat, record: AuditRecord) {
    && c < |s.claims| && s.claims[c].progress.record == record
    && Applied(record.id, record.decision, c) in s.applied
  }

  ghost predicate OfAppliedClaim(s: State, record: AuditRecord) {
    exists c: nat :: IsClaimOf(s, c, record)
  }

  ghost predicate OfEarlierClaim(earlier: seq<Life>, record: AuditRecord) {
    exists k :: 0 <= k < |earlier| && OfAppliedClaim(earlier[k].bridge, record)
  }

  ghost predicate DistinctDecisions(decisions: seq<Applied>) {
    forall i, j :: 0 <= i < j < |decisions| ==> decisions[i].id != decisions[j].id
  }

  ghost predicate NoContradiction(history: seq<AuditRecord>) {
    forall a, b :: a in history && b in history && a.id == b.id ==> a == b
  }

  /** What a process can rely on of those before it. */
  ghost predicate Settled(r: Real) {
    && DistinctDecisions(Decisions(r.earlier))
    && (forall i :: 0 <= i < |Decisions(r.earlier)| ==> Gone(r.bridge, Decisions(r.earlier)[i].id))
    && (forall a <- Inherited(r) :: OfEarlierClaim(r.earlier, a))
    && NoContradiction(Inherited(r))
  }

  lemma EarlierStays(r: Real, e: RealEvent)
    requires !e.NewProcess? && RealNext(r, e).Some?
    ensures RealNext(r, e).value.earlier == r.earlier
  {
  }

  lemma StepKeepsSettled(r: Real, s: State, r': Real, s': State, event: Event)
    requires Settled(r) && s == WithTrail(r.bridge, s.trail) && r'.earlier == r.earlier
    requires Next(s, event) == Some(s') && s' == WithTrail(r'.bridge, s'.trail)
    ensures Settled(r')
  {
    forall i | 0 <= i < |Decisions(r.earlier)|
      ensures Gone(r'.bridge, Decisions(r.earlier)[i].id)
    {
      assert Gone(s, Decisions(r.earlier)[i].id);
      StepKeepsGone(s, event, Decisions(r.earlier)[i].id);
    }
  }

  lemma LoggedIsOfClaim(r: Real, s: State, a: AuditRecord)
    requires I.Inv(s) && Simulates(r, s) && InLog(a, s.trail)
    ensures OfAppliedClaim(r.bridge, a)
  {
    var i :| 0 <= i < |s.trail| && s.trail[i].record == a;
    assert I.LoggedOk(s.trail[i], s.claims);
    var c := s.trail[i].claim;
    assert I.ProgressOk(c, s.claims[c].progress, s.applied, s.trail);
    assert IsClaimOf(r.bridge, c, a);
  }

  /** A record of an earlier process and one of this process have different ids. */
  lemma EarlierIsOther(r: Real, a: AuditRecord, b: AuditRecord)
    requires Settled(r) && OfEarlierClaim(r.earlier, a) && OfAppliedClaim(r.bridge, b)
    ensures a.id != b.id
  {
    var k :| 0 <= k < |r.earlier| && OfAppliedClaim(r.earlier[k].bridge, a);
    var c: nat :| IsClaimOf(r.earlier[k].bridge, c, a);
    DecidedThen(r.earlier, k, Applied(a.id, a.decision, c));
    var d: nat :| IsClaimOf(r.bridge, d, b);
    var i :| 0 <= i < |Decisions(r.earlier)| && Decisions(r.earlier)[i] == Applied(a.id, a.decision, c);
    assert Gone(r.bridge, Decisions(r.earlier)[i].id);
  }

  /** What holds of a run at any moment, whichever process it is in. */
  ghost predicate Agrees(r: Real) {
    && DistinctDecisions(AllDecisions(r))
    && NoContradiction(A.History(r.trail))
    && forall a <- A.History(r.trail) :: OfAppliedClaim(r.bridge, a) || OfEarlierClaim(r.earlier, a)
  }

  lemma SettledAgrees(r: Real, s: State)
    requires I.Inv(s) && Simulates(r, s) && Settled(r)
    ensures Agrees(r)
  {
    forall a | a in A.History(r.trail) && a !in Inherited(r)
      ensures InLog(a, s.trail) && OfAppliedClaim(r.bridge, a)
    {
      LoggedIsOfClaim(r, s, a);
    }
    forall a, b | a in A.History(r.trail) && b in A.History(r.trail) && a.id == b.id
      ensures a == b
    {
      if a in Inherited(r) && b !in Inherited(r) {
        EarlierIsOther(r, a, b);
      } else if a !in Inherited(r) && b in Inherited(r) {
        EarlierIsOther(r, b, a);
      } else if a !in Inherited(r) {
        assert InLog(a, s.trail) && InLog(b, s.trail);
      }
    }
    DecisionsStayDistinct(r, s);
  }

  lemma DecisionsStayDistinct(r: Real, s: State)
    requires I.Inv(s) && Simulates(r, s) && Settled(r)
    ensures DistinctDecisions(AllDecisions(r))
  {
    var before, now := Decisions(r.earlier), r.bridge.applied;
    forall i, j | 0 <= i < j < |AllDecisions(r)|
      ensures AllDecisions(r)[i].id != AllDecisions(r)[j].id
    {
      if i < |before| <= j {
        assert Gone(r.bridge, before[i].id);
        assert now[j - |before|].id != before[i].id;
      }
    }
  }

  lemma RestartSettles(r: Real, s: State)
    requires I.Inv(s) && Simulates(r, s) && Settled(r)
    ensures Settled(RealNext(r, NewProcess).value)
  {
    SettledAgrees(r, s);
    var r' := RealNext(r, NewProcess).value;
    DecisionsGrow(r.earlier, Life(r.bridge, r.trail));
    assert Inherited(r') == A.History(r.trail);
    forall i | 0 <= i < |Decisions(r'.earlier)|
      ensures Gone(r'.bridge, Decisions(r'.earlier)[i].id)
    {
      if i < |Decisions(r.earlier)| {
        assert Gone(r.bridge, Decisions(r.earlier)[i].id);
      }
    }
    forall a | a in Inherited(r')
      ensures OfEarlierClaim(r'.earlier, a)
    {
      if OfAppliedClaim(r.bridge, a) {
        assert OfAppliedClaim(r'.earlier[|r.earlier|].bridge, a);
      } else {
        var k :| 0 <= k < |r.earlier| && OfAppliedClaim(r.earlier[k].bridge, a);
        assert OfAppliedClaim(r'.earlier[k].bridge, a);
      }
    }
  }

  lemma RestartSimulates(threads: nat, r: Real, s: State) returns (all: seq<Event>, s': State)
    requires I.Inv(s) && Simulates(r, s) && |s.threads| == threads
    ensures T.Reaches(threads, all, s') && Simulates(RealNext(r, NewProcess).value, s')
  {
    var r' := RealNext(r, NewProcess).value;
    all := RestartReaches(threads, s.open, s.nextId);
    s' := r'.bridge;
    assert A.History(r'.trail) == A.History(r.trail) == Inherited(r');
  }

  lemma {:induction false} RunIsProtocolRun(threads: nat, before: seq<Event>, s: State, r: Real, events: seq<RealEvent>)
    returns (all: seq<Event>, s': State)
    requires T.Reaches(threads, before, s) && |s.threads| == threads
    requires Simulates(r, s) && Settled(r) && RealRun(r, events).Some?
    ensures T.Reaches(threads, all, s')
    ensures Simulates(RealRun(r, events).value, s') && Settled(RealRun(r, events).value)
    decreases |events|
  {
    if events == [] {
      all, s' := before, s;
    } else {
      T.ReachesInv(threads, before, s);
      var next: State;
      if events[0].NewProcess? {
        RestartSettles(r, s);
        all, next := RestartSimulates(threads, r, s);
      } else {
        var event := StepIsProtocolStep(r, s, events[0]);
        P.StepMoves(s, event);
        next := Next(s, event).value;
        EarlierStays(r, events[0]);
        StepKeepsSettled(r, s, RealNext(r, events[0]).value, next, event);
        all := ReachesNext(threads, before, s, event);
      }
      all, s' := RunIsProtocolRun(threads, all, next, RealNext(r, events[0]).value, events[1..]);
    }
  }

  /**
    Every run over the real trail, with any faults at any call and any restarts: since its last
    restart it is a run of the protocol that ends in the same bridge, and its log holds the same
    records beside those it inherited.
   */
  lemma RealRunsRefineTheProtocol(threads: nat, events: seq<RealEvent>) returns (all: seq<Event>, s: State)
    requires RealRun(RealInitial(threads), events).Some?
    ensures T.Reaches(threads, all, s) && Simulates(RealRun(RealInitial(threads), events).value, s)
    ensures Settled(RealRun(RealInitial(threads), events).value)
  {
    var s0 := Initial(threads);
    assert T.Reaches(threads, [], s0);
    assert Simulates(RealInitial(threads), s0);
    all, s := RunIsProtocolRun(threads, [], s0, RealInitial(threads), events);
  }

  // ---- what holds over the real trail ----

  /**
    Over every run, restarts included, each id is applied at most once, the trail never holds two
    different records of one id, and every record in it is that of a claim, of this process or an
    earlier one, whose decision the gateway took.
   */
  lemma TrailNeverContradictsItself(threads: nat, events: seq<RealEvent>)
    requires RealRun(RealInitial(threads), events).Some?
    ensures Agrees(RealRun(RealInitial(threads), events).value)
  {
    var all, s := RealRunsRefineTheProtocol(threads, events);
    T.ReachesInv(threads, all, s);
    SettledAgrees(RealRun(RealInitial(threads), events).value, s);
  }

  /** The flags tell the truth about the real trail too. */
  lemma FlagsTellTheTruthOfTheTrail(threads: nat, events: seq<RealEvent>, c: nat)
    requires RealRun(RealInitial(threads), events).Some?
    requires c < |RealRun(RealInitial(threads), events).value.bridge.claims|
    ensures var r := RealRun(RealInitial(threads), events).value;
            var p := r.bridge.claims[c].progress;
            && (p.chatUpdated ==> p.audited)
            && (p.audited ==> p.gatewayApplied && p.record in A.History(r.trail))
            && (p.gatewayApplied <==> Applied(p.record.id, p.decision, c) in r.bridge.applied)
  {
    var all, s := RealRunsRefineTheProtocol(threads, events);
    T.FlagsTellTheTruth(threads, all, s, c);
    var p := s.claims[c].progress;
    if p.audited {
      var i :| 0 <= i < |s.trail| && s.trail[i] == Logged(p.record, c);
      assert InLog(p.record, s.trail);
    }
  }

  /** What a run does to the trail, as the trail's own run. */
  function TrailOps(r: Real, events: seq<RealEvent>): seq<AT.Op>
    requires RealRun(r, events).Some?
    decreases |events|
  {
    if events == [] then []
    else TrailOp(r, events[0]) + TrailOps(RealNext(r, events[0]).value, events[1..])
  }

  function TrailOp(r: Real, e: RealEvent): seq<AT.Op>
    requires RealNext(r, e).Some?
  {
    if e.Plain? then []
    else if e.NewProcess? then [AT.RestartOp]
    else
      var pc := r.bridge.threads[e.t];
      if pc.Preparing? then [AT.PrepareOp(e.faults.prepare)]
      else [AT.RecordOp(r.bridge.claims[pc.claim].progress.record, e.faults)]
  }

  lemma {:induction false} TrailFollowsItsOps(r: Real, events: seq<RealEvent>)
    requires RealRun(r, events).Some?
    ensures RealRun(r, events).value.trail == AT.RunOps(r.trail, TrailOps(r, events))
    decreases |events|
  {
    if events != [] {
      var next := RealNext(r, events[0]).value;
      var op := TrailOp(r, events[0]);
      var rest := TrailOps(next, events[1..]);
      TrailFollowsItsOps(next, events[1..]);
      if op == [] {
        assert op + rest == rest;
      } else {
        assert (op + rest)[0] == op[0] && (op + rest)[1..] == rest;
      }
    }
  }

  /**
    "Logged at most once" holds of a run if and only if no `record` call in it appended an id that
    every tier had forgotten; in particular it holds when every append is synced.
   */
  lemma LoggedOnceIffNothingForgotten(threads: nat, events: seq<RealEvent>)
    requires RealRun(RealInitial(threads), events).Some?
    ensures var ops := TrailOps(RealInitial(threads), events);
            && (AT.DistinctIds(A.History(RealRun(RealInitial(threads), events).value.trail)) <==>
                  AT.NeverRepeats(EmptyTrail(), ops))
            && (AT.Synced(EmptyTrail(), ops) ==> AT.NeverRepeats(EmptyTrail(), ops))
  {
    var ops := TrailOps(RealInitial(threads), events);
    TrailFollowsItsOps(RealInitial(threads), events);
    AT.RunsOnlyAppend(EmptyTrail(), ops);
    if AT.Synced(EmptyTrail(), ops) {
      AT.SyncedRunsNeverRepeat(EmptyTrail(), ops);
    }
  }
}
