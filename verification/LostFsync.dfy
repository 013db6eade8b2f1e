/**
  "Logged at most once" fails over the real trail: a run in which one append is not synced, 1024
  other requests follow, and the owner's retry logs the same record a second time.
 */
module LostFsync {
  import opened Options
  import opened Resolutions
  import opened BridgeProtocol
  import opened BridgeOverTrail
  import I = BridgeInvariant
  import A = AuditTrail
  import AT = AuditTrailTheorems

  function Owner(): Call {
    Call(0, Approved, "alice", 0)
  }

  function Other(n: nat): Call {
    Call(1 + n, Approved, "filler", 0)
  }

  function RecordOf(call: Call): AuditRecord {
    NewProgress(call, None).record
  }

  function ClaimAt(call: Call, applied: bool, audited: bool, finished: bool, holder: Option<nat>): Claim {
    Claim(Progress(call.decision, RecordOf(call), applied, audited, finished), holder)
  }

  function NoSync(): A.Faults {
    AT.NoFaults().(syncFails := true)
  }

  /** The owner's claim is applied but not audited, and keeps its registry entry. */
  ghost predicate OwnerWaits(s: State, lastId: Id) {
    && s.tokens == map[] && s.nextId == lastId + 1
    && |s.claims| > 0 && s.claims[0] == ClaimAt(Owner(), true, false, false, None)
    && Sound(s.registry) && 0 in s.registry.entries && s.registry.entries[0] == 0
    && 0 !in s.registry.terminalOrder
    && (forall id <- s.registry.entries :: id <= lastId)
  }

  /** Between two of the other requests; `n` of them are done. */
  ghost predicate Between(r: Real, start: A.Trail, n: nat) {
    && r.bridge.threads == [Idle, Idle] && OwnerWaits(r.bridge, n)
    && MakeRoom(r.bridge.registry).1
    && AT.Filled(start, r.trail, 1, n)
  }

  /** Thread 1 works on request `n + 1`, whose claim is the newest. */
  ghost predicate Working(r: Real, start: A.Trail, n: nat, pc: Thread, claim: Claim, logged: nat) {
    && r.bridge.threads == [Idle, pc] && OwnerWaits(r.bridge, n + 1)
    && |r.bridge.claims| > 1 && r.bridge.claims[Newest(r)] == claim
    && n + 1 in r.bridge.registry.entries && n + 1 !in r.bridge.registry.terminalOrder
    && (pc.Locking? || pc.Preparing? || pc.Applying? ==> n + 1 in r.bridge.open)
    && AT.Filled(start, r.trail, 1, logged)
  }

  ghost function Newest(r: Real): nat
    requires |r.bridge.claims| > 0
  {
    |r.bridge.claims| - 1
  }

  /** The start of the run followed by one more event. */
  lemma Then(r: Real, events: seq<RealEvent>, mid: Real, e: RealEvent) returns (longer: seq<RealEvent>)
    requires RealRun(r, events) == Some(mid) && RealNext(mid, e).Some?
    ensures RealRun(r, longer) == RealNext(mid, e)
  {
    longer := events + [e];
    RealRunAppend(r, events, e);
  }

  lemma {:induction false} RealRunAppend(r: Real, events: seq<RealEvent>, e: RealEvent)
    requires RealRun(r, events).Some? && RealNext(RealRun(r, events).value, e).Some?
    ensures RealRun(r, events + [e]) == RealNext(RealRun(r, events).value, e)
    decreases |events|
  {
    if events == [] {
      assert [e][1..] == [];
    } else {
      assert (events + [e])[1..] == events[1..] + [e];
      RealRunAppend(RealNext(r, events[0]).value, events[1..], e);
    }
  }

  // ---- one of the other requests, step by step ----

  lemma RequestStarts(r: Real, start: A.Trail, n: nat) returns (mid: Real)
    requires Between(r, start, n)
    ensures RealNext(r, Plain(NewRequest(None))) == Some(mid)
    ensures mid == r.(bridge := r.bridge.(pending := Some(Pending(n + 1, None)), open := r.bridge.open + {n + 1},
                                          nextId := n + 2))
  {
    mid := RealNext(r, Plain(NewRequest(None))).value;
  }

  /** The bridge once the request is reported and a call to resolve it has begun. */
  function Called(s: State, n: nat): State
    requires |s.threads| == 2
  {
    Goto(s.(pending := Some(Pending(n + 1, None)), open := s.open + {n + 1}, nextId := n + 2), 1, Claiming(Other(n)))
  }

  lemma RequestIsCalled(r: Real, start: A.Trail, n: nat, mid: Real) returns (next: Real)
    requires Between(r, start, n)
    requires mid == r.(bridge := r.bridge.(pending := Some(Pending(n + 1, None)), open := r.bridge.open + {n + 1},
                                           nextId := n + 2))
    ensures RealNext(mid, Plain(StartResolve(1, Other(n)))) == Some(next)
    ensures next == r.(bridge := Called(r.bridge, n)) && next.bridge.threads == [Idle, Claiming(Other(n))]
  {
    next := mid.(bridge := Goto(mid.bridge, 1, Claiming(Other(n))));
  }

  lemma RequestIsClaimed(r: Real, start: A.Trail, n: nat, next: Real) returns (end: Real)
    requires Between(r, start, n)
    requires next == r.(bridge := Called(r.bridge, n)) && next.bridge.threads == [Idle, Claiming(Other(n))]
    ensures RealNext(next, Plain(Advance(1, Ok))) == Some(end) && |end.bridge.claims| > 1
    ensures Working(end, start, n, Locking(Other(n), Newest(end)), ClaimAt(Other(n), false, false, false, None), n)
  {
    var c := |r.bridge.claims|;
    I.AdmitIsSound(r.bridge.registry, n + 1, c);
    end := next.(bridge := StepClaiming(next.bridge, 1, Other(n)));
    assert end.bridge.registry == I.Admit(r.bridge.registry, n + 1, c);
    assert end.bridge.threads == [Idle, Locking(Other(n), c)];
    assert Newest(end) == c;
  }

  lemma RequestIsLocked(r: Real, start: A.Trail, n: nat) returns (next: Real)
    requires |r.bridge.claims| > 1
    requires Working(r, start, n, Locking(Other(n), Newest(r)), ClaimAt(Other(n), false, false, false, None), n)
    ensures RealNext(r, Plain(Advance(1, Ok))) == Some(next) && |next.bridge.claims| > 1
    ensures Working(next, start, n, Preparing(Other(n), Newest(next)),
                    ClaimAt(Other(n), false, false, false, Some(1)), n)
  {
    next := r.(bridge := StepLocking(r.bridge, 1, Other(n), Newest(r)).value);
    assert next.bridge.threads == [Idle, Preparing(Other(n), Newest(r))];
  }

  lemma RequestIsPrepared(r: Real, start: A.Trail, n: nat) returns (next: Real)
    requires |r.bridge.claims| > 1
    requires Working(r, start, n, Preparing(Other(n), Newest(r)),
                    ClaimAt(Other(n), false, false, false, Some(1)), n)
    ensures RealNext(r, OnTrail(1, AT.NoFaults())) == Some(next) && |next.bridge.claims| > 1
    ensures Working(next, start, n, Applying(Other(n), Newest(next)),
                    ClaimAt(Other(n), false, false, false, Some(1)), n)
  {
    next := r.(bridge := AfterPrepare(r.bridge, 1, Other(n), Newest(r), true));
    assert next.bridge.threads == [Idle, Applying(Other(n), Newest(r))];
  }

  lemma RequestIsApplied(r: Real, start: A.Trail, n: nat) returns (next: Real)
    requires |r.bridge.claims| > 1
    requires Working(r, start, n, Applying(Other(n), Newest(r)),
                    ClaimAt(Other(n), false, false, false, Some(1)), n)
    ensures RealNext(r, Plain(Advance(1, Ok))) == Some(next) && |next.bridge.claims| > 1
    ensures Working(next, start, n, Auditing(Other(n), Newest(next)), ClaimAt(Other(n), true, false, false, Some(1)), n)
  {
    next := r.(bridge := StepApplying(r.bridge, 1, Other(n), Newest(r), Ok));
    assert next.bridge.threads == [Idle, Auditing(Other(n), Newest(r))];
  }

  lemma RequestIsLogged(r: Real, start: A.Trail, n: nat) returns (next: Real)
    requires |r.bridge.claims| > 1 && n < A.MAX_RECENT_AUDIT_RECORDS
    requires Working(r, start, n, Auditing(Other(n), Newest(r)), ClaimAt(Other(n), true, false, false, Some(1)), n)
    requires (forall x <- start.recent :: x.id < 1) && (forall id <- start.index :: id < 1)
    ensures RealNext(r, OnTrail(1, AT.NoFaults())) == Some(next) && |next.bridge.claims| > 1
    ensures Working(next, start, n, ReadingToken(Other(n), Newest(next)),
                    ClaimAt(Other(n), true, true, false, Some(1)), n + 1)
  {
    AT.FillOne(start, r.trail, 1, n);
    assert RecordOf(Other(n)) == AT.Filler(1, n);
    var trail := A.Record(r.trail, AT.Filler(1, n), AT.NoFaults()).0;
    next := r.(bridge := AfterRecord(r.bridge, 1, Other(n), Newest(r), true), trail := trail);
    assert next.bridge.threads == [Idle, ReadingToken(Other(n), Newest(r))];
  }

  lemma RequestFinishes(r: Real, start: A.Trail, n: nat) returns (next: Real, end: Real)
    requires |r.bridge.claims| > 1
    requires Working(r, start, n, ReadingToken(Other(n), Newest(r)),
                    ClaimAt(Other(n), true, true, false, Some(1)), n + 1)
    ensures RealNext(r, Plain(Advance(1, Ok))) == Some(next)
    ensures RealNext(next, Plain(Advance(1, Ok))) == Some(end)
    ensures Between(end, start, n + 1)
  {
    next := r.(bridge := Finish(r.bridge, 1, Other(n), Newest(r)));
    assert next.bridge.threads == [Idle, Marking(n + 1, Newest(r))];
    RetireNeverEvicts(r.bridge.registry, n + 1);
    end := next.(bridge := Goto(next.bridge.(registry := Retire(next.bridge.registry, n + 1)), 1, Idle));
    assert end.bridge.threads == [Idle, Idle];
    MakeRoomEvictsOnlyTheOldestFinished(end.bridge.registry);
  }

  /** One other request from its appearance to the end of its resolution. */
  lemma OneMoreRequest(r0: Real, before: seq<RealEvent>, r: Real, start: A.Trail, n: nat)
    returns (events: seq<RealEvent>, end: Real)
    requires RealRun(r0, before) == Some(r) && Between(r, start, n) && n < A.MAX_RECENT_AUDIT_RECORDS
    requires (forall x <- start.recent :: x.id < 1) && (forall id <- start.index :: id < 1)
    ensures RealRun(r0, events) == Some(end) && Between(end, start, n + 1)
  {
    var step := Plain(Advance(1, Ok));
    var s1 := RequestStarts(r, start, n);
    events := Then(r0, before, r, Plain(NewRequest(None)));
    var s2 := RequestIsCalled(r, start, n, s1);
    var s3 := RequestIsClaimed(r, start, n, s2);
    events := Then(r0, events, s1, Plain(StartResolve(1, Other(n))));
    events := Then(r0, events, s2, step);
    var s4 := RequestIsLocked(s3, start, n);
    events := Then(r0, events, s3, step);
    var s5 := RequestIsPrepared(s4, start, n);
    events := Then(r0, events, s4, OnTrail(1, AT.NoFaults()));
    var s6 := RequestIsApplied(s5, start, n);
    events := Then(r0, events, s5, step);
    var s7 := RequestIsLogged(s6, start, n);
    events := Then(r0, events, s6, OnTrail(1, AT.NoFaults()));
    var s8;
    s8, end := RequestFinishes(s7, start, n);
    events := Then(r0, events, s7, step);
    events := Then(r0, events, s8, step);
  }

  lemma {:induction false} ManyRequests(r0: Real, before: seq<RealEvent>, r: Real, start: A.Trail, n: nat)
    returns (events: seq<RealEvent>, end: Real)
    requires RealRun(r0, before) == Some(r) && Between(r, start, n) && n <= A.MAX_RECENT_AUDIT_RECORDS
    requires (forall x <- start.recent :: x.id < 1) && (forall id <- start.index :: id < 1)
    ensures RealRun(r0, events) == Some(end) && Between(end, start, A.MAX_RECENT_AUDIT_RECORDS)
    decreases A.MAX_RECENT_AUDIT_RECORDS - n
  {
    if n == A.MAX_RECENT_AUDIT_RECORDS {
      events, end := before, r;
    } else {
      var events1, r1 := OneMoreRequest(r0, before, r, start, n);
      events, end := ManyRequests(r0, events1, r1, start, n + 1);
    }
  }

  // ---- the owner ----

  function Pc(s: State, pc: Thread): State {
    s.(threads := [pc, Idle])
  }

  /** The bridge once the owner holds a reference to its claim. */
  function Claimed(holder: Option<nat>): State {
    State(Some(Pending(0, None)), {0}, 1, [], [], map[], [], multiset{}, multiset{}, [],
          [ClaimAt(Owner(), false, false, false, holder)], Registry(map[0 := 0], []), [Locking(Owner(), 0), Idle])
  }

  /** The request is out, and thread 0 is at `pc`. */
  function Raised(pc: Thread): State {
    State(Some(Pending(0, None)), {0}, 1, [], [], map[], [], multiset{}, multiset{}, [],
          [], Registry(map[], []), [pc, Idle])
  }

  /** The first process, its trail still untouched. */
  function Opening(s: State): Real {
    Real(s, EmptyTrail(), [])
  }

  lemma RequestIsRaised()
    ensures RealNext(RealInitial(2), Plain(NewRequest(None))) == Some(Opening(Raised(Idle)))
  {
    assert Initial(2).threads == [Idle, Idle] && {} + {0} == {0};
  }

  lemma OwnerStarts()
    ensures RealNext(Opening(Raised(Idle)), Plain(StartResolve(0, Owner()))) ==
            Some(Opening(Raised(Claiming(Owner()))))
  {
    assert [Idle, Idle][0 := Claiming(Owner())] == [Claiming(Owner()), Idle];
  }

  lemma OwnerClaims() returns (events: seq<RealEvent>)
    ensures RealRun(RealInitial(2), events) == Some(Opening(Claimed(None)))
  {
    var r0 := RealInitial(2);
    RequestIsRaised();
    events := Then(r0, [], r0, Plain(NewRequest(None)));
    OwnerStarts();
    events := Then(r0, events, Opening(Raised(Idle)), Plain(StartResolve(0, Owner())));
    OwnerIsAdmitted();
    events := Then(r0, events, Opening(Raised(Claiming(Owner()))), Plain(Advance(0, Ok)));
  }

  /** Up to the audit phase. */
  lemma OwnerApplies() returns (events: seq<RealEvent>, r: Real)
    ensures RealRun(RealInitial(2), events) == Some(r)
    ensures r.trail == A.Trail(None, map[], true, true, [])
    ensures r.bridge == State(None, {}, 1, [Applied(0, Approved, 0)], [], map[], [], multiset{}, multiset{}, [],
                              [ClaimAt(Owner(), true, false, false, Some(0))], Registry(map[0 := 0], []),
                              [Auditing(Owner(), 0), Idle])
  {
    var r0, step := RealInitial(2), Plain(Advance(0, Ok));
    events := OwnerClaims();
    var r3, r4 := Opening(Claimed(None)), Opening(Pc(Claimed(Some(0)), Preparing(Owner(), 0)));
    OwnerIsLocked(r3, r4);
    events := Then(r0, events, r3, step);
    var r5 := Real(Pc(Claimed(Some(0)), Applying(Owner(), 0)), A.Trail(None, map[], true, true, []), []);
    OwnerIsPrepared(r4, r5);
    events := Then(r0, events, r4, OnTrail(0, AT.NoFaults()));
    OwnerIsApplied(r5, Claimed(Some(0)));
    events := Then(r0, events, r5, step);
    r := RealNext(r5, step).value;
  }

  lemma OwnerIsLocked(r: Real, next: Real)
    requires r.bridge == Claimed(None) && next == r.(bridge := Pc(Claimed(Some(0)), Preparing(Owner(), 0)))
    ensures RealNext(r, Plain(Advance(0, Ok))) == Some(next)
  {
    var s := StepLocking(r.bridge, 0, Owner(), 0).value;
    assert s.claims == next.bridge.claims && s.threads == next.bridge.threads;
  }

  lemma OwnerIsPrepared(r: Real, next: Real)
    requires r == Opening(Pc(Claimed(Some(0)), Preparing(Owner(), 0)))
    requires next == Real(Pc(Claimed(Some(0)), Applying(Owner(), 0)), A.Trail(None, map[], true, true, []), [])
    ensures RealNext(r, OnTrail(0, AT.NoFaults())) == Some(next)
  {
    assert AfterPrepare(r.bridge, 0, Owner(), 0, true).threads == next.bridge.threads;
  }

  lemma OwnerIsAdmitted()
    ensures RealNext(Opening(Raised(Claiming(Owner()))), Plain(Advance(0, Ok))) ==
            Some(Opening(Claimed(None)))
  {
    var before := Raised(Claiming(Owner()));
    assert MakeRoom(before.registry) == (before.registry, true);
    var s := StepClaiming(before, 0, Owner());
    assert s.claims == Claimed(None).claims && s.threads == Claimed(None).threads;
    assert s.registry == Claimed(None).registry;
  }

  lemma OwnerIsApplied(r: Real, b: State)
    requires r.bridge == Pc(b, Applying(Owner(), 0))
    requires b.claims == [ClaimAt(Owner(), false, false, false, Some(0))]
    requires b.pending == Some(Pending(0, None)) && b.open == {0} && b.applied == []
    ensures RealNext(r, Plain(Advance(0, Ok))) ==
            Some(r.(bridge := b.(pending := None, open := {}, applied := [Applied(0, Approved, 0)],
                                 claims := [ClaimAt(Owner(), true, false, false, Some(0))],
                                 threads := [Auditing(Owner(), 0), Idle])))
  {
    var s := StepApplying(r.bridge, 0, Owner(), 0, Ok);
    assert {0} - {0} == {};
    assert s.applied == [Applied(0, Approved, 0)];
    assert s.claims == [ClaimAt(Owner(), true, false, false, Some(0))];
    assert s.threads == [Auditing(Owner(), 0), Idle];
  }

  /** The append goes through, its fsync does not, and the owner's call fails. */
  lemma FsyncFails(r: Real) returns (end: Real)
    requires r.trail == A.Trail(None, map[], true, true, [])
    requires r.bridge == State(None, {}, 1, [Applied(0, Approved, 0)], [], map[], [], multiset{}, multiset{}, [],
                               [ClaimAt(Owner(), true, false, false, Some(0))], Registry(map[0 := 0], []),
                               [Auditing(Owner(), 0), Idle])
    ensures RealNext(r, OnTrail(0, NoSync())) == Some(end)
    ensures end.trail == A.Trail(Some([A.Entry(RecordOf(Owner()))]), map[], true, true, [RecordOf(Owner())])
    ensures Between(end, end.trail, 0)
  {
    var record := RecordOf(Owner());
    var trail := A.Trail(Some([A.Entry(record)]), map[], true, true, [record]);
    assert A.Remember([], record) == [record] by {
      assert [] + [record] == [record];
    }
    assert [] + [A.Entry(record)] == [A.Entry(record)];
    assert A.Record(r.trail, record, NoSync()) == (trail, false);
    end := r.(bridge := Bail(r.bridge, 0, 0), trail := trail);
    assert end.bridge.threads == [Idle, Idle];
    assert end.bridge.claims == [ClaimAt(Owner(), true, false, false, None)];
    assert trail.recent[1..] == AT.Fillers(1, 0);
  }

  /** The owner's second call shares its claim and goes straight to the audit phase. */
  lemma OwnerComesBack(r: Real, start: A.Trail) returns (r1: Real, r2: Real, r3: Real)
    requires Between(r, start, A.MAX_RECENT_AUDIT_RECORDS)
    ensures RealNext(r, Plain(StartResolve(0, Owner()))) == Some(r1)
    ensures RealNext(r1, Plain(Advance(0, Ok))) == Some(r2)
    ensures RealNext(r2, Plain(Advance(0, Ok))) == Some(r3)
    ensures r3.trail == r.trail && r3.bridge.threads == [Auditing(Owner(), 0), Idle]
    ensures |r3.bridge.claims| > 0 && r3.bridge.claims[0].progress.record == RecordOf(Owner())
  {
    r1 := r.(bridge := Goto(r.bridge, 0, Claiming(Owner())));
    assert r1.bridge.threads == [Claiming(Owner()), Idle];
    r2 := r.(bridge := r.bridge.(threads := [Locking(Owner(), 0), Idle]));
    assert r1.bridge.threads[0 := Locking(Owner(), 0)] == r2.bridge.threads;
    r3 := r2.(bridge := StepLocking(r2.bridge, 0, Owner(), 0).value);
    assert r3.bridge.threads == [Auditing(Owner(), 0), Idle];
  }

  lemma ForgottenIsAppended(trail: A.Trail, start: A.Trail, record: AuditRecord)
    requires AT.Filled(start, trail, 1, A.MAX_RECENT_AUDIT_RECORDS)
    requires record.id == 0 && 0 !in start.index && record in A.History(start)
    ensures A.History(A.Record(trail, record, AT.NoFaults()).0) == A.History(trail) + [record]
    ensures record in A.History(trail)
  {
    assert trail.recent == AT.Fillers(1, A.MAX_RECENT_AUDIT_RECORDS);
    assert !AT.Logged(trail.recent, 0);
    AT.FreshAppend(trail, record);
    AT.HistoryAppend(A.Lines(trail), record);
    AT.EntriesArePrefix(A.Lines(trail), |A.Lines(start)|);
    assert A.Lines(trail)[..|A.Lines(start)|] == A.Lines(start);
  }

  /** The owner's append is not synced, and 1024 other requests are resolved. */
  lemma OwnerIsForgotten() returns (events: seq<RealEvent>, r: Real, start: A.Trail)
    ensures RealRun(RealInitial(2), events) == Some(r) && Between(r, start, A.MAX_RECENT_AUDIT_RECORDS)
    ensures start == A.Trail(Some([A.Entry(RecordOf(Owner()))]), map[], true, true, [RecordOf(Owner())])
  {
    var before, r1 := OwnerApplies();
    var r2 := FsyncFails(r1);
    before := Then(RealInitial(2), before, r1, OnTrail(0, NoSync()));
    start := r2.trail;
    events, r := ManyRequests(RealInitial(2), before, r2, start, 0);
  }

  lemma OwnerRetries(before: seq<RealEvent>, r: Real, start: A.Trail) returns (events: seq<RealEvent>, end: Real)
    requires RealRun(RealInitial(2), before) == Some(r) && Between(r, start, A.MAX_RECENT_AUDIT_RECORDS)
    ensures RealRun(RealInitial(2), events) == Some(end)
    ensures end.trail == A.Record(r.trail, RecordOf(Owner()), AT.NoFaults()).0
  {
    var r1, r2, r3 := OwnerComesBack(r, start);
    end := OwnerLogsAgain(r3);
    events := ThenThree(before, r, r1, r2, r3);
    events := Then(RealInitial(2), events, r3, OnTrail(0, AT.NoFaults()));
  }

  lemma OwnerLogsAgain(r: Real) returns (end: Real)
    requires r.bridge.threads == [Auditing(Owner(), 0), Idle]
    requires |r.bridge.claims| > 0 && r.bridge.claims[0].progress.record == RecordOf(Owner())
    ensures RealNext(r, OnTrail(0, AT.NoFaults())) == Some(end)
    ensures end.trail == A.Record(r.trail, RecordOf(Owner()), AT.NoFaults()).0
  {
    end := RealNext(r, OnTrail(0, AT.NoFaults())).value;
  }

  lemma ThenThree(before: seq<RealEvent>, r: Real, r1: Real, r2: Real, r3: Real) returns (events: seq<RealEvent>)
    requires RealRun(RealInitial(2), before) == Some(r)
    requires RealNext(r, Plain(StartResolve(0, Owner()))) == Some(r1)
    requires RealNext(r1, Plain(Advance(0, Ok))) == Some(r2)
    requires RealNext(r2, Plain(Advance(0, Ok))) == Some(r3)
    ensures RealRun(RealInitial(2), events) == Some(r3)
  {
    events := Then(RealInitial(2), before, r, Plain(StartResolve(0, Owner())));
    events := Then(RealInitial(2), events, r1, Plain(Advance(0, Ok)));
    events := Then(RealInitial(2), events, r2, Plain(Advance(0, Ok)));
  }

  /**
    One unsynced append, 1024 other approvals and a retry: a run over the real trail that ends with
    the owner's record in the log twice, though the protocol's log has it once.
   */
  lemma SameRecordIsLoggedTwice() returns (events: seq<RealEvent>, r: Real, i: nat, j: nat)
    ensures RealRun(RealInitial(2), events) == Some(r)
    ensures i < j < |A.History(r.trail)|
    ensures A.History(r.trail)[i] == A.History(r.trail)[j] == RecordOf(Owner())
  {
    var before, r1, start := OwnerIsForgotten();
    assert A.Entries([A.Entry(RecordOf(Owner()))]) == [RecordOf(Owner())] by {
      assert [A.Entry(RecordOf(Owner()))][..0] == [];
    }
    events, r := OwnerRetries(before, r1, start);
    ForgottenIsAppended(r1.trail, start, RecordOf(Owner()));
    i :| 0 <= i < |A.History(r1.trail)| && A.History(r1.trail)[i] == RecordOf(Owner());
    j := |A.History(r1.trail)|;
  }
}
