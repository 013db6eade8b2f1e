/**
  The action-sequence table: when exactly a trained link joins two actions that were executed one
  right after the other, and a run the real engine can take on which it does not.
 */
module SpeculativeLinks {
  import opened Options
  import opened SpeculativeBackend
  import opened SpeculativeTraining

  /** The actions executed since the last opaque change of the page. */
  function Acts(page: seq<PageEvent>): seq<Action>
    decreases |page|
  {
    if page == [] then []
    else
      var before := Acts(page[..|page| - 1]);
      match page[|page| - 1]
      case Captured(_) => before
      case Acted(action) => before + [action]
      case Opaque => []
  }

  /** The latest actions are `tail`, in this order and with nothing in between. */
  predicate EndsWith(page: seq<PageEvent>, tail: seq<Action>) {
    |tail| <= |Acts(page)| && Acts(page)[|Acts(page)| - |tail|..] == tail
  }

  /** A link trained by the call joins the two latest actions of the page. */
  predicate TrainsTruly(b: Book, call: Call) {
    var links := StepCall(b, call).engine.links;
    || links == b.engine.links
    || (&& |links| == |b.engine.links| + 1 && links[..|b.engine.links|] == b.engine.links
        && EndsWith(b.page, [links[|b.engine.links|].prior, links[|b.engine.links|].action]))
  }

  predicate RunTrainsTruly(b: Book, calls: seq<Call>)
    decreases |calls|
  {
    calls == [] || (TrainsTruly(b, calls[0]) && RunTrainsTruly(StepCall(b, calls[0]), calls[1..]))
  }

  /** What the bookkeeping keeps over every run, misleading failures included. */
  predicate Shape(b: Book) {
    && (b.chainBroken ==> b.pendingAction.None? && b.engine.cursor.None?)
    && (b.lastServed.Some? <==> !b.previousVerified)
    && (b.lastServed.Some? ==>
          b.previous.Some? && b.servedSource.Some? && b.lastServed.value.predictedState.Some?)
    && (b.pendingAction.Some? ==> EndsWith(b.page, [b.pendingAction.value]))
    && (b.lastServed.Some? && b.pendingAction.None? && !b.chainBroken ==>
          EndsWith(b.page, [b.lastServed.value.predictedAction]))
    && (b.engine.cursor.Some? ==> b.previous.Some? || b.pendingAction.Some?)
  }

  /** The cursor names the action right before the one a link could be trained for next. */
  predicate CursorRight(b: Book) {
    b.engine.cursor.Some? ==>
      var prior := b.engine.cursor.value;
      if b.pendingAction.Some? then
        b.previous.Some? && b.previousVerified ==> EndsWith(b.page, [prior, b.pendingAction.value])
      else if b.lastServed.Some? then EndsWith(b.page, [prior, b.lastServed.value.predictedAction])
      else EndsWith(b.page, [prior])
  }

  /** The capture that the call checks a served prediction against. */
  function Observed(b: Book, call: Call): Option<Hash> {
    match call
    case GetFull(_, _, capture, _) => if Captures(b, call) then capture else None
    case GetDelta(refresh, seen, selects, kind, builds) =>
      if !refresh && selects && !(kind.Full? && !builds) then seen else None
    case Act(_, preCapture, _) => preCapture
    case _ => None
  }

  /** The capture confirms the served prediction, and the cursor still names an older action. */
  predicate Confirms(b: Book, state: Hash) {
    && b.lastServed.Some? && b.pendingAction.None? && !b.chainBroken
    && Some(state) == b.lastServed.value.predictedState
    && b.engine.cursor.Some? && b.engine.cursor.value != b.lastServed.value.predictedAction
  }

  /** The payload fails to build after the pending action was recorded, and it stays pending. */
  predicate StaysPending(b: Book, builds: bool) {
    && !builds && b.pendingAction.Some? && b.previous.Some?
    && !EndsWith(b.page, [b.pendingAction.value, b.pendingAction.value])
  }

  predicate LeavesCursorWrong(b: Book, call: Call) {
    || (Observed(b, call).Some? && Confirms(b, Observed(b, call).value))
    || (Captures(b, call) && StaysPending(b, call.builds))
  }

  // ---- the page ----

  lemma ActsGrow(page: seq<PageEvent>, e: PageEvent)
    ensures Acts(page + [e]) ==
            if e.Captured? then Acts(page) else if e.Acted? then Acts(page) + [e.action] else []
  {
    assert (page + [e])[..|page|] == page;
  }

  lemma EndsAfterAct(page: seq<PageEvent>, action: Action)
    ensures EndsWith(page + [Acted(action)], [action])
    ensures forall prior: Action :: EndsWith(page + [Acted(action)], [prior, action]) <==> EndsWith(page, [prior])
  {
    ActsGrow(page, Acted(action));
    var before := Acts(page);
    var after := before + [action];
    forall prior: Action
      ensures EndsWith(page + [Acted(action)], [prior, action]) <==> EndsWith(page, [prior])
    {
      if |before| > 0 {
        assert after[|after| - 2..] == [before[|before| - 1], action];
        assert before[|before| - 1..] == [before[|before| - 1]];
        assert [prior, action][0] == prior && [prior][0] == prior;
        assert [before[|before| - 1], action][0] == before[|before| - 1];
      }
    }
  }

  lemma OneLast(page: seq<PageEvent>, x: Action, y: Action)
    requires EndsWith(page, [x])
    ensures EndsWith(page, [y]) <==> x == y
  {
    assert [x][0] == x && [y][0] == y;
  }

  // ---- every call ----

  lemma ObserveShape(b: Book, state: Hash)
    requires Shape(b)
    ensures var b' := Observe(Saw(b, Captured(state)), state);
            && Acts(b'.page) == Acts(b.page) && b'.page == b.page + [Captured(state)]
            && b'.previous == b.previous && b'.pendingAction == b.pendingAction
            && b'.lastServed.None? && b'.previousVerified && !b'.chainBroken
            && (b'.engine.cursor ==
                  if b.pendingAction.Some? then b.pendingAction
                  else if b.lastServed.Some? && !b.chainBroken && Some(state) != b.lastServed.value.predictedState
                  then Some(b.lastServed.value.predictedAction)
                  else b.engine.cursor)
            && (b'.engine.links ==
                  if b.pendingAction.Some? then
                    if b.previousVerified && b.previous.Some? then LinkFrom(b.engine, b.pendingAction.value)
                    else b.engine.links
                  else if b.lastServed.Some? && !b.chainBroken && Some(state) != b.lastServed.value.predictedState
                  then LinkFrom(b.engine, b.lastServed.value.predictedAction)
                  else b.engine.links)
  {
    ActsGrow(b.page, Captured(state));
  }

  /** The cursor after a recorded capture: the pending action, the corrected one, or the old cursor. */
  function CursorAfter(b: Book, state: Hash): Option<Action> {
    if b.pendingAction.Some? then b.pendingAction
    else if b.lastServed.Some? && !b.chainBroken && Some(state) != b.lastServed.value.predictedState
    then Some(b.lastServed.value.predictedAction)
    else b.engine.cursor
  }

  lemma CaptureFacts(b: Book, outcome: Outcome, state: Hash, builds: bool)
    requires Shape(b)
    ensures var b' := CaptureFull(b, outcome, state, builds);
            && Acts(b'.page) == Acts(b.page) && b'.engine.cursor == CursorAfter(b, state)
            && b'.lastServed.None? && b'.previousVerified && !b'.chainBroken
            && b'.pendingAction == (if builds then None else b.pendingAction)
            && b'.previous == (if builds then Some(state) else b.previous)
  {
    ObserveShape(b, state);
    var b1 := Recorded(b, outcome, state);
    assert b1.engine.cursor == CursorAfter(b, state);
    if builds {
      assert CaptureFull(b, outcome, state, builds) == Promote(b1, b.chainBroken, state).(stateCache := Some(state));
    }
  }

  lemma ShapeAfterCapture(b: Book, b': Book, state: Hash, builds: bool)
    requires Shape(b)
    requires Acts(b'.page) == Acts(b.page) && b'.engine.cursor == CursorAfter(b, state)
    requires b'.lastServed.None? && b'.previousVerified && !b'.chainBroken
    requires b'.pendingAction == (if builds then None else b.pendingAction)
    requires b'.previous == (if builds then Some(state) else b.previous)
    ensures Shape(b')
  {
  }

  lemma CaptureFullShape(b: Book, outcome: Outcome, state: Hash, builds: bool)
    requires Shape(b)
    ensures Shape(CaptureFull(b, outcome, state, builds))
  {
    CaptureFacts(b, outcome, state, builds);
    ShapeAfterCapture(b, CaptureFull(b, outcome, state, builds), state, builds);
  }

  lemma CacheIsFree(b: Book, cache: Option<Hash>)
    ensures Shape(b.(stateCache := cache)) <==> Shape(b)
    ensures CursorRight(b.(stateCache := cache)) <==> CursorRight(b)
  {
  }

  function CacheAfter(b: Book, seen: Hash, kind: UpdateKind): Option<Hash> {
    if kind.Full? then Some(seen) else b.stateCache
  }

  /** A delta read that is recorded does what a full read does, but for the cached payload. */
  lemma DeltaIsCapture(b: Book, seen: Hash, selects: bool, kind: UpdateKind, builds: bool)
    ensures StepGetDelta(b, false, Some(seen), selects, kind, builds) ==
            if selects && !(kind.Full? && !builds)
            then CaptureFull(b, MissForceRefresh, seen, true).(stateCache := CacheAfter(b, seen, kind))
            else Saw(b, Captured(seen))
  {
    if selects && !(kind.Full? && !builds) {
      RecordedDelta(b, seen, kind);
    }
  }

  lemma RecordedDelta(b: Book, seen: Hash, kind: UpdateKind)
    ensures var b2 := Saw(b, Captured(seen));
            var b3 := if kind.Full? then b2.(stateCache := Some(seen)) else b2;
            Promote(Observe(b3, seen), b3.chainBroken, seen) ==
            CaptureFull(b, MissForceRefresh, seen, true).(stateCache := CacheAfter(b, seen, kind))
  {
    ObserveIgnoresCache(Saw(b, Captured(seen)), Some(seen), seen);
  }

  lemma GetDeltaShape(b: Book, seen: Hash, selects: bool, kind: UpdateKind, builds: bool)
    requires Shape(b)
    ensures Shape(StepGetDelta(b, false, Some(seen), selects, kind, builds))
  {
    DeltaIsCapture(b, seen, selects, kind, builds);
    if selects && !(kind.Full? && !builds) {
      CaptureFullShape(b, MissForceRefresh, seen, true);
      CacheIsFree(CaptureFull(b, MissForceRefresh, seen, true), CacheAfter(b, seen, kind));
    } else {
      SawKeepsShape(b, seen);
    }
  }

  lemma RebaseShape(b: Book)
    ensures Shape(Rebase(b)) && Shape(Reset(b)) && CursorRight(Rebase(b)) && CursorRight(Reset(b))
  {
  }

  lemma VerifyShape(b: Book, preCapture: Option<Hash>)
    requires Shape(b)
    ensures Shape(VerifyBeforeAct(b, preCapture))
  {
    if preCapture.Some? {
      ActsGrow(b.page, Captured(preCapture.value));
    }
  }

  lemma ActShape(b: Book, action: Action)
    requires Shape(b)
    ensures Shape(ActOn(b, action))
  {
    EndsAfterAct(b.page, action);
  }

  lemma CallKeepsShape(b: Book, call: Call)
    requires Shape(b)
    ensures Shape(StepCall(b, call))
  {
    RebaseShape(b);
    match call
    case GetFull(force, oracle, capture, builds) =>
      if Captures(b, call) {
        CaptureFullShape(b, ResolveSpeculative(b, force, oracle), capture.value, builds);
      }
    case GetDelta(refresh, seen, selects, kind, builds) =>
      if seen.Some? {
        GetDeltaShape(if refresh then Rebase(b) else b, seen.value, selects, kind, builds);
      }
    case Act(action, preCapture, succeeds) =>
      VerifyShape(b, preCapture);
      if succeeds {
        ActShape(VerifyBeforeAct(b, preCapture), action);
      }
    case _ =>
  }

  // ---- links and the cursor, call by call ----

  /** The links of two engines differ by at most one link between the two latest actions. */
  predicate LinksTrulyFrom(page: seq<PageEvent>, links: seq<Link>, links': seq<Link>) {
    || links' == links
    || (&& |links'| == |links| + 1 && links'[..|links|] == links
        && EndsWith(page, [links'[|links|].prior, links'[|links|].action]))
  }

  lemma CaptureLinksTruly(b: Book, outcome: Outcome, state: Hash, builds: bool)
    requires Shape(b) && CursorRight(b)
    ensures LinksTrulyFrom(b.page, b.engine.links, CaptureFull(b, outcome, state, builds).engine.links)
  {
    ObserveShape(b, state);
  }

  lemma CursorAfterCapture(b: Book, b': Book, state: Hash, builds: bool)
    requires Shape(b) && CursorRight(b)
    requires Acts(b'.page) == Acts(b.page) && b'.engine.cursor == CursorAfter(b, state)
    requires b'.lastServed.None? && b'.previousVerified
    requires b'.pendingAction == (if builds then None else b.pendingAction)
    requires b'.previous.Some? <==> builds || b.previous.Some?
    ensures CursorRight(b') <==> !Confirms(b, state) && !StaysPending(b, builds)
  {
    if b.pendingAction.None? && b.lastServed.Some? && !b.chainBroken {
      var action := b.lastServed.value.predictedAction;
      if Some(state) == b.lastServed.value.predictedState && b.engine.cursor.Some? {
        OneLast(b.page, action, b.engine.cursor.value);
      }
    }
  }

  lemma CaptureKeepsCursor(b: Book, outcome: Outcome, state: Hash, builds: bool)
    requires Shape(b) && CursorRight(b)
    ensures CursorRight(CaptureFull(b, outcome, state, builds)) <==> !Confirms(b, state) && !StaysPending(b, builds)
  {
    CaptureFacts(b, outcome, state, builds);
    CursorAfterCapture(b, CaptureFull(b, outcome, state, builds), state, builds);
  }

  lemma VerifyLinksTruly(b: Book, preCapture: Option<Hash>)
    requires Shape(b) && CursorRight(b)
    ensures var b' := VerifyBeforeAct(b, preCapture);
            && LinksTrulyFrom(b.page, b.engine.links, b'.engine.links)
            && (CursorRight(b') <==> !(preCapture.Some? && Confirms(b, preCapture.value)))
  {
    if b.lastServed.Some? && b.pendingAction.None? && !b.chainBroken && preCapture.Some? {
      ActsGrow(b.page, Captured(preCapture.value));
      if b.engine.cursor.Some? {
        OneLast(b.page, b.lastServed.value.predictedAction, b.engine.cursor.value);
      }
    }
  }

  lemma ActKeepsCursor(b: Book, action: Action)
    requires Shape(b)
    ensures CursorRight(b) ==> CursorRight(ActOn(b, action))
    ensures b.pendingAction.None? && b.lastServed.None? && CursorRight(ActOn(b, action)) ==> CursorRight(b)
    ensures ActOn(b, action).engine.links == b.engine.links
  {
    EndsAfterAct(b.page, action);
  }

  lemma VerifiedThenAct(b: Book, action: Action, preCapture: Option<Hash>)
    requires Shape(b) && CursorRight(b)
    ensures CursorRight(ActOn(VerifyBeforeAct(b, preCapture), action)) <==> CursorRight(VerifyBeforeAct(b, preCapture))
  {
    VerifyShape(b, preCapture);
    ActKeepsCursor(VerifyBeforeAct(b, preCapture), action);
  }

  lemma GetDeltaTrainsTruly(b: Book, call: Call)
    requires Shape(b) && CursorRight(b) && call.GetDelta?
    ensures TrainsTruly(b, call)
  {
    if call.seen.Some? {
      var b1 := if call.refresh then Rebase(b) else b;
      RebaseShape(b);
      CaptureLinksTruly(b1, MissForceRefresh, call.seen.value, true);
      DeltaIsCapture(b1, call.seen.value, call.selects, call.kind, call.buildsFull);
    }
  }

  lemma ActTrainsTruly(b: Book, call: Call)
    requires Shape(b) && CursorRight(b) && call.Act?
    ensures TrainsTruly(b, call)
  {
    VerifyShape(b, call.preCapture);
    VerifyLinksTruly(b, call.preCapture);
    ActKeepsCursor(VerifyBeforeAct(b, call.preCapture), call.action);
  }

  /** While the cursor is right every call trains a true link or none. */
  lemma CallTrainsTruly(b: Book, call: Call)
    requires Shape(b) && CursorRight(b)
    ensures TrainsTruly(b, call)
  {
    match call
    case GetFull(force, oracle, capture, builds) =>
      if Captures(b, call) {
        CaptureLinksTruly(b, ResolveSpeculative(b, force, oracle), capture.value, builds);
      }
    case GetDelta(_, _, _, _, _) => GetDeltaTrainsTruly(b, call);
    case Act(_, _, _) => ActTrainsTruly(b, call);
    case _ =>
  }

  lemma GetFullKeepsCursor(b: Book, call: Call)
    requires Shape(b) && CursorRight(b) && call.GetFull?
    ensures CursorRight(StepCall(b, call)) <==> !LeavesCursorWrong(b, call)
  {
    if Captures(b, call) {
      CaptureKeepsCursor(b, ResolveSpeculative(b, call.force, call.oracle), call.capture.value, call.builds);
    }
  }

  lemma DeltaKeepsCursor(b: Book, seen: Hash, selects: bool, kind: UpdateKind, builds: bool)
    requires Shape(b) && CursorRight(b)
    ensures CursorRight(StepGetDelta(b, false, Some(seen), selects, kind, builds)) <==>
              !(selects && !(kind.Full? && !builds) && Confirms(b, seen))
  {
    DeltaIsCapture(b, seen, selects, kind, builds);
    if selects && !(kind.Full? && !builds) {
      CaptureKeepsCursor(b, MissForceRefresh, seen, true);
      CacheIsFree(CaptureFull(b, MissForceRefresh, seen, true), CacheAfter(b, seen, kind));
    } else {
      SawKeepsCursor(b, seen);
    }
  }

  lemma EndsAfterCapture(page: seq<PageEvent>, seen: Hash)
    ensures forall tail: seq<Action> :: EndsWith(page + [Captured(seen)], tail) <==> EndsWith(page, tail)
  {
    ActsGrow(page, Captured(seen));
  }

  lemma SawKeepsCursor(b: Book, seen: Hash)
    requires CursorRight(b)
    ensures CursorRight(Saw(b, Captured(seen)))
  {
    EndsAfterCapture(b.page, seen);
  }

  lemma SawKeepsShape(b: Book, seen: Hash)
    requires Shape(b)
    ensures Shape(Saw(b, Captured(seen)))
  {
    EndsAfterCapture(b.page, seen);
  }

  lemma GetDeltaKeepsCursor(b: Book, call: Call)
    requires Shape(b) && CursorRight(b) && call.GetDelta?
    ensures CursorRight(StepCall(b, call)) <==> !LeavesCursorWrong(b, call)
  {
    RebaseShape(b);
    if call.seen.Some? {
      var b1 := if call.refresh then Rebase(b) else b;
      DeltaKeepsCursor(b1, call.seen.value, call.selects, call.kind, call.buildsFull);
    }
  }

  lemma ActCallKeepsCursor(b: Book, call: Call)
    requires Shape(b) && CursorRight(b) && call.Act?
    ensures CursorRight(StepCall(b, call)) <==> !LeavesCursorWrong(b, call)
  {
    VerifyLinksTruly(b, call.preCapture);
    VerifiedThenAct(b, call.action, call.preCapture);
    ActIsVerified(b, call);
  }

  lemma ActIsVerified(b: Book, call: Call)
    requires call.Act?
    ensures StepCall(b, call) == (if call.succeeds then ActOn(VerifyBeforeAct(b, call.preCapture), call.action)
                                  else VerifyBeforeAct(b, call.preCapture))
    ensures LeavesCursorWrong(b, call) <==> call.preCapture.Some? && Confirms(b, call.preCapture.value)
  {
  }

  /** A call leaves the cursor right if and only if it is not one of the two that leave it wrong. */
  lemma CallKeepsCursor(b: Book, call: Call)
    requires Shape(b) && CursorRight(b)
    ensures CursorRight(StepCall(b, call)) <==> !LeavesCursorWrong(b, call)
  {
    match call
    case GetFull(_, _, _, _) => GetFullKeepsCursor(b, call);
    case GetDelta(_, _, _, _, _) => GetDeltaKeepsCursor(b, call);
    case Act(_, _, _) => ActCallKeepsCursor(b, call);
    case _ => RebaseShape(b);
  }

  // ---- whole runs ----

  predicate KeepsCursor(b: Book, calls: seq<Call>)
    decreases |calls|
  {
    calls == [] || (!LeavesCursorWrong(b, calls[0]) && KeepsCursor(StepCall(b, calls[0]), calls[1..]))
  }

  lemma {:induction false} RunKeepsCursor(b: Book, calls: seq<Call>)
    requires Shape(b) && CursorRight(b) && KeepsCursor(b, calls)
    ensures Shape(Run(b, calls)) && CursorRight(Run(b, calls)) && RunTrainsTruly(b, calls)
    decreases |calls|
  {
    if calls != [] {
      CallKeepsShape(b, calls[0]);
      CallTrainsTruly(b, calls[0]);
      CallKeepsCursor(b, calls[0]);
      RunKeepsCursor(StepCall(b, calls[0]), calls[1..]);
    }
  }

  lemma {:induction false} RunKeepsShape(b: Book, calls: seq<Call>)
    requires Shape(b)
    ensures Shape(Run(b, calls))
    decreases |calls|
  {
    if calls != [] {
      CallKeepsShape(b, calls[0]);
      RunKeepsShape(StepCall(b, calls[0]), calls[1..]);
    }
  }

  /**
    Over every run in which no call leaves the cursor wrong, each link is trained between the two
    actions executed last, one right after the other.
   */
  lemma LinksJoinAdjacentActions(calls: seq<Call>)
    requires KeepsCursor(Initial(), calls)
    ensures RunTrainsTruly(Initial(), calls)
  {
    RunKeepsCursor(Initial(), calls);
  }

  /** The calls that put a wrong cursor to use. */
  function LinkProbe(b: Book): seq<Call> {
    if b.pendingAction.Some? then [Forced("x")]
    else if b.lastServed.Some? && b.lastServed.value.predictedState.Some?
    then [Forced(b.lastServed.value.predictedState.value + "x")]
    else [Act("probe", None, true), Forced("x")]
  }

  lemma WrongLinkIsTrained(b: Book, state: Hash, action: Action)
    requires b.engine.cursor.Some? && !EndsWith(b.page, [b.engine.cursor.value, action])
    requires StepCall(b, Forced(state)).engine.links == LinkFrom(b.engine, action)
    ensures !RunTrainsTruly(b, [Forced(state)])
  {
    var links := StepCall(b, Forced(state)).engine.links;
    assert links[|b.engine.links|] == Link(b.engine.cursor.value, action);
  }

  lemma PendingIsLinked(b: Book, state: Hash)
    requires Shape(b) && b.pendingAction.Some? && b.previousVerified && b.previous.Some?
    ensures StepCall(b, Forced(state)).engine.links == LinkFrom(b.engine, b.pendingAction.value)
  {
    ObserveShape(b, state);
  }

  lemma WrongPendingTrainsFalsely(b: Book)
    requires Shape(b) && !CursorRight(b) && b.pendingAction.Some?
    ensures !RunTrainsTruly(b, [Forced("x")])
  {
    PendingIsLinked(b, "x");
    WrongLinkIsTrained(b, "x", b.pendingAction.value);
  }

  lemma WrongServedTrainsFalsely(b: Book)
    requires Shape(b) && !CursorRight(b) && b.pendingAction.None? && b.lastServed.Some?
    ensures !RunTrainsTruly(b, LinkProbe(b))
  {
    var state := b.lastServed.value.predictedState.value + "x";
    ObserveShape(b, state);
    WrongLinkIsTrained(b, state, b.lastServed.value.predictedAction);
  }

  /** From a wrong cursor at most two more calls train a link between actions that were not adjacent. */
  lemma WrongCursorTrainsFalsely(b: Book)
    requires Shape(b) && !CursorRight(b)
    ensures !RunTrainsTruly(b, LinkProbe(b))
  {
    if b.pendingAction.Some? {
      WrongPendingTrainsFalsely(b);
    } else if b.lastServed.Some? {
      WrongServedTrainsFalsely(b);
    } else {
      var b1 := StepCall(b, Act("probe", None, true));
      assert b1 == ActOn(b, "probe");
      ActShape(b, "probe");
      ActKeepsCursor(b, "probe");
      WrongPendingTrainsFalsely(b1);
      assert LinkProbe(b)[1..] == [Forced("x")];
    }
  }

  lemma OneCallTrainsTruly(b: Book, call: Call)
    requires Shape(b) && CursorRight(b)
    ensures RunTrainsTruly(b, [call])
  {
    CallTrainsTruly(b, call);
    assert [call][1..] == [];
    assert RunTrainsTruly(StepCall(b, call), []);
  }

  lemma ActThenForcedTrainsTruly(b: Book)
    requires Shape(b) && CursorRight(b)
    ensures RunTrainsTruly(b, [Act("probe", None, true), Forced("x")])
  {
    var act := Act("probe", None, true);
    var b1 := StepCall(b, act);
    CallTrainsTruly(b, act);
    CallKeepsShape(b, act);
    CallKeepsCursor(b, act);
    OneCallTrainsTruly(b1, Forced("x"));
    assert [act, Forced("x")][1..] == [Forced("x")];
    assert RunTrainsTruly(b1, [Forced("x")]);
  }

  lemma RightCursorProbesTruly(b: Book)
    requires Shape(b) && CursorRight(b)
    ensures RunTrainsTruly(b, LinkProbe(b))
  {
    if |LinkProbe(b)| == 1 {
      OneCallTrainsTruly(b, LinkProbe(b)[0]);
      assert LinkProbe(b) == [LinkProbe(b)[0]];
    } else {
      ActThenForcedTrainsTruly(b);
    }
  }

  lemma {:induction false} TrainsTrulyAppend(b: Book, first: seq<Call>, second: seq<Call>)
    ensures RunTrainsTruly(b, first + second) <==>
              RunTrainsTruly(b, first) && RunTrainsTruly(Run(b, first), second)
    decreases |first|
  {
    if first == [] {
      assert first + second == second;
    } else {
      assert (first + second)[1..] == first[1..] + second;
      TrainsTrulyAppend(StepCall(b, first[0]), first[1..], second);
    }
  }

  lemma {:induction false} KeepsCursorPrefix(b: Book, calls: seq<Call>, n: nat)
    requires n <= |calls| && KeepsCursor(b, calls)
    ensures KeepsCursor(b, calls[..n])
    decreases n
  {
    if n > 0 {
      assert calls[..n][1..] == calls[1..][..n - 1];
      KeepsCursorPrefix(StepCall(b, calls[0]), calls[1..], n - 1);
    }
  }

  lemma {:induction false} FirstWrong(b: Book, calls: seq<Call>) returns (n: nat)
    requires !KeepsCursor(b, calls)
    ensures n < |calls| && KeepsCursor(b, calls[..n]) && LeavesCursorWrong(Run(b, calls[..n]), calls[n])
    decreases |calls|
  {
    if LeavesCursorWrong(b, calls[0]) {
      n := 0;
    } else {
      var m := FirstWrong(StepCall(b, calls[0]), calls[1..]);
      n := m + 1;
      assert calls[..n][1..] == calls[1..][..m] && calls[..n][0] == calls[0];
    }
  }

  /** The run up to `n`, continued by a probe, trains true links only. */
  predicate ProbesTruly(calls: seq<Call>, n: nat)
    requires n <= |calls|
  {
    RunTrainsTruly(Initial(), calls[..n] + LinkProbe(Run(Initial(), calls[..n])))
  }

  /**
    The exact condition: a run, stopped anywhere and probed, links adjacent actions only if and only
    if none of its calls confirmed a served prediction behind the cursor or failed to build a
    payload with an action already recorded.
   */
  lemma LinksAreTrueIffCursorKept(calls: seq<Call>)
    ensures KeepsCursor(Initial(), calls) <==> forall n: nat :: n <= |calls| ==> ProbesTruly(calls, n)
  {
    if KeepsCursor(Initial(), calls) {
      forall n: nat | n <= |calls|
        ensures ProbesTruly(calls, n)
      {
        KeepsCursorPrefix(Initial(), calls, n);
        RunKeepsCursor(Initial(), calls[..n]);
        RightCursorProbesTruly(Run(Initial(), calls[..n]));
        TrainsTrulyAppend(Initial(), calls[..n], LinkProbe(Run(Initial(), calls[..n])));
      }
    } else {
      var n := FirstWrong(Initial(), calls);
      var b := Run(Initial(), calls[..n]);
      RunKeepsCursor(Initial(), calls[..n]);
      RunPrefix(Initial(), calls, n);
      CallKeepsCursor(b, calls[n]);
      CallKeepsShape(b, calls[n]);
      WrongCursorTrainsFalsely(StepCall(b, calls[n]));
      TrainsTrulyAppend(Initial(), calls[..n + 1], LinkProbe(StepCall(b, calls[n])));
      assert !ProbesTruly(calls, n + 1);
    }
  }

  // ---- a run the engine can really take ----

  /** Two states joined by two actions; the second time round, the way back is served unseen. */
  function Cycle(): seq<Call> {
    [Read("s0"), Do("a"), Read("s1"), Do("b"), Read("s0"), Do("a"), Read("s1"), Do("b"),
     GetFull(false, Oracle(Some(Prediction("b", Some("s0"))), true), None, true)]
  }

  /** The next action's own capture confirms the prediction; then the page is read. */
  function GoOn(): seq<Call> {
    [Act("c", Some("s0"), true),
     GetFull(false, Oracle(Some(Prediction("a", Some("s1"))), true), Some("s2"), true)]
  }

  function Halfway(): Book {
    Initial().(stateCache := Some("s0"), previous := Some("s0"), lastAction := Some("b"), misses := 2,
               engine := Engine([Edge("s0", "a", "s1"), Edge("s1", "b", "s0")], [Link("a", "b")], Some("b")),
               page := [Captured("s0"), Acted("a"), Captured("s1"), Acted("b"), Captured("s0")])
  }

  lemma HalfwayRuns()
    ensures Run(Initial(), Cycle()) == Run(Halfway(), Cycle()[5..])
    ensures Answerable(Halfway(), Cycle()[5..]) ==> Answerable(Initial(), Cycle())
  {
    var calls := Cycle();
    var b4 := StepCall(Forth(), calls[3]);
    assert b4 == Forth().(stateCache := None, pendingAction := Some("b"), page := Forth().page + [Acted("b")]);
    assert StepCall(b4, calls[4]) == Halfway();
    RunUnfolds(b4, calls, 4, Halfway());
    RunUnfolds(Forth(), calls, 3, b4);
    ForthRuns(calls);
  }

  /** The way back is served: the cursor still names the action before. */
  function ServedBack(): Book {
    Halfway().(stateCache := None, previous := Some("s0"), misses := 3, hits := 1,
               lastServed := Some(Prediction("b", Some("s0"))), servedSource := Some("s1"), previousVerified := false,
               engine := Engine([Edge("s0", "a", "s1"), Edge("s1", "b", "s0"), Edge("s0", "a", "s1")],
                                [Link("a", "b"), Link("b", "a")], Some("a")),
               page := Halfway().page + [Acted("a"), Captured("s1"), Acted("b")])
  }

  /** The second time round up to the action back. */
  function Back(): Book {
    Halfway().(stateCache := None, previous := Some("s1"), lastAction := Some("a"), misses := 3,
               pendingAction := Some("b"), engine := ServedBack().engine,
               page := Halfway().page + [Acted("a")] + [Captured("s1")] + [Acted("b")])
  }

  lemma BackRuns()
    ensures Run(Halfway(), Cycle()[5..]) == Run(Back(), Cycle()[8..])
    ensures Answerable(Back(), Cycle()[8..]) ==> Answerable(Halfway(), Cycle()[5..])
  {
    var calls := Cycle();
    var b6 := StepCall(Halfway(), calls[5]);
    assert b6 == Halfway().(stateCache := None, pendingAction := Some("a"), page := Halfway().page + [Acted("a")]);
    var b7 := StepCall(b6, calls[6]);
    assert b7 == Halfway().(stateCache := Some("s1"), previous := Some("s1"), lastAction := Some("a"), misses := 3,
                            engine := ServedBack().engine, page := b6.page + [Captured("s1")]);
    assert StepCall(b7, calls[7]) == Back();
    RunUnfolds(b7, calls, 7, Back());
    RunUnfolds(b6, calls, 6, b7);
    RunUnfolds(Halfway(), calls, 5, b6);
  }

  lemma CycleRuns()
    ensures Run(Initial(), Cycle()) == ServedBack() && Answerable(Initial(), Cycle())
  {
    var calls := Cycle();
    CycleIsServed(Back());
    assert calls[9..] == [];
    RunUnfolds(Back(), calls, 8, ServedBack());
    BackRuns();
    HalfwayRuns();
  }

  lemma CycleIsServed(b: Book)
    requires b == Back()
    ensures StepCall(b, Cycle()[8]) == ServedBack() && CanAnswer(b, Cycle()[8].oracle)
  {
    assert b.engine.links[0] == Link("a", "b") && b.engine.trained[1] == Edge("s1", "b", "s0");
    assert b.page[0] == Captured("s0");
    assert b.page == ServedBack().page;
  }

  lemma ReadAfterConfirmation(b: Book) returns (end: Book)
    requires b == ServedBack().(lastServed := None, servedSource := None, previousVerified := true,
                                pendingAction := Some("c"), page := ServedBack().page + [Captured("s0")] + [Acted("c")])
    ensures end == StepCall(b, GoOn()[1]) && CanAnswer(b, GoOn()[1].oracle)
    ensures Link("a", "c") in end.engine.links && end.page == b.page + [Captured("s2")]
  {
    assert b.engine.links[1] == Link("b", "a") && b.engine.trained[0] == Edge("s0", "a", "s1");
    assert b.page[2] == Captured("s1");
    end := StepCall(b, GoOn()[1]);
    assert end.engine.links == b.engine.links + [Link("a", "c")];
    assert end.engine.links[2] == Link("a", "c");
  }

  lemma GoOnRuns() returns (end: Book)
    ensures end == Run(ServedBack(), GoOn()) && Answerable(ServedBack(), GoOn())
    ensures Link("a", "c") in end.engine.links
    ensures end.page == ServedBack().page + [Captured("s0")] + [Acted("c")] + [Captured("s2")]
  {
    var b1 := StepCall(ServedBack(), GoOn()[0]);
    assert b1 == ServedBack().(lastServed := None, servedSource := None, previousVerified := true,
                               pendingAction := Some("c"), page := ServedBack().page + [Captured("s0")] + [Acted("c")]);
    end := ReadAfterConfirmation(b1);
    assert GoOn()[2..] == [] && GoOn()[0..] == GoOn();
    RunUnfolds(b1, GoOn(), 1, end);
    RunUnfolds(ServedBack(), GoOn(), 0, b1);
  }

  /**
    A confirmed prediction leaves the cursor behind, in a run that the engine's own answers allow:
    the table learns that `c` follows `a`, although every `a` of the run was followed by `b`.
   */
  lemma ConfirmedHitSkipsAnAction() returns (calls: seq<Call>, end: Book)
    ensures end == Run(Initial(), calls) && Answerable(Initial(), calls)
    ensures Link("a", "c") in end.engine.links && Acts(end.page) == ["a", "b", "a", "b", "c"]
  {
    calls := Cycle() + GoOn();
    CycleRuns();
    end := GoOnRuns();
    RunAppend(Initial(), Cycle(), GoOn());
    AnswerableAppend(Initial(), Cycle(), GoOn());
    CycleActs(end.page);
  }

  lemma HalfwayActs()
    ensures Acts(Halfway().page) == ["a", "b"]
  {
    var p1 := [Captured("s0")];
    ActsGrow([], Captured("s0"));
    assert [] + [Captured("s0")] == p1;
    ActsGrow(p1, Acted("a"));
    ActsGrow(p1 + [Acted("a")], Captured("s1"));
    ActsGrow(p1 + [Acted("a")] + [Captured("s1")], Acted("b"));
    ActsGrow(p1 + [Acted("a")] + [Captured("s1")] + [Acted("b")], Captured("s0"));
    assert p1 + [Acted("a")] + [Captured("s1")] + [Acted("b")] + [Captured("s0")] == Halfway().page;
  }

  lemma ServedBackActs()
    ensures Acts(ServedBack().page) == ["a", "b", "a", "b"]
  {
    HalfwayActs();
    var p5 := Halfway().page;
    ActsGrow(p5, Acted("a"));
    ActsGrow(p5 + [Acted("a")], Captured("s1"));
    ActsGrow(p5 + [Acted("a")] + [Captured("s1")], Acted("b"));
    assert p5 + [Acted("a")] + [Captured("s1")] + [Acted("b")] == ServedBack().page;
  }

  lemma CycleActs(page: seq<PageEvent>)
    requires page == ServedBack().page + [Captured("s0")] + [Acted("c")] + [Captured("s2")]
    ensures Acts(page) == ["a", "b", "a", "b", "c"]
  {
    ServedBackActs();
    var p8 := ServedBack().page;
    ActsGrow(p8, Captured("s0"));
    ActsGrow(p8 + [Captured("s0")], Acted("c"));
    ActsGrow(p8 + [Captured("s0")] + [Acted("c")], Captured("s2"));
  }

  /** A read after one action whose payload fails to build, and the same read again. */
  function FailAndRetry(): seq<Call> {
    [Read("s0"), Do("a"), GetFull(false, Oracle(None, false), Some("s1"), false), Read("s1")]
  }

  /** The other way to a wrong cursor: the table learns that `a` follows `a`, which was executed once. */
  lemma FailedReadLinksAnActionToItself() returns (end: Book)
    ensures end == Run(Initial(), FailAndRetry()) && Answerable(Initial(), FailAndRetry())
    ensures Link("a", "a") in end.engine.links && Acts(end.page) == ["a"]
  {
    var calls := FailAndRetry();
    var b1 := StepCall(Initial(), calls[0]);
    assert b1 == Initial().(stateCache := Some("s0"), previous := Some("s0"), page := [Captured("s0")]);
    var b2 := StepCall(b1, calls[1]);
    assert b2 == Initial().(previous := Some("s0"), pendingAction := Some("a"), page := [Captured("s0"), Acted("a")]);
    var b3 := StepCall(b2, calls[2]);
    assert b3 == b2.(misses := 1, engine := Engine([Edge("s0", "a", "s1")], [], Some("a")),
                     page := b2.page + [Captured("s1")]);
    end := StepCall(b3, calls[3]);
    assert end.engine.links == [Link("a", "a")] && end.engine.links[0] == Link("a", "a");
    assert calls[4..] == [] && calls[0..] == calls;
    RunUnfolds(b3, calls, 3, end);
    RunUnfolds(b2, calls, 2, b3);
    RunUnfolds(b1, calls, 1, b2);
    RunUnfolds(Initial(), calls, 0, b1);
    OneAct(end.page);
  }

  lemma OneAct(page: seq<PageEvent>)
    requires page == [Captured("s0"), Acted("a")] + [Captured("s1")] + [Captured("s1")]
    ensures Acts(page) == ["a"]
  {
    assert [] + [Captured("s0")] == [Captured("s0")];
    assert [Captured("s0")] + [Acted("a")] == [Captured("s0"), Acted("a")];
    ActsGrow([], Captured("s0"));
    ActsGrow([Captured("s0")], Acted("a"));
    ActsGrow([Captured("s0"), Acted("a")], Captured("s1"));
    ActsGrow([Captured("s0"), Acted("a")] + [Captured("s1")], Captured("s1"));
  }
}
