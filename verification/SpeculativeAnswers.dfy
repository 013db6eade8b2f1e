/** What each speculative call answers and leaves, branch by branch, in terms of what it found. */
module SpeculativeAnswers {
  import opened Options
  import opened SpeculativeBackend

  // ---- an observation ----

  /** A served prediction is checked against this capture, nothing having been executed since, and was wrong. */
  predicate Corrects(b: Book, state: Hash) {
    && b.lastServed.Some? && b.pendingAction.None? && !b.chainBroken && b.servedSource.Some?
    && b.lastServed.value.predictedState.Some? && b.lastServed.value.predictedState != Some(state)
  }

  /** A single action was executed since a baseline that is a real capture. */
  predicate Transits(b: Book) {
    b.previousVerified && b.previous.Some? && b.pendingAction.Some?
  }

  /** The edge a capture teaches, if any. */
  function Lesson(b: Book, state: Hash): Option<Edge> {
    if Corrects(b, state) then Some(Edge(b.servedSource.value, b.lastServed.value.predictedAction, state))
    else if Transits(b) then Some(Edge(b.previous.value, b.pendingAction.value, state))
    else None
  }

  /** The engine with one more edge: the link joins its action to the cursor, and the cursor moves on. */
  predicate Learned(e: Engine, lesson: Option<Edge>, e': Engine) {
    if lesson.None? then e'.trained == e.trained && e'.links == e.links
    else
      && e'.trained == e.trained + [lesson.value]
      && e'.links == (if e.cursor.Some? then e.links + [Link(e.cursor.value, lesson.value.action)] else e.links)
      && e'.cursor == Some(lesson.value.action)
  }

  /** A recorded capture settles what was served, teaches its one lesson and leaves the baseline verified. */
  lemma ObservationIsExact(b: Book, state: Hash)
    ensures var b' := Observe(b, state);
            && Learned(b.engine, Lesson(b, state), b'.engine)
            && (Lesson(b, state).None? ==>
                  b'.engine.cursor == if b.pendingAction.Some? then b.pendingAction else b.engine.cursor)
            && b'.lastServed.None? && (b.lastServed.Some? ==> b'.servedSource.None?)
            && b'.previousVerified && !b'.chainBroken
            && b' == b.(engine := b'.engine, lastServed := None, servedSource := b'.servedSource,
                        previousVerified := true, chainBroken := false)
  {
  }

  // ---- the full read ----

  /** What a read found and did not find when it asked for a prediction. */
  predicate Asks(b: Book, force: bool) {
    !force && b.lastServed.None? && b.previous.Some? && b.pendingAction.Some?
  }

  /** A served prediction is confirmed; a mere miss is counted when a prediction was asked for. */
  lemma ServingIsExact(b: Book, force: bool, oracle: Oracle)
    ensures ResolveSpeculative(b, force, oracle) == Hit <==> MayServe(b, force, oracle)
    ensures CountsAsMiss(ResolveSpeculative(b, force, oracle)) <==> Asks(b, force) && !MayServe(b, force, oracle)
  {
  }

  /** What a read that serves a prediction leaves: everything but the bookkeeping of the hit as it was. */
  predicate ServedHit(b: Book, prediction: Prediction, b': Book) {
    && b'.hits == b.hits + 1 && b'.misses == b.misses
    && b'.lastServed == Some(prediction) && b'.servedSource == b.previous
    && b'.previous == prediction.predictedState && !b'.previousVerified
    && b'.lastAction == b.pendingAction && b'.pendingAction.None?
    && b'.stateCache == b.stateCache && b'.chainBroken == b.chainBroken
    && b'.engine == b.engine && b'.page == b.page
  }

  /** What a capture leaves once its response is built. */
  predicate Rebased(b: Book, state: Hash, b': Book) {
    && b'.previous == Some(state) && b'.previousVerified && b'.lastServed.None? && !b'.chainBroken
    && b'.pendingAction.None?
    && b'.lastAction == (if b.pendingAction.Some? then b.pendingAction
                         else if b.chainBroken then None else b.lastAction)
    && Learned(b.engine, Lesson(b, state), b'.engine)
    && b'.page == b.page + [Captured(state)]
  }

  /** The full read, case by case. */
  lemma FullReadIsExact(b: Book, force: bool, oracle: Oracle, capture: Option<Hash>, builds: bool)
    ensures var b' := StepGetFull(b, force, oracle, capture, builds);
            if !force && b.stateCache.Some? then b' == b
            else if MayServe(b, force, oracle) then
              if builds then ServedHit(b, oracle.prediction.value, b') else b' == b
            else if capture.None? then b' == b
            else
              && b'.hits == b.hits
              && b'.misses == b.misses + (if Asks(b, force) then 1 else 0)
              && (builds ==> Rebased(b, capture.value, b') && b'.stateCache == capture)
              && (!builds ==>
                    && b'.previous == b.previous && b'.pendingAction == b.pendingAction
                    && b'.lastAction == b.lastAction && b'.stateCache == b.stateCache
                    && b'.previousVerified && !b'.chainBroken && b'.lastServed.None?
                    && Learned(b.engine, Lesson(b, capture.value), b'.engine))
  {
    ServingIsExact(b, force, oracle);
    if capture.Some? {
      ObservationIsExact(Saw(b, Captured(capture.value)), capture.value);
    }
  }

  /** A served state came from the cache, from a prediction recorded as unchecked, or from the new capture. */
  predicate Accounted(b: Book, force: bool, served: Hash, b': Book) {
    || (b' == b && Some(served) == b.stateCache && !force)
    || (b'.hits == b.hits + 1 && Some(served) == b'.previous && b'.lastServed.Some? && !b'.previousVerified
        && Some(b'.lastServed.value.predictedAction) == b.pendingAction)
    || (b'.hits == b.hits && Some(served) == b'.stateCache == b'.previous && b'.previousVerified
        && b'.page == b.page + [Captured(served)])
  }

  /**
    A read is answered exactly when the cache may be used or a payload is built of a prediction or a
    capture, and what is served is never stale by the read's own account.
   */
  lemma ServedIsAccountedFor(b: Book, force: bool, oracle: Oracle, capture: Option<Hash>, builds: bool)
    ensures var served, b' := Answer(b, force, oracle, capture, builds), StepGetFull(b, force, oracle, capture, builds);
            && (served.Some? <==>
                  (!force && b.stateCache.Some?) || (builds && (MayServe(b, force, oracle) || capture.Some?)))
            && (served.Some? ==> Accounted(b, force, served.value, b'))
  {
    FullReadIsExact(b, force, oracle, capture, builds);
  }

  // ---- the delta read ----

  /** A forced delta read forgets the page and every cursor, but not what was learned or counted. */
  predicate Forgotten(b: Book, b': Book) {
    && b'.stateCache.None? && b'.previous.None? && b'.previousVerified && !b'.chainBroken
    && b'.pendingAction.None? && b'.lastAction.None? && b'.lastServed.None? && b'.servedSource.None?
    && b'.hits == b.hits && b'.misses == b.misses && b'.page == b.page
    && b'.engine == b.engine.(cursor := None)
  }

  lemma DeltaReadIsExact(b: Book, refresh: bool, seen: Option<Hash>, selects: bool, kind: UpdateKind, builds: bool)
    returns (start: Book)
    ensures if refresh then Forgotten(b, start) else start == b
    ensures var b' := StepGetDelta(b, refresh, seen, selects, kind, builds);
            if seen.None? then b' == start
            else if !selects || (kind.Full? && !builds) then b' == start.(page := start.page + [Captured(seen.value)])
            else
              && Rebased(start, seen.value, b') && b'.hits == b.hits && b'.misses == b.misses
              && b'.stateCache == if kind.Full? then seen else start.stateCache
  {
    start := if refresh then Rebase(b) else b;
    if seen.Some? {
      var b2 := Saw(start, Captured(seen.value));
      ObservationIsExact(if kind.Full? then b2.(stateCache := seen) else b2, seen.value);
    }
  }

  // ---- calls the model does not see into ----

  /** A navigation that reached the browser, a skill run with an effect, a relaunched browser. */
  predicate ChangesThePageUnseen(call: Call) {
    || (call.RunSkill? && call.acts > 0)
    || (call.Navigate? && (call.ioStarted || call.ok))
    || call.NavigationNoticed?
    || (call.Restart? && call.relaunched)
  }

  /** Such a call forgets the page and the cursor and nothing else; one without effect leaves all as it was. */
  lemma UnseenChangeForgets(b: Book, call: Call)
    requires !call.GetFull? && !call.GetDelta? && !call.Act?
    ensures var b' := StepCall(b, call);
            if ChangesThePageUnseen(call) then Forgotten(b, b'.(page := b.page)) && b'.page == b.page + [Opaque]
            else b' == b
  {
  }

  /** After it no read is answered from what was known before: only a new capture can be served. */
  lemma NothingOldIsServed(b: Book, call: Call, force: bool, oracle: Oracle, capture: Option<Hash>, builds: bool)
    requires ChangesThePageUnseen(call)
    ensures Answer(StepCall(b, call), force, oracle, capture, builds) == if builds then capture else None
    ensures StepGetFull(StepCall(b, call), force, oracle, None, builds) == StepCall(b, call)
  {
    UnseenChangeForgets(b, call);
    FullReadIsExact(StepCall(b, call), force, oracle, None, builds);
  }

  // ---- the act ----

  /** A prediction was served and nothing executed since: it is checked before the page is altered. */
  predicate Checks(b: Book, preCapture: Option<Hash>) {
    b.lastServed.Some? && b.pendingAction.None? && !b.chainBroken && preCapture.Some?
  }

  predicate Checked(b: Book, state: Hash, b': Book) {
    && b'.previous == Some(state) && b'.previousVerified && b'.lastServed.None? && b'.servedSource.None?
    && Learned(b.engine, Lesson(b.(previousVerified := false), state), b'.engine)
    && (Lesson(b.(previousVerified := false), state).None? ==> b'.engine.cursor == b.engine.cursor)
    && b' == b.(previous := b'.previous, previousVerified := true, lastServed := None, servedSource := None,
                engine := b'.engine, page := b.page + [Captured(state)])
  }

  /** The act tool: what was served is checked first; then one action is pending, or the chain is broken. */
  lemma ActIsExact(b: Book, action: Action, preCapture: Option<Hash>, succeeds: bool) returns (before: Book)
    ensures if Checks(b, preCapture) then Checked(b, preCapture.value, before) else before == b
    ensures var b' := StepAct(b, action, preCapture, succeeds);
            if !succeeds then b' == before
            else
              && b'.stateCache.None? && b'.page == before.page + [Acted(action)]
              && (if before.pendingAction.Some? || before.chainBroken
                  then b'.pendingAction.None? && b'.chainBroken && b'.engine == before.engine.(cursor := None)
                  else b'.pendingAction == Some(action) && !b'.chainBroken && b'.engine == before.engine)
              && b' == before.(stateCache := None, page := b'.page, pendingAction := b'.pendingAction,
                               chainBroken := b'.chainBroken, engine := b'.engine)
  {
    before := VerifyBeforeAct(b, preCapture);
  }
}
