/**
  The prediction model is trained on real one-action transitions only: when exactly that holds over
  a run, and a run the real engine can take on which it fails.
 */
module SpeculativeTraining {
  import opened Options
  import opened SpeculativeBackend

  /** The successful actions after position `i`, unless something opaque happened there. */
  function ActsSince(page: seq<PageEvent>, i: nat): Option<seq<Action>>
    decreases |page|
  {
    if |page| <= i then Some([])
    else
      var before := ActsSince(page[..|page| - 1], i);
      match page[|page| - 1]
      case Captured(_) => before
      case Acted(action) => if before.None? then None else Some(before.value + [action])
      case Opaque => None
  }

  /** The page was captured as `hash`, and since then exactly `acts` were executed on it. */
  ghost predicate Seen(page: seq<PageEvent>, hash: Hash, acts: seq<Action>) {
    exists i :: 0 <= i < |page| && page[i] == Captured(hash) && ActsSince(page, i + 1) == Some(acts)
  }

  /** Both ends are real captures and exactly one successful action, the edge's, lies between them. */
  ghost predicate Justified(page: seq<PageEvent>, e: Edge) {
    exists k :: 0 <= k < |page| && page[k] == Captured(e.to) && Seen(page[..k], e.from, [e.action])
  }

  function Pending(b: Book): seq<Action> {
    if b.pendingAction.Some? then [b.pendingAction.value] else []
  }

  ghost predicate AllJustified(b: Book) {
    forall i :: 0 <= i < |b.engine.trained| ==> Justified(b.page, b.engine.trained[i])
  }

  ghost predicate Inv(b: Book) {
    && AllJustified(b)
    && (b.chainBroken ==> b.pendingAction.None?)
    && (b.lastServed.Some? <==> !b.previousVerified)
    && (b.lastServed.Some? ==> b.previous.Some? && b.servedSource.Some?)
    && (b.previousVerified && b.previous.Some? && !b.chainBroken ==> Seen(b.page, b.previous.value, Pending(b)))
    && (b.lastServed.Some? && b.pendingAction.None? && !b.chainBroken ==>
          Seen(b.page, b.servedSource.value, [b.lastServed.value.predictedAction]))
  }

  // ---- how captures and actions extend what was seen ----

  lemma ActsAppend(page: seq<PageEvent>, e: PageEvent, i: nat)
    requires i <= |page|
    ensures ActsSince(page + [e], i) ==
            match e
            case Captured(_) => ActsSince(page, i)
            case Acted(a) => (if ActsSince(page, i).None? then None else Some(ActsSince(page, i).value + [a]))
            case Opaque => None
  {
    assert (page + [e])[..|page|] == page;
  }

  lemma SeenAfterCapture(page: seq<PageEvent>, x: Hash, hash: Hash, acts: seq<Action>)
    requires Seen(page, hash, acts)
    ensures Seen(page + [Captured(x)], hash, acts)
  {
    var i :| 0 <= i < |page| && page[i] == Captured(hash) && ActsSince(page, i + 1) == Some(acts);
    ActsAppend(page, Captured(x), i + 1);
    assert (page + [Captured(x)])[i] == Captured(hash);
  }

  lemma SeenNow(page: seq<PageEvent>, hash: Hash)
    ensures Seen(page + [Captured(hash)], hash, [])
  {
    assert (page + [Captured(hash)])[|page|] == Captured(hash);
    assert ActsSince(page + [Captured(hash)], |page| + 1) == Some([]);
  }

  lemma SeenAfterAct(page: seq<PageEvent>, a: Action, hash: Hash, acts: seq<Action>)
    requires Seen(page, hash, acts)
    ensures Seen(page + [Acted(a)], hash, acts + [a])
  {
    var i :| 0 <= i < |page| && page[i] == Captured(hash) && ActsSince(page, i + 1) == Some(acts);
    ActsAppend(page, Acted(a), i + 1);
    assert (page + [Acted(a)])[i] == Captured(hash);
  }

  lemma JustifiedLater(page: seq<PageEvent>, x: PageEvent, e: Edge)
    requires Justified(page, e)
    ensures Justified(page + [x], e)
  {
    var k :| 0 <= k < |page| && page[k] == Captured(e.to) && Seen(page[..k], e.from, [e.action]);
    assert (page + [x])[..k] == page[..k] && (page + [x])[k] == page[k];
  }

  lemma JustifiedNow(page: seq<PageEvent>, from: Hash, action: Action, to: Hash)
    requires Seen(page, from, [action])
    ensures Justified(page + [Captured(to)], Edge(from, action, to))
  {
    assert (page + [Captured(to)])[..|page|] == page;
    assert (page + [Captured(to)])[|page|] == Captured(to);
  }

  lemma AllJustifiedLater(b: Book, x: PageEvent)
    requires AllJustified(b)
    ensures AllJustified(Saw(b, x))
  {
    forall i | 0 <= i < |b.engine.trained|
      ensures Justified(b.page + [x], b.engine.trained[i])
    {
      JustifiedLater(b.page, x, b.engine.trained[i]);
    }
  }

  lemma TrainJustified(b: Book, from: Hash, action: Action, to: Hash)
    requires AllJustified(b) && Justified(b.page, Edge(from, action, to))
    ensures AllJustified(b.(engine := Train(b.engine, from, action, to)))
  {
  }

  // ---- every call keeps the invariant ----

  /** Checking a served prediction against the capture just made. */
  lemma ReconcileKeeps(b: Book, state: Hash)
    requires Inv(b)
    ensures var b' := Reconcile(Saw(b, Captured(state)), state);
            && AllJustified(b')
            && b' == Saw(b, Captured(state)).(lastServed := None, engine := b'.engine,
                      servedSource := if b.lastServed.Some? then None else b.servedSource)
  {
    AllJustifiedLater(b, Captured(state));
    if b.lastServed.Some? && b.pendingAction.None? && !b.chainBroken {
      var action := b.lastServed.value.predictedAction;
      JustifiedNow(b.page, b.servedSource.value, action, state);
      TrainJustified(Saw(b, Captured(state)), b.servedSource.value, action, state);
    }
  }

  /** Observing a capture trains only justified edges. */
  lemma ObserveKeeps(b: Book, state: Hash)
    requires Inv(b)
    ensures var b' := Observe(Saw(b, Captured(state)), state);
            && AllJustified(b')
            && b' == b.(page := b.page + [Captured(state)], engine := b'.engine, lastServed := None,
                        servedSource := if b.lastServed.Some? then None else b.servedSource,
                        chainBroken := false, previousVerified := true)
  {
    ReconcileKeeps(b, state);
    var b1 := Reconcile(Saw(b, Captured(state)), state);
    if b1.previousVerified && b1.previous.Some? && b1.pendingAction.Some? {
      JustifiedNow(b.page, b.previous.value, b.pendingAction.value, state);
      TrainJustified(b1, b1.previous.value, b1.pendingAction.value, state);
    }
  }

  /** A full read that reaches its capture. */
  predicate Captures(b: Book, call: Call) {
    && call.GetFull? && call.capture.Some?
    && (call.force || b.stateCache.None?) && ResolveSpeculative(b, call.force, call.oracle) != Hit
  }

  /**
    A payload fails to build after its capture while the baseline is not a capture from which just
    the pending action was executed: the baseline now counts as verified all the same.
   */
  ghost predicate MisleadingFailure(b: Book, call: Call) {
    && Captures(b, call) && !call.builds && b.previous.Some?
    && !Seen(b.page + [Captured(call.capture.value)], b.previous.value, Pending(b))
  }

  /** It takes a baseline that was served unverified, or a broken chain of actions. */
  lemma MisleadingFailureNeedsDoubt(b: Book, call: Call)
    requires Inv(b) && MisleadingFailure(b, call)
    ensures b.chainBroken || !b.previousVerified
  {
    if !b.chainBroken && b.previousVerified {
      SeenAfterCapture(b.page, call.capture.value, b.previous.value, Pending(b));
    }
  }

  lemma CaptureFullKeeps(b: Book, outcome: Outcome, state: Hash, builds: bool)
    requires Inv(b)
    ensures Inv(CaptureFull(b, outcome, state, builds)) <==>
              builds || b.previous.None? || Seen(b.page + [Captured(state)], b.previous.value, Pending(b))
  {
    ObserveKeeps(b, state);
    SeenNow(b.page, state);
  }

  lemma GetFullKeeps(b: Book, force: bool, oracle: Oracle, capture: Option<Hash>, builds: bool)
    requires Inv(b)
    ensures Inv(StepGetFull(b, force, oracle, capture, builds)) <==>
              !MisleadingFailure(b, GetFull(force, oracle, capture, builds))
  {
    if Captures(b, GetFull(force, oracle, capture, builds)) {
      CaptureFullKeeps(b, ResolveSpeculative(b, force, oracle), capture.value, builds);
    }
  }

  lemma GetDeltaKeeps(b: Book, refresh: bool, capture: Option<Hash>, selects: bool, kind: UpdateKind, builds: bool)
    requires Inv(b)
    ensures Inv(StepGetDelta(b, refresh, capture, selects, kind, builds))
  {
    var b1 := if refresh then Rebase(b) else b;
    assert Inv(b1);
    if capture.Some? {
      var state := capture.value;
      CaptureKeeps(b1, state);
      ObserveKeeps(b1, state);
      SeenNow(b1.page, state);
      if selects && !(kind.Full? && !builds) {
        var b3 := if kind.Full? then Saw(b1, Captured(state)).(stateCache := Some(state)) else Saw(b1, Captured(state));
        ObserveIgnoresCache(Saw(b1, Captured(state)), Some(state), state);
        var b4 := Promote(Observe(b3, state), b1.chainBroken, state);
        assert b4 == StepGetDelta(b, refresh, capture, selects, kind, builds);
        assert AllJustified(b4);
      }
    }
  }

  lemma ReconcileIgnoresCache(b: Book, cache: Option<Hash>, state: Hash)
    ensures Reconcile(b.(stateCache := cache), state) == Reconcile(b, state).(stateCache := cache)
  {
  }

  lemma ObserveIgnoresCache(b: Book, cache: Option<Hash>, state: Hash)
    ensures Observe(b.(stateCache := cache), state) == Observe(b, state).(stateCache := cache)
  {
    ReconcileIgnoresCache(b, cache, state);
    var b1 := Reconcile(b, state);
    if b1.previousVerified && b1.previous.Some? && b1.pendingAction.Some? {
    } else if b1.pendingAction.Some? {
    }
  }

  /** A capture nothing is recorded about changes no obligation. */
  lemma CaptureKeeps(b: Book, state: Hash)
    requires Inv(b)
    ensures Inv(Saw(b, Captured(state)))
  {
    AllJustifiedLater(b, Captured(state));
    if b.previousVerified && b.previous.Some? && !b.chainBroken {
      SeenAfterCapture(b.page, state, b.previous.value, Pending(b));
    }
    if b.lastServed.Some? && b.pendingAction.None? && !b.chainBroken {
      SeenAfterCapture(b.page, state, b.servedSource.value, [b.lastServed.value.predictedAction]);
    }
  }

  lemma VerifyKeeps(b: Book, preCapture: Option<Hash>)
    requires Inv(b)
    ensures Inv(VerifyBeforeAct(b, preCapture))
  {
    if b.lastServed.Some? && b.pendingAction.None? && !b.chainBroken && preCapture.Some? {
      ReconcileKeeps(b, preCapture.value);
      SeenNow(b.page, preCapture.value);
    }
  }

  lemma ActOnKeeps(b: Book, action: Action)
    requires Inv(b)
    ensures Inv(ActOn(b, action))
  {
    AllJustifiedLater(b, Acted(action));
    if b.previousVerified && b.previous.Some? && b.pendingAction.None? && !b.chainBroken {
      SeenAfterAct(b.page, action, b.previous.value, []);
      assert [] + [action] == [action];
    }
  }

  /** A call keeps the invariant if and only if it is not a misleading failure. */
  lemma CallKeeps(b: Book, call: Call)
    requires Inv(b)
    ensures Inv(StepCall(b, call)) <==> !MisleadingFailure(b, call)
  {
    AllJustifiedLater(b, Opaque);
    match call
    case GetFull(force, oracle, capture, builds) => GetFullKeeps(b, force, oracle, capture, builds);
    case GetDelta(refresh, capture, selects, kind, builds) => GetDeltaKeeps(b, refresh, capture, selects, kind, builds);
    case Act(action, preCapture, succeeds) =>
      VerifyKeeps(b, preCapture);
      if succeeds {
        ActOnKeeps(VerifyBeforeAct(b, preCapture), action);
      }
    case _ =>
  }

  /** No call of the run is a misleading failure. */
  ghost predicate Clean(b: Book, calls: seq<Call>)
    decreases |calls|
  {
    calls == [] || (!MisleadingFailure(b, calls[0]) && Clean(StepCall(b, calls[0]), calls[1..]))
  }

  /** A payload fails to build while the chain is broken or the baseline was served unverified. */
  predicate FailsInDoubt(b: Book, call: Call) {
    Captures(b, call) && !call.builds && (b.chainBroken || !b.previousVerified)
  }

  predicate NeverFailsInDoubt(b: Book, calls: seq<Call>)
    decreases |calls|
  {
    calls == [] || (!FailsInDoubt(b, calls[0]) && NeverFailsInDoubt(StepCall(b, calls[0]), calls[1..]))
  }

  lemma {:induction false} NoDoubtIsClean(b: Book, calls: seq<Call>)
    requires Inv(b) && NeverFailsInDoubt(b, calls)
    ensures Clean(b, calls)
    decreases |calls|
  {
    if calls != [] {
      if MisleadingFailure(b, calls[0]) {
        MisleadingFailureNeedsDoubt(b, calls[0]);
      }
      CallKeeps(b, calls[0]);
      NoDoubtIsClean(StepCall(b, calls[0]), calls[1..]);
    }
  }

  /**
    The guard to watch: a run in which no payload fails to build while the chain is broken or the
    baseline unverified trains real edges only.
   */
  lemma EdgesAreRealWithoutDoubt(calls: seq<Call>)
    requires NeverFailsInDoubt(Initial(), calls)
    ensures Clean(Initial(), calls)
    ensures forall e <- Run(Initial(), calls).engine.trained :: Justified(Run(Initial(), calls).page, e)
  {
    NoDoubtIsClean(Initial(), calls);
    OnlyRealTransitionsAreTrained(calls);
  }

  lemma {:induction false} RunKeeps(b: Book, calls: seq<Call>)
    requires Inv(b) && Clean(b, calls)
    ensures Inv(Run(b, calls))
    decreases |calls|
  {
    if calls != [] {
      CallKeeps(b, calls[0]);
      RunKeeps(StepCall(b, calls[0]), calls[1..]);
    }
  }

  lemma {:induction false} RunAppend(b: Book, first: seq<Call>, second: seq<Call>)
    ensures Run(b, first + second) == Run(Run(b, first), second)
    decreases |first|
  {
    if first == [] {
      assert first + second == second;
    } else {
      assert (first + second)[1..] == first[1..] + second;
      RunAppend(StepCall(b, first[0]), first[1..], second);
    }
  }

  lemma RunPrefix(b: Book, calls: seq<Call>, n: nat)
    requires n < |calls|
    ensures Run(b, calls[..n + 1]) == StepCall(Run(b, calls[..n]), calls[n])
  {
    assert calls[..n + 1] == calls[..n] + [calls[n]];
    RunAppend(b, calls[..n], [calls[n]]);
    assert [calls[n]][1..] == [];
  }

  lemma {:induction false} CleanPrefix(b: Book, calls: seq<Call>, n: nat)
    requires n <= |calls| && Clean(b, calls)
    ensures Clean(b, calls[..n])
    decreases n
  {
    if n > 0 {
      assert calls[..n][1..] == calls[1..][..n - 1];
      CleanPrefix(StepCall(b, calls[0]), calls[1..], n - 1);
    }
  }

  /**
    Every edge ever trained, corrections after a wrong prediction included, joins two real captures
    with exactly one successful action between them, over all runs without misleading failures.
   */
  lemma OnlyRealTransitionsAreTrained(calls: seq<Call>)
    requires Clean(Initial(), calls)
    ensures forall e <- Run(Initial(), calls).engine.trained :: Justified(Run(Initial(), calls).page, e)
  {
    RunKeeps(Initial(), calls);
  }

  // ---- where it fails ----

  function Forced(state: Hash): Call {
    GetFull(true, Oracle(None, false), Some(state), true)
  }

  /** An action, unless one is pending, and a capture of a state not seen before. */
  function Probe(b: Book, novel: Hash): seq<Call> {
    if b.pendingAction.Some? then [Forced(novel)] else [Act("probe", None, true), Forced(novel)]
  }

  function Probed(b: Book): Action {
    if b.pendingAction.Some? then b.pendingAction.value else "probe"
  }

  /** The one capture of `novel` comes last, so an edge to it rests on what was seen before. */
  lemma NovelIsLast(page: seq<PageEvent>, novel: Hash, e: Edge)
    requires Captured(novel) !in page && e.to == novel && Justified(page + [Captured(novel)], e)
    ensures Seen(page, e.from, [e.action])
  {
    var longer := page + [Captured(novel)];
    var k :| 0 <= k < |longer| && longer[k] == Captured(novel) && Seen(longer[..k], e.from, [e.action]);
    if k < |page| {
      assert false;
    }
    assert longer[..k] == page;
  }

  lemma SeenBeforeAct(page: seq<PageEvent>, h: Hash, action: Action)
    requires Seen(page + [Acted(action)], h, [action])
    ensures Seen(page, h, [])
  {
    var longer := page + [Acted(action)];
    var i :| 0 <= i < |longer| && longer[i] == Captured(h) && ActsSince(longer, i + 1) == Some([action]);
    ActsAppend(page, Acted(action), i + 1);
    var acts := ActsSince(page, i + 1).value;
    assert |acts + [action]| == 1;
    assert acts == [];
    assert page[i] == Captured(h);
  }

  /** A verified baseline, a pending action and a capture: the edge is trained. */
  lemma CaptureTrains(b: Book, h: Hash, action: Action, novel: Hash)
    requires b.previous == Some(h) && b.previousVerified && b.lastServed.None? && b.pendingAction == Some(action)
    ensures var end := Run(b, [Forced(novel)]);
            Edge(h, action, novel) in end.engine.trained && end.page == b.page + [Captured(novel)]
  {
    var end := StepCall(b, Forced(novel));
    assert [Forced(novel)][1..] == [];
    assert Run(b, [Forced(novel)]) == Run(end, []);
    assert end.engine.trained == b.engine.trained + [Edge(h, action, novel)];
    assert end.engine.trained[|b.engine.trained|] == Edge(h, action, novel);
  }

  lemma ProbeTrains(b: Book, h: Hash, novel: Hash)
    requires b.previous == Some(h) && b.previousVerified && b.lastServed.None? && !b.chainBroken
    ensures var end := Run(b, Probe(b, novel));
            && Edge(h, Probed(b), novel) in end.engine.trained
            && end.page == b.page + (if b.pendingAction.Some? then [] else [Acted("probe")]) + [Captured(novel)]
  {
    if b.pendingAction.Some? {
      CaptureTrains(b, h, b.pendingAction.value, novel);
      assert b.page + [] == b.page;
    } else {
      var b1 := StepCall(b, Act("probe", None, true));
      CaptureTrains(b1, h, "probe", novel);
      assert Probe(b, novel)[1..] == [Forced(novel)];
    }
  }

  /**
    A misleading failure really misleads, with an action pending or not: the next capture of a state
    not seen before trains an edge that never happened.
   */
  lemma MisleadingFailureTrainsFalsehood(b: Book, call: Call, novel: Hash)
    requires Inv(b) && MisleadingFailure(b, call) && Captured(novel) !in StepCall(b, call).page
    ensures var b' := StepCall(b, call);
            var end, e := Run(b', Probe(b', novel)), Edge(b.previous.value, Probed(b), novel);
            e in end.engine.trained && !Justified(end.page, e)
  {
    var state, h := call.capture.value, b.previous.value;
    ObserveKeeps(b, state);
    var b' := StepCall(b, call);
    assert b'.page == b.page + [Captured(state)];
    ProbeTrains(b', h, novel);
    var end, e := Run(b', Probe(b', novel)), Edge(h, Probed(b), novel);
    if Justified(end.page, e) {
      if b.pendingAction.Some? {
        assert b'.page + [] == b'.page;
        NovelIsLast(b'.page, novel, e);
      } else {
        NovelIsLast(b'.page + [Acted("probe")], novel, e);
        SeenBeforeAct(b'.page, h, "probe");
      }
    }
  }

  lemma {:induction false} FirstMisleading(b: Book, calls: seq<Call>) returns (n: nat)
    requires !Clean(b, calls)
    ensures n < |calls| && Clean(b, calls[..n]) && MisleadingFailure(Run(b, calls[..n]), calls[n])
    decreases |calls|
  {
    if MisleadingFailure(b, calls[0]) {
      n := 0;
    } else {
      var m := FirstMisleading(StepCall(b, calls[0]), calls[1..]);
      n := m + 1;
      assert calls[..n][1..] == calls[1..][..m] && calls[..n][0] == calls[0];
    }
  }

  function Length(e: PageEvent): nat {
    if e.Captured? then |e.hash| else 0
  }

  lemma {:induction false} SomethingNovel(page: seq<PageEvent>) returns (novel: Hash)
    ensures |novel| > 0 && forall e <- page :: Length(e) < |novel|
    decreases |page|
  {
    if page == [] {
      novel := "x";
    } else {
      var last := page[|page| - 1];
      var shorter := SomethingNovel(page[..|page| - 1]);
      novel := shorter + seq(Length(last), _ => 'x');
      forall e | e in page
        ensures Length(e) < |novel|
      {
        var i :| 0 <= i < |page| && page[i] == e;
        assert i < |page| - 1 ==> page[..|page| - 1][i] == e;
      }
    }
  }

  /** Continued from any point by a probe, the run trains no unreal edge. */
  ghost predicate ProbesTrainReal(calls: seq<Call>, n: nat, novel: Hash)
    requires n <= |calls|
  {
    var b := Run(Initial(), calls[..n]);
    Captured(novel) !in b.page ==> AllJustified(Run(b, Probe(b, novel)))
  }

  lemma CleanRunsProbeClean(calls: seq<Call>, n: nat, novel: Hash)
    requires Clean(Initial(), calls) && n <= |calls|
    ensures ProbesTrainReal(calls, n, novel)
  {
    CleanPrefix(Initial(), calls, n);
    RunKeeps(Initial(), calls[..n]);
    var b := Run(Initial(), calls[..n]);
    var probe := Probe(b, novel);
    if b.pendingAction.None? {
      assert probe[1..] == [Forced(novel)];
    }
    assert [Forced(novel)][1..] == [];
    RunKeeps(b, probe);
  }

  /**
    The exact condition: a run, stopped anywhere and probed, trains real edges only if and only if
    none of its calls was a misleading failure.
   */
  lemma EdgesAreRealIffClean(calls: seq<Call>)
    ensures Clean(Initial(), calls) <==>
              forall n: nat, novel: Hash :: n <= |calls| ==> ProbesTrainReal(calls, n, novel)
  {
    if Clean(Initial(), calls) {
      forall n: nat, novel: Hash | n <= |calls|
        ensures ProbesTrainReal(calls, n, novel)
      {
        CleanRunsProbeClean(calls, n, novel);
      }
    } else {
      var n := FirstMisleading(Initial(), calls);
      RunKeeps(Initial(), calls[..n]);
      RunPrefix(Initial(), calls, n);
      var b := Run(Initial(), calls[..n]);
      var novel := SomethingNovel(StepCall(b, calls[n]).page);
      assert Length(Captured(novel)) == |novel|;
      MisleadingFailureTrainsFalsehood(b, calls[n], novel);
      assert !ProbesTrainReal(calls, n + 1, novel);
    }
  }

  // ---- a run the engine can really take ----

  /** What the learned tables can answer without domain hints; of several candidates, any. */
  ghost predicate CanAnswer(b: Book, o: Oracle) {
    if b.lastAction.None? || b.previous.None? || (forall l <- b.engine.links :: l.prior != b.lastAction.value)
    then o.prediction.None?
    else
      && o.prediction.Some?
      && Link(b.lastAction.value, o.prediction.value.predictedAction) in b.engine.links
      && StateCanBe(b, o.prediction.value)
      && (o.cached ==> o.PredictedState().Some? && Captured(o.PredictedState().value) in b.page)
  }

  ghost predicate StateCanBe(b: Book, p: Prediction)
    requires b.previous.Some?
  {
    if p.predictedState.Some? then Edge(b.previous.value, p.predictedAction, p.predictedState.value) in b.engine.trained
    else forall e <- b.engine.trained :: e.from == b.previous.value ==> e.action != p.predictedAction
  }

  /** The call asks the engine for a prediction. */
  predicate Queries(b: Book, call: Call) {
    && call.GetFull? && !call.force && b.stateCache.None? && b.lastServed.None?
    && b.previous.Some? && b.pendingAction.Some?
  }

  ghost predicate Answerable(b: Book, calls: seq<Call>)
    decreases |calls|
  {
    calls == [] ||
    ((Queries(b, calls[0]) ==> CanAnswer(b, calls[0].oracle)) && Answerable(StepCall(b, calls[0]), calls[1..]))
  }

  function Read(state: Hash): Call {
    GetFull(false, Oracle(None, false), Some(state), true)
  }

  function Do(action: Action): Call {
    Act(action, None, true)
  }

  /** A page toggled by one action; the third time the toggled state is served unseen. */
  function Toggle(): seq<Call> {
    [Read("s0"), Do("a"), Read("s1"), Do("a"), Read("s0"), Do("a"),
     GetFull(false, Oracle(Some(Prediction("a", Some("s1"))), true), None, true)]
  }

  /** The page had moved elsewhere: an action, a capture whose payload fails, and one more read. */
  function Drift(): seq<Call> {
    [Do("b"), GetFull(false, Oracle(None, false), Some("y"), false),
     GetFull(false, Oracle(Some(Prediction("a", Some("s0"))), true), Some("x"), true)]
  }

  lemma RunUnfolds(b: Book, calls: seq<Call>, i: nat, next: Book)
    requires i < |calls| && next == StepCall(b, calls[i])
    ensures Run(b, calls[i..]) == Run(next, calls[i + 1..])
    ensures (Queries(b, calls[i]) ==> CanAnswer(b, calls[i].oracle)) && Answerable(next, calls[i + 1..]) ==>
              Answerable(b, calls[i..])
  {
    assert calls[i..][1..] == calls[i + 1..];
  }

  /** The book after the toggled state was served. */
  function Served(): Book {
    Initial().(previous := Some("s1"), lastAction := Some("a"), hits := 1, misses := 2,
               lastServed := Some(Prediction("a", Some("s1"))), servedSource := Some("s0"), previousVerified := false,
               engine := Engine([Edge("s0", "a", "s1"), Edge("s1", "a", "s0")], [Link("a", "a")], Some("a")),
               page := [Captured("s0"), Acted("a"), Captured("s1"), Acted("a"), Captured("s0"), Acted("a")])
  }

  /** After the first action and its capture. */
  function Forth(): Book {
    Initial().(stateCache := Some("s1"), previous := Some("s1"), lastAction := Some("a"), misses := 1,
               engine := Engine([Edge("s0", "a", "s1")], [], Some("a")),
               page := [Captured("s0"), Acted("a"), Captured("s1")])
  }

  lemma ForthRuns(calls: seq<Call>)
    requires |calls| >= 3 && calls[..3] == [Read("s0"), Do("a"), Read("s1")]
    ensures Run(Initial(), calls) == Run(Forth(), calls[3..])
    ensures Answerable(Forth(), calls[3..]) ==> Answerable(Initial(), calls)
  {
    assert calls[0] == calls[..3][0] && calls[1] == calls[..3][1] && calls[2] == calls[..3][2];
    var b1 := StepCall(Initial(), calls[0]);
    assert b1 == Initial().(stateCache := Some("s0"), previous := Some("s0"), page := [Captured("s0")]);
    var b2 := StepCall(b1, calls[1]);
    assert b2 == Initial().(previous := Some("s0"), pendingAction := Some("a"), page := [Captured("s0"), Acted("a")]);
    assert StepCall(b2, calls[2]) == Forth();
    assert calls[0..] == calls;
    RunUnfolds(b2, calls, 2, Forth());
    RunUnfolds(b1, calls, 1, b2);
    RunUnfolds(Initial(), calls, 0, b1);
  }

  /** The book once the action is known to toggle between the two states. */
  function Learned(): Book {
    Initial().(stateCache := Some("s0"), previous := Some("s0"), lastAction := Some("a"), misses := 2,
               engine := Engine([Edge("s0", "a", "s1"), Edge("s1", "a", "s0")], [Link("a", "a")], Some("a")),
               page := [Captured("s0"), Acted("a"), Captured("s1"), Acted("a"), Captured("s0")])
  }

  lemma ToggleIsLearned()
    ensures Run(Initial(), Toggle()) == Run(Learned(), Toggle()[5..])
    ensures Answerable(Learned(), Toggle()[5..]) ==> Answerable(Initial(), Toggle())
  {
    var calls := Toggle();
    var b4 := StepCall(Forth(), calls[3]);
    assert b4 == Forth().(stateCache := None, pendingAction := Some("a"), page := Forth().page + [Acted("a")]);
    assert StepCall(b4, calls[4]) == Learned();
    RunUnfolds(b4, calls, 4, Learned());
    RunUnfolds(Forth(), calls, 3, b4);
    ForthRuns(calls);
  }

  lemma ToggleRuns()
    ensures Run(Initial(), Toggle()) == Served() && Answerable(Initial(), Toggle())
  {
    var calls := Toggle();
    var b6 := StepCall(Learned(), calls[5]);
    assert b6 == Learned().(stateCache := None, pendingAction := Some("a"), page := Learned().page + [Acted("a")]);
    assert Edge("s0", "a", "s1") == b6.engine.trained[0] && Link("a", "a") == b6.engine.links[0];
    assert b6.page[2] == Captured("s1");
    assert CanAnswer(b6, calls[6].oracle);
    assert StepCall(b6, calls[6]) == Served();
    assert calls[7..] == [];
    RunUnfolds(b6, calls, 6, Served());
    RunUnfolds(Learned(), calls, 5, b6);
    ToggleIsLearned();
  }

  lemma DriftRuns() returns (end: Book)
    ensures end == Run(Served(), Drift()) && Answerable(Served(), Drift())
    ensures Edge("s1", "b", "x") in end.engine.trained
    ensures end.page == Served().page + [Acted("b")] + [Captured("y")] + [Captured("x")]
  {
    var calls := Drift();
    var b1 := DriftActs();
    var b2 := DriftFails(b1);
    end := DriftedRead(b2);
    assert calls[3..] == [] && calls[0..] == calls;
    RunUnfolds(b2, calls, 2, end);
    RunUnfolds(b1, calls, 1, b2);
    RunUnfolds(Served(), calls, 0, b1);
  }

  lemma DriftActs() returns (end: Book)
    ensures end == StepCall(Served(), Drift()[0]) && !Queries(Served(), Drift()[0])
    ensures end == Served().(pendingAction := Some("b"), page := Served().page + [Acted("b")])
  {
    end := StepCall(Served(), Drift()[0]);
  }

  lemma DriftFails(b: Book) returns (end: Book)
    requires b == Served().(pendingAction := Some("b"), page := Served().page + [Acted("b")])
    ensures end == StepCall(b, Drift()[1]) && !Queries(b, Drift()[1])
    ensures end == b.(lastServed := None, servedSource := None, previousVerified := true,
                      engine := b.engine.(cursor := Some("b")), page := b.page + [Captured("y")])
  {
    end := StepCall(b, Drift()[1]);
  }

  lemma DriftedRead(b: Book) returns (end: Book)
    requires b == Served().(lastServed := None, servedSource := None, previousVerified := true,
                            pendingAction := Some("b"), engine := Served().engine.(cursor := Some("b")),
                            page := Served().page + [Acted("b")] + [Captured("y")])
    ensures end == StepCall(b, Drift()[2]) && CanAnswer(b, Drift()[2].oracle)
    ensures Edge("s1", "b", "x") in end.engine.trained && end.page == b.page + [Captured("x")]
  {
    end := StepCall(b, Drift()[2]);
    assert Edge("s1", "a", "s0") == b.engine.trained[1] && Link("a", "a") == b.engine.links[0];
    assert b.page[0] == Captured("s0");
    assert end.engine.trained == b.engine.trained + [Edge("s1", "b", "x")];
    assert end.engine.trained[2] == Edge("s1", "b", "x");
  }

  lemma {:induction false} AnswerableAppend(b: Book, first: seq<Call>, second: seq<Call>)
    requires Answerable(b, first) && Answerable(Run(b, first), second)
    ensures Answerable(b, first + second)
    decreases |first|
  {
    if first == [] {
      assert first + second == second;
    } else {
      assert (first + second)[1..] == first[1..] + second;
      AnswerableAppend(StepCall(b, first[0]), first[1..], second);
    }
  }

  /**
    A run that the engine's own answers allow trains `s1 --b--> x`, although after the one capture of
    `s1` the page was toggled twice before `b`.
   */
  lemma ServedBaselineIsTrainedFrom() returns (calls: seq<Call>, end: Book)
    ensures end == Run(Initial(), calls) && Answerable(Initial(), calls)
    ensures Edge("s1", "b", "x") in end.engine.trained && !Justified(end.page, Edge("s1", "b", "x"))
  {
    calls := Toggle() + Drift();
    ToggleRuns();
    end := DriftRuns();
    RunAppend(Initial(), Toggle(), Drift());
    AnswerableAppend(Initial(), Toggle(), Drift());
    DriftIsUnreal(end.page);
  }

  lemma DriftIsUnreal(page: seq<PageEvent>)
    requires page == Served().page + [Acted("b")] + [Captured("y")] + [Captured("x")]
    ensures !Justified(page, Edge("s1", "b", "x"))
  {
    var before := Served().page + [Acted("b")] + [Captured("y")];
    NotFromS1(before);
    if Justified(page, Edge("s1", "b", "x")) {
      NovelIsLast(before, "x", Edge("s1", "b", "x"));
    }
  }

  lemma NotFromS1(page: seq<PageEvent>)
    requires page == Served().page + [Acted("b")] + [Captured("y")]
    ensures !Seen(page, "s1", ["b"])
  {
    var p3 := [Captured("s0"), Acted("a"), Captured("s1")];
    assert ActsSince(p3, 3) == Some([]);
    ActsAppend(p3, Acted("a"), 3);
    var p4 := p3 + [Acted("a")];
    ActsAppend(p4, Captured("s0"), 3);
    var p5 := p4 + [Captured("s0")];
    ActsAppend(p5, Acted("a"), 3);
    var p6 := p5 + [Acted("a")];
    ActsAppend(p6, Acted("b"), 3);
    var p7 := p6 + [Acted("b")];
    ActsAppend(p7, Captured("y"), 3);
    assert page == p7 + [Captured("y")];
    assert |ActsSince(page, 3).value| == 3;
  }
}
