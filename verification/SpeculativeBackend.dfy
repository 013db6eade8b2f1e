/**
  The speculative bookkeeping of the MCP backend: which captures and actions the prediction model
  is trained on, and which predictions were served without a capture.
 */
module SpeculativeBackend {
  import opened Options

  /** A semantic state stands for its content hash. */
  type Hash = string
  type Action = string

  datatype Prediction = Prediction(predictedAction: Action, predictedState: Option<Hash>)

  /** An observed `from --action--> to` the model was trained on. */
  datatype Edge = Edge(from: Hash, action: Action, to: Hash)

  /** A trained step of the action-sequence table. */
  datatype Link = Link(prior: Action, action: Action)

  /** What really happened to the page. `Opaque` stands for navigation, restarts and skill runs. */
  datatype PageEvent = Captured(hash: Hash) | Acted(action: Action) | Opaque

  datatype Engine = Engine(trained: seq<Edge>, links: seq<Link>, cursor: Option<Action>)

  datatype Book = Book(
    stateCache: Option<Hash>,
    previous: Option<Hash>,
    lastAction: Option<Action>,
    pendingAction: Option<Action>,
    hits: nat,
    misses: nat,
    lastServed: Option<Prediction>,
    servedSource: Option<Hash>,
    chainBroken: bool,
    previousVerified: bool,
    engine: Engine,
    page: seq<PageEvent>
  )

  function Initial(): Book {
    Book(None, None, None, None, 0, 0, None, None, false, true, Engine([], [], None), [])
  }

  /** What the engine answers a prediction query, and whether the predicted state is cached. */
  datatype Oracle = Oracle(prediction: Option<Prediction>, cached: bool)
  {
    function PredictedState(): Option<Hash> {
      if prediction.Some? then prediction.value.predictedState else None
    }
  }

  datatype Outcome =
    Hit | MissForceRefresh | MissUnverifiedPriorHit | MissNoPendingAction | MissNoPrediction |
    MissPredictionMismatch | MissPreGenerateNone

  datatype UpdateKind = Noop | Full | Delta

  datatype Call =
    | GetFull(force: bool, oracle: Oracle, capture: Option<Hash>, builds: bool)
    | GetDelta(refresh: bool, seen: Option<Hash>, selects: bool, kind: UpdateKind, buildsFull: bool)
    | Act(action: Action, preCapture: Option<Hash>, succeeds: bool)
    | RunSkill(acts: nat)
    | Navigate(ioStarted: bool, ok: bool)
    | NavigationNoticed
    | Restart(relaunched: bool)

  function ResolveSpeculative(b: Book, force: bool, oracle: Oracle): Outcome {
    if force then MissForceRefresh
    else if b.lastServed.Some? then MissUnverifiedPriorHit
    else if b.previous.None? || b.pendingAction.None? then MissNoPendingAction
    else if oracle.prediction.None? then MissNoPrediction
    else if oracle.prediction.value.predictedAction != b.pendingAction.value then MissPredictionMismatch
    else if oracle.prediction.value.predictedState.Some? && oracle.cached then Hit
    else MissPreGenerateNone
  }

  function LinkFrom(e: Engine, action: Action): seq<Link> {
    if e.cursor.Some? then e.links + [Link(e.cursor.value, action)] else e.links
  }

  /** `record_transition`; `correct_transition` trains the same edge in place of the stale one. */
  function Train(e: Engine, from: Hash, action: Action, to: Hash): Engine {
    Engine(e.trained + [Edge(from, action, to)], LinkFrom(e, action), Some(action))
  }

  /** Checks the served prediction against a capture, when nothing was executed since. */
  function Reconcile(b: Book, state: Hash): Book {
    if b.lastServed.None? then b
    else
      var b1 := b.(lastServed := None, servedSource := None);
      if b.pendingAction.Some? || b.chainBroken then b1
      else
        var served := b.lastServed.value;
        if served.predictedState.Some? && served.predictedState.value != state && b.servedSource.Some?
        then b1.(engine := Train(b.engine, b.servedSource.value, served.predictedAction, state))
        else b1
  }

  /** `record_speculative_observation`. */
  function Observe(b: Book, state: Hash): Book {
    var b1 := Reconcile(b, state);
    var b2 :=
      if b1.previousVerified && b1.previous.Some? && b1.pendingAction.Some?
      then b1.(engine := Train(b1.engine, b1.previous.value, b1.pendingAction.value, state))
      else if b1.pendingAction.Some? then b1.(engine := b1.engine.(cursor := b1.pendingAction))
      else b1;
    b2.(chainBroken := false, previousVerified := true)
  }

  function Saw(b: Book, e: PageEvent): Book {
    b.(page := b.page + [e])
  }

  /** After the response is built: the pending action becomes the last one. */
  function Promote(b: Book, wasBroken: bool, state: Hash): Book {
    b.(lastAction := if b.pendingAction.Some? then b.pendingAction else if wasBroken then None else b.lastAction,
       pendingAction := None,
       previous := Some(state))
  }

  function ServeHit(b: Book, prediction: Prediction): Book
    requires prediction.predictedState.Some?
  {
    b.(hits := b.hits + 1, servedSource := b.previous, lastServed := Some(prediction),
       lastAction := b.pendingAction, pendingAction := None,
       previous := prediction.predictedState, previousVerified := false)
  }

  predicate CountsAsMiss(outcome: Outcome) {
    outcome.MissNoPrediction? || outcome.MissPredictionMismatch? || outcome.MissPreGenerateNone?
  }

  /** A capture observed by the engine, before any payload is built from it. */
  function Recorded(b: Book, outcome: Outcome, state: Hash): Book {
    var b1 := Observe(Saw(b, Captured(state)), state);
    if CountsAsMiss(outcome) then b1.(misses := b1.misses + 1) else b1
  }

  /** The full capture behind a miss; its payload may still fail to build. */
  function CaptureFull(b: Book, outcome: Outcome, state: Hash, builds: bool): Book {
    var b1 := Recorded(b, outcome, state);
    if !builds then b1 else Promote(b1, b.chainBroken, state).(stateCache := Some(state))
  }

  /** `semantic_state_payload`. */
  function StepGetFull(b: Book, force: bool, oracle: Oracle, capture: Option<Hash>, builds: bool): Book {
    if !force && b.stateCache.Some? then b
    else
      var outcome := ResolveSpeculative(b, force, oracle);
      if outcome == Hit then
        if builds then ServeHit(b, oracle.prediction.value) else b
      else if capture.None? then b
      else CaptureFull(b, outcome, capture.value, builds)
  }

  /**
    A cached snapshot may stand for a capture: nothing is forced, no earlier one is unverified, and
    it is predicted for the very action that is pending.
   */
  predicate MayServe(b: Book, force: bool, oracle: Oracle) {
    && !force && b.lastServed.None? && b.previous.Some? && b.pendingAction.Some?
    && oracle.prediction.Some? && Some(oracle.prediction.value.predictedAction) == b.pendingAction
    && oracle.prediction.value.predictedState.Some? && oracle.cached
  }

  /** What a full read serves: the cache, a confirmed prediction, or the capture, once a payload is built of it. */
  function Answer(b: Book, force: bool, oracle: Oracle, capture: Option<Hash>, builds: bool): Option<Hash> {
    if !force && b.stateCache.Some? then b.stateCache
    else if !builds then None
    else if MayServe(b, force, oracle) then oracle.PredictedState()
    else capture
  }

  function Rebase(b: Book): Book {
    b.(stateCache := None, previous := None, previousVerified := true, pendingAction := None, lastAction := None,
       lastServed := None, servedSource := None, chainBroken := false, engine := b.engine.(cursor := None))
  }

  function StepGetDelta(b: Book, refresh: bool, seen: Option<Hash>, selects: bool, kind: UpdateKind,
                        builds: bool): Book {
    var b1 := if refresh then Rebase(b) else b;
    if seen.None? then b1
    else
      var state := seen.value;
      var b2 := Saw(b1, Captured(state));
      if !selects || (kind.Full? && !builds) then b2
      else
        var b3 := if kind.Full? then b2.(stateCache := Some(state)) else b2;
        Promote(Observe(b3, state), b3.chainBroken, state)
  }

  /** A served hit is checked against a capture before the next action alters the page. */
  function VerifyBeforeAct(b: Book, preCapture: Option<Hash>): Book {
    if b.lastServed.Some? && b.pendingAction.None? && !b.chainBroken && preCapture.Some? then
      Reconcile(Saw(b, Captured(preCapture.value)), preCapture.value).(previous := preCapture, previousVerified := true)
    else b
  }

  function ActOn(b: Book, action: Action): Book {
    var b1 := Saw(b, Acted(action)).(stateCache := None);
    if b1.pendingAction.Some? || b1.chainBroken
    then b1.(pendingAction := None, chainBroken := true, engine := b1.engine.(cursor := None))
    else b1.(pendingAction := Some(action))
  }

  function StepAct(b: Book, action: Action, preCapture: Option<Hash>, succeeds: bool): Book {
    var b1 := VerifyBeforeAct(b, preCapture);
    if succeeds then ActOn(b1, action) else b1
  }

  /** `reset_navigation_state`, and what a restart resets. */
  function Reset(b: Book): Book {
    Saw(Rebase(b), Opaque)
  }

  function StepCall(b: Book, call: Call): Book {
    match call
    case GetFull(force, oracle, capture, builds) => StepGetFull(b, force, oracle, capture, builds)
    case GetDelta(refresh, seen, selects, kind, builds) => StepGetDelta(b, refresh, seen, selects, kind, builds)
    case Act(action, preCapture, succeeds) => StepAct(b, action, preCapture, succeeds)
    case RunSkill(acts) => if acts > 0 then Reset(b) else b
    case Navigate(ioStarted, ok) => if ioStarted || ok then Reset(b) else b
    case NavigationNoticed => Reset(b)
    case Restart(relaunched) => if relaunched then Reset(b) else b
  }

  function Run(b: Book, calls: seq<Call>): Book
    decreases |calls|
  {
    if calls == [] then b else Run(StepCall(b, calls[0]), calls[1..])
  }

  // ---- the in-place form ----

  class CoreRuntimeBackend {
    var stateCache: Option<Hash>
    var previousSemanticState: Option<Hash>
    var lastAction: Option<Action>
    var pendingAction: Option<Action>
    var speculativeHits: nat
    var speculativeMisses: nat
    var lastServedPrediction: Option<Prediction>
    var lastServedPredictionSourceHash: Option<Hash>
    var actionChainBroken: bool
    var previousStateVerified: bool
    var speculative: Engine
    ghost var page: seq<PageEvent>

    constructor ()
      ensures View() == Initial()
    {
      stateCache, previousSemanticState, lastAction, pendingAction := None, None, None, None;
      speculativeHits, speculativeMisses := 0, 0;
      lastServedPrediction, lastServedPredictionSourceHash := None, None;
      actionChainBroken, previousStateVerified := false, true;
      speculative := Engine([], [], None);
      page := [];
    }

    ghost function View(): Book
      reads this
    {
      Book(stateCache, previousSemanticState, lastAction, pendingAction, speculativeHits, speculativeMisses,
           lastServedPrediction, lastServedPredictionSourceHash, actionChainBroken, previousStateVerified,
           speculative, page)
    }

    method ReconcileServedPrediction(state: Hash)
      modifies this
      ensures View() == Reconcile(old(View()), state)
    {
      if lastServedPrediction.None? {
        return;
      }
      var served := lastServedPrediction.value;
      lastServedPrediction := None;
      var sourceHash := lastServedPredictionSourceHash;
      lastServedPredictionSourceHash := None;
      if pendingAction.Some? || actionChainBroken {
        return;
      }
      if served.predictedState.Some? && served.predictedState.value != state {
        if sourceHash.Some? {
          speculative := Train(speculative, sourceHash.value, served.predictedAction, state);
        }
      }
    }

    method RecordSpeculativeObservation(state: Hash)
      modifies this
      ensures View() == Observe(old(View()), state)
    {
      ReconcileServedPrediction(state);
      if previousStateVerified && previousSemanticState.Some? && pendingAction.Some? {
        speculative := Train(speculative, previousSemanticState.value, pendingAction.value, state);
      } else if pendingAction.Some? {
        speculative := speculative.(cursor := pendingAction);
      }
      actionChainBroken := false;
      previousStateVerified := true;
    }

    method PromotePendingAction(wasChainBroken: bool)
      modifies this`lastAction, this`pendingAction
      ensures lastAction == if old(pendingAction).Some? then old(pendingAction)
                            else if wasChainBroken then None else old(lastAction)
      ensures pendingAction == None
    {
      if pendingAction.Some? {
        lastAction := pendingAction;
        pendingAction := None;
      } else if wasChainBroken {
        lastAction := None;
      }
    }

    method SemanticStatePayload(force: bool, oracle: Oracle, capture: Option<Hash>, builds: bool)
      returns (served: Option<Hash>)
      modifies this
      ensures View() == StepGetFull(old(View()), force, oracle, capture, builds)
      ensures served == Answer(old(View()), force, oracle, capture, builds)
      ensures speculativeHits > old(speculativeHits) ==> served == oracle.PredictedState() == previousSemanticState
      ensures served.Some? && speculativeHits == old(speculativeHits) && (force || old(stateCache).None?) ==>
                served == capture == stateCache == previousSemanticState
    {
      if !force && stateCache.Some? {
        return stateCache;
      }
      var outcome := ResolveOutcome(force, oracle);
      if outcome == Hit {
        if !builds {
          return None;
        }
        ServePrediction(oracle.prediction.value);
        return previousSemanticState;
      }
      if capture.None? {
        return None;
      }
      CaptureAndBuild(outcome, capture.value, builds);
      return if builds then capture else None;
    }

    method ResolveOutcome(force: bool, oracle: Oracle) returns (outcome: Outcome)
      ensures outcome == ResolveSpeculative(View(), force, oracle)
    {
      if force {
        return MissForceRefresh;
      }
      if lastServedPrediction.Some? {
        return MissUnverifiedPriorHit;
      }
      if previousSemanticState.None? || pendingAction.None? {
        return MissNoPendingAction;
      }
      if oracle.prediction.None? {
        return MissNoPrediction;
      }
      if oracle.prediction.value.predictedAction != pendingAction.value {
        return MissPredictionMismatch;
      }
      return if oracle.prediction.value.predictedState.Some? && oracle.cached then Hit else MissPreGenerateNone;
    }

    method ServePrediction(prediction: Prediction)
      requires prediction.predictedState.Some?
      modifies this
      ensures View() == ServeHit(old(View()), prediction)
    {
      speculativeHits := speculativeHits + 1;
      lastServedPredictionSourceHash := previousSemanticState;
      lastServedPrediction := Some(prediction);
      lastAction, pendingAction := pendingAction, None;
      previousSemanticState, previousStateVerified := prediction.predictedState, false;
    }

    method CaptureAndBuild(outcome: Outcome, state: Hash, builds: bool)
      modifies this
      ensures View() == CaptureFull(old(View()), outcome, state, builds)
    {
      var wasChainBroken := actionChainBroken;
      RecordCapture(outcome, state);
      if builds {
        PromotePendingAction(wasChainBroken);
        previousSemanticState, stateCache := Some(state), Some(state);
      }
    }

    method RecordCapture(outcome: Outcome, state: Hash)
      modifies this
      ensures View() == Recorded(old(View()), outcome, state)
    {
      page := page + [Captured(state)];
      RecordSpeculativeObservation(state);
      if CountsAsMiss(outcome) {
        speculativeMisses := speculativeMisses + 1;
      }
    }

    method GetStateDelta(refresh: bool, capture: Option<Hash>, selects: bool, kind: UpdateKind, builds: bool)
      returns (ok: bool)
      modifies this
      ensures View() == StepGetDelta(old(View()), refresh, capture, selects, kind, builds)
      ensures ok <==> capture.Some? && selects && (kind.Full? ==> builds)
      ensures ok ==> previousSemanticState == capture && previousStateVerified && pendingAction.None?
    {
      if refresh {
        ForgetPage();
      }
      if capture.None? {
        return false;
      }
      page := page + [Captured(capture.value)];
      if !selects {
        return false;
      }
      if kind.Full? {
        if !builds {
          return false;
        }
        stateCache := capture;
      }
      var wasChainBroken := actionChainBroken;
      RecordSpeculativeObservation(capture.value);
      PromotePendingAction(wasChainBroken);
      previousSemanticState := capture;
      return true;
    }

    method ForgetPage()
      modifies this
      ensures View() == Rebase(old(View()))
    {
      stateCache, previousSemanticState, previousStateVerified := None, None, true;
      pendingAction, lastAction := None, None;
      lastServedPrediction, lastServedPredictionSourceHash := None, None;
      actionChainBroken := false;
      speculative := speculative.(cursor := None);
    }

    method VerifyServedPrediction(preCapture: Option<Hash>)
      modifies this
      ensures View() == VerifyBeforeAct(old(View()), preCapture)
    {
      if lastServedPrediction.Some? && pendingAction.None? && !actionChainBroken {
        if preCapture.Some? {
          page := page + [Captured(preCapture.value)];
          ReconcileServedPrediction(preCapture.value);
          previousSemanticState, previousStateVerified := preCapture, true;
        }
      }
    }

    method PerformAct(action: Action, preCapture: Option<Hash>, succeeds: bool)
      modifies this
      ensures View() == StepAct(old(View()), action, preCapture, succeeds)
    {
      VerifyServedPrediction(preCapture);
      if succeeds {
        page := page + [Acted(action)];
        stateCache := None;
        if pendingAction.Some? || actionChainBroken {
          pendingAction, actionChainBroken := None, true;
          speculative := speculative.(cursor := None);
        } else {
          pendingAction := Some(action);
        }
      }
    }

    method ResetNavigationState()
      modifies this
      ensures View() == Reset(old(View()))
    {
      ForgetPage();
      page := page + [Opaque];
    }

    /** Browser I/O that has begun invalidates the page state, even when the navigation then fails. */
    method NavigateTo(ioStarted: bool, ok: bool)
      modifies this
      ensures View() == StepCall(old(View()), Call.Navigate(ioStarted, ok))
    {
      if ioStarted {
        ResetNavigationState();
      }
      if ok && !ioStarted {
        ResetNavigationState();
      }
    }

    /** A skill run is opaque once one of its acts succeeded. */
    method RunPageSkill(acts: nat)
      modifies this
      ensures View() == StepCall(old(View()), Call.RunSkill(acts))
    {
      if acts > 0 {
        ResetNavigationState();
      }
    }
  }
}
