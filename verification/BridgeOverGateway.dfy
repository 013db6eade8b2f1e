/**
  The bridge's gateway contract (reports of issued ids, however stale; an id resolved only while it
  is open) is what the one-slot cache over swappable sessions provides, step by step.
 */
module BridgeOverGateway {
  import opened Options
  import B = BridgeProtocol
  import T = BridgeTheorems
  import G = Gateway

  /** The minted ids whose request is still pending in its session. */
  function OpenIds(g: G.State): set<nat> {
    set id | 0 <= id < |g.minted| && G.Live(g, g.minted[id])
  }

  /** What the bridge's machine keeps of the gateway. */
  ghost predicate Provides(g: G.State, s: B.State) {
    s.nextId == |g.minted| && s.open == OpenIds(g)
  }

  predicate GatewayEvent(e: B.Event) {
    e.NewRequest? || e.Report? || e.Close?
  }

  predicate GatewayEvents(events: seq<B.Event>) {
    forall i :: 0 <= i < |events| ==> GatewayEvent(events[i])
  }

  /** Everything of the bridge's state that is not the gateway's. */
  predicate SameBridge(s: B.State, s': B.State) {
    s' == s.(pending := s'.pending, open := s'.open, nextId := s'.nextId)
  }

  /** Closing the ids of a set, one after the other. */
  lemma {:induction false} CloseAll(s: B.State, ids: set<nat>) returns (events: seq<B.Event>)
    ensures GatewayEvents(events) && B.Run(s, events) == Some(s.(open := s.open - ids))
    decreases ids
  {
    if ids == {} {
      events := [];
      assert s.open - ids == s.open;
    } else {
      var id :| id in ids;
      var s1 := s.(open := s.open - {id});
      var rest := CloseAll(s1, ids - {id});
      assert s1.open - (ids - {id}) == s.open - ids;
      T.RunSteps(s, B.Close(id), s1, rest, s.(open := s.open - ids));
      events := [B.Close(id)] + rest;
    }
  }

  /** The bridge catches up with a gateway that only closed requests. */
  lemma CatchUp(g': G.State, s: B.State) returns (events: seq<B.Event>)
    requires s.nextId == |g'.minted| && OpenIds(g') <= s.open
    ensures GatewayEvents(events) && B.Run(s, events).Some?
    ensures Provides(g', B.Run(s, events).value) && SameBridge(s, B.Run(s, events).value)
    ensures B.Run(s, events).value.pending == s.pending
  {
    events := CloseAll(s, s.open - OpenIds(g'));
    assert s.open - (s.open - OpenIds(g')) == OpenIds(g');
  }

  // ---- polls ----

  /** The id a poll's second step reports. */
  function Reported(g: G.State, session: nat, seen: Option<nat>): Option<nat> {
    if seen.None? then None else Some(G.IdFor(g.cache, G.RequestKey(session, seen.value)).1)
  }

  /** The report behind a poll's second step; what it leaves open may have to be closed. */
  lemma FirstReport(g: G.State, s: B.State, t: nat, session: nat, seen: Option<nat>, outcome: Option<B.Outcome>)
    returns (e: B.Event)
    requires G.Inv(g) && Provides(g, s)
    requires t < |g.threads| && g.threads[t] == G.PollSnapshot(session, seen)
    ensures var g' := G.StepThread(g, t, false).value;
            && GatewayEvent(e) && B.Next(s, e).Some? && SameBridge(s, B.Next(s, e).value)
            && B.Next(s, e).value.nextId == |g'.minted| && OpenIds(g') <= B.Next(s, e).value.open
            && B.Next(s, e).value.pending == ReportOf(g, session, seen, outcome)
  {
    var g' := G.StepThread(g, t, false).value;
    if seen.None? {
      e := B.Report(None);
      assert OpenIds(g') == OpenIds(g);
    } else {
      var key := G.RequestKey(session, seen.value);
      if G.Peek(g.cache, key).Some? {
        e := B.Report(Some(B.Pending(g.cache.slot.value.1, outcome)));
        assert OpenIds(g') == OpenIds(g);
      } else {
        e := B.NewRequest(outcome);
        assert g'.minted == g.minted + [key];
      }
    }
  }

  function ReportOf(g: G.State, session: nat, seen: Option<nat>, outcome: Option<B.Outcome>): Option<B.Pending> {
    if Reported(g, session, seen).None? then None
    else Some(B.Pending(Reported(g, session, seen).value, outcome))
  }

  /** Whatever the poll saw, and however old that is, the bridge may have been reported the same. */
  lemma PollIsReport(g: G.State, s: B.State, t: nat, session: nat, seen: Option<nat>, outcome: Option<B.Outcome>)
    returns (events: seq<B.Event>)
    requires G.Inv(g) && Provides(g, s)
    requires t < |g.threads| && g.threads[t] == G.PollSnapshot(session, seen)
    ensures var g' := G.StepThread(g, t, false).value;
            && events != [] && GatewayEvents(events) && B.Run(s, events[..1]).Some? && B.Run(s, events).Some?
            && Provides(g', B.Run(s, events).value) && SameBridge(s, B.Run(s, events).value)
            && B.Run(s, events[..1]).value.pending == ReportOf(g, session, seen, outcome)
  {
    var e := FirstReport(g, s, t, session, seen, outcome);
    var s1 := B.Next(s, e).value;
    var rest := CatchUp(G.StepThread(g, t, false).value, s1);
    T.RunSteps(s, e, s1, rest, B.Run(s1, rest).value);
    events := [e] + rest;
    assert events[..1] == [e] && [e][1..] == [];
    assert B.Run(s1, []) == Some(s1);
  }

  // ---- requests, swaps, and decisions up to their commit ----

  /** Every other step closes requests or changes nothing the bridge can see. */
  lemma StepIsClosing(g: G.State, s: B.State, e: G.Event) returns (events: seq<B.Event>)
    requires G.Inv(g) && Provides(g, s) && G.Next(g, e).Some?
    requires !(e.Advance? && (g.threads[e.t].PollSnapshot? || g.threads[e.t].DecideValidated?))
    ensures GatewayEvents(events) && B.Run(s, events).Some?
    ensures Provides(G.Next(g, e).value, B.Run(s, events).value) && SameBridge(s, B.Run(s, events).value)
    ensures G.Next(g, e).value.resolved == g.resolved
  {
    var g' := G.Next(g, e).value;
    assert g'.minted == g.minted;
    forall id | id in OpenIds(g')
      ensures id in OpenIds(g)
    {
    }
    events := CatchUp(g', s);
  }

  /** The flag the gateway carries is the decision of the bridge's call. */
  predicate Carries(g: G.State, t: nat, call: B.Call)
    requires t < |g.threads|
  {
    && g.threads[t].DecideValidated? && g.threads[t].id == call.id
    && g.threads[t].approve == call.decision.Approved?
  }

  /**
    The commit of a decision succeeds exactly when the id is open, which is when the bridge's
    apply step does; it resolves the id with the call's own decision and leaves the two in step.
    A failing commit changes nothing.
   */
  lemma CommitIsApply(g: G.State, s: B.State, t: nat, u: nat, call: B.Call, c: nat) returns (closing: seq<B.Event>)
    requires G.Inv(g) && Provides(g, s)
    requires t < |g.threads| && Carries(g, t, call)
    requires u < |s.threads| && s.threads[u] == B.Applying(call, c) && c < |s.claims|
    ensures var g' := G.StepThread(g, t, false).value;
            var s' := B.Next(s, B.Advance(u, B.Ok)).value;
            && (g'.resolved == if call.id in s.open
                               then g.resolved + [G.Resolution(call.id, call.decision.Approved?,
                                                               g.threads[t].session, g.threads[t].request)]
                               else g.resolved)
            && (s'.applied == if call.id in s.open then s.applied + [B.Applied(call.id, call.decision, c)]
                              else s.applied)
            && GatewayEvents(closing) && B.Run(s', closing).Some? && Provides(g', B.Run(s', closing).value)
            && SameBridge(s', B.Run(s', closing).value)
    ensures var failed := G.StepThread(g, t, true).value;
            Provides(failed, B.Next(s, B.Advance(u, B.Err)).value) && failed.resolved == g.resolved
  {
    assert G.ThreadOk(g, g.threads[t]);
    var g' := G.StepThread(g, t, false).value;
    var s' := B.Next(s, B.Advance(u, B.Ok)).value;
    assert s' == B.StepApplying(s, u, call, c, B.Ok);
    assert call.id in s.open <==> G.Live(g, g.minted[call.id]);
    assert OpenIds(g') <= s'.open;
    closing := CatchUp(g', s');
    assert OpenIds(G.StepThread(g, t, true).value) == OpenIds(g);
  }

  lemma InitialProvides(threads: nat)
    ensures G.Inv(G.Initial(threads)) && Provides(G.Initial(threads), B.Initial(threads))
  {
    assert OpenIds(G.Initial(threads)) == {};
  }
}
