/** When exactly a run of the bridge prompts an id at most once. */
module BridgePrompts {
  import opened Options
  import opened BridgeProtocol
  import opened BridgeInvariant
  import opened Resolutions

  /** The step posts a prompt for the id. */
  predicate Posts(s: State, e: Event, id: Id) {
    e.Advance? && e.t < |s.threads| && s.threads[e.t] == PollNotify(id) && e.reply == Ok
  }

  /** It posts one although an earlier prompt of the id was already answered and dropped. */
  predicate Reposts(s: State, e: Event, id: Id) {
    Posts(s, e, id) && s.closed[id] > 0
  }

  predicate NeverReposts(s: State, events: seq<Event>, id: Id)
    decreases |events|
  {
    events == [] ||
    (&& !Reposts(s, events[0], id)
     && (Next(s, events[0]).Some? ==> NeverReposts(Next(s, events[0]).value, events[1..], id)))
  }

  lemma OnlyNotifyPosts(s: State, e: Event, id: Id)
    requires Next(s, e).Some?
    ensures Next(s, e).value.posted[id] == s.posted[id] + (if Posts(s, e, id) then 1 else 0)
  {
    if e.Advance? && s.threads[e.t].HoldsProgress() {
      OwnersPostNothing(s, e.t, s.threads[e.t], e.reply);
    }
  }

  lemma OwnersPostNothing(s: State, t: nat, pc: Thread, reply: Reply)
    requires t < |s.threads| && pc.HoldsProgress() && pc.claim < |s.claims|
    ensures StepOwner(s, t, pc, reply).posted == s.posted
  {
  }

  /** At the notify call every earlier prompt of the id is closed. */
  lemma NotifierFindsAllClosed(s: State, t: nat, id: Id)
    requires Inv(s) && t < |s.threads| && s.threads[t] == PollNotify(id)
    ensures s.posted[id] == s.closed[id]
  {
    assert PostOk(s.threads[t], s.tokens, s.issued);
    assert !Stored(s.threads, id);
  }

  lemma {:induction false} PostedOnlyGrows(s: State, events: seq<Event>, id: Id)
    requires Run(s, events).Some?
    ensures s.posted[id] <= Run(s, events).value.posted[id]
    decreases |events|
  {
    if events != [] {
      OnlyNotifyPosts(s, events[0], id);
      PostedOnlyGrows(Next(s, events[0]).value, events[1..], id);
    }
  }

  lemma {:induction false} OnePromptFrom(s: State, events: seq<Event>, id: Id)
    requires Inv(s) && Run(s, events).Some? && s.posted[id] <= 1
    ensures Run(s, events).value.posted[id] <= 1 <==> NeverReposts(s, events, id)
    decreases |events|
  {
    if events != [] {
      var e := events[0];
      var next := Next(s, e).value;
      OnlyNotifyPosts(s, e, id);
      if Posts(s, e, id) {
        NotifierFindsAllClosed(s, e.t, id);
      }
      if Reposts(s, e, id) {
        PostedOnlyGrows(next, events[1..], id);
      } else {
        NextInv(s, e);
        OnePromptFrom(next, events[1..], id);
      }
    }
  }

  /**
    The exact condition of "one prompt per id": a run posts at most one prompt for an id if and only
    if none of its steps posts one after a prompt of that id was closed.
   */
  lemma PromptedOnceIffNeverReposted(threads: nat, events: seq<Event>, id: Id)
    requires Run(Initial(threads), events).Some?
    ensures Run(Initial(threads), events).value.posted[id] <= 1 <==> NeverReposts(Initial(threads), events, id)
  {
    InitialInv(threads);
    OnePromptFrom(Initial(threads), events, id);
  }

  // ---- the repeat is decided at the token check ----

  /** The thread takes no step of its own. */
  predicate Rests(events: seq<Event>, t: nat) {
    forall i :: 0 <= i < |events| ==> events[i].Advance? ==> events[i].t != t
  }

  /** The thread that takes the step, if it is one of a thread. */
  predicate IsActor(e: Event, t: nat) {
    (e.StartPoll? || e.StartResolve? || e.Advance?) && e.t == t
  }

  /** What a step does to the threads and to the closed prompts. */
  ghost predicate Moves(s: State, e: Event, s': State) {
    && |s'.threads| == |s.threads|
    && (forall u :: 0 <= u < |s.threads| && !IsActor(e, u) ==> s'.threads[u] == s.threads[u])
    && s'.closed == (if e.Advance? && e.t < |s.threads| && s.threads[e.t].DroppingToken?
                     then s.closed + multiset{s.threads[e.t].call.id} else s.closed)
  }

  lemma OwnerCloses(s: State, t: nat, pc: Thread, reply: Reply)
    requires t < |s.threads| && pc.HoldsProgress() && pc.claim < |s.claims|
    ensures StepOwner(s, t, pc, reply).closed ==
            if pc.DroppingToken? then s.closed + multiset{pc.call.id} else s.closed
  {
  }

  /** Only thread `t` moves, and not to the notify call. */
  predicate OnlyMoves(threads: seq<Thread>, t: nat, threads': seq<Thread>)
    requires t < |threads|
  {
    && |threads'| == |threads| && !threads'[t].PollNotify?
    && forall u :: 0 <= u < |threads| && u != t ==> threads'[u] == threads[u]
  }

  lemma OwnerDecides(s: State, t: nat, pc: Thread, reply: Reply)
    requires t < |s.threads| && (pc.Preparing? || pc.Applying? || pc.Auditing?) && pc.claim < |s.claims|
    ensures OnlyMoves(s.threads, t, StepOwner(s, t, pc, reply).threads)
  {
  }

  lemma OwnerAnswers(s: State, t: nat, pc: Thread, reply: Reply)
    requires t < |s.threads| && (pc.ReadingToken? || pc.Responding? || pc.DroppingToken?) && pc.claim < |s.claims|
    ensures OnlyMoves(s.threads, t, StepOwner(s, t, pc, reply).threads)
  {
  }

  lemma OwnerStays(s: State, t: nat, pc: Thread, reply: Reply)
    requires t < |s.threads| && pc.HoldsProgress() && pc.claim < |s.claims|
    ensures OnlyMoves(s.threads, t, StepOwner(s, t, pc, reply).threads)
  {
    if pc.Preparing? || pc.Applying? || pc.Auditing? {
      OwnerDecides(s, t, pc, reply);
    } else {
      OwnerAnswers(s, t, pc, reply);
    }
  }

  lemma UnlockedMoves(s: State, t: nat, pc: Thread, reply: Reply)
    requires t < |s.threads| && !pc.HoldsProgress() && StepUnlocked(s, t, pc, reply).Some?
    ensures var s' := StepUnlocked(s, t, pc, reply).value;
            && s'.closed == s.closed
            && |s'.threads| == |s.threads|
            && (forall u :: 0 <= u < |s.threads| && u != t ==> s'.threads[u] == s.threads[u])
            && (s'.threads[t].PollNotify? ==> pc.PollCheck? && pc.id == s'.threads[t].id && pc.id !in s.tokens)
  {
  }

  lemma StepMoves(s: State, e: Event)
    requires Next(s, e).Some?
    ensures Moves(s, e, Next(s, e).value)
  {
    if e.Advance? {
      if s.threads[e.t].HoldsProgress() {
        OwnerCloses(s, e.t, s.threads[e.t], e.reply);
        OwnerStays(s, e.t, s.threads[e.t], e.reply);
      } else {
        UnlockedMoves(s, e.t, s.threads[e.t], e.reply);
      }
    }
  }

  /** A thread drops the token of another id than the one being notified. */
  lemma OthersCloseNothing(s: State, e: Event, s': State, t: nat, id: Id)
    requires PostInv(s.threads, s.tokens, s.issued) && Moves(s, e, s')
    requires t < |s.threads| && s.threads[t] == PollNotify(id) && !IsActor(e, t)
    ensures s'.threads[t] == PollNotify(id) && s'.closed[id] == s.closed[id]
  {
    assert PostOk(s.threads[t], s.tokens, s.issued);
    if e.Advance? && e.t < |s.threads| {
      assert PostOk(s.threads[e.t], s.tokens, s.issued);
    }
  }

  lemma StartsNeverNotify(s: State, e: Event, t: nat)
    requires Next(s, e).Some? && t < |s.threads| && IsActor(e, t) && !e.Advance?
    ensures s.threads[t] == Idle || Next(s, e).value == s
    ensures t < |Next(s, e).value.threads| && !Next(s, e).value.threads[t].PollNotify?
  {
  }

  /**
    Between the token check that let a poll through and its notify call, whatever the other threads
    do, no prompt of the id is closed: whether the notify repeats one was settled at the check.
   */
  lemma {:induction false} RepeatIsSettledAtTheCheck(s: State, events: seq<Event>, t: nat, id: Id)
    requires Inv(s) && t < |s.threads| && s.threads[t] == PollNotify(id)
    requires Run(s, events).Some? && Rests(events, t)
    ensures var s' := Run(s, events).value;
            t < |s'.threads| && s'.threads[t] == PollNotify(id) && s'.closed[id] == s.closed[id]
    decreases |events|
  {
    if events != [] {
      var e := events[0];
      var s' := Next(s, e).value;
      StepMoves(s, e);
      if IsActor(e, t) {
        StartsNeverNotify(s, e, t);
      }
      OthersCloseNothing(s, e, s', t, id);
      NextInv(s, e);
      RepeatIsSettledAtTheCheck(s', events[1..], t, id);
    }
  }

  /** A poll passes the token check although a prompt of the id was closed before. */
  predicate Rechecks(s: State, e: Event, id: Id) {
    && e.Advance? && e.t < |s.threads| && s.threads[e.t] == PollCheck(id)
    && id !in s.tokens && s.closed[id] > 0
  }

  predicate NeverRechecks(s: State, events: seq<Event>, id: Id)
    decreases |events|
  {
    events == [] ||
    (&& !Rechecks(s, events[0], id)
     && (Next(s, events[0]).Some? ==> NeverRechecks(Next(s, events[0]).value, events[1..], id)))
  }

  /** Whoever is at the notify call passed the check before any prompt of the id was closed. */
  ghost predicate FirstAtNotify(s: State, id: Id) {
    forall t :: 0 <= t < |s.threads| && s.threads[t] == PollNotify(id) ==> s.closed[id] == 0
  }

  lemma OnlyTheCheckNotifies(s: State, t: nat, reply: Reply)
    requires t < |s.threads| && Next(s, Advance(t, reply)).Some?
    ensures var s' := Next(s, Advance(t, reply)).value;
            t < |s'.threads| && s'.threads[t].PollNotify? ==>
              s.threads[t] == PollCheck(s'.threads[t].id) && s'.threads[t].id !in s.tokens && s'.closed == s.closed
  {
    if s.threads[t].HoldsProgress() {
      OwnerStays(s, t, s.threads[t], reply);
    } else {
      UnlockedMoves(s, t, s.threads[t], reply);
    }
  }

  lemma StepKeepsFirst(s: State, e: Event, id: Id)
    requires Inv(s) && Next(s, e).Some? && FirstAtNotify(s, id) && !Rechecks(s, e, id)
    ensures FirstAtNotify(Next(s, e).value, id)
  {
    var s' := Next(s, e).value;
    StepMoves(s, e);
    forall t | 0 <= t < |s'.threads| && s'.threads[t] == PollNotify(id)
      ensures s'.closed[id] == 0
    {
      if !IsActor(e, t) {
        OthersCloseNothing(s, e, s', t, id);
      } else if e.Advance? {
        OnlyTheCheckNotifies(s, t, e.reply);
      } else {
        StartsNeverNotify(s, e, t);
      }
    }
  }

  lemma {:induction false} UnrecheckedNeverReposts(s: State, events: seq<Event>, id: Id)
    requires Inv(s) && Run(s, events).Some? && FirstAtNotify(s, id) && NeverRechecks(s, events, id)
    ensures NeverReposts(s, events, id)
    decreases |events|
  {
    if events != [] {
      StepKeepsFirst(s, events[0], id);
      NextInv(s, events[0]);
      UnrecheckedNeverReposts(Next(s, events[0]).value, events[1..], id);
    }
  }

  /** The run, stopped after `n` events and given one step of thread `t` that succeeds, prompts at most once. */
  predicate ProbePromptsOnce(s: State, events: seq<Event>, n: nat, t: nat, id: Id)
    requires n <= |events|
  {
    var probed := Run(s, events[..n] + [Advance(t, Ok)]);
    probed.Some? ==> probed.value.posted[id] <= 1
  }

  lemma RunCons(s: State, e: Event, events: seq<Event>)
    ensures Run(s, [e] + events) == if Next(s, e).None? then None else Run(Next(s, e).value, events)
  {
    assert ([e] + events)[1..] == events;
  }

  lemma ProbeAfterStep(s: State, events: seq<Event>, n: nat, t: nat, id: Id)
    requires n < |events| && Next(s, events[0]).Some?
    ensures ProbePromptsOnce(s, events, n + 1, t, id) ==
            ProbePromptsOnce(Next(s, events[0]).value, events[1..], n, t, id)
  {
    var probed := events[1..][..n] + [Advance(t, Ok)];
    assert events[..n + 1] + [Advance(t, Ok)] == [events[0]] + probed;
    RunCons(s, events[0], probed);
  }

  lemma StepPromptsOnce(s: State, e: Event, id: Id)
    requires Inv(s) && Next(s, e).Some? && FirstAtNotify(s, id) && s.posted[id] <= 1
    ensures Next(s, e).value.posted[id] <= 1
  {
    OnlyNotifyPosts(s, e, id);
    if Posts(s, e, id) {
      NotifierFindsAllClosed(s, e.t, id);
    }
  }

  lemma ProbeNow(s: State, events: seq<Event>, t: nat, id: Id)
    requires Inv(s) && FirstAtNotify(s, id) && s.posted[id] <= 1
    ensures ProbePromptsOnce(s, events, 0, t, id)
  {
    var probe := Advance(t, Ok);
    assert events[..0] + [probe] == [probe] + [];
    RunCons(s, probe, []);
    if Next(s, probe).Some? {
      StepPromptsOnce(s, probe, id);
    }
  }

  lemma {:induction false} UnrecheckedProbes(s: State, events: seq<Event>, n: nat, t: nat, id: Id)
    requires Inv(s) && FirstAtNotify(s, id) && s.posted[id] <= 1
    requires Run(s, events).Some? && NeverRechecks(s, events, id) && n <= |events|
    ensures ProbePromptsOnce(s, events, n, t, id)
    decreases n
  {
    if n == 0 {
      ProbeNow(s, events, t, id);
    } else {
      StepKeepsFirst(s, events[0], id);
      StepPromptsOnce(s, events[0], id);
      NextInv(s, events[0]);
      UnrecheckedProbes(Next(s, events[0]).value, events[1..], n - 1, t, id);
      ProbeAfterStep(s, events, n - 1, t, id);
    }
  }

  /** A check that lets a closed id through leaves its poll one call away from a second prompt. */
  lemma RecheckPromptsAgain(s: State, e: Event, id: Id)
    requires Inv(s) && Next(s, e).Some? && Rechecks(s, e, id)
    ensures var again := Run(s, [e] + [Advance(e.t, Ok)]);
            again.Some? && again.value.posted[id] > 1
  {
    var s', probe := Next(s, e).value, Advance(e.t, Ok);
    assert s'.threads[e.t] == PollNotify(id) && s'.closed == s.closed;
    NextInv(s, e);
    NotifierFindsAllClosed(s', e.t, id);
    OnlyNotifyPosts(s', probe, id);
    RunCons(s, e, [probe]);
    RunCons(s', probe, []);
    assert [probe] + [] == [probe];
  }

  lemma {:induction false} RecheckIsCaught(s: State, events: seq<Event>, id: Id) returns (n: nat, t: nat)
    requires Inv(s) && Run(s, events).Some? && !NeverRechecks(s, events, id)
    ensures n <= |events| && !ProbePromptsOnce(s, events, n, t, id)
    decreases |events|
  {
    if Rechecks(s, events[0], id) {
      RecheckPromptsAgain(s, events[0], id);
      assert events[..1] == [events[0]];
      n, t := 1, events[0].t;
    } else {
      NextInv(s, events[0]);
      n, t := RecheckIsCaught(Next(s, events[0]).value, events[1..], id);
      ProbeAfterStep(s, events, n, t, id);
      n := n + 1;
    }
  }

  /**
    The exact condition at the guard: no poll passes the token check after a prompt of the id was
    closed if and only if the run, stopped anywhere and given any one more step that succeeds, has
    prompted at most once. Such a run itself prompts at most once.
   */
  lemma PromptedOnceIffNeverRechecked(threads: nat, events: seq<Event>, id: Id)
    requires Run(Initial(threads), events).Some?
    ensures NeverRechecks(Initial(threads), events, id) <==>
              forall n: nat, t: nat :: n <= |events| ==> ProbePromptsOnce(Initial(threads), events, n, t, id)
    ensures NeverRechecks(Initial(threads), events, id) ==> Run(Initial(threads), events).value.posted[id] <= 1
  {
    var s := Initial(threads);
    InitialInv(threads);
    if NeverRechecks(s, events, id) {
      forall n: nat, t: nat | n <= |events|
        ensures ProbePromptsOnce(s, events, n, t, id)
      {
        UnrecheckedProbes(s, events, n, t, id);
      }
      UnrecheckedNeverReposts(s, events, id);
      PromptedOnceIffNeverReposted(threads, events, id);
    } else {
      var n, t := RecheckIsCaught(s, events, id);
    }
  }
}
