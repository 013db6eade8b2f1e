/** Every call that ends is in the history, with its own data and nothing else: a store can be read back. */
module VaultHistory {
  import opened Options
  import opened Sequences
  import opened SessionVault
  import opened VaultConcurrency

  datatype Request = Store(sid: SessionId, data: Plaintext) | Load(sid: SessionId) | Rotate(key: Key, id: KeyId)

  /** The call a thread is in. */
  function RequestOf(pc: Thread): Option<Request> {
    match pc
    case Idle => None
    case StoreStart(sid, data) => Some(Store(sid, data))
    case StoreSealed(sid, data, _) => Some(Store(sid, data))
    case LoadStart(sid) => Some(Load(sid))
    case LoadWait(sid) => Some(Load(sid))
    case LoadRead(sid, _) => Some(Load(sid))
    case RotateStart(key, id) => Some(Rotate(key, id))
    case RotateWait(key, id) => Some(Rotate(key, id))
    case RotateDecrypt(key, id) => Some(Rotate(key, id))
    case RotateStaged(key, id, _) => Some(Rotate(key, id))
  }

  /** The call that the event ends otherwise than by being dropped. */
  function Ends(s: State, e: Event, s': State): Option<Request> {
    if (e.Step? || e.Finish?) && e.t < |s.threads| && e.t < |s'.threads| && s'.threads[e.t].Idle?
    then RequestOf(s.threads[e.t]) else None
  }

  lemma StepStays(c: Cipher, s: State, t: nat, nonce: Nonce)
    requires t < |s.threads| && StepThread(c, s, t, nonce).Some?
    ensures var s' := StepThread(c, s, t, nonce).value;
            && |s'.threads| == |s.threads| && s'.threads == s.threads[t := s'.threads[t]]
            && (s'.threads[t].Idle? || RequestOf(s'.threads[t]) == RequestOf(s.threads[t]))
  {
  }

  /** A thread stays in the call it began, with the same session, data and key, until the call ends. */
  lemma CallsStayThemselves(c: Cipher, s: State, e: Event, t: nat)
    requires Next(c, s, e).Some? && t < |s.threads|
    ensures var s' := Next(c, s, e).value;
            && |s'.threads| == |s.threads|
            && (e.t != t ==> s'.threads[t] == s.threads[t])
            && (e.t == t ==> if e.Begin? then s'.threads[t] == e.call
                             else s'.threads[t].Idle? || RequestOf(s'.threads[t]) == RequestOf(s.threads[t]))
  {
    if e.Step? {
      StepStays(c, s, e.t, e.nonce);
      assert Next(c, s, e) == StepThread(c, s, e.t, e.nonce);
    } else {
      assert Next(c, s, e).value.threads ==
             s.threads[e.t := if e.Begin? then e.call else Idle];
    }
  }

  /** What the history says of a call that ends, from the history before it. */
  function Answer(s: State, e: Event, s': State): seq<Done> {
    match Ends(s, e, s')
    case None => []
    case Some(Store(sid, data)) => [Stored(sid, data)]
    case Some(Load(sid)) => [Loaded(sid, LastStored(s.history, sid))]
    case Some(Rotate(_, id)) => if e.Finish? then [RotatedTo(id)] else []
  }

  lemma StepIsLogged(c: Cipher, s: State, t: nat, nonce: Nonce)
    requires Inv(c, s) && t < |s.threads| && StepThread(c, s, t, nonce).Some?
    requires s.threads[t].StoreStart? || s.threads[t].StoreSealed? || s.threads[t].LoadStart? || s.threads[t].LoadWait?
             || s.threads[t].LoadRead?
    ensures var s' := StepThread(c, s, t, nonce).value;
            s'.history == s.history + Answer(s, Step(t, nonce), s')
  {
    assert CallOk(c, s, s.threads[t]);
    assert s.history + [] == s.history;
  }

  lemma RotationStepIsLogged(c: Cipher, s: State, t: nat, nonce: Nonce)
    requires Inv(c, s) && t < |s.threads| && StepThread(c, s, t, nonce).Some?
    requires s.threads[t].RotateStart? || s.threads[t].RotateWait? || s.threads[t].RotateDecrypt?
    ensures var s' := StepThread(c, s, t, nonce).value;
            s'.history == s.history + Answer(s, Step(t, nonce), s')
  {
    assert s.history + [] == s.history;
  }

  /** One event logs exactly the call that it ends. */
  lemma EndIsLogged(c: Cipher, s: State, e: Event)
    requires Inv(c, s) && Next(c, s, e).Some?
    ensures var s' := Next(c, s, e).value;
            s'.history == s.history + Answer(s, e, s')
  {
    assert s.history + [] == s.history;
    if e.Step? {
      if RequestOf(s.threads[e.t]).value.Rotate? {
        RotationStepIsLogged(c, s, e.t, e.nonce);
      } else {
        StepIsLogged(c, s, e.t, e.nonce);
      }
    }
  }

  /** What a call that ends otherwise than by being dropped has done to the store and the keys. */
  ghost predicate TookEffect(c: Cipher, s: State, e: Event, s': State) {
    match Ends(s, e, s')
    case Some(Store(sid, data)) =>
      && s'.storage.Keys == s.storage.Keys + {sid} && s'.keys == s.keys
      && Decrypt(c, s'.keys, s'.storage[sid]) == Some(data) && s'.storage[sid].keyId == s'.keys.current
      && (forall other <- s.storage :: other != sid ==> s'.storage[other] == s.storage[other])
    case Some(Load(_)) => s'.storage == s.storage && s'.keys == s.keys
    case Some(Rotate(_, id)) =>
      if e.Finish? then s'.keys.current == id
      else id in s.keys.keys && s'.storage == s.storage && s'.keys == s.keys
    case None => s'.storage == s.storage
  }

  lemma StoreTakesEffect(c: Cipher, s: State, t: nat, nonce: Nonce)
    requires Inv(c, s) && t < |s.threads| && s.threads[t].StoreSealed? && s.storageHolder.None?
    ensures TookEffect(c, s, Step(t, nonce), StepThread(c, s, t, nonce).value)
  {
    assert CallOk(c, s, s.threads[t]);
    assert s.storage[s.threads[t].sid := s.threads[t].entry].Keys == s.storage.Keys + {s.threads[t].sid};
  }

  lemma RotationTakesEffect(c: Cipher, s: State, t: nat, nonce: Nonce)
    requires Inv(c, s) && t < |s.threads| && StepThread(c, s, t, nonce).Some?
    requires s.threads[t].RotateStart? || s.threads[t].RotateWait? || s.threads[t].RotateDecrypt?
    ensures TookEffect(c, s, Step(t, nonce), StepThread(c, s, t, nonce).value)
  {
  }

  lemma ReadingTakesEffect(c: Cipher, s: State, t: nat, nonce: Nonce)
    requires Inv(c, s) && t < |s.threads| && StepThread(c, s, t, nonce).Some?
    requires s.threads[t].StoreStart? || s.threads[t].LoadStart? || s.threads[t].LoadWait? || s.threads[t].LoadRead?
    ensures TookEffect(c, s, Step(t, nonce), StepThread(c, s, t, nonce).value)
  {
  }

  lemma FinishTakesEffect(c: Cipher, s: State, t: nat, storage: Storage)
    requires Inv(c, s) && Next(c, s, Finish(t, storage)).Some?
    ensures TookEffect(c, s, Finish(t, storage), Next(c, s, Finish(t, storage)).value)
  {
    assert CallOk(c, s, s.threads[t]);
  }

  /** Every call that ends has taken effect, and nothing else changes the store. */
  lemma EndTakesEffect(c: Cipher, s: State, e: Event)
    requires Inv(c, s) && Next(c, s, e).Some?
    ensures TookEffect(c, s, e, Next(c, s, e).value)
  {
    match e
    case Step(t, nonce) =>
      if s.threads[t].StoreSealed? {
        StoreTakesEffect(c, s, t, nonce);
      } else if RequestOf(s.threads[t]).value.Rotate? {
        RotationTakesEffect(c, s, t, nonce);
      } else {
        ReadingTakesEffect(c, s, t, nonce);
      }
    case Finish(t, storage) => FinishTakesEffect(c, s, t, storage);
    case Begin(_, _) =>
    case Drop(_) =>
  }

  /** The entries of all the calls that end in a run, in the order they end. */
  ghost function AnswersOf(c: Cipher, s: State, events: seq<Event>): seq<Done>
    requires Run(c, s, events).Some?
    decreases |events|
  {
    if events == [] then []
    else
      var s' := Next(c, s, events[0]).value;
      Answer(s, events[0], s') + AnswersOf(c, s', events[1..])
  }

  /** Over every interleaving the history gains exactly one entry for each call that ends, and no other. */
  lemma {:induction false} HistoryIsTheCalls(c: Cipher, s: State, events: seq<Event>)
    requires Inv(c, s) && Run(c, s, events).Some?
    ensures Run(c, s, events).value.history == s.history + AnswersOf(c, s, events)
    decreases |events|
  {
    if events == [] {
      assert s.history + [] == s.history;
    } else {
      var s' := Next(c, s, events[0]).value;
      EndIsLogged(c, s, events[0]);
      NextInv(c, s, events[0]);
      HistoryIsTheCalls(c, s', events[1..]);
      Associates(s.history, Answer(s, events[0], s'), AnswersOf(c, s', events[1..]));
    }
  }

  // ---- a store can be read back ----

  /** No call holds a lock. */
  predicate Quiet(s: State) {
    s.kmsHolder.None? && s.storageHolder.None?
  }

  lemma RunThree(c: Cipher, s: State, e1: Event, s1: State, e2: Event, s2: State, e3: Event, s3: State)
    requires Next(c, s, e1) == Some(s1) && Next(c, s1, e2) == Some(s2) && Next(c, s2, e3) == Some(s3)
    ensures Run(c, s, [e1, e2, e3]) == Some(s3)
  {
    assert [e1, e2, e3][1..] == [e2, e3] && [e2, e3][1..] == [e3] && [e3][1..] == [];
    assert Run(c, s2, [e3]) == Run(c, s3, []);
    assert Run(c, s1, [e2, e3]) == Run(c, s2, [e3]);
  }

  /** A store that nobody disturbs goes through, under any interference before it. */
  lemma StoreAlone(c: Cipher, s: State, t: nat, sid: SessionId, data: Plaintext, nonce: Nonce) returns (s': State)
    requires Inv(c, s) && Quiet(s) && t < |s.threads| && s.threads[t].Idle?
    ensures Run(c, s, [Begin(t, StoreStart(sid, data)), Step(t, nonce), Step(t, nonce)]) == Some(s')
    ensures Inv(c, s') && Quiet(s') && t < |s'.threads| && s'.threads[t].Idle?
    ensures s'.history == s.history + [Stored(sid, data)]
  {
    var e := Step(t, nonce);
    var s1 := Goto(s, t, StoreStart(sid, data));
    NextInv(c, s, Begin(t, StoreStart(sid, data)));
    var s2 := Next(c, s1, e).value;
    NextInv(c, s1, e);
    s' := Next(c, s2, e).value;
    NextInv(c, s2, e);
    RunThree(c, s, Begin(t, StoreStart(sid, data)), s1, e, s2, e, s');
    EndIsLogged(c, s2, e);
  }

  /** A load of a stored session that nobody disturbs returns what was stored last. */
  lemma LoadAlone(c: Cipher, s: State, t: nat, sid: SessionId, nonce: Nonce) returns (events: seq<Event>, s': State)
    requires Inv(c, s) && Quiet(s) && t < |s.threads| && s.threads[t].Idle? && LastStored(s.history, sid).Some?
    ensures events == [Begin(t, LoadStart(sid)), Step(t, nonce), Step(t, nonce), Step(t, nonce)]
    ensures Run(c, s, events) == Some(s') && s'.history == s.history + [Loaded(sid, LastStored(s.history, sid))]
  {
    var e := Step(t, nonce);
    var s1 := Goto(s, t, LoadStart(sid));
    NextInv(c, s, Begin(t, LoadStart(sid)));
    var s2 := Next(c, s1, e).value;
    NextInv(c, s1, e);
    var s3 := Next(c, s2, e).value;
    NextInv(c, s2, e);
    s' := Next(c, s3, e).value;
    EndIsLogged(c, s3, e);
    events := [Begin(t, LoadStart(sid)), e, e, e];
    RunThree(c, s1, e, s2, e, s3, e, s');
    assert events[1..] == [e, e, e];
  }

  /** A store followed by a load returns the stored data. */
  lemma StoredCanBeLoaded(c: Cipher, s: State, t: nat, sid: SessionId, data: Plaintext, nonce: Nonce)
    returns (events: seq<Event>, s': State)
    requires Inv(c, s) && Quiet(s) && t < |s.threads| && s.threads[t].Idle?
    ensures Run(c, s, events) == Some(s')
    ensures s'.history == s.history + [Stored(sid, data), Loaded(sid, Some(data))]
  {
    var store := [Begin(t, StoreStart(sid, data)), Step(t, nonce), Step(t, nonce)];
    var s1 := StoreAlone(c, s, t, sid, data, nonce);
    assert s1.history[..|s1.history| - 1] == s.history;
    assert LastStored(s1.history, sid) == Some(data);
    var load;
    load, s' := LoadAlone(c, s1, t, sid, nonce);
    RunConcat(c, s, store, load);
    events := store + load;
    Associates(s.history, [Stored(sid, data)], [Loaded(sid, Some(data))]);
  }

  lemma {:induction false} RunConcat(c: Cipher, s: State, first: seq<Event>, second: seq<Event>)
    requires Run(c, s, first).Some?
    ensures Run(c, s, first + second) == Run(c, Run(c, s, first).value, second)
    decreases |first|
  {
    if first == [] {
      assert first + second == second;
    } else {
      assert (first + second)[1..] == first[1..] + second;
      RunConcat(c, Next(c, s, first[0]).value, first[1..], second);
    }
  }
}
