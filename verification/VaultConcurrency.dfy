/**
  Concurrent store, load and rotate on one vault: the two async mutexes are always taken key
  manager first, store second, and a future may be dropped at any await point.
 */
module VaultConcurrency {
  import opened Options
  import opened SessionVault

  datatype Thread =
    | Idle
    | StoreStart(sid: SessionId, data: Plaintext)                 // waiting for the key manager
    | StoreSealed(sid: SessionId, data: Plaintext, entry: Entry)  // holds it, waiting for the store
    | LoadStart(sid: SessionId)
    | LoadWait(sid: SessionId)                                    // holds it, waiting for the store
    | LoadRead(sid: SessionId, entry: Entry)                      // holds it, about to decrypt
    | RotateStart(key: Key, id: KeyId)
    | RotateWait(key: Key, id: KeyId)                             // holds it, waiting for the store
    | RotateDecrypt(key: Key, id: KeyId)                          // holds both
    | RotateStaged(key: Key, id: KeyId, previous: Keys)           // holds both, new key active

  /** What completed, in the order the effects happened. */
  datatype Done =
    | Stored(sid: SessionId, data: Plaintext)
    | Loaded(sid: SessionId, result: Option<Plaintext>)
    | LoadFailed(sid: SessionId)
    | RotatedTo(id: KeyId)

  datatype State = State(
    keys: Keys,
    storage: Storage,
    kmsHolder: Option<nat>,
    storageHolder: Option<nat>,
    threads: seq<Thread>,
    history: seq<Done>
  )

  datatype Event =
    | Begin(t: nat, call: Thread)
    | Step(t: nat, nonce: Nonce)
    | Finish(t: nat, storage: Storage)   // a rotation swaps in this re-encrypted store
    | Drop(t: nat)                       // error, or the future is dropped at an await point

  function Goto(s: State, t: nat, pc: Thread): State
    requires t < |s.threads|
  {
    s.(threads := s.threads[t := pc])
  }

  /** Every guard `t` holds is released. */
  function Release(s: State, t: nat): State
    requires t < |s.threads|
  {
    Goto(s.(kmsHolder := if s.kmsHolder == Some(t) then None else s.kmsHolder,
            storageHolder := if s.storageHolder == Some(t) then None else s.storageHolder), t, Idle)
  }

  function Log(s: State, done: Done): State {
    s.(history := s.history + [done])
  }

  function StepThread(c: Cipher, s: State, t: nat, nonce: Nonce): Option<State>
    requires t < |s.threads|
  {
    match s.threads[t]
    case StoreStart(sid, data) =>
      if s.kmsHolder.Some? then None
      else
        var sealed := Encrypt(c, s.keys, nonce, data);
        if sealed.None? then Some(Goto(s, t, Idle))
        else Some(Goto(s.(kmsHolder := Some(t)), t, StoreSealed(sid, data, sealed.value)))
    case StoreSealed(sid, data, entry) =>
      if s.storageHolder.Some? then None
      else Some(Release(Log(s.(storage := s.storage[sid := entry]), Stored(sid, data)), t))
    case LoadStart(sid) =>
      if s.kmsHolder.Some? then None else Some(Goto(s.(kmsHolder := Some(t)), t, LoadWait(sid)))
    case LoadWait(sid) =>
      if s.storageHolder.Some? then None
      else if sid !in s.storage then Some(Release(Log(s, Loaded(sid, None)), t))
      else Some(Goto(s, t, LoadRead(sid, s.storage[sid])))
    case LoadRead(sid, entry) =>
      var plain := Decrypt(c, s.keys, entry);
      Some(Release(Log(s, if plain.None? then LoadFailed(sid) else Loaded(sid, plain)), t))
    case RotateStart(key, id) =>
      if s.kmsHolder.Some? then None else Some(Goto(s.(kmsHolder := Some(t)), t, RotateWait(key, id)))
    case RotateWait(key, id) =>
      if s.storageHolder.Some? then None else Some(Goto(s.(storageHolder := Some(t)), t, RotateDecrypt(key, id)))
    case RotateDecrypt(key, id) =>
      if !AllDecrypt(c, s.keys, s.storage) || Stage(s.keys, key, id).None? then Some(Release(s, t))
      else Some(Goto(s.(keys := Stage(s.keys, key, id).value), t, RotateStaged(key, id, s.keys)))
    case _ => None
  }

  /** `StoreSealed` and `LoadWait` hold the store's lock within their step only: nothing awaits there. */
  ghost function Next(c: Cipher, s: State, e: Event): Option<State> {
    match e
    case Begin(t, call) =>
      if t >= |s.threads| || s.threads[t] != Idle || !(call.StoreStart? || call.LoadStart? || call.RotateStart?)
      then None else Some(Goto(s, t, call))
    case Step(t, nonce) => if t >= |s.threads| then None else StepThread(c, s, t, nonce)
    case Finish(t, storage) =>
      if t >= |s.threads| || !s.threads[t].RotateStaged? then None
      else
        var previous, id := s.threads[t].previous, s.threads[t].id;
        var keys := Finalize(s.keys, Superseded(previous, s.storage) - {id});
        if keys.None? || !Reencrypted(c, previous, s.storage, keys.value, storage) then None
        else Some(Release(Log(s.(keys := keys.value, storage := storage), RotatedTo(id)), t))
    case Drop(t) =>
      if t >= |s.threads| || s.threads[t].Idle? then None
      else if s.threads[t].RotateStaged? then
        Some(Release(s.(keys := Rollback(s.keys, s.threads[t].previous.current, s.threads[t].id)), t))
      else Some(Release(s, t))
  }

  /** What a sequential store would answer after `history`. */
  function LastStored(history: seq<Done>, sid: SessionId): Option<Plaintext>
    decreases |history|
  {
    if history == [] then None
    else
      var last := history[|history| - 1];
      if last.Stored? && last.sid == sid then Some(last.data) else LastStored(history[..|history| - 1], sid)
  }

  /** Every load of the history returned what was stored last before it, and none failed. */
  ghost predicate Serial(history: seq<Done>) {
    forall i :: 0 <= i < |history| ==>
      && !history[i].LoadFailed?
      && (history[i].Loaded? ==> history[i].result == LastStored(history[..i], history[i].sid))
  }

  predicate HoldsKms(pc: Thread) {
    pc.StoreSealed? || pc.LoadWait? || pc.LoadRead? || pc.RotateWait? || HoldsStorage(pc)
  }

  predicate HoldsStorage(pc: Thread) {
    pc.RotateDecrypt? || pc.RotateStaged?
  }

  /** The keys that count: those from before the rotation while one is staged. */
  ghost function Stable(s: State): Keys {
    match s.storageHolder
    case Some(t) => if t < |s.threads| && s.threads[t].RotateStaged? then s.threads[t].previous else s.keys
    case None => s.keys
  }

  ghost predicate LocksInv(s: State) {
    && (forall t :: 0 <= t < |s.threads| ==> (HoldsKms(s.threads[t]) <==> s.kmsHolder == Some(t)))
    && (forall t :: 0 <= t < |s.threads| ==> (HoldsStorage(s.threads[t]) <==> s.storageHolder == Some(t)))
    && (s.kmsHolder.Some? ==> s.kmsHolder.value < |s.threads|)
    && (s.storageHolder.Some? ==> s.storageHolder.value < |s.threads|)
  }

  /** The store, read with the stable keys, is what the history says it is. */
  ghost predicate DataInv(c: Cipher, s: State) {
    && Stable(s).current in Stable(s).keys
    && (forall sid: SessionId ::
          LastStored(s.history, sid) == if sid in s.storage then Decrypt(c, Stable(s), s.storage[sid]) else None)
    && AllDecrypt(c, Stable(s), s.storage)
  }

  ghost predicate CallOk(c: Cipher, s: State, pc: Thread) {
    && (pc.StoreSealed? ==> Decrypt(c, s.keys, pc.entry) == Some(pc.data) && pc.entry.keyId == s.keys.current)
    && (pc.LoadRead? ==> LastStored(s.history, pc.sid).Some? &&
                         Decrypt(c, s.keys, pc.entry) == LastStored(s.history, pc.sid))
    && (pc.RotateStaged? ==> Stage(pc.previous, pc.key, pc.id) == Some(s.keys))
  }

  ghost predicate CallsInv(c: Cipher, s: State) {
    forall t :: 0 <= t < |s.threads| ==> CallOk(c, s, s.threads[t])
  }

  ghost predicate Inv(c: Cipher, s: State) {
    c.Correct() && LocksInv(s) && DataInv(c, s) && CallsInv(c, s) && Serial(s.history)
  }

  function Initial(key: Key, id: KeyId, threads: nat): State {
    State(Keys(map[id := key], id), map[], None, None, seq(threads, _ => Idle), [])
  }

  lemma InitialInv(c: Cipher, key: Key, id: KeyId, threads: nat)
    requires c.Correct()
    ensures Inv(c, Initial(key, id, threads))
  {
  }

  /** While one thread holds the key manager, every other thread knows nothing that could change. */
  lemma OthersHoldNothing(s: State, t: nat)
    requires LocksInv(s) && t < |s.threads| && s.kmsHolder == Some(t)
    ensures forall u :: 0 <= u < |s.threads| && u != t ==> !HoldsKms(s.threads[u]) && !HoldsStorage(s.threads[u])
    ensures s.storageHolder.Some? ==> s.storageHolder.value == t
  {
  }

  lemma LogKeepsSerial(history: seq<Done>, done: Done)
    requires Serial(history) && !done.LoadFailed?
    requires done.Loaded? ==> done.result == LastStored(history, done.sid)
    ensures Serial(history + [done])
    ensures forall sid: SessionId :: LastStored(history + [done], sid) ==
              if done.Stored? && done.sid == sid then Some(done.data) else LastStored(history, sid)
  {
    var h := history + [done];
    assert h[..|history|] == history;
    forall i | 0 <= i < |history|
      ensures h[..i] == history[..i]
    {
    }
  }

  lemma BeginInv(c: Cipher, s: State, t: nat, call: Thread)
    requires Inv(c, s) && Next(c, s, Begin(t, call)).Some?
    ensures Inv(c, Next(c, s, Begin(t, call)).value)
  {
  }

  lemma StoreStartInv(c: Cipher, s: State, t: nat, nonce: Nonce)
    requires Inv(c, s) && t < |s.threads| && s.threads[t].StoreStart? && s.kmsHolder.None?
    ensures Inv(c, StepThread(c, s, t, nonce).value)
  {
    var sealed := Encrypt(c, s.keys, nonce, s.threads[t].data);
    assert Decrypt(c, s.keys, sealed.value) == Some(s.threads[t].data);
  }

  lemma StoreSealedInv(c: Cipher, s: State, t: nat, nonce: Nonce)
    requires Inv(c, s) && t < |s.threads| && s.threads[t].StoreSealed? && s.storageHolder.None?
    ensures Inv(c, StepThread(c, s, t, nonce).value)
  {
    OthersHoldNothing(s, t);
    LogKeepsSerial(s.history, Stored(s.threads[t].sid, s.threads[t].data));
  }

  lemma LoadStartInv(c: Cipher, s: State, t: nat, nonce: Nonce)
    requires Inv(c, s) && t < |s.threads| && s.threads[t].LoadStart? && s.kmsHolder.None?
    ensures Inv(c, StepThread(c, s, t, nonce).value)
  {
  }

  lemma FoundInv(c: Cipher, s: State, t: nat, nonce: Nonce)
    requires Inv(c, s) && t < |s.threads| && s.threads[t].LoadWait? && s.storageHolder.None?
    requires s.threads[t].sid in s.storage
    ensures Inv(c, StepThread(c, s, t, nonce).value)
  {
    OthersHoldNothing(s, t);
  }

  lemma LoadWaitInv(c: Cipher, s: State, t: nat, nonce: Nonce)
    requires Inv(c, s) && t < |s.threads| && s.threads[t].LoadWait? && s.storageHolder.None?
    ensures Inv(c, StepThread(c, s, t, nonce).value)
  {
    var sid := s.threads[t].sid;
    if sid in s.storage {
      FoundInv(c, s, t, nonce);
    } else {
      OthersHoldNothing(s, t);
      LogKeepsSerial(s.history, Loaded(sid, None));
    }
  }

  lemma LoadReadInv(c: Cipher, s: State, t: nat, nonce: Nonce)
    requires Inv(c, s) && t < |s.threads| && s.threads[t].LoadRead?
    ensures Inv(c, StepThread(c, s, t, nonce).value)
  {
    OthersHoldNothing(s, t);
    assert CallOk(c, s, s.threads[t]);
    LogKeepsSerial(s.history, Loaded(s.threads[t].sid, Decrypt(c, s.keys, s.threads[t].entry)));
  }

  lemma RotateLocksInv(c: Cipher, s: State, t: nat, nonce: Nonce)
    requires Inv(c, s) && t < |s.threads|
    requires (s.threads[t].RotateStart? && s.kmsHolder.None?) || (s.threads[t].RotateWait? && s.storageHolder.None?)
    ensures Inv(c, StepThread(c, s, t, nonce).value)
  {
  }

  lemma RotateDecryptInv(c: Cipher, s: State, t: nat, nonce: Nonce)
    requires Inv(c, s) && t < |s.threads| && s.threads[t].RotateDecrypt?
    ensures Inv(c, StepThread(c, s, t, nonce).value)
  {
    OthersHoldNothing(s, t);
  }

  lemma FinishInv(c: Cipher, s: State, t: nat, storage: Storage)
    requires Inv(c, s) && Next(c, s, Finish(t, storage)).Some?
    ensures Inv(c, Next(c, s, Finish(t, storage)).value)
    ensures RotationIsWhole(c, s, t, storage)
  {
    OthersHoldNothing(s, t);
    var pc := s.threads[t];
    assert CallOk(c, s, pc);
    FinalizeCannotFail(c, pc.previous, s.storage, pc.key, pc.id);
    LogKeepsSerial(s.history, RotatedTo(pc.id));
    var keys := Finalize(s.keys, Superseded(pc.previous, s.storage) - {pc.id}).value;
    RotationPreservesSessions(c, pc.previous, s.storage, pc.key, pc.id, keys, storage);
  }

  /** The swap is exactly what the in-place rotation ensures. */
  ghost predicate RotationIsWhole(c: Cipher, s: State, t: nat, storage: Storage) {
    && t < |s.threads| && s.threads[t].RotateStaged?
    && var pc := s.threads[t];
    && var keys := Finalize(s.keys, Superseded(pc.previous, s.storage) - {pc.id});
    keys.Some? && Rotated(c, pc.previous, s.storage, pc.key, pc.id, keys.value, storage)
  }

  /** Dropping any call anywhere leaves the data, and the keys that count, as they were. */
  lemma DropInv(c: Cipher, s: State, t: nat)
    requires Inv(c, s) && Next(c, s, Drop(t)).Some?
    ensures Inv(c, Next(c, s, Drop(t)).value)
    ensures var s' := Next(c, s, Drop(t)).value;
            s'.storage == s.storage && s'.history == s.history && Stable(s') == Stable(s)
  {
    var pc := s.threads[t];
    if pc.RotateStaged? {
      OthersHoldNothing(s, t);
      assert CallOk(c, s, pc);
      RollbackUndoesStage(pc.previous, pc.key, pc.id);
    }
  }

  lemma NextInv(c: Cipher, s: State, e: Event)
    requires Inv(c, s) && Next(c, s, e).Some?
    ensures Inv(c, Next(c, s, e).value)
  {
    match e
    case Begin(t, call) => BeginInv(c, s, t, call);
    case Step(t, nonce) =>
      match s.threads[t] {
        case StoreStart(_, _) => StoreStartInv(c, s, t, nonce);
        case StoreSealed(_, _, _) => StoreSealedInv(c, s, t, nonce);
        case LoadStart(_) => LoadStartInv(c, s, t, nonce);
        case LoadWait(_) => LoadWaitInv(c, s, t, nonce);
        case LoadRead(_, _) => LoadReadInv(c, s, t, nonce);
        case RotateStart(_, _) => RotateLocksInv(c, s, t, nonce);
        case RotateWait(_, _) => RotateLocksInv(c, s, t, nonce);
        case RotateDecrypt(_, _) => RotateDecryptInv(c, s, t, nonce);
      }
    case Finish(t, storage) => FinishInv(c, s, t, storage);
    case Drop(t) => DropInv(c, s, t);
  }

  ghost function Run(c: Cipher, s: State, events: seq<Event>): Option<State>
    decreases |events|
  {
    if events == [] then Some(s)
    else
      var next := Next(c, s, events[0]);
      if next.None? then None else Run(c, next.value, events[1..])
  }

  /**
    All interleavings are serializable: the calls that completed, in the order of their effects,
    are a sequential history in which every load returns the data stored last, and no load ever
    meets a retired key.  Between rotations every stored entry decrypts under a live key.
   */
  lemma {:induction false} RunsAreSerializable(c: Cipher, s: State, events: seq<Event>)
    requires Inv(c, s) && Run(c, s, events).Some?
    ensures var s' := Run(c, s, events).value;
            && Inv(c, s') && Serial(s'.history)
            && AllDecrypt(c, Stable(s'), s'.storage)
            && (s'.storageHolder.None? ==> Stable(s') == s'.keys)
    decreases |events|
  {
    if events != [] {
      NextInv(c, s, events[0]);
      RunsAreSerializable(c, Next(c, s, events[0]).value, events[1..]);
    }
  }

  /** Some re-encrypted store always exists, so a staged rotation can always finish. */
  lemma StagedCanFinish(c: Cipher, s: State, t: nat) returns (storage: Storage)
    requires Inv(c, s) && t < |s.threads| && s.threads[t].RotateStaged?
    ensures Next(c, s, Finish(t, storage)).Some?
  {
    var pc := s.threads[t];
    assert CallOk(c, s, pc);
    var previous := pc.previous;
    assert Stable(s) == previous;
    FinalizeCannotFail(c, previous, s.storage, pc.key, pc.id);
    var keys := Finalize(s.keys, Superseded(previous, s.storage) - {pc.id}).value;
    storage := map sid | sid in s.storage ::
      Entry(c.enc(pc.key, 0, Decrypt(c, previous, s.storage[sid]).value), pc.id);
    forall sid | sid in s.storage
      ensures Decrypt(c, keys, storage[sid]) == Decrypt(c, previous, s.storage[sid])
    {
      var p := Decrypt(c, previous, s.storage[sid]).value;
      assert c.dec(pc.key, c.enc(pc.key, 0, p)) == Some(p);
    }
  }

  /** Deadlock freedom: as long as some call is unfinished, some thread can move. */
  lemma SomeoneCanMove(c: Cipher, s: State, t: nat, nonce: Nonce) returns (e: Event)
    requires Inv(c, s) && t < |s.threads| && !s.threads[t].Idle?
    ensures (e.Step? || e.Finish?) && Next(c, s, e).Some?
  {
    var u := t;
    if s.kmsHolder.Some? {
      u := s.kmsHolder.value;
      OthersHoldNothing(s, u);
      assert HoldsKms(s.threads[u]);
    }
    if s.threads[u].RotateStaged? {
      var storage := StagedCanFinish(c, s, u);
      e := Finish(u, storage);
    } else {
      e := Step(u, nonce);
    }
  }
}
