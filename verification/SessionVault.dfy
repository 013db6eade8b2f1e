/**
  The encrypted session store, its software key manager, and transactional key rotation.
 */
module SessionVault {
  import opened Maps
  import opened Options

  type Key = nat
  type KeyId = string
  type SessionId = string
  type Nonce = nat
  /** Serialized session data. */
  type Plaintext = string
  type Ciphertext = seq<nat>

  /** An authenticated cipher, known only by its law. */
  datatype Cipher = Cipher(enc: (Key, Nonce, Plaintext) -> Ciphertext, dec: (Key, Ciphertext) -> Option<Plaintext>)
  {
    ghost predicate Correct() {
      forall k: Key, n: Nonce, p: Plaintext :: dec(k, enc(k, n, p)) == Some(p)
    }
  }

  datatype Entry = Entry(ciphertext: Ciphertext, keyId: KeyId)

  datatype Keys = Keys(keys: map<KeyId, Key>, current: KeyId)

  type Storage = map<SessionId, Entry>

  function Decrypt(c: Cipher, k: Keys, e: Entry): Option<Plaintext> {
    if e.keyId in k.keys then c.dec(k.keys[e.keyId], e.ciphertext) else None
  }

  function Encrypt(c: Cipher, k: Keys, n: Nonce, p: Plaintext): Option<Entry> {
    if k.current in k.keys then Some(Entry(c.enc(k.keys[k.current], n, p), k.current)) else None
  }

  function Stage(k: Keys, key: Key, id: KeyId): Option<Keys> {
    if id in k.keys then None else Some(Keys(k.keys[id := key], id))
  }

  function Rollback(k: Keys, previous: KeyId, staged: KeyId): Keys {
    Keys(k.keys - {staged}, if previous in k.keys then previous else k.current)
  }

  /** Retires all the given keys or none of them. */
  function Finalize(k: Keys, retired: set<KeyId>): Option<Keys> {
    if k.current in retired || !(retired <= k.keys.Keys) then None
    else Some(Keys(k.keys - retired, k.current))
  }

  /** Every key id a rotation supersedes: those of the stored entries and the old current one. */
  function Superseded(k: Keys, storage: Storage): set<KeyId> {
    {k.current} + set sid | sid in storage :: storage[sid].keyId
  }

  predicate AllDecrypt(c: Cipher, k: Keys, storage: Storage) {
    forall sid <- storage :: Decrypt(c, k, storage[sid]).Some?
  }

  /** `storage'` holds the same plaintexts, all of them encrypted under `k'`'s current key. */
  ghost predicate Reencrypted(c: Cipher, k: Keys, storage: Storage, k': Keys, storage': Storage) {
    && storage'.Keys == storage.Keys
    && (forall sid <- storage ::
          && storage'[sid].keyId == k'.current
          && Decrypt(c, k', storage'[sid]) == Decrypt(c, k, storage[sid]))
  }

  /** The whole outcome of a successful rotation. */
  ghost predicate Rotated(c: Cipher, k: Keys, storage: Storage, key: Key, id: KeyId, k': Keys, storage': Storage) {
    && k' == Keys((k.keys - Superseded(k, storage))[id := key], id)
    && AllDecrypt(c, k, storage) && Reencrypted(c, k, storage, k', storage')
  }

  /** Rolling back a staged key restores the key manager exactly. */
  lemma RollbackUndoesStage(k: Keys, key: Key, id: KeyId)
    requires k.current in k.keys && Stage(k, key, id).Some?
    ensures Rollback(Stage(k, key, id).value, k.current, id) == k
  {
    assert k.keys[id := key] - {id} == k.keys;
  }

  /** With the software key manager, finalizing a rotation that decrypted everything cannot fail. */
  lemma FinalizeCannotFail(c: Cipher, k: Keys, storage: Storage, key: Key, id: KeyId)
    requires k.current in k.keys && Stage(k, key, id).Some? && AllDecrypt(c, k, storage)
    ensures Finalize(Stage(k, key, id).value, Superseded(k, storage) - {id}) ==
            Some(Keys((k.keys - Superseded(k, storage))[id := key], id))
  {
    var retired := Superseded(k, storage);
    assert id !in retired && retired - {id} == retired;
    assert k.keys[id := key] - retired == (k.keys - retired)[id := key];
  }

  /** After a rotation every session reads as before, under the new key only, and unused keys survive. */
  lemma RotationPreservesSessions(c: Cipher, k: Keys, storage: Storage, key: Key, id: KeyId, k': Keys,
                                  storage': Storage)
    requires Rotated(c, k, storage, key, id, k', storage')
    requires id !in k.keys && k.current in k.keys
    ensures k'.current == id && id in k'.keys && k.current !in k'.keys
    ensures AllDecrypt(c, k', storage')
    ensures forall sid <- storage :: storage'[sid].keyId == id && storage[sid].keyId !in k'.keys
    ensures forall other <- k.keys :: other != k.current && (forall sid <- storage :: storage[sid].keyId != other) ==>
              other in k'.keys && k'.keys[other] == k.keys[other]
  {
    forall sid | sid in storage
      ensures storage[sid].keyId in Superseded(k, storage) && storage[sid].keyId in k.keys
    {
      assert Decrypt(c, k, storage[sid]).Some?;
    }
  }

  // ---- the in-place form ----

  /** Local keys, updated in place. */
  class SoftwareKms {
    const cipher: Cipher
    var keys: map<KeyId, Key>
    var currentKeyId: KeyId

    constructor (cipher: Cipher, key: Key, keyId: KeyId)
      ensures this.cipher == cipher && View() == Keys(map[keyId := key], keyId)
    {
      this.cipher := cipher;
      keys, currentKeyId := map[keyId := key], keyId;
    }

    ghost function View(): Keys
      reads this
    {
      Keys(keys, currentKeyId)
    }

    method StageKeyRotation(key: Key, keyId: KeyId) returns (ok: bool)
      modifies this
      ensures ok == Stage(old(View()), key, keyId).Some?
      ensures View() == if ok then Stage(old(View()), key, keyId).value else old(View())
      ensures ok <==> keyId !in old(keys)
      ensures ok ==> keys == old(keys)[keyId := key] && currentKeyId == keyId
    {
      if keyId in keys {
        return false;
      }
      keys := keys[keyId := key];
      currentKeyId := keyId;
      return true;
    }

    method RollbackKeyRotation(previous: KeyId, staged: KeyId)
      modifies this
      ensures View() == Rollback(old(View()), previous, staged)
      ensures forall id :: id in keys <==> id in old(keys) && id != staged
      ensures forall id <- keys :: keys[id] == old(keys)[id]
      ensures currentKeyId == if previous in old(keys) then previous else old(currentKeyId)
    {
      if previous in keys {
        currentKeyId := previous;
      }
      keys := keys - {staged};
    }

    /** Checks every id before removing the first. */
    method FinalizeKeyRotation(retired: seq<KeyId>) returns (ok: bool)
      modifies this
      ensures var wanted := set id | id in retired;
              && ok == Finalize(old(View()), wanted).Some?
              && View() == if ok then Finalize(old(View()), wanted).value else old(View())
      ensures ok <==> forall id <- retired :: id in old(keys) && id != old(currentKeyId)
      ensures ok ==> forall id :: id in keys <==> id in old(keys) && id !in retired
      ensures (forall id <- keys :: keys[id] == old(keys)[id]) && currentKeyId == old(currentKeyId)
    {
      for i := 0 to |retired|
        invariant forall j :: 0 <= j < i ==> retired[j] != currentKeyId && retired[j] in keys
      {
        if currentKeyId == retired[i] {
          return false;
        }
        if retired[i] !in keys {
          return false;
        }
      }
      for i := 0 to |retired|
        invariant currentKeyId == old(currentKeyId)
        invariant keys == old(keys) - set j | 0 <= j < i :: retired[j]
      {
        keys := keys - {retired[i]};
      }
      assert (set j | 0 <= j < |retired| :: retired[j]) == set id | id in retired;
      return true;
    }
  }

  /** Rolls a staged key back when dropped before its commit. */
  class KeyRotationGuard {
    const kms: SoftwareKms
    const previousKeyId: KeyId
    const stagedKeyId: KeyId
    var committed: bool

    constructor (kms: SoftwareKms, previousKeyId: KeyId, stagedKeyId: KeyId)
      ensures this.kms == kms && this.previousKeyId == previousKeyId && this.stagedKeyId == stagedKeyId
      ensures !committed
    {
      this.kms, this.previousKeyId, this.stagedKeyId, committed := kms, previousKeyId, stagedKeyId, false;
    }

    /** `refused`: an adapter whose finalize fails leaves every key in place. */
    method Commit(retired: seq<KeyId>, refused: bool) returns (ok: bool)
      modifies this, kms
      ensures var wanted := set id | id in retired;
              && ok == (!refused && Finalize(old(kms.View()), wanted).Some?)
              && kms.View() == if ok then Finalize(old(kms.View()), wanted).value else old(kms.View())
      ensures committed == (old(committed) || ok)
    {
      if refused {
        return false;
      }
      ok := kms.FinalizeKeyRotation(retired);
      if ok {
        committed := true;
      }
    }

    method Drop()
      modifies kms
      ensures kms.View() == if committed then old(kms.View()) else Rollback(old(kms.View()), previousKeyId, stagedKeyId)
    {
      if !committed {
        kms.RollbackKeyRotation(previousKeyId, stagedKeyId);
      }
    }
  }

  /**
    Where a rotation is cut short, by an error or by dropping the future at an await point.  The
    decrypt and encrypt calls are numbered in the order the store is walked.
   */
  datatype Interruption = Never | AtDecrypt(step: nat) | NoAtomicRotation | AtEncrypt(step: nat) | AtFinalize

  /** Whether the interruption meets a rotation of `n` entries. */
  predicate CutsShort(cut: Interruption, n: nat) {
    cut.NoAtomicRotation? || cut.AtFinalize? || ((cut.AtDecrypt? || cut.AtEncrypt?) && cut.step < n)
  }

  class LocalSessionVault {
    const kms: SoftwareKms
    var storage: Storage
    var nextNonce: Nonce

    constructor (kms: SoftwareKms)
      ensures this.kms == kms && storage == map[]
    {
      this.kms, storage, nextNonce := kms, map[], 0;
    }

    /** The operating invariant: the current key exists and every entry can be read. */
    ghost predicate Readable()
      reads this, kms
    {
      && kms.cipher.Correct()
      && kms.currentKeyId in kms.keys
      && AllDecrypt(kms.cipher, kms.View(), storage)
    }

    ghost function Sessions(): map<SessionId, Plaintext>
      reads this, kms
      requires Readable()
    {
      map sid | sid in storage :: Decrypt(kms.cipher, kms.View(), storage[sid]).value
    }

    method StoreSession(sid: SessionId, data: Plaintext, interrupted: bool) returns (ok: bool)
      requires Readable()
      modifies this
      ensures Readable() && ok == !interrupted
      ensures Sessions() == if ok then old(Sessions())[sid := data] else old(Sessions())
      ensures storage.Keys == if ok then old(storage).Keys + {sid} else old(storage).Keys
      ensures ok ==> storage[sid].keyId == kms.currentKeyId
      ensures forall other <- old(storage) :: (other == sid && ok) || storage[other] == old(storage)[other]
    {
      if interrupted {
        return false;
      }
      var entry := Encrypt(kms.cipher, Keys(kms.keys, kms.currentKeyId), nextNonce, data);
      nextNonce := nextNonce + 1;
      storage := storage[sid := entry.value];
      return true;
    }

    method LoadSession(sid: SessionId) returns (data: Option<Plaintext>)
      requires Readable()
      ensures data == if sid in Sessions() then Some(Sessions()[sid]) else None
    {
      if sid !in storage {
        return None;
      }
      data := Decrypt(kms.cipher, Keys(kms.keys, kms.currentKeyId), storage[sid]);
    }

    /**
      All or nothing: cut short anywhere, the store, the key map and the current key are exactly
      as before; otherwise every session is re-encrypted and the superseded keys are gone.
     */
    method RotateKeySecret(newKey: Key, newKeyId: KeyId, cut: Interruption) returns (ok: bool)
      requires kms.cipher.Correct() && kms.currentKeyId in kms.keys
      modifies this, kms
      ensures !ok ==> storage == old(storage) && kms.View() == old(kms.View())
      ensures ok ==> Rotated(kms.cipher, old(kms.View()), old(storage), newKey, newKeyId, kms.View(), storage)
      ensures ok <==> !CutsShort(cut, |old(storage)|) && newKeyId !in old(kms.keys) &&
                      AllDecrypt(kms.cipher, old(kms.View()), old(storage))
    {
      ghost var k0 := kms.View();
      var oldCurrentKeyId := kms.currentKeyId;
      var decrypted, used := DecryptAll(kms.cipher, Keys(kms.keys, kms.currentKeyId), storage, cut);
      if decrypted.None? {
        return false;
      }
      if cut.NoAtomicRotation? {
        return false;
      }
      var staged := kms.StageKeyRotation(newKey, newKeyId);
      if !staged {
        return false;
      }
      var rotation := new KeyRotationGuard(kms, oldCurrentKeyId, newKeyId);
      ok := ReplaceStore(rotation, decrypted.value, used, cut, k0, newKey);
    }

    /** The staged half of a rotation: re-encrypt, retire, swap, with the guard dropped at the end. */
    method ReplaceStore(rotation: KeyRotationGuard, decrypted: map<SessionId, Plaintext>, used: set<KeyId>,
                        cut: Interruption, ghost k0: Keys, ghost newKey: Key) returns (ok: bool)
      requires rotation.kms == kms && !rotation.committed && rotation.previousKeyId == k0.current
      requires kms.cipher.Correct() && k0.current in k0.keys
      requires Stage(k0, newKey, rotation.stagedKeyId) == Some(kms.View())
      requires decrypted.Keys == storage.Keys && DecryptedSoFar(kms.cipher, k0, storage, decrypted, used)
      modifies this, kms, rotation
      ensures !ok ==> storage == old(storage) && kms.View() == k0
      ensures ok ==> Rotated(kms.cipher, k0, old(storage), newKey, rotation.stagedKeyId, kms.View(), storage)
      ensures ok == (!cut.AtFinalize? && !(cut.AtEncrypt? && cut.step < |old(storage)|))
    {
      ghost var staged := kms.View();
      RollbackUndoesStage(k0, newKey, rotation.stagedKeyId);
      WholeStore(decrypted, storage);
      var reencrypted := ReencryptAll(rotation, decrypted, cut);
      if reencrypted.None? {
        return false;
      }
      RotationComesOut(kms.cipher, k0, storage, newKey, rotation.stagedKeyId, decrypted, used, reencrypted.value);
      ok := CommitStore(rotation, used, reencrypted.value, cut);
    }

    /** The new store under the staged key; cut short, the key is rolled back. */
    method ReencryptAll(rotation: KeyRotationGuard, decrypted: map<SessionId, Plaintext>, cut: Interruption)
      returns (out: Option<Storage>)
      requires rotation.kms == kms && !rotation.committed
      requires kms.cipher.Correct() && kms.currentKeyId in kms.keys
      modifies this`nextNonce, kms
      ensures out.None? <==> cut.AtEncrypt? && cut.step < |decrypted|
      ensures out.None? ==> kms.View() == Rollback(old(kms.View()), rotation.previousKeyId, rotation.stagedKeyId)
      ensures out.Some? ==> kms.View() == old(kms.View()) && out.value.Keys == decrypted.Keys &&
                            EncryptedSoFar(kms.cipher, kms.View(), decrypted, out.value)
    {
      out, nextNonce := EncryptAll(kms.cipher, Keys(kms.keys, kms.currentKeyId), decrypted, nextNonce, cut);
      if out.None? {
        rotation.Drop();
      }
    }

    /** Retires the superseded keys and swaps the store; refused, the staged key is rolled back. */
    method CommitStore(rotation: KeyRotationGuard, used: set<KeyId>, out: Storage, cut: Interruption) returns (ok: bool)
      requires rotation.kms == kms && !rotation.committed
      modifies this`storage, kms, rotation
      ensures var end := Finalize(old(kms.View()), used + {rotation.previousKeyId} - {rotation.stagedKeyId});
              && ok == (!cut.AtFinalize? && end.Some?)
              && kms.View() == (if ok then end.value
                                else Rollback(old(kms.View()), rotation.previousKeyId, rotation.stagedKeyId))
      ensures storage == if ok then out else old(storage)
    {
      var retired := ListWithout(used + {rotation.previousKeyId}, rotation.stagedKeyId);
      ok := rotation.Commit(retired, cut.AtFinalize?);
      if ok {
        storage := out;
      }
      rotation.Drop();
    }
  }

  /** `items` are the plaintexts of the entries walked so far, `used` their key ids. */
  ghost predicate DecryptedSoFar(c: Cipher, k: Keys, storage: Storage, items: map<SessionId, Plaintext>,
                                 used: set<KeyId>) {
    && items.Keys <= storage.Keys
    && (forall sid <- items :: Decrypt(c, k, storage[sid]) == Some(items[sid]))
    && used == set sid | sid in items :: storage[sid].keyId
  }

  lemma DecryptedOneMore(c: Cipher, k: Keys, storage: Storage, items: map<SessionId, Plaintext>, used: set<KeyId>,
                         sid: SessionId, p: Plaintext)
    requires DecryptedSoFar(c, k, storage, items, used)
    requires sid in storage && sid !in items && Decrypt(c, k, storage[sid]) == Some(p)
    ensures DecryptedSoFar(c, k, storage, items[sid := p], used + {storage[sid].keyId})
    ensures storage.Keys - items[sid := p].Keys == storage.Keys - items.Keys - {sid}
    ensures |items[sid := p]| == |items| + 1
  {
    OneMore(items, sid, p);
    var items' := items[sid := p];
    assert items'.Keys == items.Keys + {sid};
    assert (set x | x in items' :: storage[x].keyId) == (set x | x in items :: storage[x].keyId) + {storage[sid].keyId};
  }

  lemma WholeStore<V, W>(m: map<SessionId, V>, n: map<SessionId, W>)
    requires m.Keys <= n.Keys && n.Keys - m.Keys == {}
    ensures m.Keys == n.Keys && |m| == |n|
  {
    forall sid | sid in n.Keys
      ensures sid in m.Keys
    {
      assert sid !in n.Keys - m.Keys;
    }
    assert m.Keys == n.Keys;
    assert |m| == |m.Keys| && |n| == |n.Keys|;
  }

  lemma StillMissing<V, W>(m: map<SessionId, V>, n: map<SessionId, W>, sid: SessionId)
    requires m.Keys <= n.Keys && sid in n && sid !in m
    ensures |m| < |n|
  {
    assert |n.Keys - m.Keys| == |n.Keys| - |m.Keys|;
    assert sid in n.Keys - m.Keys;
    assert |m| == |m.Keys| && |n| == |n.Keys|;
  }

  /** Whether decrypting the store comes out. */
  ghost predicate Decrypts(c: Cipher, k: Keys, storage: Storage, cut: Interruption) {
    !(cut.AtDecrypt? && cut.step < |storage|) && AllDecrypt(c, k, storage)
  }

  lemma CutHere(c: Cipher, k: Keys, storage: Storage, items: map<SessionId, Plaintext>, sid: SessionId,
                cut: Interruption)
    requires items.Keys <= storage.Keys && sid in storage && sid !in items
    requires Decrypt(c, k, storage[sid]).None? || cut == AtDecrypt(|items|)
    ensures !Decrypts(c, k, storage, cut)
  {
    StillMissing(items, storage, sid);
  }

  lemma AllDecrypted(c: Cipher, k: Keys, storage: Storage, items: map<SessionId, Plaintext>, used: set<KeyId>,
                     cut: Interruption)
    requires DecryptedSoFar(c, k, storage, items, used) && storage.Keys - items.Keys == {}
    requires cut.AtDecrypt? ==> |items| <= cut.step
    ensures items.Keys == storage.Keys && Decrypts(c, k, storage, cut)
  {
    WholeStore(items, storage);
  }

  /** Decrypts every entry without touching the store, collecting the key ids in use. */
  method DecryptAll(c: Cipher, k: Keys, storage: Storage, cut: Interruption)
    returns (r: Option<map<SessionId, Plaintext>>, used: set<KeyId>)
    ensures r.Some? ==> r.value.Keys == storage.Keys && DecryptedSoFar(c, k, storage, r.value, used)
    ensures r.Some? <==> Decrypts(c, k, storage, cut)
  {
    var items: map<SessionId, Plaintext> := map[];
    used := {};
    var todo := storage.Keys;
    while todo != {}
      invariant todo == storage.Keys - items.Keys
      invariant DecryptedSoFar(c, k, storage, items, used)
      invariant cut.AtDecrypt? ==> |items| <= cut.step
      decreases todo
    {
      var sid :| sid in todo;
      var plaintext := Decrypt(c, k, storage[sid]);
      if plaintext.None? || cut == AtDecrypt(|items|) {
        CutHere(c, k, storage, items, sid, cut);
        return None, used;
      }
      DecryptedOneMore(c, k, storage, items, used, sid, plaintext.value);
      items := items[sid := plaintext.value];
      used := used + {storage[sid].keyId};
      todo := todo - {sid};
    }
    AllDecrypted(c, k, storage, items, used, cut);
    return Some(items), used;
  }

  ghost predicate EncryptedSoFar(c: Cipher, k: Keys, items: map<SessionId, Plaintext>, out: Storage) {
    && out.Keys <= items.Keys
    && (forall sid <- out :: out[sid].keyId == k.current && Decrypt(c, k, out[sid]) == Some(items[sid]))
  }

  lemma EncryptedOneMore(c: Cipher, k: Keys, items: map<SessionId, Plaintext>, out: Storage, sid: SessionId, n: Nonce)
    requires c.Correct() && k.current in k.keys && EncryptedSoFar(c, k, items, out)
    requires sid in items && sid !in out
    ensures var entry := Encrypt(c, k, n, items[sid]);
            && entry.Some? && EncryptedSoFar(c, k, items, out[sid := entry.value])
            && items.Keys - out[sid := entry.value].Keys == items.Keys - out.Keys - {sid}
            && |out[sid := entry.value]| == |out| + 1
  {
    var entry := Encrypt(c, k, n, items[sid]).value;
    OneMore(out, sid, entry);
    assert Decrypt(c, k, entry) == c.dec(k.keys[k.current], c.enc(k.keys[k.current], n, items[sid]));
  }

  /** Encrypts every plaintext under the current key into a new store. */
  method EncryptAll(c: Cipher, k: Keys, items: map<SessionId, Plaintext>, firstNonce: Nonce, cut: Interruption)
    returns (r: Option<Storage>, nextNonce: Nonce)
    requires c.Correct() && k.current in k.keys
    ensures r.Some? ==> r.value.Keys == items.Keys && EncryptedSoFar(c, k, items, r.value)
    ensures r.None? <==> cut.AtEncrypt? && cut.step < |items|
  {
    var out: Storage := map[];
    var todo := items.Keys;
    nextNonce := firstNonce;
    while todo != {}
      invariant todo == items.Keys - out.Keys
      invariant EncryptedSoFar(c, k, items, out)
      invariant cut.AtEncrypt? ==> |out| <= cut.step
      decreases todo
    {
      var sid :| sid in todo;
      if cut == AtEncrypt(|out|) {
        StillMissing(out, items, sid);
        return None, nextNonce;
      }
      var entry := Encrypt(c, k, nextNonce, items[sid]);
      EncryptedOneMore(c, k, items, out, sid, nextNonce);
      nextNonce := nextNonce + 1;
      out := out[sid := entry.value];
      todo := todo - {sid};
    }
    WholeStore(out, items);
    return Some(out), nextNonce;
  }

  /** Everything decrypted and re-encrypted: finalizing succeeds and the rotation is complete. */
  lemma RotationComesOut(c: Cipher, k: Keys, storage: Storage, key: Key, id: KeyId,
                         items: map<SessionId, Plaintext>, used: set<KeyId>, out: Storage)
    requires k.current in k.keys && Stage(k, key, id).Some?
    requires items.Keys == storage.Keys && DecryptedSoFar(c, k, storage, items, used)
    requires out.Keys == items.Keys && EncryptedSoFar(c, Stage(k, key, id).value, items, out)
    ensures var end := Finalize(Stage(k, key, id).value, used + {k.current} - {id});
            end.Some? && Rotated(c, k, storage, key, id, end.value, out)
  {
    assert used + {k.current} == Superseded(k, storage);
    FinalizeCannotFail(c, k, storage, key, id);
    var end := Finalize(Stage(k, key, id).value, used + {k.current} - {id}).value;
    forall sid | sid in storage
      ensures out[sid].keyId == id && Decrypt(c, end, out[sid]) == Decrypt(c, k, storage[sid])
    {
      assert Decrypt(c, Stage(k, key, id).value, out[sid]) == Some(items[sid]);
    }
  }

  /** The ids as a list, one of them filtered out. */
  method ListWithout(ids: set<KeyId>, excluded: KeyId) returns (list: seq<KeyId>)
    ensures (set id | id in list) == ids - {excluded}
  {
    list := [];
    var todo := ids;
    while todo != {}
      invariant todo <= ids
      invariant (set id | id in list) == ids - todo - {excluded}
      decreases todo
    {
      var id :| id in todo;
      if id != excluded {
        ghost var before := list;
        list := list + [id];
        assert (set x | x in list) == (set x | x in before) + {id};
      }
      todo := todo - {id};
    }
  }
}
