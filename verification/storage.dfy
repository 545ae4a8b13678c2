/** The encrypted slot layer (`SecureStorage`) over the browser's key/value
    byte store, with encryption kept abstract: a blob remembers the key it
    was sealed under, and opening it under any other key fails. */
module Storage {
  import opened Results
  import opened Errors
  import opened Json

  /** Address of one encrypted blob: a partition tag and an item id. */
  datatype ObjectKey = ObjectKey(tag: string, id: string)

  /** `ObjectKey::new_with_form_tag`: the key with tag `"FORM"` and the
      given id. */
  function FormKey(id: string): (k: ObjectKey)
    ensures k.id == id && k.tag == "FORM"
  {
    ObjectKey("FORM", id)
  }

  /** Opaque symmetric key material (`web_sys::CryptoKey`). */
  datatype CryptoKey = CryptoKey(material: string)

  /** A ciphertext: the plaintext JSON document sealed under `key`. */
  datatype Blob = Sealed(key: CryptoKey, plaintext: Json)

  /** The persisted byte store. Reads of a slot in `unreadable` and writes
      to a slot in `unwritable` fail with a storage error; the two sets are
      independent, so a slot may read but refuse writes (a full quota) or
      the other way round. */
  datatype Store = Store(slots: map<ObjectKey, Blob>, unreadable: set<ObjectKey>, unwritable: set<ObjectKey>)

  /** One slot bound to one key. */
  datatype SecureStorage = SecureStorage(objectKey: ObjectKey, key: CryptoKey)

  /** A mutation of the byte store, in the order it was performed. */
  datatype Effect = Put(at: ObjectKey, blob: Blob) | Remove(at: ObjectKey)

  /** The outcome of an operation that may write: its result and the
      mutations it performed, oldest first. */
  datatype Run<T> = Run(result: Result<T, VaultError>, log: seq<Effect>)

  const UnavailableMessage := "storage unavailable"

  function Apply(s: Store, e: Effect): (s': Store)
    ensures s'.unreadable == s.unreadable && s'.unwritable == s.unwritable
    ensures e.Put? ==> s'.slots == s.slots[e.at := e.blob]
    ensures e.Remove? ==> s'.slots == s.slots - {e.at}
  {
    match e
    case Put(k, b) => s.(slots := s.slots[k := b])
    case Remove(k) => s.(slots := s.slots - {k})
  }

  /** The store after performing `log` on `s`. */
  function Replay(s: Store, log: seq<Effect>): (s': Store)
    ensures s'.unreadable == s.unreadable && s'.unwritable == s.unwritable
    decreases |log|
  {
    if |log| == 0 then s else Replay(Apply(s, log[0]), log[1..])
  }

  /** The slots a log touches. */
  function Touched(log: seq<Effect>): set<ObjectKey>
  {
    set i | 0 <= i < |log| :: log[i].at
  }

  /** Replaying a log changes no slot it does not touch, and never changes
      which slots fail to read or write. */
  lemma {:induction false} ReplayFrame(s: Store, log: seq<Effect>, k: ObjectKey)
    requires k !in Touched(log)
    ensures (k in Replay(s, log).slots) == (k in s.slots)
    ensures k in s.slots ==> Replay(s, log).slots[k] == s.slots[k]
    decreases |log|
  {
    if |log| > 0 {
      assert log[0].at in Touched(log);
      assert Touched(log[1..]) <= Touched(log) by {
        forall x | x in Touched(log[1..]) ensures x in Touched(log) {
          var i :| 0 <= i < |log[1..]| && log[1..][i].at == x;
          assert log[i + 1].at == x;
        }
      }
      ReplayFrame(Apply(s, log[0]), log[1..], k);
    }
  }

  /** Replaying two writes performs them in order. */
  lemma ReplayPair(s: Store, a: Effect, b: Effect)
    ensures Replay(s, [a, b]) == Apply(Apply(s, a), b)
  {
    assert [a, b][1..] == [b];
    assert Replay(s, [a, b]) == Replay(Apply(s, a), [b]);
    assert [b][1..] == [];
    assert Replay(Apply(s, a), [b]) == Replay(Apply(Apply(s, a), b), []);
  }

  /** `SecureStorage::load`: read and decrypt a slot. */
  function Load(s: Store, slot: SecureStorage): (r: Result<Json, VaultError>)
    ensures r.Success? <==>
      slot.objectKey !in s.unreadable && slot.objectKey in s.slots
      && s.slots[slot.objectKey].key == slot.key
    ensures r.Success? ==> r.value == s.slots[slot.objectKey].plaintext
    ensures r == Failure(NoLocalStorageData) <==>
      slot.objectKey !in s.unreadable && slot.objectKey !in s.slots
    ensures r == Failure(DecryptError) <==>
      slot.objectKey !in s.unreadable && slot.objectKey in s.slots
      && s.slots[slot.objectKey].key != slot.key
    ensures r == Failure(StorageError(UnavailableMessage)) <==> slot.objectKey in s.unreadable
  {
    var k := slot.objectKey;
    if k in s.unreadable then Failure(StorageError(UnavailableMessage))
    else if k !in s.slots then Failure(NoLocalStorageData)
    else if s.slots[k].key != slot.key then Failure(DecryptError)
    else Success(s.slots[k].plaintext)
  }

  /** `SecureStorage::save`: seal `plaintext` under the slot's key and
      overwrite the slot. */
  function Save(s: Store, slot: SecureStorage, plaintext: Json): (r: Run<()>)
    ensures r.result.Success? <==> slot.objectKey !in s.unwritable
    ensures r.result.Success? ==>
      Replay(s, r.log).slots == s.slots[slot.objectKey := Sealed(slot.key, plaintext)]
    ensures r.result.Failure? ==> r == Run(Failure(StorageError(UnavailableMessage)), [])
    ensures Touched(r.log) <= {slot.objectKey}
  {
    if slot.objectKey in s.unwritable then Run(Failure(StorageError(UnavailableMessage)), [])
    else Run(Success(()), [Put(slot.objectKey, Sealed(slot.key, plaintext))])
  }

  /** `SecureStorage::delete`: remove a slot; removing an absent slot succeeds. */
  function Delete(s: Store, k: ObjectKey): (r: Run<()>)
    ensures r.result.Success? <==> k !in s.unwritable
    ensures r.result.Success? ==> Replay(s, r.log).slots == s.slots - {k}
    ensures r.result.Failure? ==> r == Run(Failure(StorageError(UnavailableMessage)), [])
    ensures Touched(r.log) <= {k}
  {
    if k in s.unwritable then Run(Failure(StorageError(UnavailableMessage)), [])
    else Run(Success(()), [Remove(k)])
  }

  /** `SecureStorage::exists`: whether anything is stored, whatever its key. */
  function Exists(s: Store, k: ObjectKey): (b: bool)
    ensures k !in s.unreadable ==>
      forall key: CryptoKey :: Load(s, SecureStorage(k, key)) == Failure(NoLocalStorageData) <==> !b
  {
    k in s.slots
  }
}
