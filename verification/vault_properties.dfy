/** Properties of the vault relating several operations, or an operation to
    the store it reads and writes. */
module VaultProperties {
  import opened Results
  import opened Errors
  import opened Json
  import opened Storage
  import opened Vault

  /** The directory entry `save_secure_configuration` writes. */
  function SavedEntry(config: Config, password: string): Config
  {
    map[NameField := FormName(config), PasswdField := password]
  }

  /** `new`, `user_exists` and `reset_vault` all address the slot
      `(hash_username(username), "self")`. */
  lemma DirectorySlotShared(s: Store, c: Crypto, username: string, password: string)
    requires New(c, username, password).Success?
    ensures New(c, username, password).value.storage.objectKey == ObjectKey(c.hashUsername(username), "self")
    ensures UserExists(s, c, username) <==> New(c, username, password).value.storage.objectKey in s.slots
    ensures Touched(ResetVault(s, c, username).log) <= {New(c, username, password).value.storage.objectKey}
  {
  }

  /** How `new_and_validate` classifies the state of the directory slot. */
  lemma NewAndValidateOutcome(s: Store, c: Crypto, username: string, password: string)
    ensures var derived := c.deriveKeyFromPassword(c.hashUsername(username), password);
      var k := DirectoryKey(c, username);
      var r := NewAndValidate(s, c, username, password);
      && (derived.Failure? ==> r == Failure(derived.error))
      && (derived.Success? ==>
            && (k in s.unreadable ==> r == Failure(StorageError(UnavailableMessage)))
            && (k !in s.unreadable && k !in s.slots ==> r == New(c, username, password))
            && (k !in s.unreadable && k in s.slots && s.slots[k].key == derived.value ==>
                  r == New(c, username, password))
            && (k !in s.unreadable && k in s.slots && s.slots[k].key != derived.value ==>
                  r == Failure(DecryptError)))
  {
  }

  /** `validate_password`: true for a matching or absent directory, false for
      a directory sealed under another key, an error otherwise. */
  lemma ValidatePasswordOutcome(s: Store, c: Crypto, username: string, password: string)
    requires c.deriveKeyFromPassword(c.hashUsername(username), password).Success?
    ensures var key := c.deriveKeyFromPassword(c.hashUsername(username), password).value;
      var k := DirectoryKey(c, username);
      var r := ValidatePassword(s, c, username, password);
      && (k in s.unreadable <==> r == Failure(StorageError(UnavailableMessage)))
      && (r == Success(true) <==> k !in s.unreadable && (k in s.slots ==> s.slots[k].key == key))
      && (r == Success(false) <==> k !in s.unreadable && k in s.slots && s.slots[k].key != key)
  {
  }

  /** Two passwords whose derived keys differ cannot both validate against
      the same existing directory. */
  lemma WrongPasswordRejected(s: Store, c: Crypto, username: string, password: string, other: string)
    requires NewAndValidate(s, c, username, password).Success?
    requires DirectoryKey(c, username) in s.slots
    requires c.deriveKeyFromPassword(c.hashUsername(username), other).Success?
    requires c.deriveKeyFromPassword(c.hashUsername(username), other)
          != c.deriveKeyFromPassword(c.hashUsername(username), password)
    ensures NewAndValidate(s, c, username, other) == Failure(DecryptError)
    ensures ValidatePassword(s, c, username, other) == Success(false)
  {
    var k := DirectoryKey(c, username);
    assert Load(s, New(c, username, password).value.storage).Success?;
  }

  /** The effect of `save_secure_configuration` when the item is not stored
      in the directory's own slot: it succeeds exactly when every step can,
      and then writes the item slot first and the directory slot second,
      upserting exactly one entry. */
  lemma SaveEffect(s: Store, c: Crypto, v: StringVault, objectKey: ObjectKey,
                   config: Config, generated: Result<string, VaultError>)
    requires objectKey != v.storage.objectKey
    ensures var r := SaveSecureConfiguration(s, c, v, objectKey, config, generated);
      r.result.Success? <==>
        && generated.Success?
        && c.deriveCryptoKey(generated.value, objectKey.id).Success?
        && objectKey !in s.unwritable
        && ReadDirectoryOrEmpty(s, v).Success?
        && v.storage.objectKey !in s.unwritable
    ensures var r := SaveSecureConfiguration(s, c, v, objectKey, config, generated);
      r.result.Success? ==>
        var key := c.deriveCryptoKey(generated.value, objectKey.id).value;
        var db := ReadDirectoryOrEmpty(s, v).value[objectKey.id := SavedEntry(config, generated.value)];
        r.log == [Put(objectKey, Sealed(key, EncodeConfig(config))),
                  Put(v.storage.objectKey, Sealed(v.storage.key, EncodeDirectory(db)))]
  {
    var r := SaveSecureConfiguration(s, c, v, objectKey, config, generated);
    if generated.Success? && c.deriveCryptoKey(generated.value, objectKey.id).Success? && objectKey !in s.unwritable {
      var key := c.deriveCryptoKey(generated.value, objectKey.id).value;
      var item := Save(s, SecureStorage(objectKey, key), EncodeConfig(config));
      var s1 := Replay(s, item.log);
      assert s1.slots == s.slots[objectKey := Sealed(key, EncodeConfig(config))];
      assert Load(s1, v.storage) == Load(s, v.storage);
      assert ReadDirectoryOrEmpty(s1, v) == ReadDirectoryOrEmpty(s, v);
    }
  }

  /** After a successful save, the store holds the sealed payload and a
      directory that differs from the one read only at the saved id; the
      directory reads back as such when its slot is readable. */
  lemma SaveState(s: Store, c: Crypto, v: StringVault, objectKey: ObjectKey,
                  config: Config, generated: Result<string, VaultError>)
    requires objectKey != v.storage.objectKey
    requires SaveSecureConfiguration(s, c, v, objectKey, config, generated).result.Success?
    ensures generated.Success? && c.deriveCryptoKey(generated.value, objectKey.id).Success?
    ensures ReadDirectoryOrEmpty(s, v).Success?
    ensures var s' := Replay(s, SaveSecureConfiguration(s, c, v, objectKey, config, generated).log);
      var key := c.deriveCryptoKey(generated.value, objectKey.id).value;
      var db := ReadDirectoryOrEmpty(s, v).value[objectKey.id := SavedEntry(config, generated.value)];
      ItemAndDirectoryWritten(s, s', v, objectKey, Sealed(key, EncodeConfig(config)), db)
  {
    SaveEffect(s, c, v, objectKey, config, generated);
    var key := c.deriveCryptoKey(generated.value, objectKey.id).value;
    var db := ReadDirectoryOrEmpty(s, v).value[objectKey.id := SavedEntry(config, generated.value)];
    ItemThenDirectory(s, v, objectKey, Sealed(key, EncodeConfig(config)), db);
  }

  /** `s'` is `s` with `item` stored at `objectKey` and the directory `db`
      stored, sealed under the vault's key, at the directory slot; the
      directory reads back as `db` when its slot is readable, and every
      other slot is as it was. */
  ghost predicate ItemAndDirectoryWritten(s: Store, s': Store, v: StringVault, objectKey: ObjectKey, item: Blob, db: Directory)
  {
    && s'.unreadable == s.unreadable && s'.unwritable == s.unwritable
    && objectKey in s'.slots && s'.slots[objectKey] == item
    && v.storage.objectKey in s'.slots && s'.slots[v.storage.objectKey] == Sealed(v.storage.key, EncodeDirectory(db))
    && (v.storage.objectKey !in s.unreadable ==> ReadDirectory(s', v) == Success(db))
    && (forall k | k in s.slots && k != objectKey && k != v.storage.objectKey ::
          k in s'.slots && s'.slots[k] == s.slots[k])
    && (forall k | k !in s.slots && k != objectKey && k != v.storage.objectKey :: k !in s'.slots)
  }

  /** The store after writing an item slot and then the directory slot. */
  lemma ItemThenDirectory(s: Store, v: StringVault, objectKey: ObjectKey, item: Blob, db: Directory)
    requires objectKey != v.storage.objectKey
    ensures ItemAndDirectoryWritten(s, Replay(s, [Put(objectKey, item), Put(v.storage.objectKey, Sealed(v.storage.key, EncodeDirectory(db)))]),
                                    v, objectKey, item, db)
  {
    var a := Put(objectKey, item);
    var b := Put(v.storage.objectKey, Sealed(v.storage.key, EncodeDirectory(db)));
    ReplayPair(s, a, b);
    var s' := Replay(s, [a, b]);
    TwoWritesFrame(s.slots, s'.slots, objectKey, item, v.storage.objectKey, b.blob);
    if v.storage.objectKey !in s.unreadable {
      DirectoryRoundTrip(db);
      assert Load(s', v.storage) == Success(EncodeDirectory(db));
    }
  }

  /** Two writes to a map leave every other key as it was. */
  lemma TwoWritesFrame(m: map<ObjectKey, Blob>, m': map<ObjectKey, Blob>,
                       a: ObjectKey, x: Blob, b: ObjectKey, y: Blob)
    requires m' == m[a := x][b := y]
    ensures forall k | k in m && k != a && k != b :: k in m' && m'[k] == m[k]
    ensures forall k | k !in m && k != a && k != b :: k !in m'
  {
  }

  /** Saving a configuration and loading it back with the same object key
      and the same vault returns the configuration, provided both slots the
      load reads are readable. */
  lemma SaveThenLoad(s: Store, c: Crypto, v: StringVault, objectKey: ObjectKey,
                     config: Config, generated: Result<string, VaultError>)
    requires objectKey != v.storage.objectKey
    requires objectKey !in s.unreadable && v.storage.objectKey !in s.unreadable
    requires SaveSecureConfiguration(s, c, v, objectKey, config, generated).result.Success?
    ensures var s' := Replay(s, SaveSecureConfiguration(s, c, v, objectKey, config, generated).log);
      LoadSecureConfiguration(s', c, v, objectKey) == Success(config)
  {
    SaveState(s, c, v, objectKey, config, generated);
    var s' := Replay(s, SaveSecureConfiguration(s, c, v, objectKey, config, generated).log);
    var key := c.deriveCryptoKey(generated.value, objectKey.id).value;
    var db := ReadDirectoryOrEmpty(s, v).value[objectKey.id := SavedEntry(config, generated.value)];
    LoadWrittenItem(s, s', c, v, objectKey, config, generated.value, db);
  }

  /** Once an item sealed under the key its directory entry's passphrase
      derives is stored next to that directory, it loads back. */
  lemma LoadWrittenItem(s: Store, s': Store, c: Crypto, v: StringVault, objectKey: ObjectKey,
                        config: Config, password: string, db: Directory)
    requires objectKey != v.storage.objectKey
    requires objectKey !in s.unreadable && v.storage.objectKey !in s.unreadable
    requires c.deriveCryptoKey(password, objectKey.id).Success?
    requires objectKey.id in db && db[objectKey.id] == SavedEntry(config, password)
    requires ItemAndDirectoryWritten(s, s', v, objectKey,
                                     Sealed(c.deriveCryptoKey(password, objectKey.id).value, EncodeConfig(config)), db)
    ensures LoadSecureConfiguration(s', c, v, objectKey) == Success(config)
  {
    ConfigRoundTrip(config);
    assert ReadDirectory(s', v) == Success(db);
    assert db[objectKey.id][PasswdField] == password;
  }

  /** Any load error on the directory, a wrong key or a failed read
      included, makes the save start from an empty directory: the stored
      directory blob is replaced by one holding only the saved entry. */
  lemma SaveOverUnreadableDirectory(s: Store, c: Crypto, v: StringVault, objectKey: ObjectKey,
                                    config: Config, generated: Result<string, VaultError>)
    requires objectKey != v.storage.objectKey
    requires Load(s, v.storage).Failure?
    requires SaveSecureConfiguration(s, c, v, objectKey, config, generated).result.Success?
    ensures var s' := Replay(s, SaveSecureConfiguration(s, c, v, objectKey, config, generated).log);
      var db := map[objectKey.id := SavedEntry(config, generated.value)];
      && s'.slots[v.storage.objectKey] == Sealed(v.storage.key, EncodeDirectory(db))
      && (v.storage.objectKey !in s.unreadable ==> ReadDirectory(s', v) == Success(db))
  {
    SaveState(s, c, v, objectKey, config, generated);
  }

  /** Saving an item, under a key other than the directory's, into the
      directory's own slot loses the payload: the directory is written over
      it, and loading the item fails to decrypt. */
  lemma SaveIntoDirectorySlot(s: Store, c: Crypto, v: StringVault,
                              config: Config, generated: Result<string, VaultError>)
    requires generated.Success?
    requires c.deriveCryptoKey(generated.value, v.storage.objectKey.id).Success?
    requires c.deriveCryptoKey(generated.value, v.storage.objectKey.id).value != v.storage.key
    requires SaveSecureConfiguration(s, c, v, v.storage.objectKey, config, generated).result.Success?
    ensures var s' := Replay(s, SaveSecureConfiguration(s, c, v, v.storage.objectKey, config, generated).log);
      var db := map[v.storage.objectKey.id := SavedEntry(config, generated.value)];
      && s'.slots[v.storage.objectKey] == Sealed(v.storage.key, EncodeDirectory(db))
      && (v.storage.objectKey !in s.unreadable ==>
            LoadSecureConfiguration(s', c, v, v.storage.objectKey) == Failure(DecryptError))
  {
    var ok := v.storage.objectKey;
    var key := c.deriveCryptoKey(generated.value, ok.id).value;
    var db := map[ok.id := SavedEntry(config, generated.value)];
    DirectorySlotSaveLog(s, c, v, config, generated);
    DirectoryOverItem(s, c, v, Sealed(key, EncodeConfig(config)), db);
  }

  /** The writes of a save into the directory's own slot under another key:
      the payload, then a directory holding only the new entry, since the
      slot no longer opens under the directory's key. */
  lemma DirectorySlotSaveLog(s: Store, c: Crypto, v: StringVault,
                             config: Config, generated: Result<string, VaultError>)
    requires generated.Success?
    requires c.deriveCryptoKey(generated.value, v.storage.objectKey.id).Success?
    requires c.deriveCryptoKey(generated.value, v.storage.objectKey.id).value != v.storage.key
    requires SaveSecureConfiguration(s, c, v, v.storage.objectKey, config, generated).result.Success?
    ensures var key := c.deriveCryptoKey(generated.value, v.storage.objectKey.id).value;
      var db := map[v.storage.objectKey.id := SavedEntry(config, generated.value)];
      SaveSecureConfiguration(s, c, v, v.storage.objectKey, config, generated).log ==
        [Put(v.storage.objectKey, Sealed(key, EncodeConfig(config))),
         Put(v.storage.objectKey, Sealed(v.storage.key, EncodeDirectory(db)))]
  {
    var ok := v.storage.objectKey;
    var key := c.deriveCryptoKey(generated.value, ok.id).value;
    var item := Save(s, SecureStorage(ok, key), EncodeConfig(config));
    var s1 := Replay(s, item.log);
    assert Load(s1, v.storage).Failure?;
    assert ReadDirectoryOrEmpty(s1, v) == Success(map[]);
  }

  /** A directory written over an item in the same slot: the slot holds the
      directory, and when it is readable, loading the item whose entry the
      directory carries fails to decrypt as long as the entry's password
      derives a key other than the directory's. */
  lemma DirectoryOverItem(s: Store, c: Crypto, v: StringVault, item: Blob, db: Directory)
    requires v.storage.objectKey.id in db && PasswdField in db[v.storage.objectKey.id]
    requires c.deriveCryptoKey(db[v.storage.objectKey.id][PasswdField], v.storage.objectKey.id).Success?
    requires c.deriveCryptoKey(db[v.storage.objectKey.id][PasswdField], v.storage.objectKey.id).value != v.storage.key
    ensures var s' := Replay(s, [Put(v.storage.objectKey, item),
                                 Put(v.storage.objectKey, Sealed(v.storage.key, EncodeDirectory(db)))]);
      && v.storage.objectKey in s'.slots
      && s'.slots[v.storage.objectKey] == Sealed(v.storage.key, EncodeDirectory(db))
      && (v.storage.objectKey !in s.unreadable ==>
            LoadSecureConfiguration(s', c, v, v.storage.objectKey) == Failure(DecryptError))
  {
    var ok := v.storage.objectKey;
    var y := Sealed(v.storage.key, EncodeDirectory(db));
    ReplayPair(s, Put(ok, item), Put(ok, y));
    var s' := Replay(s, [Put(ok, item), Put(ok, y)]);
    assert s'.slots == s.slots[ok := item][ok := y];
    if ok !in s.unreadable {
      DirectoryRoundTrip(db);
      assert ReadDirectory(s', v) == Success(db);
    }
  }

  /** Saving a non-empty configuration into the directory's own slot under
      the directory's key destroys the directory: the payload overwrites it,
      does not parse as a directory, and the save stops with `SerdeError`
      after that first write. */
  lemma SaveIntoDirectorySlotSameKey(s: Store, c: Crypto, v: StringVault,
                                     config: Config, generated: Result<string, VaultError>)
    requires generated.Success?
    requires c.deriveCryptoKey(generated.value, v.storage.objectKey.id) == Success(v.storage.key)
    requires config != map[]
    requires v.storage.objectKey !in s.unreadable && v.storage.objectKey !in s.unwritable
    ensures var r := SaveSecureConfiguration(s, c, v, v.storage.objectKey, config, generated);
      && r == Run(Failure(SerdeError), [Put(v.storage.objectKey, Sealed(v.storage.key, EncodeConfig(config)))])
      && ListConfigurations(Replay(s, r.log), v) == Failure(SerdeError)
  {
    var ok := v.storage.objectKey;
    var item := Save(s, SecureStorage(ok, v.storage.key), EncodeConfig(config));
    var s1 := Replay(s, item.log);
    assert Load(s1, v.storage) == Success(EncodeConfig(config));
    ConfigAsDirectory(config);
    assert ReadDirectoryOrEmpty(s1, v) == Failure(SerdeError);
  }

  /** When the directory parses to `d`, `load_secure_configuration` fails with
      `PasswordNotFound` for a missing id or an entry without a passphrase,
      and otherwise opens the item slot under the key derived from it. */
  lemma LoadSecureConfigurationOutcome(s: Store, c: Crypto, v: StringVault, objectKey: ObjectKey)
    requires ReadDirectory(s, v).Success?
    ensures var d := ReadDirectory(s, v).value;
      var id := objectKey.id;
      var r := LoadSecureConfiguration(s, c, v, objectKey);
      && (id !in d || PasswdField !in d[id] ==> r == Failure(PasswordNotFound(NotFoundMessage(id))))
      && (id in d && PasswdField in d[id] ==>
            var derived := c.deriveCryptoKey(d[id][PasswdField], id);
            && (derived.Failure? ==> r == Failure(derived.error))
            && (derived.Success? ==>
                  var loaded := Load(s, SecureStorage(objectKey, derived.value));
                  && (loaded.Failure? ==> r == Failure(loaded.error))
                  && (loaded.Success? ==> r == DecodeConfig(loaded.value))))
  {
  }

  /** If key derivation never reports `PasswordNotFound`, that error means
      exactly that the id is missing or has no passphrase. */
  lemma NotFoundExactly(s: Store, c: Crypto, v: StringVault, objectKey: ObjectKey)
    requires ReadDirectory(s, v).Success?
    requires forall p, i :: !(c.deriveCryptoKey(p, i).Failure? && c.deriveCryptoKey(p, i).error.PasswordNotFound?)
    ensures var d := ReadDirectory(s, v).value;
      LoadSecureConfiguration(s, c, v, objectKey).Failure?
      && LoadSecureConfiguration(s, c, v, objectKey).error.PasswordNotFound?
      <==> objectKey.id !in d || PasswdField !in d[objectKey.id]
  {
    LoadSecureConfigurationOutcome(s, c, v, objectKey);
  }

  /** A failed save never touches the directory slot. When it wrote the item
      slot, that write is all it did, and the directory either held a
      document that does not parse or refused the write. */
  lemma SaveFailureKeepsDirectory(s: Store, c: Crypto, v: StringVault, objectKey: ObjectKey,
                                  config: Config, generated: Result<string, VaultError>)
    requires objectKey != v.storage.objectKey
    requires SaveSecureConfiguration(s, c, v, objectKey, config, generated).result.Failure?
    ensures var r := SaveSecureConfiguration(s, c, v, objectKey, config, generated);
      && v.storage.objectKey !in Touched(r.log)
      && (r.log != [] ==>
            && generated.Success?
            && c.deriveCryptoKey(generated.value, objectKey.id).Success?
            && r.log == [Put(objectKey, Sealed(c.deriveCryptoKey(generated.value, objectKey.id).value, EncodeConfig(config)))]
            && (ReadDirectoryOrEmpty(s, v).Failure? || v.storage.objectKey in s.unwritable))
  {
    var r := SaveSecureConfiguration(s, c, v, objectKey, config, generated);
    if generated.Success? && c.deriveCryptoKey(generated.value, objectKey.id).Success? && objectKey !in s.unwritable {
      var key := c.deriveCryptoKey(generated.value, objectKey.id).value;
      var item := Save(s, SecureStorage(objectKey, key), EncodeConfig(config));
      var s1 := Replay(s, item.log);
      assert s1.slots == s.slots[objectKey := Sealed(key, EncodeConfig(config))];
      assert Load(s1, v.storage) == Load(s, v.storage);
      var db := ReadDirectoryOrEmpty(s1, v);
      if db.Success? {
        var dir := Save(s1, v.storage, EncodeDirectory(db.value[objectKey.id := SavedEntry(config, generated.value)]));
        assert dir.result.Failure?;
        assert r.log == item.log + dir.log;
      }
    }
  }

  /** The directory `add_configuration` writes: `d` with the entry for `id`
      created if absent and its `"NAME"` set. */
  function WithName(d: Directory, id: string, name: string): Directory
  {
    var entry := if id in d then d[id] else map[];
    d[id := entry[NameField := name]]
  }

  /** `WithName` sets only `"NAME"` of one entry. */
  lemma WithNameFrame(d: Directory, id: string, name: string)
    ensures var d' := WithName(d, id, name);
      && d'.Keys == d.Keys + {id}
      && d'[id][NameField] == name
      && (id !in d ==> d'[id] == map[NameField := name])
      && (id in d ==> d'[id].Keys == d[id].Keys + {NameField})
      && (id in d ==> forall f | f in d[id] && f != NameField :: d'[id][f] == d[id][f])
      && (forall other | other in d && other != id :: d'[other] == d[other])
  {
  }

  /** `add_configuration` succeeds exactly when the directory parses (or is
      treated as empty) and its slot accepts the write; it then rewrites only
      the directory slot, with `WithName` of what it read. */
  lemma AddConfigurationEffect(s: Store, v: StringVault, objectKey: ObjectKey, name: string)
    ensures var r := AddConfiguration(s, v, objectKey, name);
      r.result.Success? <==> ReadDirectoryOrEmpty(s, v).Success? && v.storage.objectKey !in s.unwritable
    ensures var r := AddConfiguration(s, v, objectKey, name);
      r.result.Failure? ==> r.log == []
    ensures var r := AddConfiguration(s, v, objectKey, name);
      r.result.Success? ==>
        var s' := Replay(s, r.log);
        var d' := WithName(ReadDirectoryOrEmpty(s, v).value, objectKey.id, name);
        && s'.slots[v.storage.objectKey] == Sealed(v.storage.key, EncodeDirectory(d'))
        && (v.storage.objectKey !in s.unreadable ==> ReadDirectory(s', v) == Success(d'))
        && (forall k | k in s.slots && k != v.storage.objectKey :: k in s'.slots && s'.slots[k] == s.slots[k])
  {
    var r := AddConfiguration(s, v, objectKey, name);
    if r.result.Success? {
      var d' := WithName(ReadDirectoryOrEmpty(s, v).value, objectKey.id, name);
      var s' := Replay(s, r.log);
      assert s'.slots == s.slots[v.storage.objectKey := Sealed(v.storage.key, EncodeDirectory(d'))];
      DirectoryRoundTrip(d');
      if v.storage.objectKey !in s.unreadable {
        assert Load(s', v.storage) == Success(EncodeDirectory(d'));
      }
    }
  }

  /** After a successful `add_configuration`, the directory holds the
      entry with the new `"NAME"`, every other field of that entry (an
      existing `"PASSWD"` included) and every other entry as before. */
  lemma AddConfigurationSetsOnlyName(s: Store, v: StringVault, objectKey: ObjectKey, name: string)
    requires AddConfiguration(s, v, objectKey, name).result.Success?
    requires v.storage.objectKey !in s.unreadable
    ensures var s' := Replay(s, AddConfiguration(s, v, objectKey, name).log);
      var id := objectKey.id;
      var d := ReadDirectoryOrEmpty(s, v).value;
      && ReadDirectory(s', v).Success?
      && var d' := ReadDirectory(s', v).value;
      && d'.Keys == d.Keys + {id}
      && d'[id][NameField] == name
      && (id !in d ==> d'[id] == map[NameField := name])
      && (id in d ==> d'[id].Keys == d[id].Keys + {NameField})
      && (id in d ==> forall f | f in d[id] && f != NameField :: d'[id][f] == d[id][f])
      && (forall other | other in d && other != id :: d'[other] == d[other])
  {
    AddConfigurationEffect(s, v, objectKey, name);
    WithNameFrame(ReadDirectoryOrEmpty(s, v).value, objectKey.id, name);
  }

  /** `delete_configuration`: a missing id is `PasswordNotFound` with nothing
      written; otherwise exactly that entry is removed, only the directory
      slot is rewritten, and the item's payload slot is left in place. */
  lemma DeleteConfigurationEffect(s: Store, v: StringVault, objectKey: ObjectKey)
    requires ReadDirectoryOrEmpty(s, v).Success?
    ensures var r := DeleteConfiguration(s, v, objectKey);
      var id := objectKey.id;
      var d := ReadDirectoryOrEmpty(s, v).value;
      && (id !in d ==> r == Run(Failure(PasswordNotFound(MissingConfigurationMessage(id))), []))
      && (id in d ==> (r.result.Success? <==> v.storage.objectKey !in s.unwritable))
    ensures var r := DeleteConfiguration(s, v, objectKey);
      r.result.Success? ==>
        var id := objectKey.id;
        var d := ReadDirectoryOrEmpty(s, v).value;
        var s' := Replay(s, r.log);
        && id in d
        && s'.slots[v.storage.objectKey] == Sealed(v.storage.key, EncodeDirectory(d - {id}))
        && (v.storage.objectKey !in s.unreadable ==> ReadDirectory(s', v) == Success(d - {id}))
        && (forall k | k in s.slots && k != v.storage.objectKey :: k in s'.slots && s'.slots[k] == s.slots[k])
  {
    var r := DeleteConfiguration(s, v, objectKey);
    var d := ReadDirectoryOrEmpty(s, v).value;
    if r.result.Success? {
      var d' := d - {objectKey.id};
      var s' := Replay(s, r.log);
      assert s'.slots == s.slots[v.storage.objectKey := Sealed(v.storage.key, EncodeDirectory(d'))];
      DirectoryRoundTrip(d');
      if v.storage.objectKey !in s.unreadable {
        assert ReadDirectory(s', v) == Success(d');
      }
    }
  }

  /** On first use the directory is absent: `new_and_validate` succeeds, but
      `list_configurations` reports the absence instead of an empty list. */
  lemma FirstUse(s: Store, c: Crypto, username: string, password: string)
    requires c.deriveKeyFromPassword(c.hashUsername(username), password).Success?
    requires DirectoryKey(c, username) !in s.slots && DirectoryKey(c, username) !in s.unreadable
    ensures NewAndValidate(s, c, username, password).Success?
    ensures ValidatePassword(s, c, username, password) == Success(true)
    ensures ListConfigurations(s, NewAndValidate(s, c, username, password).value) == Failure(NoLocalStorageData)
  {
  }

  /** `reset_vault` removes the directory slot and nothing else: the user no
      longer exists, any password validates again where the slot can be read,
      and item payloads stay in the store, unreachable. */
  lemma ResetErasesDirectoryOnly(s: Store, c: Crypto, username: string, password: string)
    requires DirectoryKey(c, username) !in s.unwritable
    requires c.deriveKeyFromPassword(c.hashUsername(username), password).Success?
    ensures var s' := Replay(s, ResetVault(s, c, username).log);
      && ResetVault(s, c, username).result.Success?
      && !UserExists(s', c, username)
      && (DirectoryKey(c, username) !in s.unreadable ==> ValidatePassword(s', c, username, password) == Success(true))
      && (DirectoryKey(c, username) in s.unreadable ==>
            ValidatePassword(s', c, username, password) == Failure(StorageError(UnavailableMessage)))
      && (forall k | k in s.slots && k != DirectoryKey(c, username) :: k in s'.slots && s'.slots[k] == s.slots[k])
  {
  }

  /** `new_and_create` deletes whatever directory existed and then opens an
      empty vault; it fails only if the slot refuses the delete or the read
      that follows, or key derivation fails. */
  lemma NewAndCreateOutcome(s: Store, c: Crypto, username: string, password: string)
    ensures var r := NewAndCreate(s, c, username, password);
      var derived := c.deriveKeyFromPassword(c.hashUsername(username), password);
      var k := DirectoryKey(c, username);
      && (r.result.Success? <==> k !in s.unwritable && k !in s.unreadable && derived.Success?)
      && (r.result.Success? ==> r.result == New(c, username, password))
      && (k !in s.unwritable ==> !UserExists(Replay(s, r.log), c, username))
  {
  }

  /** `set_admin_key` swaps the key without re-encrypting: a directory that
      was readable under the old key fails to decrypt under a different one. */
  lemma SetAdminKeyStrandsDirectory(s: Store, c: Crypto, v: StringVault, newKey: CryptoKey, objectKey: ObjectKey)
    requires ReadDirectory(s, v).Success?
    requires newKey != v.storage.key
    ensures ListConfigurations(s, SetAdminKey(v, newKey)) == Failure(DecryptError)
    ensures LoadSecureConfiguration(s, c, SetAdminKey(v, newKey), objectKey) == Failure(DecryptError)
  {
    assert Load(s, SetAdminKey(v, newKey).storage) == Failure(DecryptError);
  }

  /** `change_password` changes nothing: the old password keeps validating
      and a new one with a different key keeps failing. */
  lemma ChangePasswordHasNoEffect(s: Store, c: Crypto, username: string, oldPassword: string, newPassword: string)
    requires NewAndValidate(s, c, username, oldPassword).Success?
    requires DirectoryKey(c, username) in s.slots
    requires c.deriveKeyFromPassword(c.hashUsername(username), newPassword).Success?
    requires c.deriveKeyFromPassword(c.hashUsername(username), newPassword)
          != c.deriveKeyFromPassword(c.hashUsername(username), oldPassword)
    ensures var s' := Replay(s, ChangePassword(s, c, username, oldPassword, newPassword).log);
      && s' == s
      && ValidatePassword(s', c, username, oldPassword) == Success(true)
      && ValidatePassword(s', c, username, newPassword) == Success(false)
  {
    WrongPasswordRejected(s, c, username, oldPassword, newPassword);
  }

  // ---------------------------------------------------------------------
  // Every passphrase the directory holds opens its item.

  /** If the directory has an entry for `id` with a passphrase, the item can
      be loaded from the slot `(tag, id)`. The directory is keyed by id
      alone, so the property is stated for one tag at a time. */
  ghost predicate EntryLoadable(s: Store, c: Crypto, v: StringVault, tag: string, id: string)
  {
    ReadDirectory(s, v).Success? && id in ReadDirectory(s, v).value
    && PasswdField in ReadDirectory(s, v).value[id]
    ==> LoadSecureConfiguration(s, c, v, ObjectKey(tag, id)).Success?
  }

  /** Every directory entry that carries a passphrase can be loaded. */
  ghost predicate ItemsLoadable(s: Store, c: Crypto, v: StringVault, tag: string)
  {
    forall id :: EntryLoadable(s, c, v, tag, id)
  }

  /** Loading an item depends only on its passphrase and its slot. */
  lemma LoadItemUnchanged(s: Store, s': Store, c: Crypto, v: StringVault, objectKey: ObjectKey)
    requires ReadDirectory(s, v).Success? && ReadDirectory(s', v).Success?
    requires objectKey.id in ReadDirectory(s, v).value && objectKey.id in ReadDirectory(s', v).value
    requires PasswdField in ReadDirectory(s, v).value[objectKey.id]
    requires PasswdField in ReadDirectory(s', v).value[objectKey.id]
    requires ReadDirectory(s', v).value[objectKey.id][PasswdField] == ReadDirectory(s, v).value[objectKey.id][PasswdField]
    requires s'.unreadable == s.unreadable
    requires (objectKey in s'.slots) == (objectKey in s.slots)
    requires objectKey in s.slots ==> s'.slots[objectKey] == s.slots[objectKey]
    ensures LoadSecureConfiguration(s', c, v, objectKey) == LoadSecureConfiguration(s, c, v, objectKey)
  {
    LoadSecureConfigurationOutcome(s, c, v, objectKey);
    LoadSecureConfigurationOutcome(s', c, v, objectKey);
  }

  /** A save keeps every other entry loadable, whether it succeeds or stops
      part way; the saved entry itself is loadable again only after a save
      that succeeds (see `StrandedResave` for one that does not). */
  lemma SavePreservesItemsLoadable(s: Store, c: Crypto, v: StringVault, objectKey: ObjectKey,
                                   config: Config, generated: Result<string, VaultError>, tag: string)
    requires objectKey.tag == tag && tag != v.storage.objectKey.tag
    requires ItemsLoadable(s, c, v, tag)
    ensures var r := SaveSecureConfiguration(s, c, v, objectKey, config, generated);
      var s' := Replay(s, r.log);
      && (forall id | id != objectKey.id :: EntryLoadable(s', c, v, tag, id))
      && (r.result.Success? && objectKey !in s.unreadable ==> ItemsLoadable(s', c, v, tag))
  {
    var r := SaveSecureConfiguration(s, c, v, objectKey, config, generated);
    var s' := Replay(s, r.log);
    if r.result.Failure? {
      SaveFailureKeepsDirectory(s, c, v, objectKey, config, generated);
      ReplayFrame(s, r.log, v.storage.objectKey);
      assert Load(s', v.storage) == Load(s, v.storage);
      forall id | id != objectKey.id
        ensures EntryLoadable(s', c, v, tag, id)
      {
        var ik := ObjectKey(tag, id);
        assert ik !in Touched(r.log);
        ReplayFrame(s, r.log, ik);
        assert EntryLoadable(s, c, v, tag, id);
        if ReadDirectory(s', v).Success? && id in ReadDirectory(s', v).value
           && PasswdField in ReadDirectory(s', v).value[id] {
          LoadItemUnchanged(s, s', c, v, ik);
        }
      }
    } else {
      SaveState(s, c, v, objectKey, config, generated);
      var d := ReadDirectoryOrEmpty(s, v).value;
      forall id | id != objectKey.id || objectKey !in s.unreadable
        ensures EntryLoadable(s', c, v, tag, id)
      {
        if ReadDirectory(s', v).Success? && id in ReadDirectory(s', v).value
           && PasswdField in ReadDirectory(s', v).value[id] {
          if id != objectKey.id {
            assert id in d;
            assert ReadDirectory(s, v) == Success(d);
            assert EntryLoadable(s, c, v, tag, id);
            LoadItemUnchanged(s, s', c, v, ObjectKey(tag, id));
          } else {
            SaveThenLoad(s, c, v, objectKey, config, generated);
          }
        }
      }
    }
  }

  /** Re-saving an entry whose directory reads but refuses the write strands
      it: the item slot is resealed under the new passphrase, the directory
      keeps the old one, and the stored configuration no longer loads. */
  lemma StrandedResave(s: Store, c: Crypto, v: StringVault, objectKey: ObjectKey,
                       config: Config, generated: Result<string, VaultError>)
    requires objectKey != v.storage.objectKey
    requires LoadSecureConfiguration(s, c, v, objectKey).Success?
    requires generated.Success? && c.deriveCryptoKey(generated.value, objectKey.id).Success?
    requires c.deriveCryptoKey(generated.value, objectKey.id)
          != c.deriveCryptoKey(ReadDirectory(s, v).value[objectKey.id][PasswdField], objectKey.id)
    requires objectKey !in s.unwritable && v.storage.objectKey in s.unwritable
    ensures var r := SaveSecureConfiguration(s, c, v, objectKey, config, generated);
      var s' := Replay(s, r.log);
      && r.result == Failure(StorageError(UnavailableMessage))
      && ReadDirectory(s', v) == ReadDirectory(s, v)
      && LoadSecureConfiguration(s', c, v, objectKey) == Failure(DecryptError)
  {
    var r := SaveSecureConfiguration(s, c, v, objectKey, config, generated);
    var key := c.deriveCryptoKey(generated.value, objectKey.id).value;
    var s' := Replay(s, r.log);
    SaveFailureKeepsDirectory(s, c, v, objectKey, config, generated);
    SaveEffect(s, c, v, objectKey, config, generated);
    var item := Save(s, SecureStorage(objectKey, key), EncodeConfig(config));
    assert r.log == item.log;
    assert s'.slots == s.slots[objectKey := Sealed(key, EncodeConfig(config))];
    assert Load(s', v.storage) == Load(s, v.storage);
    LoadSecureConfigurationOutcome(s, c, v, objectKey);
    LoadSecureConfigurationOutcome(s', c, v, objectKey);
  }

  lemma AddPreservesItemsLoadable(s: Store, c: Crypto, v: StringVault, objectKey: ObjectKey, name: string, tag: string)
    requires tag != v.storage.objectKey.tag
    requires ItemsLoadable(s, c, v, tag)
    ensures ItemsLoadable(Replay(s, AddConfiguration(s, v, objectKey, name).log), c, v, tag)
  {
    var r := AddConfiguration(s, v, objectKey, name);
    var s' := Replay(s, r.log);
    AddConfigurationEffect(s, v, objectKey, name);
    if r.result.Success? {
      var d := ReadDirectoryOrEmpty(s, v).value;
      WithNameFrame(d, objectKey.id, name);
      forall id
        ensures EntryLoadable(s', c, v, tag, id)
      {
        if ReadDirectory(s', v).Success? && id in ReadDirectory(s', v).value
           && PasswdField in ReadDirectory(s', v).value[id] {
          assert ReadDirectory(s', v).value == WithName(d, objectKey.id, name);
          assert id in d;
          assert PasswdField in d[id];
          assert ReadDirectory(s, v) == Success(d);
          assert EntryLoadable(s, c, v, tag, id);
          LoadItemUnchanged(s, s', c, v, ObjectKey(tag, id));
        }
      }
    }
  }

  lemma DeletePreservesItemsLoadable(s: Store, c: Crypto, v: StringVault, objectKey: ObjectKey, tag: string)
    requires tag != v.storage.objectKey.tag
    requires ItemsLoadable(s, c, v, tag)
    ensures ItemsLoadable(Replay(s, DeleteConfiguration(s, v, objectKey).log), c, v, tag)
  {
    var r := DeleteConfiguration(s, v, objectKey);
    var s' := Replay(s, r.log);
    if r.result.Success? {
      DeleteConfigurationEffect(s, v, objectKey);
      var d := ReadDirectoryOrEmpty(s, v).value;
      forall id
        ensures EntryLoadable(s', c, v, tag, id)
      {
        if ReadDirectory(s', v).Success? && id in ReadDirectory(s', v).value
           && PasswdField in ReadDirectory(s', v).value[id] {
          assert ReadDirectory(s', v).value == d - {objectKey.id};
          assert ReadDirectory(s, v) == Success(d);
          assert EntryLoadable(s, c, v, tag, id);
          LoadItemUnchanged(s, s', c, v, ObjectKey(tag, id));
        }
      }
    }
  }

  // ---------------------------------------------------------------------
  // Worked scenarios.

  /** Save a payload for "s3-prod" into an empty store: it lists under its
      `__NAME__`, loads back intact, and an unsaved id is not found. */
  lemma SavedConfigurationScenario(c: Crypto, passphrase: string)
    requires c.deriveKeyFromPassword(c.hashUsername("alice"), "correct-horse").Success?
    requires c.deriveCryptoKey(passphrase, "s3-prod").Success?
    ensures var v := New(c, "alice", "correct-horse").value;
      var config := map["__NAME__" := "Prod bucket", "access_key" := "AK", "secret_key" := "SK"];
      var r := SaveSecureConfiguration(Store(map[], {}, {}), c, v, FormKey("s3-prod"), config, Success(passphrase));
      var s' := Replay(Store(map[], {}, {}), r.log);
      && r.result.Success?
      && ListConfigurations(s', v) == Success(map["s3-prod" := "Prod bucket"])
      && LoadSecureConfiguration(s', c, v, FormKey("s3-prod")) == Success(config)
      && LoadSecureConfiguration(s', c, v, FormKey("s3-dev")) == Failure(PasswordNotFound(NotFoundMessage("s3-dev")))
  {
    var s := Store(map[], {}, {});
    var v := New(c, "alice", "correct-horse").value;
    var config := map["__NAME__" := "Prod bucket", "access_key" := "AK", "secret_key" := "SK"];
    var ok := FormKey("s3-prod");
    assert ReadDirectoryOrEmpty(s, v) == Success(map[]);
    SaveEffect(s, c, v, ok, config, Success(passphrase));
    SaveState(s, c, v, ok, config, Success(passphrase));
    SaveThenLoad(s, c, v, ok, config, Success(passphrase));
    var r := SaveSecureConfiguration(s, c, v, ok, config, Success(passphrase));
    var s' := Replay(s, r.log);
    var d := map["s3-prod" := SavedEntry(config, passphrase)];
    assert ReadDirectory(s', v) == Success(d);
    assert ListConfigurations(s', v).value == map["s3-prod" := "Prod bucket"];
  }

  /** A name added without a payload is listed but cannot be loaded. */
  lemma NameOnlyScenario(c: Crypto, s: Store, v: StringVault)
    requires ReadDirectory(s, v) == Success(map[])
    requires v.storage.objectKey !in s.unwritable
    ensures var r := AddConfiguration(s, v, FormKey("s3-dev"), "Dev bucket");
      var s' := Replay(s, r.log);
      && r.result.Success?
      && ListConfigurations(s', v) == Success(map["s3-dev" := "Dev bucket"])
      && LoadSecureConfiguration(s', c, v, FormKey("s3-dev")) == Failure(PasswordNotFound(NotFoundMessage("s3-dev")))
  {
    AddConfigurationEffect(s, v, FormKey("s3-dev"), "Dev bucket");
    var r := AddConfiguration(s, v, FormKey("s3-dev"), "Dev bucket");
    var s' := Replay(s, r.log);
    var d' := ReadDirectory(s', v).value;
    WithNameFrame(map[], "s3-dev", "Dev bucket");
    assert d' == map["s3-dev" := map[NameField := "Dev bucket"]];
    assert ListConfigurations(s', v).value == map["s3-dev" := "Dev bucket"];
  }
}
