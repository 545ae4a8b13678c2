/** `StringVault`: a password-protected directory of named configurations.
    The directory lives in the slot `(hash(username), "self")`, sealed under
    the key derived from the password, and maps each item id to
    `{"NAME": display name, "PASSWD": per-item passphrase}`. Each item's
    payload lives in its own slot, sealed under a key derived from that
    passphrase and the item id.

    Every operation is a pure function of the store and its arguments;
    operations that write return a `Run` whose log lists their writes in
    order, and the store afterwards is `Replay(store, run.log)`. */
module Vault {
  import opened Results
  import opened Errors
  import opened Json
  import opened Storage

  /** The cryptographic primitives, uninterpreted but deterministic:
      `hash_username`, `derive_key_from_password` and `derive_crypto_key`. */
  datatype Crypto = Crypto(
    hashUsername: string -> string,
    deriveKeyFromPassword: (string, string) -> Result<CryptoKey, VaultError>,
    deriveCryptoKey: (string, string) -> Result<CryptoKey, VaultError>)

  datatype StringVault = StringVault(
    storage: SecureStorage,
    username: string,
    hashedUsername: string)

  const SelfId := "self"
  const NameField := "NAME"
  const PasswdField := "PASSWD"
  const FormNameField := "__NAME__"
  const UnknownName := "Unknown"

  /** The one slot that holds a user's directory. */
  function DirectoryKey(c: Crypto, username: string): ObjectKey
  {
    ObjectKey(c.hashUsername(username), SelfId)
  }

  function NotFoundMessage(id: string): string
  {
    "Password for " + id + " not found"
  }

  function MissingConfigurationMessage(id: string): string
  {
    "Configuration for " + id + " not found"
  }

  /** The display name of a directory entry. */
  function NameOf(entry: Config): string
  {
    if NameField in entry then entry[NameField] else UnknownName
  }

  /** The display name `save_secure_configuration` records for a payload. */
  function FormName(config: Config): string
  {
    if FormNameField in config then config[FormNameField] else UnknownName
  }

  /** `StringVault::new`: derive the master key; no storage access. */
  function New(c: Crypto, username: string, password: string): (r: Result<StringVault, VaultError>)
    ensures r.Success? <==> c.deriveKeyFromPassword(c.hashUsername(username), password).Success?
    ensures r.Success? ==>
      && r.value.storage.objectKey == DirectoryKey(c, username)
      && r.value.storage.key == c.deriveKeyFromPassword(c.hashUsername(username), password).value
      && r.value.username == username
    ensures r.Failure? ==> r.error == c.deriveKeyFromPassword(c.hashUsername(username), password).error
  {
    var hashed := c.hashUsername(username);
    var key :- c.deriveKeyFromPassword(hashed, password);
    Success(StringVault(SecureStorage(ObjectKey(hashed, SelfId), key), username, hashed))
  }

  /** `StringVault::user_exists`: whether a directory slot exists. */
  function UserExists(s: Store, c: Crypto, username: string): (b: bool)
    ensures b <==> DirectoryKey(c, username) in s.slots
  {
    Exists(s, ObjectKey(c.hashUsername(username), SelfId))
  }

  /** The load-error classification shared by `new_and_validate` and
      `new_and_create`: a readable or absent directory validates, every
      other load error (a wrong key among them) is returned unchanged. */
  function Classify(loaded: Result<Json, VaultError>, vault: StringVault): (r: Result<StringVault, VaultError>)
    ensures r.Success? <==> loaded.Success? || loaded.error == NoLocalStorageData
    ensures r.Success? ==> r.value == vault
    ensures r.Failure? ==> r.error == loaded.error
  {
    if loaded.Success? then Success(vault)
    else if loaded.error.NoLocalStorageData? then Success(vault)
    else if loaded.error.DecryptError? then Failure(loaded.error)
    else Failure(loaded.error)
  }

  /** `StringVault::new_and_validate`. */
  function NewAndValidate(s: Store, c: Crypto, username: string, password: string): (r: Result<StringVault, VaultError>)
    ensures r.Success? ==> New(c, username, password) == r
    ensures New(c, username, password).Failure? ==> r == New(c, username, password)
    ensures r.Failure? && New(c, username, password).Success? ==>
      && r.error != NoLocalStorageData
      && Load(s, New(c, username, password).value.storage).Failure?
      && r.error == Load(s, New(c, username, password).value.storage).error
  {
    var vault :- New(c, username, password);
    Classify(Load(s, vault.storage), vault)
  }

  /** `StringVault::validate_password`. */
  function ValidatePassword(s: Store, c: Crypto, username: string, password: string): (r: Result<bool, VaultError>)
    ensures r == Success(false) <==> NewAndValidate(s, c, username, password) == Failure(DecryptError)
    ensures r == Success(true) <==> NewAndValidate(s, c, username, password).Success?
    ensures r.Failure? ==>
      r.error != DecryptError && r == Failure(NewAndValidate(s, c, username, password).error)
  {
    var v := NewAndValidate(s, c, username, password);
    if v.Success? then Success(true)
    else if v.error.DecryptError? then Success(false)
    else Failure(v.error)
  }

  /** `StringVault::change_password`: an unimplemented stub. */
  function ChangePassword(s: Store, c: Crypto, username: string, oldPassword: string, newPassword: string): (r: Run<()>)
    ensures r.result.Success? && r.log == []
  {
    Run(Success(()), [])
  }

  /** `StringVault::reset_vault`: delete the directory slot. */
  function ResetVault(s: Store, c: Crypto, username: string): (r: Run<()>)
    ensures Touched(r.log) <= {DirectoryKey(c, username)}
    ensures r.result.Success? <==> DirectoryKey(c, username) !in s.unwritable
    ensures r.result.Success? ==> Replay(s, r.log).slots == s.slots - {DirectoryKey(c, username)}
    ensures r.result.Failure? ==> r == Run(Failure(StorageError(UnavailableMessage)), [])
  {
    var hashed := c.hashUsername(username);
    Delete(s, ObjectKey(hashed, SelfId))
  }

  /** `StringVault::new_and_create`: reset, then open and validate. */
  function NewAndCreate(s: Store, c: Crypto, username: string, password: string): (r: Run<StringVault>)
    ensures Touched(r.log) <= {DirectoryKey(c, username)}
    ensures r.result.Success? ==> r.result == New(c, username, password)
    ensures r.result.Success? ==> DirectoryKey(c, username) !in Replay(s, r.log).slots
    ensures r.result.Failure? && New(c, username, password).Success? ==>
      r.result.error != DecryptError && r.result.error != NoLocalStorageData
    ensures DirectoryKey(c, username) in s.unwritable ==>
      r == Run(Failure(StorageError(UnavailableMessage)), [])
    ensures DirectoryKey(c, username) !in s.unwritable && New(c, username, password).Failure? ==>
      r.result == Failure(New(c, username, password).error)
    ensures r.result.Failure? && New(c, username, password).Success? ==>
      r.result == Failure(StorageError(UnavailableMessage))
  {
    var reset := ResetVault(s, c, username);
    if reset.result.Failure? then Run(Failure(reset.result.error), reset.log)
    else
      var s1 := Replay(s, reset.log);
      var created := New(c, username, password);
      if created.Failure? then Run(Failure(created.error), reset.log)
      else Run(Classify(Load(s1, created.value.storage), created.value), reset.log)
  }

  /** `StringVault::set_admin_key`: rebind the directory slot to a new key,
      without re-encrypting what is stored there. */
  function SetAdminKey(v: StringVault, newKey: CryptoKey): (v': StringVault)
    ensures v'.storage.objectKey == v.storage.objectKey
    ensures v'.storage.key == newKey
    ensures v'.username == v.username && v'.hashedUsername == v.hashedUsername
  {
    v.(storage := SecureStorage(v.storage.objectKey, newKey))
  }

  /** Load and parse the directory, propagating every error. */
  function ReadDirectory(s: Store, v: StringVault): (r: Result<Directory, VaultError>)
    ensures r.Success? ==>
      Load(s, v.storage).Success? && DecodeDirectory(Load(s, v.storage).value) == r
    ensures Load(s, v.storage).Failure? ==> r == Failure(Load(s, v.storage).error)
    ensures Load(s, v.storage).Success? ==> r == DecodeDirectory(Load(s, v.storage).value)
  {
    var text :- Load(s, v.storage);
    DecodeDirectory(text)
  }

  /** The read half of the read-modify-write operations: any load error
      yields an empty directory, but a parse error is propagated. */
  function ReadDirectoryOrEmpty(s: Store, v: StringVault): (r: Result<Directory, VaultError>)
    ensures Load(s, v.storage).Failure? ==> r == Success(map[])
    ensures Load(s, v.storage).Success? ==> r == ReadDirectory(s, v)
    ensures r.Failure? ==> r.error == SerdeError
  {
    var loaded := Load(s, v.storage);
    if loaded.Success? then DecodeDirectory(loaded.value) else Success(map[])
  }

  /** `StringVault::list_configurations`. */
  function ListConfigurations(s: Store, v: StringVault): (r: Result<map<string, string>, VaultError>)
    ensures r.Success? <==> ReadDirectory(s, v).Success?
    ensures r.Failure? ==> r.error == ReadDirectory(s, v).error
    ensures r.Success? ==> r.value.Keys == ReadDirectory(s, v).value.Keys
    ensures r.Success? ==> forall id | id in r.value ::
      var entry := ReadDirectory(s, v).value[id];
      (NameField in entry ==> r.value[id] == entry[NameField])
      && (NameField !in entry ==> r.value[id] == UnknownName)
  {
    var db :- ReadDirectory(s, v);
    Success(map id | id in db :: NameOf(db[id]))
  }

  /** The error a failed save reports is that of the step that failed: the
      key derivation's own error, the storage error of a refused item write,
      or, once the item is written, the parse error when the directory read
      back after that write does not parse, and otherwise the storage error
      of a refused directory write. */
  ghost predicate SaveFailedWithStepError(s: Store, c: Crypto, v: StringVault, objectKey: ObjectKey,
                                          generated: Result<string, VaultError>, r: Run<()>)
  {
    && (generated.Success? && c.deriveCryptoKey(generated.value, objectKey.id).Failure? ==>
          r == Run(Failure(c.deriveCryptoKey(generated.value, objectKey.id).error), []))
    && (generated.Success? && c.deriveCryptoKey(generated.value, objectKey.id).Success? && r.log == [] ==>
          r.result == Failure(StorageError(UnavailableMessage)))
    && (r.log != [] && ReadDirectoryOrEmpty(Replay(s, r.log), v).Failure? ==>
          r.result == Failure(SerdeError))
    && (r.log != [] && ReadDirectoryOrEmpty(Replay(s, r.log), v).Success? ==>
          r.result == Failure(StorageError(UnavailableMessage)) && v.storage.objectKey in s.unwritable)
  }

  /** `StringVault::save_secure_configuration`, with the output of
      `generate_password` supplied as `generated`. */
  function SaveSecureConfiguration(s: Store, c: Crypto, v: StringVault, objectKey: ObjectKey,
                                   config: Config, generated: Result<string, VaultError>): (r: Run<()>)
    ensures Touched(r.log) <= {objectKey, v.storage.objectKey}
    ensures generated.Failure? ==> r == Run(Failure(generated.error), [])
    ensures r.result.Success? ==>
      |r.log| == 2 && r.log[0].at == objectKey && r.log[1].at == v.storage.objectKey
    ensures r.result.Failure? ==> |r.log| <= 1 && (r.log != [] ==> r.log[0].at == objectKey)
    ensures r.result.Failure? ==> SaveFailedWithStepError(s, c, v, objectKey, generated, r)
  {
    var formName := FormName(config);
    var formId := objectKey.id;
    if generated.Failure? then Run(Failure(generated.error), [])
    else
      var password := generated.value;
      var derived := c.deriveCryptoKey(password, formId);
      if derived.Failure? then Run(Failure(derived.error), [])
      else
        var item := Save(s, SecureStorage(objectKey, derived.value), EncodeConfig(config));
        if item.result.Failure? then item
        else
          var s1 := Replay(s, item.log);
          var db := ReadDirectoryOrEmpty(s1, v);
          if db.Failure? then Run(Failure(db.error), item.log)
          else
            var entry := map[NameField := formName, PasswdField := password];
            var dir := Save(s1, v.storage, EncodeDirectory(db.value[formId := entry]));
            assert dir.result.Failure? ==> item.log + dir.log == item.log;
            Run(dir.result, item.log + dir.log)
  }

  /** `StringVault::load_secure_configuration`. */
  function LoadSecureConfiguration(s: Store, c: Crypto, v: StringVault, objectKey: ObjectKey): (r: Result<Config, VaultError>)
    ensures ReadDirectory(s, v).Failure? ==> r == Failure(ReadDirectory(s, v).error)
    ensures r.Success? ==>
      && ReadDirectory(s, v).Success?
      && objectKey.id in ReadDirectory(s, v).value
      && PasswdField in ReadDirectory(s, v).value[objectKey.id]
      && objectKey in s.slots
  {
    var id := objectKey.id;
    var meta :- ReadDirectory(s, v);
    if id !in meta then Failure(PasswordNotFound(NotFoundMessage(id)))
    else if PasswdField !in meta[id] then Failure(PasswordNotFound(NotFoundMessage(id)))
    else
      var derived :- c.deriveCryptoKey(meta[id][PasswdField], id);
      var text :- Load(s, SecureStorage(objectKey, derived));
      DecodeConfig(text)
  }

  /** `StringVault::add_configuration`: set the display name of an entry. */
  function AddConfiguration(s: Store, v: StringVault, objectKey: ObjectKey, name: string): (r: Run<()>)
    ensures Touched(r.log) <= {v.storage.objectKey}
    ensures r.result.Failure? ==> r.log == []
    ensures r.result.Success? ==> v.storage.objectKey in Replay(s, r.log).slots
    ensures ReadDirectoryOrEmpty(s, v).Failure? ==> r == Run(Failure(SerdeError), [])
    ensures ReadDirectoryOrEmpty(s, v).Success? && v.storage.objectKey in s.unwritable ==>
      r == Run(Failure(StorageError(UnavailableMessage)), [])
  {
    var id := objectKey.id;
    var db :- ReadDirectoryOrEmptyRun(s, v);
    var entry := if id in db then db[id] else map[];
    Save(s, v.storage, EncodeDirectory(db[id := entry[NameField := name]]))
  }

  /** `StringVault::delete_configuration`: drop a directory entry. */
  function DeleteConfiguration(s: Store, v: StringVault, objectKey: ObjectKey): (r: Run<()>)
    ensures Touched(r.log) <= {v.storage.objectKey}
    ensures r.result.Failure? ==> r.log == []
    ensures r.result.Success? ==>
      ReadDirectoryOrEmpty(s, v).Success? && objectKey.id in ReadDirectoryOrEmpty(s, v).value
    ensures ReadDirectoryOrEmpty(s, v).Failure? ==> r == Run(Failure(SerdeError), [])
    ensures ReadDirectoryOrEmpty(s, v).Success? && objectKey.id !in ReadDirectoryOrEmpty(s, v).value ==>
      r == Run(Failure(PasswordNotFound(MissingConfigurationMessage(objectKey.id))), [])
    ensures ReadDirectoryOrEmpty(s, v).Success? && objectKey.id in ReadDirectoryOrEmpty(s, v).value
            && v.storage.objectKey in s.unwritable ==>
      r == Run(Failure(StorageError(UnavailableMessage)), [])
  {
    var id := objectKey.id;
    var db :- ReadDirectoryOrEmptyRun(s, v);
    if id !in db then Run(Failure(PasswordNotFound(MissingConfigurationMessage(id))), [])
    else Save(s, v.storage, EncodeDirectory(db - {id}))
  }

  /** `ReadDirectoryOrEmpty` lifted to a `Run` that writes nothing, so that
      it composes with `:-` in the writing operations. */
  function ReadDirectoryOrEmptyRun(s: Store, v: StringVault): (r: RunOf<Directory>)
    ensures r.result == ReadDirectoryOrEmpty(s, v)
  {
    RunOf(ReadDirectoryOrEmpty(s, v))
  }

  /** A read that writes nothing; failing propagates as a `Run` with an
      empty log. */
  datatype RunOf<T> = RunOf(result: Result<T, VaultError>) {
    predicate IsFailure() {
      result.Failure?
    }

    function PropagateFailure<U>(): Run<U>
      requires IsFailure()
    {
      Run(Failure(result.error), [])
    }

    function Extract(): T
      requires !IsFailure()
    {
      result.value
    }
  }
}
