# lakestream string vault and URI dispatch, modelled in Dafny

This project models two sequential parts of lakestream.

**The string vault** (`lakestream-web/src/components/stringvault/mod.rs`) is a password-protected
directory of named configurations kept in browser storage. The directory is one encrypted slot
at `(hash_username(username), "self")`, sealed under a key derived from the password. It maps
each item id to `{"NAME": display name, "PASSWD": per-item passphrase}`. Each configuration
payload is a separate slot, sealed under a key derived from its passphrase and the item id.

**URI parsing and object-store dispatch** (`lakestream/src/base/interfaces.rs`) covers four
pieces:
- `parse_uri` splits a URI into a scheme, a bucket and a prefix that ends in `/`;
- `list_objects` rebuilds a bucket URI and hands it to `ObjectStore::new`;
- `ObjectStore::new` dispatches on `s3://` or `localfs://`;
- `FileObject::printable` renders one listing line, including the basename of the name.

## Layout

| file | module | what it holds |
|---|---|---|
| `results.dfy` | `Results`, `Errors` | `Option`, `Result` and the vault's error type (`SecureStringError`) |
| `json.dfy` | `Json` | JSON documents as values; encode and decode of configurations and of the directory, with round trips |
| `storage.dfy` | `Storage` | `ObjectKey`, sealed blobs, the byte store, slot-level `Load`/`Save`/`Delete`/`Exists`, the write log and `Replay` |
| `vault.dfy` | `Vault` | every `StringVault` operation as a pure function |
| `vault_properties.dfy` | `VaultProperties` | classification, round-trip, ordering, frame and not-found lemmas; a per-tag invariant that directory entries stay loadable |
| `interfaces.dfy` | `Interfaces` | `parse_uri`, `trim_start_matches`, `ObjectStore::new`, `list_objects` planning, `printable` |
| `interfaces_properties.dfy` | `InterfacesProperties` | regular-expression equivalence, format-then-parse round trip, reconstruction, dispatch, basename lemmas |

## How the vault is modelled

- **Encryption is abstract.** A `Blob` records the key it was sealed under (`Sealed(key, plaintext)`).
  `Load` on a slot has four outcomes:
  - `NoLocalStorageData` when the slot is absent;
  - `DecryptError` when the slot's key differs from the requested one;
  - `StorageError` when the slot is unreadable;
  - the plaintext otherwise.
- **Crypto functions are uninterpreted.** `hash_username`, `derive_key_from_password` and
  `derive_crypto_key` are fields of a `Crypto` value. They are arbitrary but deterministic
  functions, and the derivations may fail. `generate_password` is an input,
  `generated: Result<string, VaultError>`, because it is nondeterministic.
- **Storage failures are per slot and per direction.** `Store.unreadable` is the set of slots
  whose reads fail and `Store.unwritable` the set whose writes and removals fail. The two are
  independent: a slot can read fine and refuse a write, as under a full storage quota. They
  stand for the browser storage failures that the Rust code propagates with `?`.
- **Writes are logged.** An operation that writes returns `Run(result, log)`. The log lists
  the slot writes in the order they happen, and the store afterwards is `Replay(store, log)`.
  This is how write ordering is stated: `save_secure_configuration` logs the item slot, then
  the directory slot.
- **JSON is structured, not textual.** `serde_json` text is modelled as a JSON value. Decoding
  fails with `SerdeError` unless the value has the shape the Rust type requires. Both round
  trips are proved.

## Behaviour of the code worth knowing

- `list_configurations` on a user with no directory returns `Err(NoLocalStorageData)`
  (`VaultProperties.FirstUse`).
- `save_secure_configuration`, `add_configuration` and `delete_configuration` treat **every**
  directory load error as an empty directory, a decrypt or storage error included. Only a JSON
  parse error is propagated. Save and add then write that directory. Delete then finds no entry
  for the id, so it fails with `PasswordNotFound` and writes nothing
  (`VaultProperties.DeleteConfigurationEffect`).
  - A vault built with `StringVault::new` (the login form calls it without validating the
    password) holding the wrong key replaces the stored directory on the next save
    (`VaultProperties.SaveOverUnreadableDirectory`).
  - A directory slot whose read fails but whose write succeeds is replaced by a directory
    holding only the saved entry (the same lemma).
- `save_secure_configuration` writes the item before the directory. When the item write
  succeeds and the directory write fails, the payload is re-sealed under a freshly generated
  passphrase while the directory keeps the old one, so the item no longer loads and the call
  fails with the storage error (`VaultProperties.StrandedResave`).
- The wrong-password signal is `DecryptError`, returned unchanged. The "not found" error is
  `PasswordNotFound`, whose message reads `"Password for <id> not found"` on load and
  `"Configuration for <id> not found"` on delete.
- `set_admin_key` rebinds the key without re-encrypting, so an existing directory no longer
  decrypts (`SetAdminKeyStrandsDirectory`). `change_password` is a stub that changes nothing.
- An item saved at the directory's own slot is overwritten by the directory write in the same
  call (`SaveIntoDirectorySlot`). When its derived key happens to be the directory's, a
  non-empty payload is read back as the directory, which fails to parse, so the save and
  every later listing fail with `SerdeError` (`SaveIntoDirectorySlotSameKey`). An empty
  payload, `{}`, parses as an empty directory (`Json.ConfigAsDirectory`).
- `ObjectKey::new_with_form_tag` builds the tag `"FORM"` (`Storage.FormKey`).

## Model

| member | source | states |
|---|---|---|
| `Json.ConfigRoundTrip` | lakestream-web/src/components/stringvault/mod.rs:174 | a serialised configuration parses back to the same map |
| `Json.ConfigParseThenPrint` | lakestream-web/src/components/stringvault/mod.rs:219-221 | a document that parses as a configuration re-serialises to itself |
| `Json.DirectoryRoundTrip` | lakestream-web/src/components/stringvault/mod.rs:180-190 | a serialised directory parses back to the same map of entries |
| `Json.DirectoryParseThenPrint` | lakestream-web/src/components/stringvault/mod.rs:141-142 | a document that parses as a directory re-serialises to itself |
| `Json.ConfigAsDirectory` | lakestream-web/src/components/stringvault/mod.rs:180-184 | a configuration document read as a directory parses only when it is `{}` |
| `Storage.FormKey` | lakestream-web/src/components/stringvault/mod.rs:25-30 | the key keeps the given id and carries the tag `"FORM"`, so distinct ids give distinct keys |
| `Storage.Load` | lakestream-web/src/components/stringvault/mod.rs:76-88 | the load of a slot: success exactly when the slot is readable, present and sealed under the slot's key; `NoLocalStorageData` exactly when readable and absent; `DecryptError` exactly when the key differs; the storage error exactly when unreadable |
| `Storage.Save` | lakestream-web/src/components/stringvault/mod.rs:176-178 | a save succeeds exactly when the slot is writable, then overwrites only that slot with the sealed plaintext; a failed save writes nothing |
| `Storage.Exists` | lakestream-web/src/components/stringvault/mod.rs:66 | existence ignores the key: for a readable slot, every key sees "no data" exactly when it does not exist |
| `Vault.New` | lakestream-web/src/components/stringvault/mod.rs:41-58 | fails exactly when key derivation fails, with its error; otherwise binds the slot `(hash(username), "self")` to the password-derived key |
| `Vault.UserExists` | lakestream-web/src/components/stringvault/mod.rs:60-67 | true exactly when the user's directory slot holds a blob, whatever its key |
| `Vault.NewAndValidate` | lakestream-web/src/components/stringvault/mod.rs:69-91 | on success the vault is the one `new` builds; a failing `new` is returned as is; otherwise a failure is the directory load's own error, never `NoLocalStorageData` |
| `VaultProperties.DirectorySlotShared` | lakestream-web/src/components/stringvault/mod.rs:45-66 | `new`, `user_exists` and `reset_vault` all address `(hash_username(username), "self")` |
| `Vault.Classify` | lakestream-web/src/components/stringvault/mod.rs:76-90 | a directory load that succeeds or reports no data validates; every other error, a decrypt error included, is returned unchanged |
| `VaultProperties.NewAndValidateOutcome` | lakestream-web/src/components/stringvault/mod.rs:69-91 | `new_and_validate` by store state: absent or same-key directory gives the vault; other key gives `DecryptError`; an unreadable slot gives its storage error; derivation failure propagates |
| `Vault.ValidatePassword` | lakestream-web/src/components/stringvault/mod.rs:93-99 | `Ok(true)` exactly when validation succeeds, `Ok(false)` exactly on `DecryptError`, any other error propagated |
| `VaultProperties.ValidatePasswordOutcome` | lakestream-web/src/components/stringvault/mod.rs:93-99 | true exactly for an absent or same-key directory, false exactly for a directory sealed under another key, an error exactly for an unreadable slot |
| `VaultProperties.WrongPasswordRejected` | lakestream-web/src/components/stringvault/mod.rs:83-87 | a password with a different derived key is rejected with `DecryptError` against an existing directory |
| `VaultProperties.ChangePasswordHasNoEffect` | lakestream-web/src/components/stringvault/mod.rs:101-104 | `change_password` leaves the store unchanged: the old password still validates, the new one still fails |
| `Vault.ChangePassword` | lakestream-web/src/components/stringvault/mod.rs:101-104 | succeeds and writes nothing |
| `Vault.NewAndCreate` | lakestream-web/src/components/stringvault/mod.rs:106-130 | touches only the directory slot; on success returns the vault `new` builds and leaves no directory behind; a refused reset returns its storage error and writes nothing; after a reset, a failed `new` returns its error; any later failure is the storage error of an unreadable slot |
| `VaultProperties.NewAndCreateOutcome` | lakestream-web/src/components/stringvault/mod.rs:106-130 | `new_and_create` succeeds exactly when the slot is readable and writable and derivation succeeds; afterwards the user has no directory |
| `Vault.SetAdminKey` | lakestream-web/src/components/stringvault/mod.rs:132-135 | the object key and user are kept, only the crypto key is replaced |
| `VaultProperties.SetAdminKeyStrandsDirectory` | lakestream-web/src/components/stringvault/mod.rs:132-135 | without re-encryption, a directory readable under the old key gives `DecryptError` under a different new key |
| `Vault.ReadDirectory` | lakestream-web/src/components/stringvault/mod.rs:141-142 | a directory load error is returned unchanged; a loaded directory is parsed, giving the map or `SerdeError`; `load_secure_configuration` reads the directory the same way at lines 200-201 |
| `Vault.ReadDirectoryOrEmpty` | lakestream-web/src/components/stringvault/mod.rs:180-184 | any directory load error gives the empty directory; a loaded directory that does not parse gives `SerdeError` |
| `Vault.ListConfigurations` | lakestream-web/src/components/stringvault/mod.rs:137-160 | same key set as the directory, each value its `"NAME"` or `"Unknown"`; every load or parse error propagated |
| `VaultProperties.FirstUse` | lakestream-web/src/components/stringvault/mod.rs:141-142 | with no directory, validation succeeds but listing fails with `NoLocalStorageData` |
| `Vault.SaveSecureConfiguration` | lakestream-web/src/components/stringvault/mod.rs:162-192 | touches only the item and directory slots; a success writes the item then the directory; a failure writes at most the item and reports the failing step's error: the password generation's or the key derivation's own error with nothing written, the storage error of a refused item write, and after the item is written `SerdeError` exactly when the directory read back does not parse, otherwise the storage error of an unwritable directory slot |
| `Vault.LoadSecureConfiguration` | lakestream-web/src/components/stringvault/mod.rs:195-223 | a directory read error is returned unchanged; a success implies the directory read, holds the id with a `"PASSWD"` field, and the item slot exists |
| `VaultProperties.SaveEffect` | lakestream-web/src/components/stringvault/mod.rs:162-192 | save succeeds exactly when every step can; it then writes the item slot first and the directory slot second, upserting `{NAME, PASSWD}` for the id |
| `VaultProperties.SaveState` | lakestream-web/src/components/stringvault/mod.rs:176-191 | after a save, the item slot holds the sealed payload; the directory is the old one with only the saved id replaced; every other slot is unchanged |
| `VaultProperties.SaveThenLoad` | lakestream-web/src/components/stringvault/mod.rs:199-222 | save then load with the same object key and vault returns the original configuration, when the item and directory slots are readable |
| `VaultProperties.SaveOverUnreadableDirectory` | lakestream-web/src/components/stringvault/mod.rs:180-184 | when the directory cannot be loaded (a wrong key or a failed read included), a save leaves a directory holding only the saved entry |
| `VaultProperties.SaveFailureKeepsDirectory` | lakestream-web/src/components/stringvault/mod.rs:172-191 | a failed save never writes the directory slot; if it wrote the item, that write is the sealed payload and either the directory did not parse or its slot refused the write |
| `VaultProperties.StrandedResave` | lakestream-web/src/components/stringvault/mod.rs:176-191 | when a loadable item is re-saved under a new passphrase and only the directory write fails, the call fails, the directory is unchanged and the item now gives `DecryptError` |
| `VaultProperties.SaveIntoDirectorySlot` | lakestream-web/src/components/stringvault/mod.rs:176-190 | an item saved at the directory's own slot under another key is overwritten by the directory, and loading it gives `DecryptError` |
| `VaultProperties.SaveIntoDirectorySlotSameKey` | lakestream-web/src/components/stringvault/mod.rs:176-184 | saving a non-empty configuration into the directory slot under the directory's key writes the payload there, then fails with `SerdeError`; listing afterwards fails with `SerdeError` |
| `VaultProperties.LoadSecureConfigurationOutcome` | lakestream-web/src/components/stringvault/mod.rs:195-223 | a missing id or an entry without `"PASSWD"` gives `PasswordNotFound`; otherwise the item slot is opened under the key derived from the passphrase and id |
| `VaultProperties.NotFoundExactly` | lakestream-web/src/components/stringvault/mod.rs:202-213 | when derivation never reports it, `PasswordNotFound` means exactly a missing id or an entry without a passphrase |
| `Vault.AddConfiguration` | lakestream-web/src/components/stringvault/mod.rs:225-244 | touches only the directory slot; a failure writes nothing; a directory that does not parse gives `SerdeError`, and an unwritable directory slot gives the storage error; a success leaves the directory slot present |
| `VaultProperties.AddConfigurationEffect` | lakestream-web/src/components/stringvault/mod.rs:225-244 | add succeeds exactly when the directory reads (or counts as empty) and the slot is writable; only the directory slot is rewritten |
| `VaultProperties.AddConfigurationSetsOnlyName` | lakestream-web/src/components/stringvault/mod.rs:231-242 | add sets `"NAME"` and creates the entry if absent; it keeps every other field (an existing `"PASSWD"` too) and every other entry |
| `Vault.DeleteConfiguration` | lakestream-web/src/components/stringvault/mod.rs:246-273 | touches only the directory slot; a failure writes nothing; a directory that does not parse gives `SerdeError`, a missing id `PasswordNotFound("Configuration for <id> not found")`, and an unwritable directory slot the storage error; a success means the directory read and held the id |
| `VaultProperties.DeleteConfigurationEffect` | lakestream-web/src/components/stringvault/mod.rs:246-273 | deleting a missing id gives `PasswordNotFound` and writes nothing; otherwise exactly that entry goes, only the directory slot is rewritten, and the payload slot stays |
| `Vault.ResetVault` | lakestream-web/src/components/stringvault/mod.rs:275-286 | removes exactly the `(hash, "self")` slot; fails exactly when that slot is unwritable, then with the removal's storage error and writing nothing |
| `Storage.Delete` | lakestream-web/src/components/stringvault/mod.rs:282-283 | removal succeeds exactly when the slot is writable and then removes exactly that slot; a failure writes nothing |
| `VaultProperties.ResetErasesDirectoryOnly` | lakestream-web/src/components/stringvault/mod.rs:275-286 | after a reset the user does not exist, the password validates again (or reports the storage error of an unreadable slot), and every item payload is still stored |
| `VaultProperties.SavePreservesItemsLoadable` | lakestream-web/src/components/stringvault/mod.rs:172-191 | within one tag, if every directory entry with a passphrase loads before a save, then every entry other than the saved id still loads after it, whether it succeeds or fails part way; after a success the saved id loads too when its slot is readable |
| `VaultProperties.AddPreservesItemsLoadable` | lakestream-web/src/components/stringvault/mod.rs:225-244 | add keeps every entry with a passphrase loadable |
| `VaultProperties.DeletePreservesItemsLoadable` | lakestream-web/src/components/stringvault/mod.rs:246-273 | delete keeps every remaining entry with a passphrase loadable |
| `VaultProperties.SavedConfigurationScenario` | lakestream-web/src/components/stringvault/mod.rs:162-222 | on an empty store, "s3-prod" saved under `__NAME__` "Prod bucket" lists as that name and loads back; "s3-dev" is not found |
| `VaultProperties.NameOnlyScenario` | lakestream-web/src/components/stringvault/mod.rs:225-244 | a name added without a payload is listed but loading it gives `PasswordNotFound` |
| `InterfacesProperties.MatchSchemeIsRegex` | lakestream/src/base/interfaces.rs:76-81 | the scheme matcher succeeds exactly when `^[a-z0-9]+://` matches, and the scheme it returns is the only possible one |
| `Interfaces.MatchScheme` | lakestream/src/base/interfaces.rs:76-81 | a match splits the URI into a scheme of `[a-z0-9]+`, `://` and the rest |
| `Interfaces.ParseUri` | lakestream/src/base/interfaces.rs:69-124 | empty URI gives three `None`s; a bucket never contains `/`; a prefix is non-empty and ends in `/`; no bucket on a non-empty URI means it is exactly `<scheme>://` |
| `InterfacesProperties.ParseSchemeOnly` | lakestream/src/base/interfaces.rs:79-84 | `<scheme>://` parses to `(Some(scheme), None, None)` |
| `Interfaces.SplitOnce` | lakestream/src/base/interfaces.rs:85-86 | the bucket is the text before the first `/`, and the remainder follows that `/` |
| `Interfaces.NormalisePrefix` | lakestream/src/base/interfaces.rs:87-100 | an empty remainder gives no prefix; one ending in `/` is kept verbatim; any other gets `/` appended |
| `InterfacesProperties.FormatThenParse` | lakestream/src/base/interfaces.rs:69-124 | writing scheme, bucket and prefix as a URI and parsing it returns the same three parts |
| `InterfacesProperties.ParseUriReconstructs` | lakestream/src/base/interfaces.rs:85-122 | a parsed URI equals scheme `://` bucket `/` raw prefix, the prefix differing by at most one appended `/` |
| `Interfaces.TrimStartMatches` | lakestream/src/base/interfaces.rs:180 | the name is some number of copies of the pattern followed by the result, and the result no longer starts with the pattern |
| `Interfaces.NewObjectStore` | lakestream/src/base/interfaces.rs:175-192 | `s3://` names give an S3 bucket, other `localfs://` names a local store, anything else `"Unsupported object store."`; the store name is the name with every leading `s3://` (or `localfs://`) trimmed |
| `InterfacesProperties.BucketUriDispatch` | lakestream/src/base/interfaces.rs:33-40 | the bucket URI of `list_objects` gives an S3 bucket for `s3`, a local store for `localfs` or no scheme, each named exactly by the bucket; other schemes are unsupported |
| `InterfacesProperties.BucketUriParses` | lakestream/src/base/interfaces.rs:35-39 | the bucket URI built for a valid scheme (or none) and a non-empty bucket without `/` parses back to that scheme, `localfs` when none was given, that bucket and no prefix |
| `InterfacesProperties.ListObjectsPlan` | lakestream/src/base/interfaces.rs:25-67 | `list_objects` lists files for supported schemes, lists buckets for `<scheme>://`, and panics on the empty URI or an unsupported scheme |
| `Interfaces.PlanListObjects` | lakestream/src/base/interfaces.rs:25-67 | a file listing carries the parsed prefix; a bucket listing happens only for a URI with a scheme and no bucket |
| `Interfaces.Basename` | lakestream/src/base/interfaces.rs:265-274 | the basename ends in `/` exactly when the name does, and contains no other `/` |
| `Interfaces.TrimEndMatches` | lakestream/src/base/interfaces.rs:265 | the result is a prefix of the name, does not end in the character, and everything removed is that character |
| `Interfaces.LastSegment` | lakestream/src/base/interfaces.rs:266-270 | the result is a suffix without the separator, preceded in the name by the separator whenever it is not the whole name |
| `Interfaces.PadRight` | lakestream/src/base/interfaces.rs:276 | the result has length at least the width, starts with the text and is padded with spaces |
| `InterfacesProperties.BasenameOfPath` | lakestream/src/base/interfaces.rs:265-274 | the basename of `dir/core` followed by k slashes is `core`, plus one `/` when k > 0 |
| `InterfacesProperties.BasenameOfSlashes` | lakestream/src/base/interfaces.rs:265-274 | a name of only slashes has basename `/`, the empty name the empty basename |
| `Interfaces.Printable` | lakestream/src/base/interfaces.rs:275-284 | the line starts with the size padded to at least 8 and a space; then comes `PRE` when `modified` is absent, or the rendered time when present; then a space and the basename |

## Left out

- The cryptographic primitives (`crypto`, `string_ops`, `web_sys::CryptoKey`) are not part of this model. They are uninterpreted functions and an abstract sealed blob. Hash collisions and key strength are not expressed.
- The `SecureStorage` internals and browser `localStorage` are not part of this model. Failures are fixed sets of unreadable and unwritable slots, which do not change during an operation. Deleting an absent slot is assumed to succeed.
- The text of the storage and decrypt errors is not modelled. `DecryptError` carries no message, and `StorageError` uses a placeholder.
- JSON text is not modelled. Documents are structured values, so malformed text appears only as a document of the wrong shape.
- `async` and `spawn_local` are not modelled, and neither is the lost update from two concurrent directory read-modify-writes. The model is sequential.
- A crash between the two writes of `save_secure_configuration` is not modelled. Per-slot read and write failures are, the directory write failing after the item write included.
- `S3Bucket::new` is not part of this model. It is treated as always succeeding, as `LocalFs::new` does. The `config` maps of `ObjectStore::new` and `list_objects` are not carried.
- `list_objects` is modelled up to the choice it makes (`ListPlan`). `list_files` on S3 or the local filesystem, `list_object_stores` and the S3 XML client are network and filesystem I/O.
- `bytes_human_readable` and `time_human_readable` are not part of this model. They are parameters of `Printable`. `size` and `modified` are `nat`, with no `u64` bound, since nothing in the modelled code does arithmetic on them.
- The Leptos UI, form handlers, state and re-export modules contain no vault or URI logic.
