# CimeddaManager vault core in Dafny

CimeddaManager is a command-line password manager. Credentials are rows of a
SQLite table `credentials` (`id, service, username, password, url, notes,
created_at, updated_at`). The service name is stored in plaintext. The
password is always a Fernet token. Username, url and notes hold a token, or
the empty marker `b""` when blank. Every token is made under one active key,
derived with PBKDF2-HMAC-SHA256 (section 5.2 of RFC 8018) from the master
password and a salt kept in `salt.bin`. The encryption of a fixed constant,
kept in `verify.bin`, checks the master password.

This project models that core:

- `fernet.dfy` (module `Fernet`): the primitives as function values bundled
  in `Primitives`. Their assumed properties are collected in `Sound`: a token
  is never empty, the empty byte string is not a token, a token decrypts
  under its own key to its plaintext, and it fails under any other key. `Toy` is a concrete (insecure) instance and
  `ToySound` proves it satisfies `Sound`, so lemmas that assume `Sound` are
  not vacuous.
- `schema.dfy` (module `Schema`): the row layout, the empty-marker
  convention for optional columns, and the `Table` class. A table is a
  sequence of rows plus the clock behind `CURRENT_TIMESTAMP`, and its
  invariant is increasing positive ids and ordered timestamps.
- `security.py` becomes `security.dfy` (module `Security`): the salt and
  token files (`KeyFiles`), verification, the first-run "enter twice" loop,
  the three-attempt unlock loop, `get_master_key`, and master-password
  rotation.
- `credentials.py` becomes `credentials.dfy` (module `Credentials`): the
  session globals (`Session`), and add, get, update, delete and list over
  the table.
- `main.py` becomes `shell.dfy` (module `Shell`): `normalize_str_value`, the
  service selector, the update keyword arguments, and the cipher swap after
  a password change.

Inputs the program reads from the outside are parameters:
- `os.urandom(16)` is `random16`;
- each token's IV and timestamp are `Nonce` values;
- `getpass` input is the `Console` line sequence.

A Python `None` argument is `Option.None`, and a process exit is an outcome
value (`Exited(1)`).

Behaviour of the source worth noting:
- An empty password on add is accepted and encrypted. Only a missing
  (`None`) password fails.
- Three failed attempts end the process with status 1.
- Rotation re-prompts for the current password itself. It then decrypts
  with the cipher it was given, not with the key that prompt yields.

## Model

| member | source | states |
|---|---|---|
| Schema.OptionalRoundTrip | credentials.py:31-34 | a blank optional value is stored as the empty marker and nothing else is; reading back gives the value, or `""` for a blank one |
| Schema.NextId | db_setup.py:24-26 | the id of an inserted row is positive and larger than every existing id |
| Schema.Table.constructor | db_setup.py:24-35 | a fresh table is empty and satisfies the table invariant |
| Security.DeriveKey | security.py:21-30 | the key is a function of password, salt and iteration count (100000 unless given), 32 bytes long |
| Security.LoadOrCreateSalt | security.py:32-40 | an existing salt is returned and never overwritten; otherwise the 16 fresh bytes are stored and the same bytes returned |
| Security.StoreVerification | security.py:42-45 | the token file holds the encryption of the fixed constant under the given key |
| Security.StoredTokenVerifies | security.py:42-54 | the key that made the stored token verifies against it |
| Security.WrongKeyRejected | security.py:47-56 | any other key fails verification (invalid token gives false, no exception) |
| Security.VerifyMasterPassword | security.py:47-56 | false when there is no token file; true only when the token decrypts under the key to the fixed constant |
| Security.StoredTokenAcceptsOnlyItsKey | security.py:42-56 | a freshly stored token accepts the key that made it and rejects every other key |
| Security.EmptyTokenRejected | security.py:47-56 | an empty token file raises `InvalidToken` inside verification, so every key is rejected |
| Security.MissingTokenRejected | security.py:50-56 | with no token file, verification is false for every key |
| Security.ReadConfirmedPassword | security.py:67-79 | the entered pairs are read until one matches; every earlier pair differed; the result is the matching entry, or none if the input runs out |
| Security.UnlockAttempts | security.py:82-95 | at most 3 passwords are tried, each failure consumes one attempt, the first accepted password's key is returned, three rejections exit with status 1 |
| Security.AttemptLoopDeterministic | security.py:82-95 | the unlock outcome and the number of lines read are determined by the input |
| Security.RightPasswordUnlocks | security.py:82-89 | the password that set the token unlocks at the first attempt, with its derived key |
| Security.ThreeWrongPasswordsExit | security.py:82-95 | three passwords whose keys differ from the right one end in exit status 1 after exactly three attempts |
| Security.GetMasterKey | security.py:61-95 | the salt is loaded or created; exactly the prompt lines the loop read are consumed; with no token, a confirmed password's key is returned and only then its token stored; with a token, the bounded loop runs and the token is untouched |
| Security.ReencryptRow | security.py:129-149 | a row migrates exactly when all four encrypted columns open under the old key; the migrated row keeps id, service and timestamps |
| Security.ReencryptPreservesPlaintexts | security.py:129-149 | a migrated row keeps id, service and timestamps, each field reads under the new key as under the old, and empty markers stay empty |
| Security.ChangeMasterPassword | security.py:98-158 | re-runs the master-password prompt and stops unless it unlocks; then reads a confirmed new password from the following lines and consumes nothing else; derives its key with the same salt, commits every migrated row at once and only then replaces the token; a failed decrypt or an ended prompt leaves rows and an existing token intact |
| Credentials.Session.constructor | credentials.py:9-11 | no master key and no cipher before initialisation |
| Credentials.InitializeCredentials | credentials.py:13-18 | runs the master-password prompt (salt loaded or created, lines consumed, token written only on first run); after unlocking, the master key and the active cipher are the unlocked key, which verifies against the token file; otherwise the session is unchanged |
| Credentials.ReinitializeCipher | credentials.py:24-28 | the active cipher is replaced wholesale by the new key |
| Credentials.AddCredential | credentials.py:30-43 | a missing password fails before anything is written, a missing service inserts nothing, otherwise exactly one row is appended at the next id and time and the others are unchanged |
| Credentials.NewRowLayout | credentials.py:30-41 | in the appended row the service is plaintext, the password always decrypts to its value, and each optional field is the empty marker exactly when blank and otherwise decrypts to its value |
| Credentials.FindService | credentials.py:48-53 | the row read is the first in storage order whose service equals the argument; none exactly when no row has it |
| Credentials.GetCredential | credentials.py:45-89 | no record exactly when no row has the service; otherwise id, service and both timestamps are copied from the first such row |
| Credentials.AddThenGet | credentials.py:30-89 | reading a newly added service returns the username, password, url and notes given (blank ones as `""`) |
| Credentials.AddKeepsFirstMatch | credentials.py:48-53 | adding a duplicate service does not change what a read of it returns |
| Credentials.ShowOptional | credentials.py:57-60 | a non-empty column that fails to decrypt shows "Decryption failed"; any other shown value is what the column opens to |
| Credentials.ShowRequired | credentials.py:62-65 | a password that fails to decrypt shows "Decryption failed"; any other shown value is its plaintext |
| Credentials.ShownField | credentials.py:57-75 | a token under the reading key shows its plaintext, one under another key shows "Decryption failed", and the empty marker shows `""` in an optional column but fails in the password column |
| Credentials.DecryptRow | credentials.py:57-87 | id, service and both timestamps are copied; an empty optional column shows `""` |
| Credentials.DecryptFailureStaysInItsField | credentials.py:57-75 | replacing any one of the four columns by a token under another key makes that column show "Decryption failed" and leaves every other field of the record as it was |
| Credentials.UpdateCredential | credentials.py:91-130 | with nothing supplied, false and the table unchanged; otherwise every matching row gets the supplied fields and a new update time, other rows are unchanged, and the result is whether any row matched |
| Credentials.UpdatedRowFields | credentials.py:96-126 | on an updated row only the supplied fields change, each to a token of its new value; id, service and creation time are kept |
| Credentials.PasswordUpdateThenGet | credentials.py:100-130 | after changing only the password, a read shows the new password, every other field as before and a later update time |
| Credentials.WithoutService | credentials.py:136-139 | the remaining rows are exactly those with another service; none is removed exactly when no row matched |
| Credentials.WithoutServiceKeepsIdsIncreasing | credentials.py:136-139 | deleting rows leaves the remaining ids in increasing order |
| Credentials.DeleteCredential | credentials.py:133-143 | every row of the service is removed and no other; the result is whether any row was removed |
| Credentials.ListServices | credentials.py:145-151 | one `(id, service)` pair per row, in storage order, without decryption |
| Credentials.GetAfterRotation | security.py:129-151 | after a completed rotation every service, listed or not, reads under the new key exactly as it read under the old one |
| Shell.NormalizeStrValue | main.py:114-118 | `None` exactly for the text "None", the text itself otherwise |
| Shell.Strip | main.py:199-206 | `str.strip()`: a slice of the input with only whitespace before and after it and non-whitespace ends, empty exactly when the input is all whitespace |
| Shell.MatchingServices | main.py:85-89 | exactly the services whose lowercased name contains the lowercased query, each with its listing index, in listing order |
| Shell.SelectByText | main.py:85-110 | a text search selects only a listed service that matches the query |
| Shell.NoMatchSelectsNothing | main.py:91-92 | with no match nothing is selected |
| Shell.UniqueMatchSelected | main.py:93-95 | a single match is selected without a second prompt |
| Shell.RefinedSelection | main.py:96-110 | with several matches, a refined number selects only a matching index, and then that service; anything else selects nothing |
| Shell.SelectServiceAsWritten | main.py:62-112 | the selector as written: agrees with the guarded selector on text and on in-range numbers, and raises `IndexError` exactly for numbers below minus the list length or at least the list length |
| Shell.InvalidNumberStillSelects | main.py:77-82 | as written, the number -1 is reported invalid yet selects the last service, and one past the end raises `IndexError` |
| Shell.SelectService | main.py:62-112 | the selector with the range check guarding the index: never raises, and a number selects only the service at that in-range position |
| Shell.PutStripped | main.py:199-200 | one conditional insert: the key is added exactly when the stripped input is non-empty, with that value, and other keys are untouched |
| Shell.BuildUpdateArgs | main.py:197-206 | a field's key is present exactly when its stripped input is non-empty, with the stripped input as value; a `None` input fails |
| Shell.KwargsSupplyNonBlankFields | main.py:197-208 | passed to the update, a field is supplied exactly when its input was not blank, with the stripped value |
| Shell.BlankInputsUpdateNothing | main.py:197-208 | all-blank inputs leave the update with nothing to write |
| Shell.ChooseChangeMasterPassword | main.py:233-238 | after a completed rotation the active cipher is the returned key, under which every service reads as before, and the token file accepts that key and no other; otherwise cipher, rows and an existing token are unchanged |

## Left out

- Cryptographic internals are not modelled: PBKDF2, Fernet's AES-CBC/HMAC token format and the base64url key encoding (section 5 of RFC 4648). They are foreign library calls, replaced by the abstract `Primitives` constrained by `Sound`.
- UTF-8 `encode()`/`decode()` are folded into the cipher, whose plaintexts are strings. A token that authenticates but does not decode as UTF-8 is not modelled.
- Security.DeriveKey: determinism and the 32-byte length come from its being a function into `Key`; that different inputs give different keys is not claimed.
- `str.lower()` is modelled on ASCII letters only. Unicode case mapping is not part of this model.
- `int()` parsing of the selector input is not modelled. The parsed outcome is given as `Input` (a number or text) and the refined number as `Option<int>`.
- Prompts, colour output, `os.system('cls')` and printed messages are left out. Prompts become the `Console` line sequence; reaching its end is the `EndOfInput` outcome.
- The idle-lock thread and its timer (`monitor_activity`, `reset_timer`, `LOCK_TIMEOUT`) are left out: they are concurrency and wall-clock behaviour.
- `CURRENT_TIMESTAMP` is the table's clock, ticked once per INSERT or UPDATE statement. Wall-clock time is not modelled.
- File and SQLite I/O (`get_db_connection`, `initialize_db`, commit, `rowcount`) become operations on the `Table` and `KeyFiles` objects. Storage errors are not modelled.
- The menu loop of `main()` is left out as a loop: its prompts, messages and dispatch are I/O. Only choice 5's cipher swap and choice 3's argument building are members.
- Choice 1 normalises its five inputs and passes them to `add_credential` (main.py:155-161); this call is not a separate member.
- Choices 2, 3 and 4 act only when the selected service is truthy (main.py:168, 189, 220). A selector result of `None`, or a service named `""`, is reported as an invalid selection and nothing else happens. This check is not a member.
- Choice 4 deletes only when the lower-cased confirmation answer is exactly `y` (main.py:221-222); any other answer cancels. The confirmation prompt is not modelled.
- `get_cipher` is the read of `Session.cipher`.
- The Excel import is commented out in the source and is not part of this model.
- Security.ChangeMasterPassword: the key returned by the re-verification prompt is not used for decryption, as in the source; the contract states only the prompt's outcome (`check`), not that this key equals the session's cipher.
- Credentials.ShowOptional, Credentials.ShowRequired: the sentinel is not claimed to mean failure, because a stored plaintext may itself be the text "Decryption failed".

## Findings

| source | as written | input that shows it | evidently intended | confidence | as-written member | corrected member |
|---|---|---|---|---|---|---|
| main.py:79-82 | an out-of-range number prints "Invalid selection." and is then still used to index the service list | the number -1 with at least one service listed selects the last service; the number equal to the list length raises `IndexError` | an out-of-range number selects nothing | not executed | Shell.InvalidNumberStillSelects | Shell.SelectService |
