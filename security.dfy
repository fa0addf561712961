/**
 * Master-password handling: key derivation, the salt and verification-token
 * files, the unlock state machine, and master-password rotation, which
 * re-encrypts every row of the table under a key derived from a new password.
 */
module Security {
  import opened Wrappers
  import opened Fernet
  import opened Schema

  /** The fixed plaintext whose encryption is the verification token. */
  const VERIFICATION_TOKEN: string := "This is a verification token."
  /** Failed verifications allowed before the process exits. */
  const MAX_ATTEMPTS: nat := 3
  /** PBKDF2 iteration count used when the caller gives none. */
  const DEFAULT_ITERATIONS: nat := 100000
  /** Length of a newly generated salt. */
  const SALT_LENGTH: nat := 16

  /** The two files next to the database: `salt.bin` and `verify.bin`; `None` when absent. */
  class KeyFiles {
    var salt: Option<Bytes>
    var verify: Option<Bytes>

    constructor (salt: Option<Bytes>, verify: Option<Bytes>)
      ensures this.salt == salt && this.verify == verify
    {
      this.salt := salt;
      this.verify := verify;
    }
  }

  /** The lines `getpass` will read, in order; reading past the end is an `EOFError`. */
  class Console {
    var lines: seq<string>

    constructor (lines: seq<string>)
      ensures this.lines == lines
    {
      this.lines := lines;
    }
  }

  /** How a password prompt sequence ends. */
  datatype Unlock =
    | Unlocked(key: Key)       // the key of a verified (or newly set) master password
    | Exited(status: int)      // `exit(status)` after too many failures
    | EndOfInput               // `getpass` hit the end of its input

  /** The key for `password`: deterministic in its three inputs and 32 bytes long. */
  function DeriveKey(prim: Primitives, password: string, salt: Bytes,
                     iterations: nat := DEFAULT_ITERATIONS): (k: Key)
    ensures |k| == KEY_LENGTH
  {
    prim.derive(password, salt, iterations)
  }

  /** Returns the stored salt; only when there is none, stores and returns `random16`. */
  method LoadOrCreateSalt(files: KeyFiles, random16: Bytes) returns (salt: Bytes)
    requires |random16| == SALT_LENGTH
    modifies files`salt
    ensures old(files.salt).Some? ==> salt == old(files.salt).value && files.salt == old(files.salt)
    ensures old(files.salt).None? ==> salt == random16 && files.salt == Some(random16)
  {
    if files.salt.Some? {
      salt := files.salt.value;
    } else {
      salt := random16;
      files.salt := Some(salt);
    }
  }

  /** Overwrites `verify.bin` with the encryption of the fixed token under `k`. */
  method StoreVerification(prim: Primitives, files: KeyFiles, k: Key, iv: Nonce)
    modifies files`verify
    ensures files.verify == Some(prim.encrypt(k, VERIFICATION_TOKEN, iv))
  {
    files.verify := Some(prim.encrypt(k, VERIFICATION_TOKEN, iv));
  }

  /**
   * Whether `key` opens the stored token to exactly the fixed constant. A
   * missing file (`None`) and a token that fails to authenticate both give
   * false; nothing is raised.
   */
  predicate VerifyMasterPassword(prim: Primitives, key: Key, token: Option<Bytes>)
    ensures token.None? ==> !VerifyMasterPassword(prim, key, token)
    ensures VerifyMasterPassword(prim, key, token) ==> prim.decrypt(key, token.value) == Some(VERIFICATION_TOKEN)
  {
    match token
    case None => false
    case Some(t) => prim.decrypt(key, t) == Some(VERIFICATION_TOKEN)
  }

  lemma StoredTokenVerifies(prim: Primitives, k: Key, iv: Nonce)
    requires Sound(prim)
    ensures VerifyMasterPassword(prim, k, Some(prim.encrypt(k, VERIFICATION_TOKEN, iv)))
  {
  }

  lemma WrongKeyRejected(prim: Primitives, k: Key, k': Key, iv: Nonce)
    requires Sound(prim) && k' != k
    ensures !VerifyMasterPassword(prim, k', Some(prim.encrypt(k, VERIFICATION_TOKEN, iv)))
  {
  }

  /** A freshly stored token accepts the key that made it and no other. */
  lemma StoredTokenAcceptsOnlyItsKey(prim: Primitives, k: Key, iv: Nonce)
    requires Sound(prim)
    ensures VerifyMasterPassword(prim, k, Some(prim.encrypt(k, VERIFICATION_TOKEN, iv)))
    ensures forall k' :: k' != k ==>
      !VerifyMasterPassword(prim, k', Some(prim.encrypt(k, VERIFICATION_TOKEN, iv)))
  {
    StoredTokenVerifies(prim, k, iv);
    forall k': Key | k' != k
      ensures !VerifyMasterPassword(prim, k', Some(prim.encrypt(k, VERIFICATION_TOKEN, iv)))
    {
      WrongKeyRejected(prim, k, k', iv);
    }
  }

  lemma MissingTokenRejected(prim: Primitives, k: Key)
    ensures !VerifyMasterPassword(prim, k, None)
  {
  }

  /** An empty (truncated) token file rejects every key. */
  lemma EmptyTokenRejected(prim: Primitives, k: Key)
    requires Sound(prim)
    ensures !VerifyMasterPassword(prim, k, Some([]))
  {
  }

  /** Whether the password typed is accepted against the stored token. */
  predicate Accepts(prim: Primitives, salt: Bytes, token: Option<Bytes>, password: string) {
    VerifyMasterPassword(prim, DeriveKey(prim, password, salt), token)
  }

  // ---------------------------------------------------------------------
  // The "enter twice until both match" loop (first run and new password).

  /** The `j`-th pair of entries (password, confirmation) differs. */
  predicate Mismatch(lines: seq<string>, j: nat)
    requires 2 * j + 1 < |lines|
  {
    lines[2 * j] != lines[2 * j + 1]
  }

  /**
   * The loop read `used` lines: either pairs that differ followed by a
   * matching pair whose value is `pw`, or only differing pairs until the
   * input ran out (`pw == None`).
   */
  ghost predicate ConfirmLoop(lines: seq<string>, pw: Option<string>, used: nat) {
    match pw
    case Some(p) =>
      && 2 <= used <= |lines| && used % 2 == 0
      && lines[used - 2] == p && lines[used - 1] == p
      && forall j :: 0 <= j < used / 2 - 1 ==> Mismatch(lines, j)
    case None =>
      && used == |lines|
      && forall j :: 0 <= j < |lines| / 2 ==> Mismatch(lines, j)
  }

  method ReadConfirmedPassword(lines: seq<string>) returns (pw: Option<string>, used: nat)
    ensures ConfirmLoop(lines, pw, used)
  {
    var pair := 0;
    while 2 * pair + 1 < |lines|
      invariant 2 * pair <= |lines|
      invariant forall j :: 0 <= j < pair ==> Mismatch(lines, j)
      decreases |lines| - 2 * pair
    {
      if lines[2 * pair] == lines[2 * pair + 1] {
        return Some(lines[2 * pair]), 2 * pair + 2;
      }
      pair := pair + 1;
    }
    return None, |lines|;
  }

  // ---------------------------------------------------------------------
  // The bounded verification loop.

  /**
   * The loop read `used` lines and ended with `o`: every password before the
   * last one read was rejected; the last one unlocks, or the third rejection
   * exits with status 1, or the input ran out before the third attempt.
   */
  ghost predicate AttemptLoop(prim: Primitives, salt: Bytes, token: Option<Bytes>,
                              lines: seq<string>, o: Unlock, used: nat) {
    && used <= |lines|
    && match o
       case Unlocked(k) =>
         && 1 <= used <= MAX_ATTEMPTS
         && Accepts(prim, salt, token, lines[used - 1])
         && k == DeriveKey(prim, lines[used - 1], salt)
         && forall j :: 0 <= j < used - 1 ==> !Accepts(prim, salt, token, lines[j])
       case Exited(status) =>
         && status == 1 && used == MAX_ATTEMPTS
         && forall j :: 0 <= j < used ==> !Accepts(prim, salt, token, lines[j])
       case EndOfInput =>
         && used == |lines| < MAX_ATTEMPTS
         && forall j :: 0 <= j < used ==> !Accepts(prim, salt, token, lines[j])
  }

  method UnlockAttempts(prim: Primitives, salt: Bytes, token: Option<Bytes>, lines: seq<string>)
    returns (o: Unlock, used: nat)
    ensures AttemptLoop(prim, salt, token, lines, o, used)
  {
    var attempts := 0;
    while attempts < MAX_ATTEMPTS
      invariant attempts <= MAX_ATTEMPTS && attempts <= |lines|
      invariant forall j :: 0 <= j < attempts ==> !Accepts(prim, salt, token, lines[j])
    {
      if attempts == |lines| {
        return EndOfInput, attempts;
      }
      var key := DeriveKey(prim, lines[attempts], salt);
      if VerifyMasterPassword(prim, key, token) {
        return Unlocked(key), attempts + 1;
      }
      attempts := attempts + 1;
    }
    return Exited(1), attempts;
  }

  /** The loop's outcome is determined by its input. */
  lemma AttemptLoopDeterministic(prim: Primitives, salt: Bytes, token: Option<Bytes>,
                                 lines: seq<string>, o1: Unlock, used1: nat, o2: Unlock, used2: nat)
    requires AttemptLoop(prim, salt, token, lines, o1, used1)
    requires AttemptLoop(prim, salt, token, lines, o2, used2)
    ensures o1 == o2 && used1 == used2
  {
  }

  /** Entering the password that set the token unlocks at the first attempt. */
  lemma RightPasswordUnlocks(prim: Primitives, salt: Bytes, pw: string, iv: Nonce,
                             lines: seq<string>, o: Unlock, used: nat)
    requires Sound(prim)
    requires lines != [] && lines[0] == pw
    requires AttemptLoop(prim, salt, Some(prim.encrypt(DeriveKey(prim, pw, salt), VERIFICATION_TOKEN, iv)),
                         lines, o, used)
    ensures o == Unlocked(DeriveKey(prim, pw, salt)) && used == 1
  {
    var token := Some(prim.encrypt(DeriveKey(prim, pw, salt), VERIFICATION_TOKEN, iv));
    StoredTokenVerifies(prim, DeriveKey(prim, pw, salt), iv);
    assert Accepts(prim, salt, token, lines[0]);
  }

  /** Three passwords whose keys differ from the right one end in `exit(1)`. */
  lemma ThreeWrongPasswordsExit(prim: Primitives, salt: Bytes, pw: string, iv: Nonce,
                                lines: seq<string>, o: Unlock, used: nat)
    requires Sound(prim)
    requires |lines| >= MAX_ATTEMPTS
    requires forall j :: 0 <= j < MAX_ATTEMPTS ==> DeriveKey(prim, lines[j], salt) != DeriveKey(prim, pw, salt)
    requires AttemptLoop(prim, salt, Some(prim.encrypt(DeriveKey(prim, pw, salt), VERIFICATION_TOKEN, iv)),
                         lines, o, used)
    ensures o == Exited(1) && used == MAX_ATTEMPTS
  {
    var k := DeriveKey(prim, pw, salt);
    var token := Some(prim.encrypt(k, VERIFICATION_TOKEN, iv));
    forall j | 0 <= j < MAX_ATTEMPTS
      ensures !Accepts(prim, salt, token, lines[j])
    {
      WrongKeyRejected(prim, k, DeriveKey(prim, lines[j], salt), iv);
    }
  }

  // ---------------------------------------------------------------------
  // get_master_key

  /**
   * Loads or creates the salt. With no token file (first run), reads
   * password pairs until one matches, stores the token for its key and
   * returns that key. Otherwise runs the bounded verification loop against
   * the stored token. `used` is the number of console lines consumed.
   */
  /**
   * The outcome of the master-password prompt of `get_master_key` after
   * reading the first `used` lines: with no token file, the "enter twice"
   * loop, whose confirmed password gives the key; with a token file, the
   * bounded unlock loop.
   */
  ghost predicate PromptOutcome(prim: Primitives, salt: Bytes, token: Option<Bytes>,
                                lines: seq<string>, o: Unlock, used: nat) {
    match token
    case None =>
      if o.Unlocked? then
        && 2 <= used <= |lines| && ConfirmLoop(lines, Some(lines[used - 2]), used)
        && o.key == DeriveKey(prim, lines[used - 2], salt)
      else
        o == EndOfInput && ConfirmLoop(lines, None, used)
    case Some(_) =>
      AttemptLoop(prim, salt, token, lines, o, used)
  }

  method GetMasterKey(prim: Primitives, files: KeyFiles, console: Console,
                      random16: Bytes, tokenIv: Nonce)
    returns (o: Unlock, ghost used: nat)
    requires |random16| == SALT_LENGTH
    modifies files, console
    ensures files.salt == Some(old(files.salt).GetOr(random16))
    ensures used <= |old(console.lines)| && console.lines == old(console.lines)[used..]
    ensures PromptOutcome(prim, files.salt.value, old(files.verify), old(console.lines), o, used)
    // The token is written only on first run, and only once a password is confirmed.
    ensures files.verify ==
      if old(files.verify).None? && o.Unlocked?
      then Some(prim.encrypt(o.key, VERIFICATION_TOKEN, tokenIv))
      else old(files.verify)
  {
    var salt := LoadOrCreateSalt(files, random16);
    if files.verify.None? {
      var pw, n := ReadConfirmedPassword(console.lines);
      used := n;
      console.lines := console.lines[n..];
      if pw.None? {
        return EndOfInput, used;
      }
      var key := DeriveKey(prim, pw.value, salt);
      StoreVerification(prim, files, key, tokenIv);
      return Unlocked(key), used;
    }
    var n;
    o, n := UnlockAttempts(prim, salt, files.verify, console.lines);
    used := n;
    console.lines := console.lines[n..];
  }

  // ---------------------------------------------------------------------
  // change_master_password

  /**
   * One row's migration: each stored field opened with the old key and
   * sealed again with the new one; `None` when any field fails to
   * authenticate (the `InvalidToken` that aborts the rotation).
   */
  /** Every encrypted column of `row` opens under `k`. */
  predicate OpensUnder(prim: Primitives, row: Row, k: Key) {
    && OpenOptional(prim, k, row.username).Some? && prim.decrypt(k, row.password).Some?
    && OpenOptional(prim, k, row.url).Some? && OpenOptional(prim, k, row.notes).Some?
  }

  function ReencryptRow(prim: Primitives, row: Row, oldKey: Key, newKey: Key, iv: RowNonces): (r: Option<Row>)
    ensures r.Some? <==> OpensUnder(prim, row, oldKey)
    ensures r.Some? ==>
      && r.value.id == row.id && r.value.service == row.service
      && r.value.createdAt == row.createdAt && r.value.updatedAt == row.updatedAt
  {
    var username := OpenOptional(prim, oldKey, row.username);
    var password := prim.decrypt(oldKey, row.password);
    var url := OpenOptional(prim, oldKey, row.url);
    var notes := OpenOptional(prim, oldKey, row.notes);
    if username.None? || password.None? || url.None? || notes.None? then None
    else Some(row.(
      username := SealOptional(prim, newKey, username, iv.username),
      password := prim.encrypt(newKey, password.value, iv.password),
      url := SealOptional(prim, newKey, url, iv.url),
      notes := SealOptional(prim, newKey, notes, iv.notes)))
  }

  /**
   * A migrated row keeps its id, service and timestamps, and each field
   * reads under the new key exactly as it read under the old one.
   */
  lemma ReencryptPreservesPlaintexts(prim: Primitives, row: Row, oldKey: Key, newKey: Key,
                                     iv: RowNonces, row': Row)
    requires Sound(prim)
    requires ReencryptRow(prim, row, oldKey, newKey, iv) == Some(row')
    ensures row'.id == row.id && row'.service == row.service
    ensures row'.createdAt == row.createdAt && row'.updatedAt == row.updatedAt
    ensures OpenOptional(prim, newKey, row'.username) == OpenOptional(prim, oldKey, row.username)
    ensures prim.decrypt(newKey, row'.password) == prim.decrypt(oldKey, row.password)
    ensures OpenOptional(prim, newKey, row'.url) == OpenOptional(prim, oldKey, row.url)
    ensures OpenOptional(prim, newKey, row'.notes) == OpenOptional(prim, oldKey, row.notes)
    ensures row'.username == [] <==> OpenOptional(prim, oldKey, row.username) == Some("")
    ensures row'.url == [] <==> OpenOptional(prim, oldKey, row.url) == Some("")
    ensures row'.notes == [] <==> OpenOptional(prim, oldKey, row.notes) == Some("")
  {
    OptionalRoundTrip(prim, newKey, OpenOptional(prim, oldKey, row.username), iv.username);
    OptionalRoundTrip(prim, newKey, OpenOptional(prim, oldKey, row.url), iv.url);
    OptionalRoundTrip(prim, newKey, OpenOptional(prim, oldKey, row.notes), iv.notes);
  }

  /** How a rotation ends. */
  datatype Rotation =
    | Rotated(newKey: Key)   // rows re-encrypted and committed, token replaced
    | Halted(why: Unlock)    // the re-verification or a prompt ended the process first
    | DecryptFailed          // a stored field did not authenticate under the old cipher

  /**
   * Re-verifies the current password, reads a confirmed new password,
   * derives its key with the existing salt, re-encrypts every row from the
   * old cipher `cipher` to the new key, commits all rows at once, and only
   * then replaces the verification token.
   */
  method ChangeMasterPassword(prim: Primitives, files: KeyFiles, db: Table, console: Console,
                              cipher: Key, random16: Bytes, tokenIv: Nonce, newTokenIv: Nonce,
                              ivs: seq<RowNonces>)
    returns (r: Rotation, ghost check: Unlock, ghost newPassword: string,
             ghost used1: nat, ghost used2: nat)
    requires |random16| == SALT_LENGTH
    requires db.Valid() && |ivs| == |db.rows|
    modifies files, db, console
    ensures db.Valid() && db.clock == old(db.clock)
    ensures files.salt == Some(old(files.salt).GetOr(random16))
    // The console: `used1` lines for the re-check of the current password,
    // then `used2` lines for the new one, and nothing else.
    ensures used1 + used2 <= |old(console.lines)|
    ensures console.lines == old(console.lines)[used1 + used2..]
    ensures PromptOutcome(prim, files.salt.value, old(files.verify), old(console.lines), check, used1)
    ensures !check.Unlocked? ==> r == Halted(check) && used2 == 0
    ensures check.Unlocked? ==>
      && ConfirmLoop(old(console.lines)[used1..], if r.Halted? then None else Some(newPassword), used2)
      && (r.Halted? ==> r.why == EndOfInput)
    ensures r.Rotated? ==>
      && r.newKey == DeriveKey(prim, newPassword, files.salt.value)
      && |db.rows| == |old(db.rows)|
      && (forall i :: 0 <= i < |db.rows| ==>
            ReencryptRow(prim, old(db.rows)[i], cipher, r.newKey, ivs[i]) == Some(db.rows[i]))
      && files.verify == Some(prim.encrypt(r.newKey, VERIFICATION_TOKEN, newTokenIv))
    ensures r.DecryptFailed? ==>
      && db.rows == old(db.rows)
      && (exists i :: 0 <= i < |db.rows| && ReencryptRow(prim, db.rows[i], cipher, DeriveKey(prim, newPassword, files.salt.value), ivs[i]).None?)
    ensures r.Halted? ==> db.rows == old(db.rows) && !r.why.Unlocked?
    ensures !r.Rotated? && old(files.verify).Some? ==> files.verify == old(files.verify)
  {
    newPassword, used2 := "", 0;
    // The current password is checked again; the key it yields is not used.
    ghost var lines0 := console.lines;
    var current;
    current, used1 := GetMasterKey(prim, files, console, random16, tokenIv);
    check := current;
    if !current.Unlocked? {
      r := Halted(current);
      return;
    }
    var pw, used := ReadConfirmedPassword(console.lines);
    used2 := used;
    console.lines := console.lines[used..];
    assert console.lines == lines0[used1 + used2..];
    if pw.None? {
      r := Halted(EndOfInput);
      return;
    }
    newPassword := pw.value;
    var salt := LoadOrCreateSalt(files, random16);
    var newKey := DeriveKey(prim, pw.value, salt);

    var rows := db.rows;
    var migrated: seq<Row> := [];
    for i := 0 to |rows|
      invariant |migrated| == i
      invariant forall j :: 0 <= j < i ==> ReencryptRow(prim, rows[j], cipher, newKey, ivs[j]) == Some(migrated[j])
    {
      var row := rows[i];
      var username := OpenOptional(prim, cipher, row.username);
      var password := prim.decrypt(cipher, row.password);
      var url := OpenOptional(prim, cipher, row.url);
      var notes := OpenOptional(prim, cipher, row.notes);
      if username.None? || password.None? || url.None? || notes.None? {
        // InvalidToken propagates: nothing is committed, the token is kept.
        r := DecryptFailed;
        return;
      }
      migrated := migrated + [row.(
        username := SealOptional(prim, newKey, username, ivs[i].username),
        password := prim.encrypt(newKey, password.value, ivs[i].password),
        url := SealOptional(prim, newKey, url, ivs[i].url),
        notes := SealOptional(prim, newKey, notes, ivs[i].notes))];
    }
    db.rows := migrated;  // the single commit
    StoreVerification(prim, files, newKey, newTokenIv);
    r := Rotated(newKey);
  }
}
