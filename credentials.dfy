/**
 * The credential store: add, get, update, delete and list over the table,
 * with every secret column encrypted under the session's single active
 * cipher key.
 */
module Credentials {
  import opened Wrappers
  import opened Fernet
  import opened Schema
  import opened Security

  /** What a read shows for a field that does not authenticate. */
  const DECRYPTION_FAILED: string := "Decryption failed"

  /** The module-level globals `_master_key` and `cipher` (a cipher is identified by its key). */
  class Session {
    var masterKey: Option<Key>
    var cipher: Option<Key>

    constructor ()
      ensures masterKey == None && cipher == None
    {
      masterKey := None;
      cipher := None;
    }
  }

  /** Unlocks (or sets up) the master password and installs its key as the active cipher. */
  method InitializeCredentials(prim: Primitives, session: Session, files: KeyFiles, console: Console,
                               random16: Bytes, tokenIv: Nonce)
    returns (o: Unlock, ghost used: nat)
    requires Sound(prim) && |random16| == SALT_LENGTH
    modifies session, files, console
    ensures files.salt == Some(old(files.salt).GetOr(random16))
    ensures used <= |old(console.lines)| && console.lines == old(console.lines)[used..]
    ensures PromptOutcome(prim, files.salt.value, old(files.verify), old(console.lines), o, used)
    ensures files.verify ==
      if old(files.verify).None? && o.Unlocked?
      then Some(prim.encrypt(o.key, VERIFICATION_TOKEN, tokenIv))
      else old(files.verify)
    ensures o.Unlocked? ==> session.masterKey == Some(o.key) && session.cipher == Some(o.key)
    ensures o.Unlocked? ==> VerifyMasterPassword(prim, o.key, files.verify)
    ensures !o.Unlocked? ==> session.masterKey == old(session.masterKey) && session.cipher == old(session.cipher)
  {
    o, used := GetMasterKey(prim, files, console, random16, tokenIv);
    if o.Unlocked? {
      if old(files.verify).None? {
        StoredTokenVerifies(prim, o.key, tokenIv);
      }
      session.masterKey := Some(o.key);
      session.cipher := Some(o.key);
    }
  }

  /** Replaces the active cipher wholesale; `_master_key` is left as it was. */
  method ReinitializeCipher(session: Session, newKey: Key)
    modifies session`cipher
    ensures session.cipher == Some(newKey)
  {
    session.cipher := Some(newKey);
  }

  // ---------------------------------------------------------------------
  // add_credential

  /** How `add_credential` ends. */
  datatype AddResult =
    | Added
    | PasswordMissing   // `None.encode()`: AttributeError before anything is written
    | ServiceMissing    // NOT NULL constraint on `service`: nothing inserted

  /** The row an INSERT appends at time `now`. */
  function NewRow(prim: Primitives, k: Key, rows: seq<Row>, service: string, username: Option<string>,
                  password: string, url: Option<string>, notes: Option<string>,
                  iv: RowNonces, now: nat): Row
    requires IdsIncreasing(rows)
  {
    Row(NextId(rows), service,
        SealOptional(prim, k, username, iv.username),
        prim.encrypt(k, password, iv.password),
        SealOptional(prim, k, url, iv.url),
        SealOptional(prim, k, notes, iv.notes),
        now, now)
  }

  method AddCredential(prim: Primitives, session: Session, db: Table, service: Option<string>,
                       username: Option<string>, password: Option<string>,
                       url: Option<string>, notes: Option<string>, iv: RowNonces)
    returns (r: AddResult)
    requires session.cipher.Some? && db.Valid()
    modifies db
    ensures db.Valid()
    ensures r == (if password.None? then PasswordMissing else if service.None? then ServiceMissing else Added)
    ensures r.Added? ==>
      && db.clock == old(db.clock) + 1
      && db.rows == old(db.rows) + [NewRow(prim, session.cipher.value, old(db.rows), service.value, username,
                                           password.value, url, notes, iv, db.clock)]
    ensures !r.Added? ==> db.rows == old(db.rows) && db.clock == old(db.clock)
  {
    var k := session.cipher.value;
    if password.None? {
      return PasswordMissing;
    }
    var encryptedPassword := prim.encrypt(k, password.value, iv.password);
    var encryptedUsername := SealOptional(prim, k, username, iv.username);
    var encryptedUrl := SealOptional(prim, k, url, iv.url);
    var encryptedNotes := SealOptional(prim, k, notes, iv.notes);
    if service.None? {
      return ServiceMissing;
    }
    db.clock := db.clock + 1;
    var row := Row(NextId(db.rows), service.value, encryptedUsername, encryptedPassword,
                   encryptedUrl, encryptedNotes, db.clock, db.clock);
    db.rows := db.rows + [row];
    r := Added;
  }

  /**
   * In an appended row the service is plaintext, the password always
   * decrypts to its value, and each optional field is the empty marker
   * exactly when it was blank and otherwise decrypts to its value.
   */
  lemma NewRowLayout(prim: Primitives, k: Key, rows: seq<Row>, service: string, username: Option<string>,
                     password: string, url: Option<string>, notes: Option<string>,
                     iv: RowNonces, now: nat)
    requires Sound(prim) && IdsIncreasing(rows)
    ensures var row := NewRow(prim, k, rows, service, username, password, url, notes, iv, now);
      && row.service == service
      && row.password != [] && prim.decrypt(k, row.password) == Some(password)
      && (row.username == [] <==> !Supplied(username))
      && (row.url == [] <==> !Supplied(url))
      && (row.notes == [] <==> !Supplied(notes))
      && OpenOptional(prim, k, row.username) == Some(username.GetOr(""))
      && OpenOptional(prim, k, row.url) == Some(url.GetOr(""))
      && OpenOptional(prim, k, row.notes) == Some(notes.GetOr(""))
      && IdsIncreasing(rows + [row])
  {
    OptionalRoundTrip(prim, k, username, iv.username);
    OptionalRoundTrip(prim, k, url, iv.url);
    OptionalRoundTrip(prim, k, notes, iv.notes);
  }

  // ---------------------------------------------------------------------
  // get_credential

  /** The tuple `get_credential` returns, with the secret fields decrypted. */
  datatype Record = Record(
    id: nat, service: string, username: string, password: string,
    url: string, notes: string, createdAt: nat, updatedAt: nat)

  /** An optional field as shown: `""` for the empty marker, the sentinel on failure. */
  function ShowOptional(prim: Primitives, k: Key, c: Bytes): (r: string)
    ensures c != [] && prim.decrypt(k, c).None? ==> r == DECRYPTION_FAILED
    ensures r != DECRYPTION_FAILED ==> OpenOptional(prim, k, c) == Some(r)
  {
    match OpenOptional(prim, k, c)
    case Some(m) => m
    case None => DECRYPTION_FAILED
  }

  /** The password field as shown: always decrypted, the sentinel on failure. */
  function ShowRequired(prim: Primitives, k: Key, c: Bytes): (r: string)
    ensures prim.decrypt(k, c).None? ==> r == DECRYPTION_FAILED
    ensures r != DECRYPTION_FAILED ==> prim.decrypt(k, c) == Some(r)
  {
    match prim.decrypt(k, c)
    case Some(m) => m
    case None => DECRYPTION_FAILED
  }

  /**
   * What a field shows: a token made under the reading key shows its
   * plaintext, one made under another key shows the sentinel, and the empty
   * marker shows `""` in an optional column but fails in the password column.
   */
  lemma ShownField(prim: Primitives, k: Key, other: Key, m: string, iv: Nonce)
    requires Sound(prim)
    ensures ShowRequired(prim, k, prim.encrypt(k, m, iv)) == m
    ensures ShowOptional(prim, k, prim.encrypt(k, m, iv)) == m
    ensures other != k ==> ShowRequired(prim, k, prim.encrypt(other, m, iv)) == DECRYPTION_FAILED
    ensures other != k ==> ShowOptional(prim, k, prim.encrypt(other, m, iv)) == DECRYPTION_FAILED
    ensures ShowRequired(prim, k, []) == DECRYPTION_FAILED
    ensures ShowOptional(prim, k, []) == ""
  {
    assert |prim.encrypt(k, m, iv)| > 0;
    assert |prim.encrypt(other, m, iv)| > 0;
  }

  /** Each field is decoded on its own; the rest are copied. */
  function DecryptRow(prim: Primitives, k: Key, row: Row): (r: Record)
    ensures r.id == row.id && r.service == row.service
    ensures r.createdAt == row.createdAt && r.updatedAt == row.updatedAt
    ensures row.username == [] ==> r.username == ""
    ensures row.url == [] ==> r.url == ""
    ensures row.notes == [] ==> r.notes == ""
  {
    Record(row.id, row.service,
           ShowOptional(prim, k, row.username), ShowRequired(prim, k, row.password),
           ShowOptional(prim, k, row.url), ShowOptional(prim, k, row.notes),
           row.createdAt, row.updatedAt)
  }

  /** The position of the first row (in storage order) whose service is `service`. */
  function FindService(rows: seq<Row>, service: string): (r: Option<nat>)
    ensures r.Some? ==> r.value < |rows| && rows[r.value].service == service
    ensures r.Some? ==> forall j :: 0 <= j < r.value ==> rows[j].service != service
    ensures r.None? <==> forall j :: 0 <= j < |rows| ==> rows[j].service != service
  {
    if rows == [] then None
    else if rows[0].service == service then Some(0)
    else match FindService(rows[1..], service)
      case Some(i) => Some(i + 1)
      case None => None
  }

  /** The first row carrying `service` is the one `FindService` picks. */
  lemma FindServiceAt(rows: seq<Row>, service: string, i: nat)
    requires i < |rows| && rows[i].service == service
    requires forall j :: 0 <= j < i ==> rows[j].service != service
    ensures FindService(rows, service) == Some(i)
  {
    assert rows[i].service == service;
  }

  /** `SELECT ... WHERE service = ?` then `fetchone()`, decrypted field by field. */
  function GetCredential(prim: Primitives, k: Key, rows: seq<Row>, service: string): (r: Option<Record>)
    ensures r.None? <==> forall j :: 0 <= j < |rows| ==> rows[j].service != service
    ensures r.Some? ==>
      var i := FindService(rows, service).value;
      && r.value.id == rows[i].id && r.value.service == service
      && r.value.createdAt == rows[i].createdAt && r.value.updatedAt == rows[i].updatedAt
  {
    match FindService(rows, service)
    case Some(i) => Some(DecryptRow(prim, k, rows[i]))
    case None => None
  }

  /** Reading back a freshly added service returns exactly what was added. */
  lemma AddThenGet(prim: Primitives, k: Key, rows: seq<Row>, service: string, username: Option<string>,
                   password: string, url: Option<string>, notes: Option<string>,
                   iv: RowNonces, now: nat)
    requires Sound(prim) && IdsIncreasing(rows)
    requires forall j :: 0 <= j < |rows| ==> rows[j].service != service
    ensures GetCredential(prim, k, rows + [NewRow(prim, k, rows, service, username, password, url, notes, iv, now)], service)
         == Some(Record(NextId(rows), service, username.GetOr(""), password, url.GetOr(""), notes.GetOr(""), now, now))
  {
    var row := NewRow(prim, k, rows, service, username, password, url, notes, iv, now);
    NewRowLayout(prim, k, rows, service, username, password, url, notes, iv, now);
    FindServiceAt(rows + [row], service, |rows|);
  }

  /** With an earlier row for the same service, a read still returns that earlier row. */
  lemma AddKeepsFirstMatch(prim: Primitives, k: Key, rows: seq<Row>, row: Row, service: string)
    requires exists j :: 0 <= j < |rows| && rows[j].service == service
    ensures GetCredential(prim, k, rows + [row], service) == GetCredential(prim, k, rows, service)
  {
    var i := FindService(rows, service).value;
    FindServiceAt(rows + [row], service, i);
  }

  /**
   * A field that fails to authenticate shows the sentinel while every other
   * field of the same row reads exactly as before: replacing any one column
   * by a token written under some other key changes that column alone.
   */
  lemma DecryptFailureStaysInItsField(prim: Primitives, k: Key, other: Key, row: Row,
                                      m: string, iv: Nonce)
    requires Sound(prim) && other != k
    ensures var c := prim.encrypt(other, m, iv);
      DecryptRow(prim, k, row.(username := c)) == DecryptRow(prim, k, row).(username := DECRYPTION_FAILED)
    ensures var c := prim.encrypt(other, m, iv);
      DecryptRow(prim, k, row.(password := c)) == DecryptRow(prim, k, row).(password := DECRYPTION_FAILED)
    ensures var c := prim.encrypt(other, m, iv);
      DecryptRow(prim, k, row.(url := c)) == DecryptRow(prim, k, row).(url := DECRYPTION_FAILED)
    ensures var c := prim.encrypt(other, m, iv);
      DecryptRow(prim, k, row.(notes := c)) == DecryptRow(prim, k, row).(notes := DECRYPTION_FAILED)
  {
    ShownField(prim, k, other, m, iv);
  }


  // ---------------------------------------------------------------------
  // update_credential

  /** The SET list: the new token for each column being written. */
  datatype Assignment = Assignment(username: Option<Bytes>, password: Option<Bytes>,
                                   url: Option<Bytes>, notes: Option<Bytes>)

  const NoAssignment := Assignment(None, None, None, None)

  /** `UPDATE ... SET <assignment>, updated_at = CURRENT_TIMESTAMP` on one row. */
  function Assign(row: Row, change: Assignment, now: nat): Row {
    row.(username := change.username.GetOr(row.username),
         password := change.password.GetOr(row.password),
         url := change.url.GetOr(row.url),
         notes := change.notes.GetOr(row.notes),
         updatedAt := now)
  }

  /** What the update writes: the encryption of each supplied (non-empty) argument. */
  function Changes(prim: Primitives, k: Key, username: Option<string>, password: Option<string>,
                   url: Option<string>, notes: Option<string>, iv: RowNonces): Assignment {
    Assignment(
      if Supplied(username) then Some(prim.encrypt(k, username.value, iv.username)) else None,
      if Supplied(password) then Some(prim.encrypt(k, password.value, iv.password)) else None,
      if Supplied(url) then Some(prim.encrypt(k, url.value, iv.url)) else None,
      if Supplied(notes) then Some(prim.encrypt(k, notes.value, iv.notes)) else None)
  }

  method UpdateCredential(prim: Primitives, session: Session, db: Table, service: string,
                          username: Option<string>, password: Option<string>,
                          url: Option<string>, notes: Option<string>, iv: RowNonces)
    returns (updated: bool)
    requires session.cipher.Some? && db.Valid()
    modifies db
    ensures db.Valid()
    ensures !(Supplied(username) || Supplied(password) || Supplied(url) || Supplied(notes)) ==>
      !updated && db.rows == old(db.rows) && db.clock == old(db.clock)
    ensures Supplied(username) || Supplied(password) || Supplied(url) || Supplied(notes) ==>
      && (updated <==> exists j :: 0 <= j < |old(db.rows)| && old(db.rows)[j].service == service)
      && db.clock == old(db.clock) + 1
      && |db.rows| == |old(db.rows)|
      && forall j :: 0 <= j < |db.rows| ==>
           db.rows[j] == if old(db.rows)[j].service == service
                         then Assign(old(db.rows)[j], Changes(prim, session.cipher.value, username, password, url, notes, iv), db.clock)
                         else old(db.rows)[j]
  {
    var k := session.cipher.value;
    var change := NoAssignment;
    if Supplied(username) {
      change := change.(username := Some(prim.encrypt(k, username.value, iv.username)));
    }
    if Supplied(password) {
      change := change.(password := Some(prim.encrypt(k, password.value, iv.password)));
    }
    if Supplied(url) {
      change := change.(url := Some(prim.encrypt(k, url.value, iv.url)));
    }
    if Supplied(notes) {
      change := change.(notes := Some(prim.encrypt(k, notes.value, iv.notes)));
    }
    assert change == Changes(prim, k, username, password, url, notes, iv);
    if change == NoAssignment {
      return false;
    }
    db.clock := db.clock + 1;
    var rows, now := db.rows, db.clock;
    db.rows := seq(|rows|, j requires 0 <= j < |rows| =>
                 if rows[j].service == service then Assign(rows[j], change, now) else rows[j]);
    updated := FindService(rows, service).Some?;
  }

  /**
   * On an updated row only the supplied fields change, each to a token
   * that decrypts to the new value; id, service and creation time are kept
   * and the update time is `now`.
   */
  lemma UpdatedRowFields(prim: Primitives, k: Key, row: Row, username: Option<string>,
                         password: Option<string>, url: Option<string>, notes: Option<string>,
                         iv: RowNonces, now: nat)
    requires Sound(prim)
    ensures var row' := Assign(row, Changes(prim, k, username, password, url, notes, iv), now);
      && row'.id == row.id && row'.service == row.service
      && row'.createdAt == row.createdAt && row'.updatedAt == now
      && (if Supplied(username) then OpenOptional(prim, k, row'.username) == username
          else row'.username == row.username)
      && (if Supplied(password) then prim.decrypt(k, row'.password) == password
          else row'.password == row.password)
      && (if Supplied(url) then OpenOptional(prim, k, row'.url) == url
          else row'.url == row.url)
      && (if Supplied(notes) then OpenOptional(prim, k, row'.notes) == notes
          else row'.notes == row.notes)
  {
    OptionalRoundTrip(prim, k, username, iv.username);
    OptionalRoundTrip(prim, k, url, iv.url);
    OptionalRoundTrip(prim, k, notes, iv.notes);
  }

  /**
   * Changing only the password: a later read shows the new password, every
   * other field as before, and a later update time.
   */
  lemma PasswordUpdateThenGet(prim: Primitives, k: Key, rows: seq<Row>, clock: nat, service: string,
                              password: string, iv: RowNonces, rec: Record)
    requires Sound(prim) && WellFormed(rows, clock) && password != ""
    requires GetCredential(prim, k, rows, service) == Some(rec)
    ensures var change := Changes(prim, k, None, Some(password), None, None, iv);
      var rows' := seq(|rows|, j requires 0 <= j < |rows| =>
                     if rows[j].service == service then Assign(rows[j], change, clock + 1) else rows[j]);
      && GetCredential(prim, k, rows', service) == Some(rec.(password := password, updatedAt := clock + 1))
      && rec.updatedAt < clock + 1
  {
    var change := Changes(prim, k, None, Some(password), None, None, iv);
    var rows' := seq(|rows|, j requires 0 <= j < |rows| =>
                   if rows[j].service == service then Assign(rows[j], change, clock + 1) else rows[j]);
    var i := FindService(rows, service).value;
    FindServiceAt(rows', service, i);
    UpdatedRowFields(prim, k, rows[i], None, Some(password), None, None, iv, clock + 1);
  }

  // ---------------------------------------------------------------------
  // delete_credential and list_services

  /** The rows that `DELETE ... WHERE service = ?` leaves, in storage order. */
  function WithoutService(rows: seq<Row>, service: string): (r: seq<Row>)
    ensures forall x :: x in r <==> x in rows && x.service != service
    ensures |r| <= |rows|
    ensures |r| == |rows| <==> forall j :: 0 <= j < |rows| ==> rows[j].service != service
  {
    if rows == [] then []
    else
      var rest := WithoutService(rows[1..], service);
      assert forall j :: 1 <= j < |rows| ==> rows[j] == rows[1..][j - 1];
      if rows[0].service == service then rest else [rows[0]] + rest
  }

  /** Deleting rows keeps the remaining ids in increasing order. */
  lemma {:induction false} WithoutServiceKeepsIdsIncreasing(rows: seq<Row>, service: string)
    requires IdsIncreasing(rows)
    ensures IdsIncreasing(WithoutService(rows, service))
  {
    if rows != [] {
      var tail := rows[1..];
      assert IdsIncreasing(tail) by {
        forall i, j | 0 <= i < j < |tail|
          ensures tail[i].id < tail[j].id
        {
          assert tail[i] == rows[i + 1] && tail[j] == rows[j + 1];
        }
      }
      WithoutServiceKeepsIdsIncreasing(tail, service);
      WithoutServiceIdsAbove(tail, service, rows[0].id);
    }
  }

  /** A lower bound on every id survives the deletion. */
  lemma {:induction false} WithoutServiceIdsAbove(rows: seq<Row>, service: string, bound: int)
    requires forall i :: 0 <= i < |rows| ==> bound < rows[i].id
    ensures forall i :: 0 <= i < |WithoutService(rows, service)| ==> bound < WithoutService(rows, service)[i].id
  {
    if rows != [] {
      WithoutServiceIdsAbove(rows[1..], service, bound);
    }
  }

  method DeleteCredential(db: Table, service: string) returns (deleted: bool)
    requires db.Valid()
    modifies db`rows
    ensures db.Valid()
    ensures db.rows == WithoutService(old(db.rows), service)
    ensures deleted <==> exists j :: 0 <= j < |old(db.rows)| && old(db.rows)[j].service == service
  {
    var before := |db.rows|;
    WithoutServiceKeepsIdsIncreasing(db.rows, service);
    db.rows := WithoutService(db.rows, service);
    deleted := |db.rows| < before;
  }

  /** `SELECT id, service FROM credentials`: no decryption, storage order. */
  function ListServices(rows: seq<Row>): (r: seq<(nat, string)>)
    ensures |r| == |rows|
    ensures forall j :: 0 <= j < |rows| ==> r[j] == (rows[j].id, rows[j].service)
  {
    if rows == [] then [] else [(rows[0].id, rows[0].service)] + ListServices(rows[1..])
  }

  // ---------------------------------------------------------------------
  // Reads across a rotation

  /**
   * After a completed rotation, reading any service with the new key gives
   * what reading it with the old key gave.
   */
  lemma GetAfterRotation(prim: Primitives, rows: seq<Row>, rows': seq<Row>, oldKey: Key, newKey: Key,
                         ivs: seq<RowNonces>)
    requires Sound(prim)
    requires |rows'| == |rows| == |ivs|
    requires forall j :: 0 <= j < |rows| ==> ReencryptRow(prim, rows[j], oldKey, newKey, ivs[j]) == Some(rows'[j])
    ensures forall service :: GetCredential(prim, newKey, rows', service) == GetCredential(prim, oldKey, rows, service)
  {
    forall j | 0 <= j < |rows|
      ensures rows'[j].service == rows[j].service
      ensures DecryptRow(prim, newKey, rows'[j]) == DecryptRow(prim, oldKey, rows[j])
    {
      ReencryptPreservesPlaintexts(prim, rows[j], oldKey, newKey, ivs[j], rows'[j]);
    }
    forall service
      ensures GetCredential(prim, newKey, rows', service) == GetCredential(prim, oldKey, rows, service)
    {
      var f := FindService(rows, service);
      if f.Some? {
        FindServiceAt(rows', service, f.value);
      }
    }
  }

}
