/**
 * The `credentials` table: its row layout, the storage convention for
 * optional encrypted columns, and the table object that the credential
 * operations and the master-password rotation update in place.
 */
module Schema {
  import opened Wrappers
  import opened Fernet

  /**
   * One row. `service` is plaintext; `password` always holds a Fernet
   * token; `username`, `url` and `notes` hold a token or the empty marker.
   * Timestamps are readings of the table's clock.
   */
  datatype Row = Row(
    id: nat,
    service: string,
    username: Bytes,
    password: Bytes,
    url: Bytes,
    notes: Bytes,
    createdAt: nat,
    updatedAt: nat)

  /** Fresh Fernet randomness for each encrypted column of one row. */
  datatype RowNonces = RowNonces(username: Nonce, password: Nonce, url: Nonce, notes: Nonce)

  /** Python truthiness of an optional text argument: present and non-empty. */
  predicate Supplied(v: Option<string>) {
    v.Some? && v.value != ""
  }

  /** A blank optional column is stored as `b""` and is never encrypted. */
  function SealOptional(prim: Primitives, k: Key, v: Option<string>, iv: Nonce): Bytes {
    if Supplied(v) then prim.encrypt(k, v.value, iv) else []
  }

  /** Reading an optional column: the empty marker is `""` without calling the cipher. */
  function OpenOptional(prim: Primitives, k: Key, c: Bytes): Option<string> {
    if c == [] then Some("") else prim.decrypt(k, c)
  }

  lemma OptionalRoundTrip(prim: Primitives, k: Key, v: Option<string>, iv: Nonce)
    requires Sound(prim)
    ensures OpenOptional(prim, k, SealOptional(prim, k, v, iv)) == Some(v.GetOr(""))
    ensures SealOptional(prim, k, v, iv) == [] <==> !Supplied(v)
  {
    if Supplied(v) {
      assert |prim.encrypt(k, v.value, iv)| > 0;
    }
  }

  /** Row ids (SQLite rowids) strictly increase in storage order. */
  ghost predicate IdsIncreasing(rows: seq<Row>) {
    forall i, j :: 0 <= i < j < |rows| ==> rows[i].id < rows[j].id
  }

  /** The table invariant: increasing positive ids, timestamps ordered and not in the future. */
  ghost predicate WellFormed(rows: seq<Row>, clock: nat) {
    && IdsIncreasing(rows)
    && forall i :: 0 <= i < |rows| ==>
         0 < rows[i].id && rows[i].createdAt <= rows[i].updatedAt <= clock
  }

  /**
   * The rowid SQLite gives an inserted row of an `INTEGER PRIMARY KEY`
   * table: one more than the largest rowid, or 1 in an empty table.
   */
  function NextId(rows: seq<Row>): (id: nat)
    requires IdsIncreasing(rows)
    ensures 0 < id
    ensures forall i :: 0 <= i < |rows| ==> rows[i].id < id
  {
    if rows == [] then 1 else rows[|rows| - 1].id + 1
  }

  /** The table as stored in the database file, with the clock behind `CURRENT_TIMESTAMP`. */
  class Table {
    var rows: seq<Row>
    var clock: nat

    ghost predicate Valid()
      reads this
    {
      WellFormed(rows, clock)
    }

    /** `CREATE TABLE IF NOT EXISTS` on a fresh database. */
    constructor ()
      ensures Valid() && rows == [] && clock == 0
    {
      rows := [];
      clock := 0;
    }
  }
}
