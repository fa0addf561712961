/**
 * The cryptographic primitives the vault calls into: PBKDF2-HMAC-SHA256
 * (section 5.2 of RFC 8018) for key derivation and the Fernet authenticated
 * cipher for field encryption. They are foreign library code, so they are
 * modelled as function values bundled in `Primitives`, constrained only by
 * the properties the vault relies on (`Sound`).
 */
module Fernet {
  import opened Wrappers

  /** An octet. */
  newtype byte = x: int | 0 <= x < 0x100

  type Bytes = seq<byte>

  /** Length in bytes of a derived key (the `length=32` of the KDF). */
  const KEY_LENGTH: nat := 32

  /** A derived master key; the Fernet key is its base64url encoding. */
  type Key = k: Bytes | |k| == KEY_LENGTH witness seq(KEY_LENGTH, _ => 0)

  /** The randomness Fernet draws for one token: its IV and its timestamp. */
  type Nonce = Bytes

  datatype Primitives = Primitives(
    /** PBKDF2-HMAC-SHA256(password, salt, iterations), 32 bytes long. */
    derive: (string, Bytes, nat) -> Key,
    /** Fernet encryption of the UTF-8 encoding of a plaintext. */
    encrypt: (Key, string, Nonce) -> Bytes,
    /** Fernet decryption; `None` stands for `InvalidToken`. */
    decrypt: (Key, Bytes) -> Option<string>)

  /**
   * What the vault assumes of the library: a token is never empty, the
   * empty byte string is not a token, a token decrypts under its own key
   * to its plaintext, and it fails to authenticate under any other key.
   */
  ghost predicate Sound(prim: Primitives) {
    && (forall k, m, iv :: |prim.encrypt(k, m, iv)| > 0)
    && (forall k :: prim.decrypt(k, []) == None)
    && (forall k, m, iv :: prim.decrypt(k, prim.encrypt(k, m, iv)) == Some(m))
    && (forall k, k', m, iv :: k' != k ==> prim.decrypt(k', prim.encrypt(k, m, iv)) == None)
  }

  // ---------------------------------------------------------------------
  // A concrete (insecure) instance, showing that `Sound` can be met, so no
  // lemma that assumes it holds vacuously. A token is the key followed by
  // each character of the plaintext as three bytes.

  function CharBytes(ch: char): Bytes {
    var n := ch as int;
    var low := n % 0x10000;
    [(n / 0x10000 % 0x100) as byte, (low / 0x100) as byte, (low % 0x100) as byte]
  }

  function EncodeText(m: string): (b: Bytes)
    ensures |b| == 3 * |m|
  {
    if m == [] then [] else CharBytes(m[0]) + EncodeText(m[1..])
  }

  function DecodeText(b: Bytes): Option<string>
    decreases |b|
  {
    if b == [] then Some("")
    else if |b| < 3 then None
    else
      var n := b[0] as int * 0x10000 + b[1] as int * 0x100 + b[2] as int;
      if n < 0xD800 || 0xE000 <= n < 0x11_0000 then
        match DecodeText(b[3..])
        case Some(rest) => Some([n as char] + rest)
        case None => None
      else None
  }

  lemma CharBytesRoundTrip(ch: char)
    ensures var b := CharBytes(ch);
      b[0] as int * 0x10000 + b[1] as int * 0x100 + b[2] as int == ch as int
  {
    var n := ch as int;
    var low := n % 0x10000;
    var hi, mid, lo := n / 0x10000 % 0x100, low / 0x100, low % 0x100;
    assert n < 0x11_0000;
    assert n / 0x10000 < 0x100;
    assert hi == n / 0x10000;
    assert n == hi * 0x10000 + low;
    assert low == mid * 0x100 + lo;
  }

  lemma {:induction false} TextRoundTrip(m: string)
    ensures DecodeText(EncodeText(m)) == Some(m)
    decreases |m|
  {
    if m != [] {
      var b := EncodeText(m);
      assert b == CharBytes(m[0]) + EncodeText(m[1..]);
      assert b[3..] == EncodeText(m[1..]);
      CharBytesRoundTrip(m[0]);
      TextRoundTrip(m[1..]);
      assert [m[0]] + m[1..] == m;
    }
  }

  function Toy(): Primitives {
    Primitives(
      (pw: string, salt: Bytes, n: nat) => seq(KEY_LENGTH, _ => 0),
      (k: Key, m: string, iv: Nonce) => k + EncodeText(m),
      (k: Key, c: Bytes) =>
        if |c| >= KEY_LENGTH && c[..KEY_LENGTH] == k then DecodeText(c[KEY_LENGTH..]) else None)
  }

  lemma ToySound()
    ensures Sound(Toy())
  {
    var prim := Toy();
    forall k: Key, m: string, iv: Nonce
      ensures prim.decrypt(k, prim.encrypt(k, m, iv)) == Some(m)
    {
      var c := k + EncodeText(m);
      assert c[..KEY_LENGTH] == k && c[KEY_LENGTH..] == EncodeText(m);
      TextRoundTrip(m);
    }
    forall k: Key, k': Key, m: string, iv: Nonce | k' != k
      ensures prim.decrypt(k', prim.encrypt(k, m, iv)) == None
    {
      var c := k + EncodeText(m);
      assert c[..KEY_LENGTH] == k;
    }
  }
}
