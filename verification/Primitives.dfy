/** The cryptography of one streaming transaction, as functions with stated laws.

    A `Crypto` value is one handshake's key material with the primitives applied to it:
    SHA-256, AES-GCM under the session key, and the handshake's signing key.  Randomness is
    explicit: `nonce(i)` is what the i-th encryption draws, and `sign(i, m)` is the signature
    the server makes on `m` while it handles its i-th chunk (ECDSA signatures differ from
    call to call). */
module Primitives {
  import opened Bytes

  datatype Option<+T> = None | Some(value: T)

  type Digest = d: bytes | |d| == 32 witness seq(32, _ => 0 as byte)

  const NONCE_BYTES: nat := 12

  type Nonce = n: bytes | |n| == NONCE_BYTES witness seq(12, _ => 0 as byte)

  datatype Crypto = Crypto(
    handshakeId: bytes,
    hash: bytes -> Digest,
    nonce: nat -> Nonce,
    seal: (Nonce, bytes) -> bytes,
    open: (bytes, bytes) -> Option<bytes>,
    sign: (nat, bytes) -> bytes,
    verify: (bytes, bytes) -> bool)

  /** Two different inputs with the same hash. */
  predicate IsCollision(hash: bytes -> Digest, pair: (bytes, bytes)) {
    pair.0 != pair.1 && hash(pair.0) == hash(pair.1)
  }

  /** The last element of a sequence, and the rest. */
  function Last<T>(s: seq<T>): T
    requires s != []
  {
    s[|s| - 1]
  }

  function Init<T>(s: seq<T>): seq<T>
    requires s != []
  {
    s[..|s| - 1]
  }

  function Max(a: nat, b: nat): nat {
    if a < b then b else a
  }

  function Min(a: nat, b: nat): nat {
    if a < b then a else b
  }
}
