/**
 * The cryptographic primitives, as arbitrary functions with fixed output lengths
 * (src/crypto/hash.ts, src/crypto/keys.ts, src/crypto/pow.ts).
 */
module Crypto {
  import opened Binary

  type Hash32 = b: Bytes | |b| == 32 witness Zeros(32)
  type Hash20 = b: Bytes | |b| == 20 witness Zeros(20)

  /** `new Uint8Array(n)` */
  function Zeros(n: nat): (r: Bytes)
    ensures |r| == n
  {
    if n == 0 then [] else [0] + Zeros(n - 1)
  }

  const ZERO32: Hash32 := Zeros(32)

  datatype Crypto = Crypto(
    sha256: Bytes -> Hash32,
    ripemd160: Bytes -> Hash20,
    /** signature, message, public key */
    edVerify: (Bytes, Bytes, Bytes) -> bool,
    powHash: Bytes -> Hash32)

  /** No two different messages of a finite set collide under SHA-256. */
  ghost predicate CollisionFree(c: Crypto, messages: set<Bytes>) {
    forall x, y :: x in messages && y in messages && c.sha256(x) == c.sha256(y) ==> x == y
  }
}
