/** The shapes of what the foreign cryptography returns. Hashing and signing themselves
    are parameters wherever they are used. */
module Crypto {
  import opened Text

  /** A SHA-256 digest. */
  type Digest = d: seq<byte> | |d| == 32 witness seq(32, _ => 0)

  /** An Ed25519 signature. */
  type Signature = s: seq<byte> | |s| == 64 witness seq(64, _ => 0)
}
