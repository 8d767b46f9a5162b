/**
 The symmetric seal as an ideal primitive: a sealed block is the key, the nonce
 and the plaintext it was made from, and opening succeeds for that key only.
 */
module Sealing {
  import opened Results

  type Byte = x: int | 0 <= x < 256
  type Bytes = seq<Byte>

  const SEAL_KEY_BYTES: nat := 32

  /** What a log stores: a sealed plaintext, or bytes nobody sealed. */
  datatype Block = Sealed(key: Bytes, nonce: nat, plain: Bytes) | Raw(bytes: Bytes)

  function Seal(plain: Bytes, key: Bytes, nonce: nat): Block {
    Sealed(key, nonce, plain)
  }

  /** Fails on a wrong key and on anything that is not a sealed block. */
  function Open(block: Block, key: Bytes): Option<Bytes> {
    if block.Sealed? && block.key == key then Some(block.plain) else None
  }
}
