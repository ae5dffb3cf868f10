/** Authenticated encryption, taken as ideal: a sealed blob opens under the key that
    sealed it and under no other, and bytes nobody sealed never open. */
module Aead {
  import opened Wrappers

  type Key = string

  datatype Blob = Sealed(key: Key, plain: string, nonce: nat) | Unsealed(bytes: string)

  function Seal(key: Key, plain: string, nonce: nat): Blob {
    Sealed(key, plain, nonce)
  }

  function Open(key: Key, blob: Blob): Option<string> {
    if blob.Sealed? && blob.key == key then Some(blob.plain) else None
  }
}
