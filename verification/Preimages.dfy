/** Preimage keys and their authentication (crates/kona/src/oracle/mod.rs). */
module Preimages {
  import opened Common

  datatype KeyType = Local | Keccak256 | GlobalGeneric | Sha256 | Blob | Precompile

  datatype Key = Key(image: B256, keyType: KeyType)

  /**
   * The two hash functions, left abstract. A preimage key keeps its type in place of the first byte of the hash, so
   * they stand for the hashes without that byte.
   */
  datatype Hashes = Hashes(keccak256: Bytes -> B256, sha256: Bytes -> B256)

  datatype Fault = FutureShard | FutureEntry | KeyMismatch | ValueMismatch | InvalidPreimageKey

  /** What a check does: accept, return an error, or panic. */
  datatype Verdict = Accept | Reject(fault: Fault) | Panic

  predicate NeedsValidation(key: Key) {
    !(key.keyType.Local? || key.keyType.GlobalGeneric?)
  }

  function ValidatePreimage(h: Hashes, key: Key, value: Bytes): Verdict {
    match key.keyType
    case Keccak256 => if key == Key(h.keccak256(value), Keccak256) then Accept else Reject(InvalidPreimageKey)
    case Sha256 => if key == Key(h.sha256(value), Sha256) then Accept else Reject(InvalidPreimageKey)
    case Precompile => Panic
    case Blob => Panic
    case Local => Accept
    case GlobalGeneric => Accept
  }

  /** The value is the preimage of the key under the hash function that the key names. */
  ghost predicate Authentic(h: Hashes, key: Key, value: Bytes) {
    || (key.keyType.Keccak256? && h.keccak256(value) == key.image)
    || (key.keyType.Sha256? && h.sha256(value) == key.image)
  }

  /** A value is accepted exactly if its key is not a hash or is its own; blobs and precompiles are never supported. */
  lemma ValidatedIff(h: Hashes, key: Key, value: Bytes)
    ensures ValidatePreimage(h, key, value) == Accept <==> !NeedsValidation(key) || Authentic(h, key, value)
    ensures ValidatePreimage(h, key, value) == Panic <==> key.keyType.Blob? || key.keyType.Precompile?
    ensures ValidatePreimage(h, key, value).Reject? ==> ValidatePreimage(h, key, value).fault == InvalidPreimageKey
  {
  }

  /** A collision: two different values with the same hash. */
  predicate Collide(h: Hashes, a: Bytes, b: Bytes) {
    a != b && (h.keccak256(a) == h.keccak256(b) || h.sha256(a) == h.sha256(b))
  }
}
