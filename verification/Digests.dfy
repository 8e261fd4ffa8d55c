/** Content hashes. A digest keeps what it was computed from, so equal digests mean equal inputs, and
    git blob ids never equal SHA-256 digests. NoDigest is the empty column. */
module Digests {
  datatype Digest = NoDigest | BlobOid(content: string) | Sha256(preimage: string)

  const NUL := 0 as char

  /** The digest that gates re-embedding; the model name is part of what is hashed. */
  function ChunkSha(model: string, text: string): Digest {
    Sha256(model + [NUL] + text)
  }

  lemma ChunkShaInjective(model: string, t: string, u: string)
    requires ChunkSha(model, t) == ChunkSha(model, u)
    ensures t == u
  {
    var s := model + [NUL] + t;
    assert t == s[|model| + 1..];
    assert u == (model + [NUL] + u)[|model| + 1..];
  }
}
