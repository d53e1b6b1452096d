/** SHA-256 digests, read as the content they are a digest of. */
module Digests {
  import opened Identifiers

  // Sixty-four lower-case hexadecimal characters, or some other text in their place.
  datatype ContentDigest = Sha256(content: string) | NotHex(text: string)

  // From hashed bytes to the text of their digest.
  type Hash = string -> string

  // No two byte strings have the same digest, and its text is hexadecimal.
  ghost predicate IsHash(hash: Hash) {
    && (forall x, y :: hash(x) == hash(y) ==> x == y)
    && forall x, i :: 0 <= i < |hash(x)| ==> LowerHex(hash(x)[i])
  }

  function TextOf(hash: Hash, d: ContentDigest): string {
    match d
    case Sha256(content) => hash(content)
    case NotHex(text) => text
  }
}
