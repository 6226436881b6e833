/** Rows of the signature tables, shared by the signing and approval services. */
module SignatureData {
  import opened Wrappers
  import opened JsText

  /** Row identifiers are strings. */
  type Id = Text

  /** A SHA-256 digest in hexadecimal. */
  type Digest = Text

  /** An instant in milliseconds. */
  type Instant = int

  const HASH_VERSION: nat := 2

  datatype LinkStatus = SENT | VIEWED | SIGNED

  datatype Token = Token(
    submission: Id,
    signer: Id,
    link: LinkStatus,
    expiresAt: Instant,
    viewedAt: Option<Instant>,
    usedAt: Option<Instant>,
    createdAt: Instant)

  /** Who signs: an external signer through the token in the given row, or a user. */
  datatype SignedBy = External(signer: Id, token: nat) | Internal(user: Id)

  datatype Record = Record(
    submission: Id,
    who: SignedBy,
    documentHash: Digest,
    hashVersion: nat,
    signedAt: Instant)
}
