/** The authenticated principal of fark/src/identity.rs. */
module Identities {
  /** A `serde_json::Value`: an arbitrary JSON document, kept opaque. */
  type Value(==, !new)

  /** What a strategy produces and what a token carries. */
  datatype Identity = Identity(userId: string, data: Value)
}
