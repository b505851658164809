/**
 * Primary keys. A user's key is a `uuid4` drawn when the row is built; a server's key
 * comes from its timestamped base model, which is not part of this model. Both are
 * treated as abstract, comparable values.
 */
module Identifiers {

  type UserId = nat

  type ServerId = nat
}
