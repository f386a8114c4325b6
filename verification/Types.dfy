/** Values every part of the application shares. */
module Types {
  datatype Option<+T> = None | Some(value: T)

  datatype Result<+T, +E> = Ok(value: T) | Err(error: E)

  type Address = nat

  /** Two networks may share a chain id; the dedup id tells them apart. */
  datatype NetworkId = NetworkId(chain: nat, dedup: nat)

  /** A connection's tie to a network: none, the current one, or a fixed one. */
  datatype Affinity = Unset | Global | Sticky(id: NetworkId)
}
