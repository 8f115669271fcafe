/** Socket addresses and optional values. */
module Net {
  datatype Option<+T> = None | Some(value: T)

  /** struct sockaddr_in: memcmp-comparable, all zero after memset. */
  datatype Addr = Addr(ip: nat, port: nat)

  const NO_ADDR := Addr(0, 0)
}
