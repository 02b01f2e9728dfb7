/** The values every other module works on: headers, their hashes and the outcome of a lookup. */
module Headers {

  datatype Option<+T> = None | Some(value: T)

  type byte = x: int | 0 <= x < 256

  type Hash = seq<byte>

  /** A header as the interface of header.go exposes it. A zero header is `None` of `Option<Header>`. */
  datatype Header = Header(chainID: string, height: nat, hash: Hash, lastHeader: Hash, time: int)

  const MAX_UINT64: nat := 0xFFFF_FFFF_FFFF_FFFF
}
