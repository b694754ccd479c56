/** Results that may be missing or refused. */
module Wrappers {
  datatype Option<T> = None | Some(value: T)

  datatype Result<T, E> = Ok(value: T) | Err(error: E)
}

module ByteStrings {
  newtype byte = x: int | 0 <= x < 256

  type Bytes = seq<byte>
}

/** Go's int64, on unbounded integers. */
module Int64Arithmetic {
  const MAX_INT64: int := 0x7FFF_FFFF_FFFF_FFFF
  const TWO_64: int := 0x1_0000_0000_0000_0000

  predicate Int64(x: int) {
    -MAX_INT64 - 1 <= x <= MAX_INT64
  }

  /** Two's complement wrap-around. */
  function Wrap64(x: int): (w: int)
    ensures Int64(w) && (Int64(x) ==> w == x)
  {
    (x + MAX_INT64 + 1) % TWO_64 - MAX_INT64 - 1
  }

  /** The sum of two int64 that are not negative. */
  lemma WrapSum(x: int, y: int)
    requires 0 <= x <= MAX_INT64 && 0 <= y <= MAX_INT64
    ensures Wrap64(x + y) == if x + y <= MAX_INT64 then x + y else x + y - TWO_64
  {
  }
}

/** The states of a channel, and of a key of a multi-key channel. */
module ChannelStatus {
  const ENABLED := 1
  const MANUALLY_DISABLED := 2
  const AUTO_DISABLED := 3
}
