/** Rows of an Engram table: 256 weight bytes followed by 8 scale bytes. */
module Rows {

  newtype byte = b: int | 0 <= b < 256

  const WEIGHT_BYTES: nat := 256
  const SCALE_BYTES: nat := 8
  const ROW_BYTES: nat := 264

  type Bytes = seq<byte>

  function Zeros(n: nat): (z: Bytes)
    ensures |z| == n
  {
    seq(n, _ => 0)
  }

  /** A table and the half-open range of rows that this rank owns. */
  datatype Backing = Backing(table: seq<Bytes>, lo: nat, hi: nat)

  predicate ValidId(b: Backing, id: int) {
    0 <= id < |b.table|
  }

  predicate Owned(b: Backing, id: int) {
    b.lo <= id < b.hi
  }

  /** What serve() stores for one id: the owned row, or zeros for another rank's row. */
  function ServedRow(b: Backing, id: int): Bytes {
    if ValidId(b, id) && Owned(b, id) then b.table[id] else Zeros(ROW_BYTES)
  }
}
