/** Types shared by every component of the model. */
module Base {

  /** A byte as it travels over the wire or sits in a database blob. */
  type byte = b: int | 0 <= b < 256

  type Bytes = seq<byte>

  /** A git object id; `Ids.ValidOid` says which strings the source accepts as one. */
  type Oid = string

  type RepoId = string

  type RefName = string

  const TWO63 := 0x8000_0000_0000_0000
  const TWO64 := 0x1_0000_0000_0000_0000

  /** An unsigned 64-bit number reread as a signed one. */
  function Signed64(u: nat): int {
    if u < TWO63 then u else u - TWO64
  }

  datatype Option<+T> = None | Some(value: T)

  datatype Result<+T, +E> = Ok(value: T) | Err(error: E)
}
