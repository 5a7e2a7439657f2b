/** Values shared by every part of the model: identifiers, bytes, results, and the
    two library routines (SHA-256 and libmagic) the store treats as black boxes. */
module Base {

  /** A UUID, known only through its text. */
  datatype Uuid = Uuid(text: string)

  newtype Byte = b: int | 0 <= b < 256

  type Bytes = seq<Byte>

  datatype Option<+T> = None | Some(value: T)

  /** The ways an operation can fail. A failed operation carries no new state. */
  datatype Error =
    | NotFound
    | EmptyName
    | PartMissing
    | FileMissing
    | UniqueViolation
    | NotNullViolation
    | ForeignKeyViolation
    | CardinalityViolation
    | OutOfRange
    | InvalidId

  datatype Result<+T> = Ok(value: T) | Err(error: Error)

  datatype Mime = Mime(mediaType: string, subtype: string)

  /** The checksum, and the text libmagic gives for a file's MIME type; every statement holds
      for all such routines. */
  datatype Probe = Probe(hash: Bytes -> string, magic: Bytes -> string)

  /** The hypothesis that the checksum separates the contents it is given. */
  ghost predicate Injective(probe: Probe) {
    forall a, b :: probe.hash(a) == probe.hash(b) ==> a == b
  }

  /** The range of PostgreSQL's `bigint`. */
  predicate FitsBigint(n: int) {
    -0x8000_0000_0000_0000 <= n < 0x8000_0000_0000_0000
  }

  /** A cast to `bigint`, which raises an error instead of wrapping. */
  function ToBigint(n: nat): Result<nat> {
    if FitsBigint(n) then Ok(n) else Err(OutOfRange)
  }
}
