/** Vocabulary shared by every module of the model. */
module Common {

  datatype Option<+T> = None | Some(value: T)

  datatype Result<+T> = Ok(value: T) | Err(error: PosixError)

  /** Error codes the modelled code raises by name; any other code is carried as a number. */
  datatype PosixError =
    | ENOTCONN | ETIMEDOUT | ENOBUFS | EBADF | EBUSY | ENOMEM | EIO | ECANCELED | ENOENT | ENOTEMPTY
    | ENOTDIR | EISDIR
    | HandlerError
    | Code(number: int)

  /** The two pipelines an operation can be routed to. */
  datatype Category = Bulk | Metadata

  /** A dictionary with exactly one entry per category. */
  datatype PerCategory<T> = PerCategory(bulk: T, metadata: T) {
    function Get(c: Category): T {
      if c.Bulk? then bulk else metadata
    }

    function Set(c: Category, value: T): PerCategory<T> {
      if c.Bulk? then this.(bulk := value) else this.(metadata := value)
    }
  }

  function Min(a: int, b: int): int { if a <= b then a else b }

  function Max(a: int, b: int): int { if a >= b then a else b }

  function RealMin(a: real, b: real): real { if a <= b then a else b }

  function RealMax(a: real, b: real): real { if a >= b then a else b }
}
