/** Small result types shared by the model. */
module Outcomes {

  datatype Option<+T> = None | Some(value: T)

  /** Why a front end refuses a file name. */
  datatype Rejection = NoExtension | UnknownExtension(ext: string)

  datatype Result<+T> = Ok(value: T) | Err(why: Rejection)

  /** How a command-line program ends: `return code` from `main`, or an
      uncaught C++ exception that terminates the process. */
  datatype Status = Exited(code: int) | Aborted
}
