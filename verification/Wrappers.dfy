/** Results and optional values shared by every module of the model. */
module Wrappers {
  datatype Option<+T> = None | Some(value: T)

  /** `Err` stands for an exception of the modelled program; `error` names which one. */
  datatype Result<+T, +E> = Ok(value: T) | Err(error: E)
}
