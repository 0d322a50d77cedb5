/** Small failure-carrying datatypes shared by the other modules. */
module Wrappers {

  datatype Option<+T> = None | Some(value: T)

  /** The run-time failures the modelled code can reach: reading
      `meta.libs.length` when effective metadata has no `libs` field, and
      calling `replace` on a non-string that mimeForFilename returned for a
      name whose extension is an inherited property. */
  datatype Error = LibsMissing | NotAString

  datatype Result<+T> = Ok(value: T) | Err(error: Error)
}
