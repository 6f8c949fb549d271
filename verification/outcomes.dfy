/** Failure-carrying values shared by the whole model. */
module Outcomes {

  datatype Option<+T> = None | Some(value: T)

  /** The ways the import script can stop: a JavaScript TypeError raised while
      reading a property of null or undefined (or calling `map` on something
      that is not an array), a document id the database client refuses, and a
      missing modules list. All of them abort the whole run. */
  datatype Error =
    | TypeError
    | InvalidDocumentId
    | ModulesFileMissing

  datatype Result<+T> = Ok(value: T) | Err(error: Error)
}
