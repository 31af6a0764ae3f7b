/** Values shared by every part of the installer model. */
module Types {

  /** A value that may be absent: an unset console argument or option. */
  datatype Option<T> = None | Some(value: T)

  /** The exceptions the installer lets propagate, one per way it can stop. */
  datatype Error =
    | SiteExists(path: string)        // the target directory is already there
    | VersionLookupFailed             // the remote tag list could not be fetched or read
    | NotFound(path: string)          // a copy or mirror source is missing
    | WrongKind(path: string)         // a file where a directory is needed, or the reverse

  /** The result of a step that produces a value or throws. */
  datatype Result<T> = Ok(value: T) | Err(error: Error)

  /** The result of a step that produces nothing or throws. */
  datatype Outcome = Pass | Fail(error: Error)
}
