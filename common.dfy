/** Values shared by every part of the model: optional values, the errors
    a run can end with, and a failure-compatible result type. */
module Common {

  datatype Option<T> = None | Some(value: T)

  /** The ways a `ProjectCommand` call can throw. */
  datatype Error =
    | MissingArgument(name: string)      // `"<name>" path not found` from the constructor
    | RootNotFound(root: string)         // the destination root does not exist
    | NotFound(path: string)             // ENOENT from readdir or readFile
    | NotADirectory(path: string)        // ENOTDIR from readdir
    | IsADirectory(path: string)         // EISDIR from readFile, writeFile or copyFile
    | FileExists(path: string)           // EEXIST from mkdir over an existing file
    | ParseError(path: string)           // the file's text does not evaluate to a document
    | UnsupportedMergeType(extension: string)
    | NotAFunction(callee: string)       // a TypeError raised by the JavaScript runtime
    | PromptCancelled                    // the prompt returned no `action`

  datatype Result<T> = Ok(value: T) | Err(error: Error) {
    predicate IsFailure() { Err? }

    function PropagateFailure<U>(): Result<U>
      requires Err?
    {
      Err(error)
    }

    function Extract(): T
      requires Ok?
    {
      value
    }
  }

  /** The result of a call that returns nothing but may throw. */
  datatype Outcome = Pass | Fail(error: Error)
}
