/** Error conditions of the loading pipeline and the Result type that carries them.
    Each error names the Python exception or early return it stands for. */
module Outcomes {

  datatype Error =
    | UnknownRepo(repo: string)        // parse_folder: `sfile_` never bound for this repo
    | TooFewTokens(name: string)       // IndexError on a split token of this name
    | UnboundDifferences               // Stokes branch: `tstamps_diff` used before assignment
    | NoFilesNearDate                  // magvec branch: early `return` of None
    | NoMatch                          // no candidate file at all
    | EmptyStack                       // `level1_data.shape[1]` of an empty stack
    | RaggedStack                      // images of unequal shape cannot be stacked
    | ReshapeMismatch(count: nat)      // `count` images do not reshape to (4, 6, Y, X)
    | NoScanFiles                      // `level1_files[0]` of an empty scan list
    | ShapeMismatch(index: nat)        // slot `index` of a preallocated cube gets a different shape
    | IndexOutOfRange(index: nat)      // a list indexed past its end
    | MissingKey(key: string)          // KeyError on a FITS header keyword
    | MissingExtension(name: string)   // KeyError on a FITS extension name
    | NotNumeric(key: string)          // TypeError: arithmetic on a non-numeric keyword value

  datatype Result<T> = Ok(value: T) | Err(error: Error) {
    predicate IsFailure() { Err? }
    function PropagateFailure<U>(): Result<U>
      requires Err?
    {
      Err(error)
    }
    function Extract(): T
      requires Ok?
    {
      value
    }
  }

  datatype Option<T> = None | Some(value: T)
}
