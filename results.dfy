/** Error kinds of the traversal engine and the failure-compatible wrappers that carry them.

    The engine itself only throws two exceptions: "bad fbx" for a file header it
    refuses and "bad fbx property" for a property tag it does not know.  Everything
    else it does is raw pointer arithmetic; the model turns a read outside the buffer
    into `Truncated` and a loop that exceeds its step bound into `Diverges`. */
module Results {

  datatype Error =
    | BadFbx       // the "bad fbx" exception of the document header check
    | BadProperty  // the "bad fbx property" exception of the property switch
    | Truncated    // a read past the end of the buffer (undefined behaviour in the engine)
    | Diverges     // a loop that ran out of its step bound; for the offset chain and sibling
                   // iteration this is exactly a chase that revisits a position and never ends

  datatype Result<+T> = Ok(value: T) | Err(error: Error) {
    predicate IsFailure() { Err? }

    function PropagateFailure<U>(): Result<U>
      requires Err?
    {
      Err(error)
    }

    function Extract(): T
      requires Ok?
    {
      value
    }
  }

  /** The outcome of an operation that only changes state. */
  datatype Outcome = Pass | Fail(error: Error) {
    predicate IsFailure() { Fail? }

    function PropagateFailure(): Outcome
      requires Fail?
    {
      this
    }
  }
}
