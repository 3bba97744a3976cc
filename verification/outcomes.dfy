/** Failure-compatible result types for the places where the C code calls exit(1).

 The original program has no recoverable error path: every violated rule prints a
 diagnostic and terminates the process. Here each of those terminations becomes an
 `Abort` carrying the reason, so that callers (and lemmas) can talk about it.
 */
module Outcomes {

  /** The reasons for which network construction, feeding, wiring or reading the data files stops. */
  datatype Fatal =
    | WrongLayerType            // "Wrong/Missing layer type definition" (dnn.c:80-84, 120-124, 156-160)
    | InvalidNetworkDefinition  // setLayerDefinitions rejects the definition list (dnn.c:1524-1527)
    | IncorrectWeightCount      // weight-count cross check of setNetworkDefaults (dnn.c:1354-1357)
    | LayerInitMismatch         // layer address self check (dnn.c:1285-1288)
    | ForwardCapacityExceeded   // more forward connections than predicted (dnn.c:1037-1040)
    | InputSizeMismatch         // input vector of the wrong length (dnn.c:714-717)
    | ShortRead                 // an image or label record past the end of its file (util/mnist-utils.c:146-149, 167-170, 187-190, 208-211)

  datatype Option<+T> = None | Some(value: T)

  /** Either a value or the reason the C program would have terminated. */
  datatype Result<+T> = Ok(value: T) | Abort(reason: Fatal) {

    predicate IsFailure() {
      Abort?
    }

    function PropagateFailure<U>(): Result<U>
      requires Abort?
    {
      Abort(reason)
    }

    function Extract(): T
      requires Ok?
    {
      value
    }
  }
}
