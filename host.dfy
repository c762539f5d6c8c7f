/** What the two loss operators see of the host training framework: the ways
    a checking macro can abort, the write-request flag of an output, resource
    requests, the growable vectors that shape and type inference fill in, and
    the numeric routines the host library supplies. */
module Host {

  /** Why one of the host's checking macros (CHECK, SHAPE_ASSIGN_CHECK,
      LOG(FATAL)) would abort the call. */
  datatype Failure =
    | ArgumentCount               // a vector of shapes or types has the wrong length
    | ShapeMismatch               // a shape disagrees with the one inferred or reinterpreted
    | UnknownFirstType            // the first input's type code is still unknown
    | TypeMismatch(index: nat)    // input `index` has a type other than the first input's
    | UnknownRegressionType(code: int)
    | UnsupportedType(code: int)  // a type code that is not a floating-point type
    | InferenceFailed             // CHECK(InferShape(...)) or CHECK(InferType(...)) saw false

  datatype Result<+T> = Ok(value: T) | Fail(failure: Failure)

  /** The outcome of a Forward or Backward call: it returns, or a check aborts it. */
  datatype Outcome = Pass | Fatal(failure: Failure)

  datatype Option<+T> = None | Some(value: T)

  /** The host's per-output write request (OpReqType). */
  datatype OpReq = NullOp | WriteTo | WriteInplace | AddTo

  /** The value an element holds after the host's `Assign(out, req, exp)`
      writes `value` into an element currently holding `current`. */
  function Assigned(req: OpReq, current: real, value: real): real {
    match req
    case NullOp => current
    case WriteTo => value
    case WriteInplace => value
    case AddTo => current + value
  }

  /** The kinds of per-call resources an operator may request. */
  datatype ResourceRequest = Random | TempSpace

  /** Type code of an input whose element type is not yet known. */
  const UnknownType: int := -1

  /** The floating-point type codes of the host's tensor library
      (32-, 64- and 16-bit); every other code makes the real-type
      switch abort. */
  predicate IsRealType(code: int) {
    code == 0 || code == 1 || code == 2
  }

  /** The transcendental routines of the host's maths library, left
      uninterpreted: the logistic sigmoid, `fmod`, single-precision `sinf`,
      and entry `c` of the softmax of a vector of class scores. */
  datatype HostMath = HostMath(
    sigmoid: real -> real,
    fmod: (real, real) -> real,
    sinf: real -> real,
    softmax: (seq<real>, nat) -> real)

  /** A `std::vector` the host hands an operator to fill in. */
  class Vector<T> {
    var items: seq<T>

    constructor (items: seq<T>)
      ensures this.items == items
    {
      this.items := items;
    }
  }
}
