/** Failure-compatible wrappers and the error taxonomy of the compiler.

    `errores` (Compilador.cpp) prints one of four messages and terminates the
    process; here each of them is a returned value, so "first error wins, no
    partial output" becomes ordinary propagation with `:-`. */
module Results {

  datatype Option<+T> = None | Some(value: T)

  /** Why a run stops without a result. The first four are the numbered
      messages of `errores`; the last three name situations where the source
      has no defined or no intended outcome. */
  datatype Error =
    | InvalidCharacter(c: char)  // error 1: a character outside the accepted set
    | Ambiguous                  // error 2: the ambiguity gate fired
    | MalformedNumber            // error 3: a literal with a second '.'
    | DivisionByZero             // error 4: '/' by a register holding 0
    | Undefined                  // out-of-range read or write, or an uncaught conversion exception
    | TooManyRegisters           // a register index with two digits, which the evaluator misreads
    | OutOfFuel                  // the parser loop did not stop within the given number of steps

  datatype Result<+T> = Success(value: T) | Failure(error: Error) {

    predicate IsFailure() {
      Failure?
    }

    function PropagateFailure<U>(): Result<U>
      requires Failure?
    {
      Failure(error)
    }

    function Extract(): T
      requires Success?
    {
      value
    }
  }
}
