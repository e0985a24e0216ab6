/** Failure values of the interpreter pipeline.

    The C++ program reports every failure by throwing a `std::runtime_error`
    (or, for a wrong-variant access, a `std::bad_variant_access`) whose text is
    shown to the user. Here each distinct throw site is one constructor of
    `Error`; where the message names a primitive, the name it prints is kept in
    the constructor's argument (including the two messages that name the wrong
    primitive: OR says 'and' and EXIT says '/'). */
module Results {

  datatype Option<T> = None | Some(value: T)

  datatype Error =
    // Reader
    | UnexpectedEnd               // "Unexpected end of input"
    | UnexpectedClose             // "Unexpected ')'"
    | MissingClose                // "Missing closing ')'"
    | Unbalanced                  // "Unbalanced parentheses" (top-level balance check)
      // Environment and evaluator
    | VariableNotFound(name: string)  // "Variable not found: <name>"
    | NoFoundType                 // "No found type"
    | UnknownPrimitive(name: string)  // " Unknown primitive: <name>"
    | BadVariantAccess            // std::get on the wrong alternative of a variant
    | MissingArgument             // args[i] past the end: undefined behaviour in the source
    | StackOverflow               // nesting deeper than the host stack allows
    | Halted                      // EXIT: the process ends with status 0
      // Primitives
    | Arity(who: string)          // "'<who>' ... requires/expects ... argument(s)"
    | NotSymbol                   // "'define' first argument must be a symbol"
    | CondClauseNotList           // "'cond': each clause must be a list"
    | CondClauseEmpty             // "'cond': clause must not be empty"
    | CondElseNoBody              // "'cond': 'else' clause must have a body"
    | CondNoBody                  // "'cond': true condition must have a body"
    | NotNumeric                  // "Comparison requires numeric arguments"
    | TypeMismatch(who: string)   // "'<who>' ... must be (a) number(s)/string"
    | DivisionByZero              // "'/' division by zero"
    | IOError(path: string)       // "Could not open file" / "Error reading file"

  datatype Result<T> = Ok(value: T) | Err(error: Error)

  /** Failures that a `catch (...)` in the source cannot intercept: running out
      of stack is a crash, and EXIT ends the process before anything unwinds. */
  predicate Fatal(e: Error) {
    e == StackOverflow || e == Halted
  }
}
