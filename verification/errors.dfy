/** The error kinds the core reports, and the wrappers that carry them.
    Each constructor stands for one `errors.New` message of the source. */
module Errors {

  datatype Error =
    | Overflow            // "overflow": push on a full stack
    | Underflow           // "underflow": pop on an empty stack
    | ProgramOutOfBounds  // "program out of bounds": fetch outside the program
    | JumpOutOfBounds     // "jump out of memory bounds": jump target outside the program
    | UnknownOperand      // "unknown operand": no arity or no effect for an opcode
    | EmptyProgram        // "empty program": loading a zero-length program
    | BadProgramLength    // "bad program lenght": byte size not a positive multiple of 4

  /** A failing operation that changes nothing returns `Err`; the failure carries no state. */
  datatype Result<+T> = Ok(value: T) | Err(error: Error)

  datatype Option<+T> = None | Some(value: T)
}
