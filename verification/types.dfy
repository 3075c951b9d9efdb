/** Shared value types of the script interpreter: bytes, optional values,
    results and the error taxonomy that every failing operation reports. */
module Types {

  /** One byte of a script or of a stack item. */
  type u8 = x: int | 0 <= x < 256

  datatype Option<T> = None | Some(value: T)

  datatype Result<T, E> = Ok(value: T) | Err(error: E)

  /** Why an execution stopped. Every error is fatal to the execution it occurs in. */
  datatype Error =
    | DecodeError             // the external decoder could not parse the next instruction
    | StackUnderflow          // an item was popped from an empty stack
    | InvalidNumericEncoding  // a popped item is too long to be read as a script number
    | ExplicitAbort           // OP_RETURN was executed
    | Unsupported(opcode: u8) // an opcode this engine does not implement
}
