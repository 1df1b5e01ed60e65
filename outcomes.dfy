/** The exceptions the core can raise, as values. */
module Outcomes {

  datatype Failure =
    | IllegalArgument(message: string)  // `IllegalArgumentException`
    | NegativeArraySize                 // `NegativeArraySizeException` from array allocation
    | NullPointer                       // `NullPointerException` from an unset collaborator

  datatype Option<T> = None | Some(value: T)

  datatype Result<T> = Ok(value: T) | Err(failure: Failure)
}
