/** Failure values for the exceptions thrown by the type builder
  * (std::logic_error and std::runtime_error in the C++ library). */
module Errors {

  datatype Error =
    | IdOnNonCompound            // an id on a field that is not a Struct or Union
    | MembersOnNonCompound       // a member under a field that is not (an array of) Struct or Union
    | EmptyName                  // an empty field name
    | InvalidName(name: string)  // a field name outside [A-Za-z_][A-Za-z0-9_]*
    | KindChange(name: string)   // a merge that turns a compound member into a scalar or back
    | AppendToNonCompound        // appending members to a TypeDef whose top is not a Struct or Union
    | EmptyTypeDef               // creating a Value from an empty TypeDef
    | BrokenLayout               // a compiled array whose offsets do not describe a tree

  /** Result of an operation that returns a value or throws. */
  datatype Result<+T> = Ok(value: T) | Err(error: Error)

  /** Result of an operation that returns nothing or throws. */
  datatype Outcome = Pass | Fail(error: Error)

  datatype Option<+T> = None | Some(value: T)
}
