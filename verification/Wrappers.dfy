/** Options, results and the error values that the persistence layer reports. */
module Wrappers {

  datatype Option<+T> = None | Some(value: T)

  datatype Result<+T, +E> = Ok(value: T) | Err(error: E)

  /** The errors of the generated layer (backend/ent/ent.go) that the model distinguishes. */
  datatype Error =
    | NotFound
    | NotSingular
    | NotLoaded
    | InvalidField(name: string)
    | TypeMismatch(column: string)
    | BadJSON(column: string)
    | ValueCount
    | NilForeignKey(id: int)
    | UnexpectedForeignKey(id: int)
    | UnexpectedNode(id: int)
    | NilHook
    | UnexpectedMutation
    | UnexpectedValue
    | DatabaseError(code: int)
    | ConstraintViolated
    | SeveralOwners
    | RequiredEdgeCleared(name: string)
}
