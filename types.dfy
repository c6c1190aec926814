/**
 * Values shared by the event parser and the transition-table compiler of the
 * state-machine macro: results, optional values, the syntactic kinds of Rust
 * types the parser distinguishes, guards, actions and the compile errors.
 */
module Types {

  /** Success or failure; usable with `:-`. */
  datatype Result<+T, +E> = Ok(value: T) | Err(error: E) {
    predicate IsFailure() {
      Err?
    }

    function PropagateFailure<U>(): Result<U, E>
      requires Err?
    {
      Err(error)
    }

    function Extract(): T
      requires Ok?
    {
      value
    }
  }

  datatype Option<+T> = None | Some(value: T)

  /**
   * The variants of a parsed Rust type (`syn::Type`).  Types are otherwise
   * opaque: the compiler only compares them and copies them around.
   */
  datatype TypeKind =
    | Array | BareFn | Group | ImplTrait | Infer | Macro | Never | ParenType
    | Path | Ptr | Reference | Slice | TraitObject | Tuple | Verbatim

  /** A payload type: its kind and its spelling, which is what identity means. */
  datatype Ty = Ty(kind: TypeKind, spelling: string)

  /**
   * A guard expression as the front end produced it.  The compiler never
   * looks inside a guard, it only copies it into the table.
   */
  datatype GuardExpression = GuardExpression(text: string)

  /** An action name, with the flag saying whether it is awaited. */
  datatype AsyncIdent = AsyncIdent(ident: string, isAsync: bool)

  /** Every way construction of the parsed state machine can fail. */
  datatype CompileError =
    | NoStartingState
    | MultipleStartingStates
    | ConflictingDefinition(name: string)
    | MissingActionForData
    | WildcardHasNoEffect
}
