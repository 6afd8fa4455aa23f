/** Option and Result datatypes shared by the model, and the failures the
    source raises through `invariant(...)`. */
module Wrappers {

  datatype Option<+T> = None | Some(value: T)

  /** One constructor per `invariant(...)` failure (or runtime TypeError) of the source. */
  datatype Error =
    | NotFound            // store.getValue: no value under the key
    | TypeMismatch        // store.getValue: the stored value fails the guard
    | TypeNameNotFound    // store.getTypeName: no type name under the key
    | MissingParent       // non-root getParentKey: the store reports no parent
    | RootAlreadyExists   // tx.attachRoot: the root key already has a value
    | UnknownVariant      // union getChildType: no variant has the type name
    | PropertyNotFound    // object getPropKey: no pair names the property
    | ChildNotFound       // object getIndexWithin: no pair holds the child key
    | ChildIsRootKey      // array getIndexWithin: the child key is not a non-root key
    | NoIndexLookup       // the kind declares no getIndexWithin at all (a TypeError when called)
    | UnknownNodeType     // getNodeType: no registered kind has the type name
    | EntryNotFound       // EditorState.get: no entry under the key
    | RootAlreadyStored   // operations insertRoot: the key is already stored

  datatype Result<+T> = Success(value: T) | Failure(error: Error) {
    predicate IsFailure() { Failure? }
    function PropagateFailure<U>(): Result<U> requires Failure? { Failure(error) }
    function Extract(): T requires Success? { value }
  }
}
