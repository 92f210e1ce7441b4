/** The exceptions the modelled code raises, one constructor per kind of failure. */
module Errors {
  import opened Values

  datatype Error =
    | NotCreated                 // the object has no id yet (`_check_exists`)
    | KeyError(key: Value)       // a dictionary lookup with an absent key
    | TypeError(reason: string)  // a call with missing or duplicated arguments, or a value of the wrong shape
    | AttributeError(name: string)
    | InvalidParent(parent: Value)
    | CannotUpdate               // `_update_self` with an object of a different id
    | NotInCollection            // `remove` of an item that is not among the cached items
    | Conflict(path: seq<Value>) // `merge` met two different leaves under this key path
    | NoLayerMatch
    | ManyLayersMatch
    | NotFound(id: Value)        // the remote store has no object with this id
    | RecursionLimit             // a parent chain that returns to an object already visited
    | Remote(reason: string)     // a failure reported by the remote store
}
