/** Failure-carrying results for the storefront helpers.
    The source signals failures by raising (IndexError, ValueError,
    AttributeError, DoesNotExist); the model returns them as values. */
module Outcomes {

  /** A value that may be absent: Python's `None` for nullable fields. */
  datatype Option<+T> = None | Some(value: T) {
    function GetOr(default: T): T {
      match this
      case Some(v) => v
      case None => default
    }
  }

  /** Either the value a helper returns or the exception it raises. */
  datatype Result<+T, +E> = Success(value: T) | Failure(error: E)

  /** The exceptions the modelled helpers can raise. */
  datatype ShopError =
    | IndexOutOfRange    // IndexError: indexing past the end of a cached queryset
    | NotANumber         // ValueError: int() of a non-numeric form value
    | MissingRelation    // AttributeError: following a NULL foreign key
    | DoesNotExist       // Model.DoesNotExist raised by `objects.get`
    | MultipleObjectsReturned  // `get_or_create` finding more than one row
}
