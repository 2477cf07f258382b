/** Shared vocabulary of the ordering backend: optional values, the error
    taxonomy the routers raise as HTTP exceptions, the order status enum,
    and the two text helpers used for stored error messages. */
module Common {

  datatype Option<+T> = None | Some(value: T)

  /** The order status column of `orders`. */
  datatype Status = Placed | Accepted | Completed | Canceled {
    function Name(): string {
      match this
      case Placed => "PLACED"
      case Accepted => "ACCEPTED"
      case Completed => "COMPLETED"
      case Canceled => "CANCELED"
    }
  }

  /** Every error a core endpoint can answer with. */
  datatype Error =
    | RequestInvalid                                  // request body rejected by the schema (qty must be > 0)
    | ItemsRequired                                   // empty `items`
    | MenuItemNotFound(menuItemId: string)
    | MenuItemInactive(menuItemId: string)
    | OptionNotFound(optionId: string)
    | OptionNotAllowed(menuItemId: string, optionId: string)
    | SingleSelect(optionKey: string)
    | MultiSelect(optionKey: string)
    | InvalidOptionValues(missing: seq<string>)      // every requested key with no catalog row, in request order
    | OptionValueInactive(valueKey: string)
    | OrderNotFound
    | NotYourOrder
    | CannotCancel(status: Status)
    | CannotAccept(status: Status)
    | CannotComplete(status: Status)
    | NegativeLimit                                  // the store refuses a negative LIMIT
    | Unhandled(message: string)                     // an exception escaping the handler
  {
    /** The HTTP status the framework answers with. */
    function HttpStatus(): int {
      match this
      case RequestInvalid => 422
      case MenuItemNotFound(_) => 404
      case OptionNotFound(_) => 404
      case OrderNotFound => 404
      case NotYourOrder => 403
      case NegativeLimit => 500
      case Unhandled(_) => 500
      case _ => 400
    }
  }

  datatype Result<+T> = Ok(value: T) | Err(error: Error) {
    predicate IsFailure() { Err? }
    function PropagateFailure<U>(): Result<U> requires Err? { Err(error) }
    function Extract(): T requires Ok? { value }
  }

  datatype Outcome = Pass | Fail(error: Error)

  function Min(a: int, b: int): int { if a <= b then a else b }

  /** Python truthiness of an optional string: present and non-empty. */
  predicate Truthy(s: Option<string>)
  {
    s.Some? && s.value != ""
  }

  /** Python's `s[:n]`: the longest prefix of `s` no longer than `n`. */
  function Truncate(s: string, n: nat): (r: string)
    ensures |r| == Min(|s|, n) && r <= s
    ensures |s| <= n ==> r == s
  {
    if |s| <= n then s else s[..n]
  }

  /** Stand-in for the JSON / `str()` rendering of a list of provider results:
      the exact text is not modelled, only that it is built from the parts. */
  function Join(parts: seq<string>): string
  {
    if parts == [] then [] else Join(parts[..|parts| - 1]) + parts[|parts| - 1]
  }
}
