/** Types shared by every store and flow of the wallet service: opaque
    identifiers, the optional and result wrappers, and the error
    conditions the core raises together with their message texts. */
module Common {

  /** An authenticated user's identifier (an ObjectId in the service). */
  type UserId = nat

  datatype Option<T> = None | Some(value: T) {
    function GetOr(default: T): T {
      match this
      case Some(v) => v
      case None => default
    }
  }

  /** The errors the core signals. `DuplicateKey` and `ValidationFailed`
      are raised by the document store (a unique-index violation and a
      schema validator); `HookRefusal` by a hook of the transaction log,
      with the text of the error it raises. */
  datatype Failure =
    | AmountNotPositive
    | InsufficientBalance
    | WalletNotFound
    | DuplicateKey
    | ValidationFailed
    | HookRefusal(message: string)

  datatype Result<T> = Ok(value: T) | Err(error: Failure)

  /** Currency stored when the caller gives none. */
  const DefaultCurrency: string := "INR"

  /** The failure reason stored on a withdrawal the debit refused. */
  const InsufficientBalanceMessage: string := "Insufficient balance or wallet not found"

  /** The HTTP status a failed request is answered with: the core attaches
      400 or 404 to the errors it raises itself, and the error handler
      answers every other error with 500. */
  function StatusCode(f: Failure): (code: int)
    ensures code == 400 <==> f == AmountNotPositive || f == InsufficientBalance
    ensures code == 404 <==> f == WalletNotFound
    ensures code == 500 <==> !(f == AmountNotPositive || f == InsufficientBalance || f == WalletNotFound)
  {
    match f
    case AmountNotPositive => 400
    case InsufficientBalance => 400
    case WalletNotFound => 404
    case _ => 500
  }
}
