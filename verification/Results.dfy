/** How the quote engines report: a value or the reason for a refusal. */
module Results {

  datatype Option<+T> = None | Some(value: T)

  /** The outcome of a quote: a value, or the reason it was refused. */
  datatype Result<+T> = Ok(value: T) | Err(error: Error) {
    predicate IsFailure() {
      Err?
    }

    function PropagateFailure<U>(): Result<U>
      requires Err?
    {
      Err(error)
    }

    function Extract(): T
      requires Ok?
    {
      value
    }
  }

  /** Why a quote engine refuses. */
  datatype Error =
    | OutsideUnsignedRange
    | TickOutsideRange
    | PriceOutsideRange
    | InvalidStep
    | ZeroLiquidity
    | InvalidPool
    | InvalidLimit
    | InvalidTick
    | DuplicateTick
    | InvalidFee
    | ZeroOrderPrice
    | MissingArrays
    | BudgetExhausted
    | EmptyReserves
    | CapExceeded
    | Exhausted
    | Complete
    | NotEnoughTokens
    | InvalidRoute
    | InvalidVenue
    | Discontinuous
    | MixedDirection
    | MisplacedCashback
    | WrongOutput
    | MissingAccount
    | InvalidFlags

  /** Accepts `v` only inside `0..=maximum`. */
  function Unsigned(v: int, maximum: int): (r: Result<nat>)
    ensures r.Ok? <==> 0 <= v <= maximum
    ensures r.Ok? ==> r.value == v
    ensures r.Err? ==> r.error == OutsideUnsignedRange
  {
    if 0 <= v <= maximum then Ok(v) else Err(OutsideUnsignedRange)
  }
}
