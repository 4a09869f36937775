/** Failure-carrying values shared by the account model, the loader and the
    transaction applier. There is one error kind per failure the model
    covers; the two counterparty raises of the replay loop share one. */
module Outcomes {

  datatype Option<T> = None | Some(value: T)

  datatype Error =
    | EmptyOwner           // BankAccount(...) with an empty owner name
    | NegativeOpening      // BankAccount(...) with opening_balance < 0
    | NonPositiveAmount    // an amount <= 0 given to deposit / withdraw
    | InsufficientFunds    // a withdrawal larger than the balance
    | UnknownAccount       // a transaction row whose owner is not loaded
    | InvalidCounterparty  // a transfer row whose `other` is empty or not loaded
    | UnknownEvent         // a transaction row whose event is none of the four kinds
    | EmptyOwnerRow        // an accounts row with an empty owner
    | DuplicateOwner       // an accounts row repeating an earlier owner

  datatype Result<T> = Ok(value: T) | Err(error: Error)

  /** The outcome of an operation that returns nothing on success. */
  datatype Status = Success | Failure(error: Error)
}
