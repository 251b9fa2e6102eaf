/** Outcomes of the calls the components make into code outside this model
    (the hosted store, the password endpoint, browser APIs). */
module Outcomes {

  /** A value that may be missing: JavaScript's `null` for a typed slot. */
  datatype Option<+T> = None | Some(value: T)

  /** How an awaited call ended: it returned a value, or it threw (the promise
      was rejected). */
  datatype Call<+T> = Returned(value: T) | Threw
}
