/** Option, Result and decimal numerals: what every other module is written in. */
module Basics {

  datatype Option<+T> = None | Some(value: T)

  /** The value of a computation, or the reason for a throw. */
  datatype Result<+T, +E> = Ok(value: T) | Err(error: E) {
    predicate IsFailure() {
      Err?
    }

    function PropagateFailure<U>(): Result<U, E>
      requires Err?
    {
      Err(error)
    }

    function Extract(): T
      requires Ok?
    {
      value
    }
  }

  /** The decimal numeral of a natural number. */
  function Numeral(n: nat): string {
    if n < 10 then [('0' as int + n) as char] else Numeral(n / 10) + Numeral(n % 10)
  }
}
