/** Value types shared by the question controller and the auth controller. */
module Common {

  /** A value that may be absent: JavaScript's `null` / `undefined`. */
  datatype Option<+T> = None | Some(value: T)

  /** A destructuring default: `d` stands in for an absent value only. */
  function Default<T>(x: Option<T>, d: T): T
  {
    if x.Some? then x.value else d
  }

  /** The two sides of a binary market (the `TokenType` enum). */
  datatype Side = YES | NO

  /** The two kinds of transaction and peer-to-peer order. */
  datatype OrderType = BUY | SELL

  /** JavaScript truthiness of a nullable number: `null` and `0` are falsy. */
  predicate TruthyNumber(x: Option<real>)
  {
    x.Some? && x.value != 0.0
  }

  /** JavaScript truthiness of a nullable string: `null` and `''` are falsy. */
  predicate TruthyString(s: Option<string>)
  {
    s.Some? && s.value != ""
  }
}
