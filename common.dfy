/** Values shared by every part of the model: optional values (JavaScript's
    `undefined`/`null` versus a present value), document identifiers and
    JavaScript numbers. */
module Common {

  datatype Option<+T> = None | Some(value: T)

  /** Document identifiers (MongoDB ObjectIds), compared by value. */
  type Id = nat

  /** A JavaScript number as the routes see it: `NaN` (what `parseInt` and
      `parseFloat` give for text that is not a number) or a number, held as
      an exact real: rounding to double precision and the infinities are not
      part of this model. */
  datatype JsNumber = NaN | Num(value: real)

  /** JavaScript truthiness of an optional string: `undefined`, `null` and the
      empty string are falsy, every other string is truthy. */
  predicate Truthy(s: Option<string>)
  {
    s.Some? && s.value != ""
  }
}
