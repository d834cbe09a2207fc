/** JavaScript value conventions the extension's scripts rely on: a slot that may
    hold a string or be `undefined`, its truthiness, the `||` default
    operator and string conversion inside a concatenation. */
module Js {

  /** A slot that is `undefined` (None) or holds a value. */
  datatype Option<+T> = None | Some(value: T)

  /** A string slot is truthy when it holds a non-empty string. */
  predicate Truthy(v: Option<string>)
  {
    v.Some? && v.value != ""
  }

  /** The value of a string slot, or `fallback` when it is absent or empty
      (the `||` operator). */
  function Or(v: Option<string>, fallback: string): string
  {
    if Truthy(v) then v.value else fallback
  }

  /** What `"..." + v` inserts: `undefined` becomes the text "undefined". */
  function Render(v: Option<string>): string
  {
    if v.Some? then v.value else "undefined"
  }

  /** Reading a key of a storage object: absent keys read as `undefined`. */
  function Get(m: map<string, string>, key: string): Option<string>
  {
    if key in m then Some(m[key]) else None
  }

  /** The outcome of an operation that either returns a value or throws an error with a message. */
  datatype Result<+T> = Returned(value: T) | Thrown(message: string)
}
