/**
 * The Ruby values that the view components receive as keyword arguments and
 * keep in their `**options` hashes, with Ruby's truthiness, `||` and `to_s`.
 * A symbol and a string with the same text are different values.
 */
module RubyValues {
  import opened Text
  import opened Wrappers

  datatype Value = Nil | False | True | Str(s: string) | Sym(name: string) | Int(i: int)

  /** Everything except `nil` and `false` is truthy. */
  predicate Truthy(v: Value) {
    !(v.Nil? || v.False?)
  }

  /** Ruby's `a || b`. */
  function Or(a: Value, b: Value): Value {
    if Truthy(a) then a else b
  }

  /** `h[k]` on an options hash: nil for a missing key. */
  function Lookup(h: map<string, Value>, k: string): Value {
    if k in h then h[k] else Nil
  }

  /** A keyword argument with a default: the given value (even nil) wins over the default. */
  function Keyword(given: Option<Value>, default: Value): Value {
    given.GetOr(default)
  }

  /** `to_s`, as string interpolation and `Array#join` apply it. */
  function ToS(v: Value): string {
    match v
    case Nil => ""
    case False => "false"
    case True => "true"
    case Str(s) => s
    case Sym(n) => n
    case Int(i) => IntToDecimal(i)
  }
}
