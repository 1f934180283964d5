/** Values shared by every component: an optional value standing for
    JavaScript's `undefined`/`null`, and the truthiness rules the code
    relies on when it writes `a || b` or `if (!x)`. */
module Common {

  datatype Option<+T> = None | Some(value: T)

  /** A JavaScript string that may be `undefined`/`null` is truthy iff it is
      present and non-empty. */
  predicate Truthy(s: Option<string>)
  {
    s.Some? && s.value != ""
  }

  /** `a || b` on two possibly-missing strings: the first truthy one, else `b`. */
  function OrElse(a: Option<string>, b: string): (r: string)
    ensures Truthy(a) ==> r == a.value
    ensures !Truthy(a) ==> r == b
  {
    if Truthy(a) then a.value else b
  }

  /** `a || b || c` where `c` is a literal default. */
  function FirstTruthy(a: Option<string>, b: Option<string>, default: string): (r: string)
    ensures Truthy(a) ==> r == a.value
    ensures !Truthy(a) && Truthy(b) ==> r == b.value
    ensures !Truthy(a) && !Truthy(b) ==> r == default
  {
    OrElse(a, OrElse(b, default))
  }

  /** Strips a possibly-present value to a plain string, `""` when missing. */
  function ValueOrEmpty(s: Option<string>): string
  {
    if s.Some? then s.value else ""
  }

  /** A listed token as a JavaScript object: its identity (two values with
      the same `identity` are the same object; two objects with equal fields
      are still different objects), its backend id (the React key and the
      de-duplication key) and its contract address (the key of the
      liquidity map). */
  datatype Token = Token(identity: nat, id: string, address: string)
}
