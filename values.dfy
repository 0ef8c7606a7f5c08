/** Controller values as the home-automation API reports them, and the
    parts of Python's value semantics that the rules and the diff rely on:
    truthiness, numeric comparison (where `bool` counts as a number) and
    equality (where `True == 1 == 1.0`). */
module Values {

  /** One controller value: a boolean, a number (ints and floats alike),
      an enumerated string such as "open" or "off", or the `None`
      placeholder that a newly seen controller name holds first. */
  datatype Val = B(b: bool) | N(x: real) | S(s: string) | Null

  /** An optional value: the outcome of a lookup that may find nothing. */
  datatype Option<T> = None | Some(value: T)

  /** A device-state snapshot: controller name to value. */
  type Snapshot = map<string, Val>

  /** Python truthiness: `if v:`. */
  predicate Truthy(v: Val) {
    match v
    case B(b) => b
    case N(x) => x != 0.0
    case S(s) => |s| > 0
    case Null => false
  }

  /** The values an arithmetic comparison accepts without a TypeError:
      Python's `bool` is a subtype of `int`. */
  predicate IsNumber(v: Val) {
    v.B? || v.N?
  }

  /** The numeric value of a number-like value (`True` is 1, `False` is 0). */
  function Num(v: Val): real
    requires IsNumber(v)
  {
    match v
    case B(b) => if b then 1.0 else 0.0
    case N(x) => x
  }

  /** Python `==` between two controller values: numbers (and booleans)
      compare by numeric value, everything else structurally. */
  predicate PyEq(a: Val, b: Val)
    ensures a == b ==> PyEq(a, b)
    ensures PyEq(a, b) ==> (IsNumber(a) <==> IsNumber(b))
  {
    if IsNumber(a) && IsNumber(b) then Num(a) == Num(b) else a == b
  }

  /** Python equality is an equivalence relation on controller values, and
      equal values have equal truthiness. */
  lemma PyEqIsEquivalence(a: Val, b: Val, c: Val)
    ensures PyEq(a, b) ==> PyEq(b, a)
    ensures PyEq(a, b) && PyEq(b, c) ==> PyEq(a, c)
    ensures PyEq(a, b) ==> Truthy(a) == Truthy(b)
  {
  }
}
