// Shared value types and arithmetic helpers for the squad-selection model.

module Base {

  /** The usual optional value. */
  datatype Option<+T> = None | Some(value: T)

  /** A value or an error, for the places where the source raises. */
  datatype Result<+T, +E> = Ok(value: T) | Err(error: E)

  /**
   * A pandas float cell: `None` stands for NaN (a value that was missing or
   * could not be coerced). Arithmetic on `Num` propagates NaN as pandas does.
   */
  type Num = Option<real>

  function NumAdd(a: Num, b: Num): Num {
    if a.Some? && b.Some? then Some(a.value + b.value) else None
  }

  function NumMul(a: Num, b: Num): Num {
    if a.Some? && b.Some? then Some(a.value * b.value) else None
  }

  /** Scaling of a column by a constant. */
  function NumScale(a: Num, c: real): Num {
    if a.Some? then Some(a.value * c) else None
  }

  /** Division; a zero divisor never reaches here, the source replaces it by NaN first. */
  function NumDiv(a: Num, b: Num): Num {
    if a.Some? && b.Some? && b.value != 0.0 then Some(a.value / b.value) else None
  }

  /** `fillna(d)` on one cell. */
  function FillNa(a: Num, d: real): real {
    if a.Some? then a.value else d
  }

  /** `x ** k` for a natural exponent. */
  function Pow(x: real, k: nat): real {
    if k == 0 then 1.0 else x * Pow(x, k - 1)
  }

  function Min(a: int, b: int): int {
    if a <= b then a else b
  }

  /** The sum of a sequence of reals, from the left. */
  function SumReals(s: seq<real>): real {
    if |s| == 0 then 0.0 else SumReals(s[..|s| - 1]) + s[|s| - 1]
  }

  /** A sequence without repeated elements. */
  predicate Distinct<T(==)>(s: seq<T>) {
    forall i, j :: 0 <= i < j < |s| ==> s[i] != s[j]
  }

  /** A set is empty or has a member (stated so that a witness can be picked with `:|`). */
  lemma {:induction false} EmptyOrHasElement(s: set<int>)
    ensures s == {} || exists y :: y in s
  {
    if forall y :: y !in s {
      assert s == {};
    }
  }
}
