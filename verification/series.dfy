/** Element-wise operations on aligned columns, with the missing-value
    semantics of pandas/numpy floats: every ordering comparison that touches
    a NaN is false. */
module Series {
  import opened Options

  /** `a <= b` on two float cells: false when either is NaN. */
  function Le(a: Option<real>, b: Option<real>): (r: bool)
    ensures a.None? || b.None? ==> !r
    ensures a.Some? && b.Some? ==> (r <==> a.value <= b.value)
  {
    a.Some? && b.Some? && a.value <= b.value
  }

  /** `a >= b` on two float cells: the mirror image of `<=`. */
  function Ge(a: Option<real>, b: Option<real>): (r: bool)
    ensures r <==> Le(b, a)
    ensures a.None? || b.None? ==> !r
  {
    a.Some? && b.Some? && a.value >= b.value
  }

  /** `a < b` on two float cells: false when either is NaN, and otherwise
      the negation of `b <= a`. */
  function Lt(a: Option<real>, b: Option<real>): (r: bool)
    ensures a.None? || b.None? ==> !r
    ensures a.Some? && b.Some? ==> (r <==> !Le(b, a))
  {
    a.Some? && b.Some? && a.value < b.value
  }

  /** `a > b` on two float cells: the mirror image of `<`. */
  function Gt(a: Option<real>, b: Option<real>): (r: bool)
    ensures r <==> Lt(b, a)
    ensures a.None? || b.None? ==> !r
  {
    a.Some? && b.Some? && a.value > b.value
  }

  /** A comparison with a missing operand is false in every direction, so
      `<` and `>=` are complements only when both operands are present. */
  lemma MissingComparesFalse(a: Option<real>, b: Option<real>)
    ensures a.None? || b.None? <==> !Gt(a, b) && !Lt(a, b) && !Ge(a, b) && !Le(a, b)
    ensures a.Some? && b.Some? ==> (Gt(a, b) <==> !Le(a, b)) && (Lt(a, b) <==> !Ge(a, b))
  {
  }

  /** `column.shift(1)`: every value moves one row down and the first row
      becomes missing. The index, and so the length, is unchanged. */
  function Shift<T>(xs: seq<Option<T>>): (r: seq<Option<T>>)
    ensures |r| == |xs|
    ensures |r| > 0 ==> r[0] == None
    ensures forall t :: 0 < t < |r| ==> r[t] == xs[t - 1]
  {
    if |xs| == 0 then [] else [None] + xs[..|xs| - 1]
  }
}
