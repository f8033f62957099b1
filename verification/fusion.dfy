/** The weighted blend both scorers end with: `w * a + (1 - w) * b`. */
module Fusion {

  function Min(a: real, b: real): real {
    if a <= b then a else b
  }

  function Max(a: real, b: real): real {
    if a <= b then b else a
  }

  lemma MulNonneg(x: real, y: real)
    requires 0.0 <= x && 0.0 <= y
    ensures 0.0 <= x * y
  {
  }

  /** Moving a share `w` of the way from `lo` to `hi` stays between them. */
  lemma ShareOfGap(w: real, hi: real, lo: real)
    requires 0.0 <= w <= 1.0
    ensures lo <= hi ==> 0.0 <= w * (hi - lo) <= hi - lo
    ensures hi <= lo ==> hi - lo <= w * (hi - lo) <= 0.0
  {
    if lo <= hi {
      MulNonneg(w, hi - lo);
      MulNonneg(1.0 - w, hi - lo);
      assert (1.0 - w) * (hi - lo) == (hi - lo) - w * (hi - lo);
    } else {
      MulNonneg(w, lo - hi);
      MulNonneg(1.0 - w, lo - hi);
      assert (1.0 - w) * (lo - hi) == (lo - hi) - w * (lo - hi);
      assert w * (lo - hi) == - (w * (hi - lo));
    }
  }

  /** A convex combination of two scores: it never leaves the interval the two
      scores span, it is `b` when the weight is all on `b` (or when the two
      agree), and it moves from `b` towards `a` in proportion to `w`. */
  function Blend(w: real, a: real, b: real): (r: real)
    requires 0.0 <= w <= 1.0
    ensures Min(a, b) <= r <= Max(a, b)
    ensures a == b ==> r == b
    ensures w == 0.0 ==> r == b
    ensures w == 1.0 ==> r == a
  {
    ShareOfGap(w, a, b);
    ShareOfGap(1.0 - w, b, a);
    w * a + (1.0 - w) * b
  }

  /** Blending two scores that lie in the same range stays in that range. */
  lemma BlendInRange(w: real, a: real, b: real, lo: real, hi: real)
    requires 0.0 <= w <= 1.0
    requires lo <= a <= hi && lo <= b <= hi
    ensures lo <= Blend(w, a, b) <= hi
  {
  }
}
