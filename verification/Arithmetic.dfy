/** Facts about products and whole quotients. */
module Arithmetic {

  function Min(a: int, b: int): int {
    if a < b then a else b
  }

  lemma MulMonotone(w: int, x: int, y: int)
    requires w >= 0 && x <= y
    ensures w * x <= w * y
  {
    assert w * (y - x) >= 0;
  }

  lemma MulCancel(w: int, x: int, y: int)
    requires w > 0 && w * x < w * y + w
    ensures x <= y
  {
    if x > y {
      MulMonotone(w, y + 1, x);
    }
  }

  lemma DivBounds(a: int, w: int)
    requires w > 0
    ensures w * (a / w) <= a < w * (a / w) + w
  {
  }

  /** The quotient is the greatest whole number whose product stays below. */
  lemma DivAtLeast(x: int, a: int, w: int)
    requires w > 0
    ensures w * x <= a <==> x <= a / w
  {
    DivBounds(a, w);
    if w * x <= a {
      MulCancel(w, x, a / w);
    }
    if x <= a / w {
      MulMonotone(w, x, a / w);
    }
  }
}
