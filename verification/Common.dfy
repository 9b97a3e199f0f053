/** Small facts that several components share. */
module Common {

  function Ceiling(x: real): int {
    -((-x).Floor)
  }

  /** Zero in place of a negative number. */
  function NotNegative(d: int): nat {
    if d < 0 then 0 else d
  }

  function One(b: bool): nat {
    if b then 1 else 0
  }

  function Product(x: real, y: real): real {
    x * y
  }

  /** Scaling by a positive number keeps the order. */
  lemma CancelScale(x: real, y: real, scale: real)
    requires scale > 0.0
    ensures x * scale <= y * scale <==> x <= y
    ensures x * scale < y * scale <==> x < y
  {
    var z := y - x;
    assert y * scale - x * scale == z * scale;
    if z > 0.0 {
      assert z * scale > 0.0;
    } else if z < 0.0 {
      assert z * scale < 0.0;
    }
  }

  lemma SubsetSize<T>(whole: set<T>, part: set<T>)
    requires part <= whole
    ensures |whole - part| == |whole| - |part| && |part| <= |whole|
  {
    assert whole == (whole - part) + part;
  }
}
