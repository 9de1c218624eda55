/** The server's immutable rectangle record (serverJava/Utils/Rect.java):
    four Java `int` components and the four edges derived from them. A Java
    record compares by its components, as a datatype does. */
module Rects {
  import opened Bytes

  datatype Rect = Rect(x: i32, y: i32, w: i32, h: i32)
  {
    function Left(): (r: i32)
      ensures r == x
    {
      x
    }

    function Top(): (r: i32)
      ensures r == y
    {
      y
    }

    /** `x + w` in Java `int` arithmetic, which wraps on overflow. */
    function Right(): (r: i32)
      ensures I32_MIN <= x + w <= I32_MAX ==> r == x + w
      ensures x + w > I32_MAX ==> r == x + w - 0x1_0000_0000
      ensures x + w < I32_MIN ==> r == x + w + 0x1_0000_0000
    {
      Wrap32(x + w)
    }

    /** `y + h` in Java `int` arithmetic, which wraps on overflow. */
    function Bottom(): (r: i32)
      ensures I32_MIN <= y + h <= I32_MAX ==> r == y + h
      ensures y + h > I32_MAX ==> r == y + h - 0x1_0000_0000
      ensures y + h < I32_MIN ==> r == y + h + 0x1_0000_0000
    {
      Wrap32(y + h)
    }
  }

  /** A rectangle with a non-negative size whose far edges do not overflow
      has its edges in order and spans exactly its size. */
  lemma {:induction false} EdgesOrdered(r: Rect)
    requires r.w >= 0 && r.h >= 0
    requires r.x + r.w <= I32_MAX && r.y + r.h <= I32_MAX
    ensures r.Left() <= r.Right() && r.Right() - r.Left() == r.w
    ensures r.Top() <= r.Bottom() && r.Bottom() - r.Top() == r.h
  {
    assert r.Right() == r.x + r.w;
    assert r.Bottom() == r.y + r.h;
  }

  /** With a non-negative width, the right edge wraps below the left one
      exactly when `x + w` overflows. */
  lemma {:induction false} RightWrapsIffOverflow(r: Rect)
    requires r.w >= 0
    ensures r.Right() < r.Left() <==> r.x + r.w > I32_MAX
  {
    if r.x + r.w > I32_MAX {
      assert r.Right() == r.x + r.w - 0x1_0000_0000;
    } else {
      assert r.Right() == r.x + r.w;
    }
  }
}
