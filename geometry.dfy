/** Integer axis-aligned rectangles with the pygame `Rect` semantics the game
    relies on, and the truncation `int(...)` applies to a velocity.

    pygame itself is not part of this model; the members below state, as
    assumptions, the behaviour of the pygame 2 `Rect` attributes and methods
    that the game calls: derived edges and centre (C integer division by 2),
    the edge setters, `inflate`, `get_rect(center=...)` and `colliderect`. */
module Geometry {

  /** A rectangle `{x, y, w, h}`; widths and heights are never negative. */
  datatype Rect = Rect(x: int, y: int, w: nat, h: nat) {

    function Right(): int { x + w }
    function Bottom(): int { y + h }
    function CenterX(): int { x + w / 2 }
    function CenterY(): int { y + h / 2 }

    /** `rect.right = v`: moves the rectangle horizontally so its right edge is at v. */
    function SetRight(v: int): (r: Rect)
      ensures r.Right() == v && r.y == y && r.w == w && r.h == h
    {
      this.(x := v - w)
    }

    /** `rect.left = v`. */
    function SetLeft(v: int): (r: Rect)
      ensures r.x == v && r.y == y && r.w == w && r.h == h
    {
      this.(x := v)
    }

    /** `rect.bottom = v`: moves the rectangle vertically so its bottom edge is at v. */
    function SetBottom(v: int): (r: Rect)
      ensures r.Bottom() == v && r.x == x && r.w == w && r.h == h
    {
      this.(y := v - h)
    }

    /** `rect.top = v`. */
    function SetTop(v: int): (r: Rect)
      ensures r.y == v && r.x == x && r.w == w && r.h == h
    {
      this.(y := v)
    }

    /** `rect.inflate(dx, dy)`: grows the rectangle by dx and dy, half on each side. */
    function Inflate(dx: nat, dy: nat): (r: Rect)
      ensures r.w == w + dx && r.h == h + dy
      ensures r.x <= x && Right() <= r.Right() && r.y <= y && Bottom() <= r.Bottom()
      ensures dx % 2 == 0 ==> r.CenterX() == CenterX()
      ensures dy % 2 == 0 ==> r.CenterY() == CenterY()
    {
      Rect(x - dx / 2, y - dy / 2, w + dx, h + dy)
    }

    /** `rect.colliderect(o)`: both rectangles have positive area and their
        interiors overlap; rectangles that only share an edge do not collide. */
    predicate CollideRect(o: Rect) {
      w > 0 && h > 0 && o.w > 0 && o.h > 0 &&
      x < o.Right() && o.x < Right() && y < o.Bottom() && o.y < Bottom()
    }
  }

  /** `image.get_rect(center=(cx, cy))` for an image of size w by h. */
  function Centered(cx: int, cy: int, w: nat, h: nat): (r: Rect)
    ensures r.CenterX() == cx && r.CenterY() == cy && r.w == w && r.h == h
  {
    Rect(cx - w / 2, cy - h / 2, w, h)
  }

  /** Python's `int(v)` on a float: rounds toward zero. */
  function Trunc(v: real): (n: int)
    ensures 0.0 <= v ==> 0 <= n && n as real <= v < n as real + 1.0
    ensures v < 0.0 ==> n <= 0 && n as real - 1.0 < v <= n as real
  {
    if v < 0.0 then -((-v).Floor) else v.Floor
  }

  /** Collision is symmetric. */
  lemma CollideSymmetric(a: Rect, b: Rect)
    ensures a.CollideRect(b) <==> b.CollideRect(a)
  {
  }

  /** Anything a rectangle touches, an inflated copy of it touches too. */
  lemma InflateKeepsCollision(a: Rect, b: Rect, dx: nat, dy: nat)
    requires a.CollideRect(b)
    ensures a.Inflate(dx, dy).CollideRect(b)
  {
  }
}
