/**
 * Rectangles with integer bounds (SDL_Rect), the half-open containment test
 * `boundsCheck`, and the split of a node's rectangle into four quadrants that
 * `genTree` performs with C's truncating integer division.
 */
module Geometry {

  /** An SDL_Rect: integer origin, width and height. */
  datatype Rect = Rect(x: int, y: int, w: int, h: int)

  /** The world rectangle the root of every step's tree is given. */
  const Root: Rect := Rect(0, 0, 800, 600)

  /**
   * `boundsCheck`: a point lies in a rectangle when
   * x <= px < x + w and y <= py < y + h (the integer bounds are compared as
   * numbers). A rectangle that contains anything has w >= 1 and h >= 1, so a
   * rectangle with w <= 0 or h <= 0 contains nothing.
   */
  predicate InRect(r: Rect, px: real, py: real): (b: bool)
    ensures b ==> r.w >= 1 && r.h >= 1
  {
    && r.x as real <= px < (r.x + r.w) as real
    && r.y as real <= py < (r.y + r.h) as real
  }

  /**
   * C's `n / 2` on an int: the quotient is truncated toward zero, so it is
   * Dafny's Euclidean quotient only for n >= 0.
   */
  function Half(n: int): (h: int)
    ensures n >= 0 ==> 0 <= 2 * h <= n <= 2 * h + 1
    ensures n < 0 ==> 2 * h - 1 <= n <= 2 * h <= 0
    ensures n >= 1 ==> h < n
  {
    if n >= 0 then n / 2 else -((-n) / 2)
  }

  /**
   * The rectangle of child `q` of a node with bounds `r`: every child is
   * (w/2, h/2) in size; child 0 keeps the origin, child 1 is shifted right by
   * w/2, child 2 down by h/2, child 3 both.
   */
  function Quadrant(r: Rect, q: nat): (c: Rect)
    requires q < 4
    ensures r.w >= 0 && r.h >= 0 ==>
      r.x <= c.x && c.x + c.w <= r.x + r.w && r.y <= c.y && c.y + c.h <= r.y + r.h
    ensures r.w >= 1 ==> c.w < r.w
  {
    var hw, hh := Half(r.w), Half(r.h);
    match q
    case 0 => Rect(r.x, r.y, hw, hh)
    case 1 => Rect(r.x + hw, r.y, hw, hh)
    case 2 => Rect(r.x, r.y + hh, hw, hh)
    case 3 => Rect(r.x + hw, r.y + hh, hw, hh)
  }

  /** The four quadrants together contain exactly the points of `r`. */
  ghost predicate Tiles(r: Rect)
  {
    forall px: real, py: real ::
      InRect(r, px, py) <==> exists q: nat :: q < 4 && InRect(Quadrant(r, q), px, py)
  }

  /** Every point of a quadrant is a point of its parent. */
  lemma QuadrantInsideParent(r: Rect, q: nat, px: real, py: real)
    requires q < 4
    ensures InRect(Quadrant(r, q), px, py) ==> InRect(r, px, py)
  {
  }

  /** Under half-open containment no point lies in two different quadrants. */
  lemma QuadrantsDisjoint(r: Rect, q1: nat, q2: nat, px: real, py: real)
    requires q1 < 4 && q2 < 4 && q1 != q2
    ensures !(InRect(Quadrant(r, q1), px, py) && InRect(Quadrant(r, q2), px, py))
  {
  }

  /** The quadrant of a point of `r` when both sides of `r` are even. */
  function QuadrantOf(r: Rect, px: real, py: real): (q: nat)
    requires r.w % 2 == 0 && r.h % 2 == 0 && InRect(r, px, py)
    ensures q < 4 && InRect(Quadrant(r, q), px, py)
  {
    var right := px >= (r.x + Half(r.w)) as real;
    var below := py >= (r.y + Half(r.h)) as real;
    if !right && !below then 0
    else if right && !below then 1
    else if !right && below then 2
    else 3
  }

  /**
   * The quadrants tile a non-empty parent exactly when its width and height
   * are both even; with an odd side the last column (or row) of the parent
   * belongs to no quadrant.
   */
  lemma TilesIffEven(r: Rect)
    requires r.w >= 1 && r.h >= 1
    ensures Tiles(r) <==> r.w % 2 == 0 && r.h % 2 == 0
  {
    if r.w % 2 == 0 && r.h % 2 == 0 {
      forall px: real, py: real
        ensures InRect(r, px, py) <==> exists q: nat :: q < 4 && InRect(Quadrant(r, q), px, py)
      {
        if InRect(r, px, py) {
          var q := QuadrantOf(r, px, py);
        }
        forall q: nat | q < 4 && InRect(Quadrant(r, q), px, py) ensures InRect(r, px, py) {
          QuadrantInsideParent(r, q, px, py);
        }
      }
    } else {
      var px: real := if r.w % 2 == 0 then r.x as real else (r.x + r.w) as real - 0.5;
      var py: real := if r.w % 2 == 0 then (r.y + r.h) as real - 0.5 else r.y as real;
      assert InRect(r, px, py);
      forall q: nat | q < 4 ensures !InRect(Quadrant(r, q), px, py) {
      }
      assert !Tiles(r);
    }
  }
}
