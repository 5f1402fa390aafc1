/**
 * The arithmetic of the triangle calculator (main.js): the validity test
 * `check_triangle`, the angle classification `get_triangle_type` and the
 * radicand of Heron's formula inside `calculate_field`.
 *
 * Side lengths are exact reals; JavaScript's `a ** 2` is written `a * a`.
 * Every operation reads only the first three elements of the sequence it
 * is given, as the source's do.
 */
module Geometry {

  /** The calculator's `TriangleType` enumeration: acute, right, obtuse. */
  datatype TriangleType = Ostrokatny | Prostokatny | Rozwartokatny

  /** The first three sides are in ascending order, so the third is the longest. */
  predicate SortedTriple(sides: seq<real>)
  {
    |sides| >= 3 && sides[0] <= sides[1] <= sides[2]
  }

  /** All three strict triangle inequalities: each side is shorter than the other two together. */
  predicate StrictTriangle(a: real, b: real, c: real)
  {
    a < b + c && b < a + c && c < a + b
  }

  /** Some side's square equals the sum of the other two squares: one angle is right. */
  predicate HasRightAngle(a: real, b: real, c: real)
  {
    a * a + b * b == c * c || a * a + c * c == b * b || b * b + c * c == a * a
  }

  /** Some side's square exceeds the sum of the other two squares: one angle is obtuse. */
  predicate HasObtuseAngle(a: real, b: real, c: real)
  {
    a * a + b * b < c * c || a * a + c * c < b * b || b * b + c * c < a * a
  }

  /** `r` is `s`, three values long, in one of the six orders. */
  predicate Reorders3(r: seq<real>, s: seq<real>)
  {
    |r| == 3 && |s| == 3 &&
    (r == [s[0], s[1], s[2]] || r == [s[0], s[2], s[1]] || r == [s[1], s[0], s[2]] ||
     r == [s[1], s[2], s[0]] || r == [s[2], s[0], s[1]] || r == [s[2], s[1], s[0]])
  }

  /**
   * Whether three sides make a triangle, and whether it has a right or an
   * obtuse angle, does not depend on the order the sides are listed in.
   */
  lemma {:induction false} PropertiesIgnoreOrder(r: seq<real>, s: seq<real>)
    requires Reorders3(r, s)
    ensures StrictTriangle(r[0], r[1], r[2]) <==> StrictTriangle(s[0], s[1], s[2])
    ensures HasRightAngle(r[0], r[1], r[2]) <==> HasRightAngle(s[0], s[1], s[2])
    ensures HasObtuseAngle(r[0], r[1], r[2]) <==> HasObtuseAngle(s[0], s[1], s[2])
  {
    var a, b, c := s[0], s[1], s[2];
    var aa, bb, cc := a * a, b * b, c * c;
    assert r[0] * r[0] + r[1] * r[1] + r[2] * r[2] == aa + bb + cc by {
      if r == [a, b, c] {
      } else if r == [a, c, b] {
      } else if r == [b, a, c] {
      } else if r == [b, c, a] {
      } else if r == [c, a, b] {
      } else {
      }
    }
  }

  /**
   * `check_triangle`: the third side is strictly shorter than the first two
   * together. On a sorted triple this is the whole triangle inequality, and
   * it can only hold when every side is positive.
   */
  function CheckTriangle(sides: seq<real>): (ok: bool)
    requires |sides| >= 3
    ensures SortedTriple(sides) ==> (ok <==> StrictTriangle(sides[0], sides[1], sides[2]))
    ensures SortedTriple(sides) && ok ==> 0.0 < sides[0]
  {
    sides[2] < sides[1] + sides[0]
  }

  /** `check_triangle` reads only the first three elements of its argument. */
  lemma {:induction false} CheckTriangleReadsFirstThree(s: seq<real>, t: seq<real>)
    requires |s| >= 3 && |t| >= 3 && s[..3] == t[..3]
    ensures CheckTriangle(s) == CheckTriangle(t)
  {
    assert s[0] == s[..3][0] && s[1] == s[..3][1] && s[2] == s[..3][2];
    assert t[0] == t[..3][0] && t[1] == t[..3][1] && t[2] == t[..3][2];
  }

  /**
   * `get_triangle_type`: compares the sum of the squares of the two shorter
   * sides with the square of the longest; exact equality means right, less
   * means obtuse, anything else acute. Exactly one of the three holds.
   */
  function GetTriangleType(sides: seq<real>): (t: TriangleType)
    requires |sides| >= 3
    ensures t == Prostokatny <==> sides[0] * sides[0] + sides[1] * sides[1] == sides[2] * sides[2]
    ensures t == Rozwartokatny <==> sides[0] * sides[0] + sides[1] * sides[1] < sides[2] * sides[2]
    ensures t == Ostrokatny <==> sides[0] * sides[0] + sides[1] * sides[1] > sides[2] * sides[2]
  {
    var a, b, c := sides[0], sides[1], sides[2];
    if a * a + b * b == c * c then Prostokatny
    else if a * a + b * b < c * c then Rozwartokatny
    else Ostrokatny
  }

  /** Squaring is monotonic on nonnegative reals. */
  lemma SquareMonotonic(x: real, y: real)
    requires 0.0 <= x <= y
    ensures x * x <= y * y
  {
    assert x * x <= x * y <= y * y;
  }

  /**
   * On a possible triangle whose sides are sorted, comparing only the
   * longest side classifies the triangle by its largest angle: the result is
   * right exactly when some angle is right, obtuse exactly when some angle
   * is obtuse, and acute when neither.
   */
  lemma {:induction false} TypeIsLargestAngle(sides: seq<real>)
    requires SortedTriple(sides) && CheckTriangle(sides)
    ensures GetTriangleType(sides) == Prostokatny <==> HasRightAngle(sides[0], sides[1], sides[2])
    ensures GetTriangleType(sides) == Rozwartokatny <==> HasObtuseAngle(sides[0], sides[1], sides[2])
    ensures GetTriangleType(sides) == Ostrokatny <==>
              !HasRightAngle(sides[0], sides[1], sides[2]) && !HasObtuseAngle(sides[0], sides[1], sides[2])
  {
    var a, b, c := sides[0], sides[1], sides[2];
    SquareMonotonic(a, b);
    SquareMonotonic(b, c);
    assert a * a <= b * b <= c * c;
    assert 0.0 < a * a;
    // the two other sides' squares are each strictly below the sum of the remaining two
    assert a * a < b * b + c * c;
    var aa, bb, cc := a * a, b * b, c * c;
    assert bb < aa + cc;
  }

  /**
   * The radicand `s(s-a)(s-b)(s-c)` of Heron's formula in `calculate_field`,
   * with `s` half the perimeter; the area shown is its square root.
   */
  function HeronRadicand(sides: seq<real>): (r: real)
    requires |sides| >= 3
  {
    var a, b, c := sides[0], sides[1], sides[2];
    var s := (a + b + c) / 2.0;
    s * (s - a) * (s - b) * (s - c)
  }

  /** The product of four positive reals is positive. */
  lemma ProductOfFourPositive(w: real, x: real, y: real, z: real)
    requires 0.0 < w && 0.0 < x && 0.0 < y && 0.0 < z
    ensures 0.0 < w * x * y * z
  {
    assert 0.0 < w * x;
    assert 0.0 < w * x * y;
  }

  /** Three nonnegative reals times a nonpositive one give a nonpositive product. */
  lemma ProductOfThreeNonnegativeTimesNonpositive(w: real, x: real, y: real, z: real)
    requires 0.0 <= w && 0.0 <= x && 0.0 <= y && z <= 0.0
    ensures w * x * y * z <= 0.0
  {
    assert 0.0 <= w * x;
    assert 0.0 <= w * x * y;
  }

  /**
   * The precondition `calculate_field` documents ("expects the triangle to
   * be possible") is exactly what makes the radicand positive: on a sorted
   * triple whose shortest side is nonnegative, the radicand is positive if
   * and only if `check_triangle` accepts the triple.
   */
  lemma {:induction false} HeronPositiveIffValid(sides: seq<real>)
    requires SortedTriple(sides) && 0.0 <= sides[0]
    ensures HeronRadicand(sides) > 0.0 <==> CheckTriangle(sides)
  {
    var a, b, c := sides[0], sides[1], sides[2];
    var s := (a + b + c) / 2.0;
    if CheckTriangle(sides) {
      assert 0.0 < a;
      assert 0.0 < s - c && 0.0 < s - b && 0.0 < s - a && 0.0 < s;
      ProductOfFourPositive(s, s - a, s - b, s - c);
    } else {
      // every factor but the last is nonnegative, and the last is not positive
      assert 0.0 <= s && 0.0 <= s - a && 0.0 <= s - b && s - c <= 0.0;
      ProductOfThreeNonnegativeTimesNonpositive(s, s - a, s - b, s - c);
    }
  }

  /**
   * Heron's radicand, like the area it gives, does not depend on the order
   * the three sides are listed in.
   */
  lemma {:induction false} HeronRadicandIgnoresOrder(r: seq<real>, s: seq<real>)
    requires Reorders3(r, s)
    ensures HeronRadicand(r) == HeronRadicand(s)
  {
    var a, b, c := s[0], s[1], s[2];
    var h := (a + b + c) / 2.0;
    var p, x, y, z := h, h - a, h - b, h - c;
    assert HeronRadicand(s) == p * x * y * z;
    assert (r[0] + r[1] + r[2]) / 2.0 == h;
    if r == [a, b, c] {
    } else if r == [a, c, b] {
      assert HeronRadicand(r) == p * x * z * y;
    } else if r == [b, a, c] {
      assert HeronRadicand(r) == p * y * x * z;
    } else if r == [b, c, a] {
      assert HeronRadicand(r) == p * y * z * x;
    } else if r == [c, a, b] {
      assert HeronRadicand(r) == p * z * x * y;
    } else {
      assert HeronRadicand(r) == p * z * y * x;
    }
  }

  /**
   * Without the nonnegativity of the shortest side the converse fails: the
   * sorted triple (-1, 2, 2) is rejected yet its radicand is positive.
   */
  lemma NegativeSideRadicand()
    ensures !CheckTriangle([-1.0, 2.0, 2.0]) && HeronRadicand([-1.0, 2.0, 2.0]) > 0.0
  {
  }

  /**
   * For a right triangle Heron's formula agrees with half the product of
   * the two legs: the radicand is the square of `a * b / 2`.
   */
  lemma {:induction false} RightTriangleRadicand(sides: seq<real>)
    requires |sides| >= 3 && GetTriangleType(sides) == Prostokatny
    ensures HeronRadicand(sides) == (sides[0] * sides[1] / 2.0) * (sides[0] * sides[1] / 2.0)
  {
    var a, b, c := sides[0], sides[1], sides[2];
    var s := (a + b + c) / 2.0;
    // pair the factors: s(s-c) and (s-a)(s-b)
    assert s * (s - c) == ((a + b) * (a + b) - c * c) / 4.0;
    assert (s - a) * (s - b) == (c * c - (a - b) * (a - b)) / 4.0;
    assert (a + b) * (a + b) - c * c == 2.0 * a * b;
    assert c * c - (a - b) * (a - b) == 2.0 * a * b;
    assert HeronRadicand(sides) == (s * (s - c)) * ((s - a) * (s - b));
  }

  /** The worked examples: (3,4,5) is right with radicand 36, (2,2,2) acute, (1,2,2.5) obtuse, (2,3,5) degenerate. */
  lemma Examples()
    ensures CheckTriangle([3.0, 4.0, 5.0]) && GetTriangleType([3.0, 4.0, 5.0]) == Prostokatny
    ensures HeronRadicand([3.0, 4.0, 5.0]) == 36.0
    ensures GetTriangleType([2.0, 2.0, 2.0]) == Ostrokatny
    ensures GetTriangleType([1.0, 2.0, 2.5]) == Rozwartokatny
    ensures HeronRadicand([6.0, 6.0, 6.0]) == 243.0
    ensures !CheckTriangle([2.0, 3.0, 5.0]) && HeronRadicand([2.0, 3.0, 5.0]) == 0.0
  {
  }
}
