/**
 * Contours as the measurer sees them, the circularity score, and the
 * noise-floor filter that builds the list of valid contours.
 */
module Contours {
  import opened Config

  /**
   * One external contour traced in the binarised image, reduced to the three
   * numbers OpenCV computes for it: `contourArea`, the closed `arcLength` and
   * the radius of `minEnclosingCircle`.
   */
  datatype Contour = Contour(area: real, perimeterPx: real, enclosingRadius: real)

  /**
   * What holds of every contour OpenCV traces: the three measures are not
   * negative, and a region that encloses some area has a boundary of positive
   * length and an enclosing circle of positive radius.
   */
  predicate Geometric(c: Contour) {
    && 0.0 <= c.area
    && 0.0 <= c.perimeterPx
    && 0.0 <= c.enclosingRadius
    && (c.area > 0.0 ==> c.perimeterPx > 0.0 && c.enclosingRadius > 0.0)
  }

  predicate AllGeometric(cs: seq<Contour>) {
    forall i :: 0 <= i < |cs| ==> Geometric(cs[i])
  }

  /**
   * `circularity(c)`: 4·π·area / perimeter², and 0 for a contour whose
   * perimeter is zero.
   */
  function Circularity(c: Contour): (r: real)
    ensures c.perimeterPx == 0.0 ==> r == 0.0
    ensures c.perimeterPx != 0.0 ==> r * (c.perimeterPx * c.perimeterPx) == 4.0 * PI * c.area
  {
    if c.perimeterPx == 0.0 then 0.0
    else 4.0 * PI * c.area / (c.perimeterPx * c.perimeterPx)
  }

  /**
   * The coin score `|circularity(c) - 1|`: never negative, and 1 for a
   * contour of zero perimeter.
   */
  function Deficit(c: Contour): (d: real)
    ensures d >= 0.0
    ensures c.perimeterPx == 0.0 ==> d == 1.0
  {
    Abs(Circularity(c) - 1.0)
  }

  /** A contour is kept when its area is strictly above the noise floor. */
  predicate Qualifies(c: Contour)
    ensures Qualifies(c) && Geometric(c) ==> c.perimeterPx > 0.0 && c.enclosingRadius > 0.0
  {
    c.area > MIN_CONTOUR_AREA
  }

  /** The specification of the filter loop: the qualifying contours, in order. */
  function Survivors(cs: seq<Contour>): (r: seq<Contour>)
    ensures |r| <= |cs|
  {
    if cs == [] then []
    else Survivors(cs[..|cs| - 1]) + (if Qualifies(cs[|cs| - 1]) then [cs[|cs| - 1]] else [])
  }

  /** The filter loop of `measurePerimeter`, pushing each qualifying contour. */
  method FilterContours(contours: seq<Contour>) returns (valid: seq<Contour>)
    ensures valid == Survivors(contours)
  {
    valid := [];
    for i := 0 to |contours|
      invariant valid == Survivors(contours[..i])
    {
      var c := contours[i];
      if c.area > MIN_CONTOUR_AREA {
        valid := valid + [c];
      }
      assert contours[..i + 1][..i] == contours[..i];
    }
    assert contours[..|contours|] == contours;
  }

  /** A contour survives exactly when it is in the input and above the noise floor. */
  lemma {:induction false} SurvivorsMembers(cs: seq<Contour>)
    ensures forall x :: x in Survivors(cs) <==> x in cs && Qualifies(x)
  {
    if cs != [] {
      var init := cs[..|cs| - 1];
      SurvivorsMembers(init);
      assert cs == init + [cs[|cs| - 1]];
    }
  }

  /** An area of exactly the noise floor is discarded; one above it is kept. */
  lemma SurvivorsSingleton(c: Contour)
    ensures c.area == MIN_CONTOUR_AREA ==> Survivors([c]) == []
    ensures c.area > MIN_CONTOUR_AREA ==> Survivors([c]) == [c]
  {
  }

  /** Filtering distributes over concatenation, so it keeps the input order. */
  lemma {:induction false} SurvivorsAppend(a: seq<Contour>, b: seq<Contour>)
    ensures Survivors(a + b) == Survivors(a) + Survivors(b)
  {
    if b == [] {
      assert a + b == a;
    } else {
      var init := b[..|b| - 1];
      SurvivorsAppend(a, init);
      assert (a + b)[..|a + b| - 1] == a + init;
    }
  }

  /** Filtering the valid list again changes nothing. */
  lemma {:induction false} SurvivorsIdempotent(cs: seq<Contour>)
    ensures Survivors(Survivors(cs)) == Survivors(cs)
  {
    if cs != [] {
      var init := cs[..|cs| - 1];
      var last := cs[|cs| - 1];
      SurvivorsIdempotent(init);
      var tail := if Qualifies(last) then [last] else [];
      SurvivorsAppend(Survivors(init), tail);
      assert [last][..0] == [];
    }
  }

  /** Every survivor is above the noise floor and keeps the input's geometry. */
  lemma SurvivorsQualify(cs: seq<Contour>)
    requires AllGeometric(cs)
    ensures forall i :: 0 <= i < |Survivors(cs)| ==> Qualifies(Survivors(cs)[i]) && Geometric(Survivors(cs)[i])
  {
    SurvivorsMembers(cs);
  }
}
