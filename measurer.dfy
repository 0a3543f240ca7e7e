/**
 * The measuring step of `measurePerimeter`: filter the traced contours, pick
 * the coin and the object, and convert the object's perimeter from pixels
 * to millimetres through the coin's enclosing circle.
 */
module Measurer {
  import opened Wrappers
  import opened Config
  import opened Contours
  import opened Selection

  /** The one way a measurement fails: fewer than two contours above the noise floor. */
  datatype MeasureError = NotEnoughContours

  /** Pixels per millimetre: the coin's enclosing diameter over its true diameter. */
  function PxPerMM(radius: real): (r: real)
    ensures r * COIN_DIAMETER_MM == 2.0 * radius
    ensures radius > 0.0 ==> r > 0.0
  {
    (2.0 * radius) / COIN_DIAMETER_MM
  }

  /**
   * A length in pixels converted to millimetres at the scale a coin of the
   * given enclosing radius sets; scaling back gives the pixel length again.
   */
  function PerimeterMM(periPx: real, radius: real): (mm: real)
    requires radius > 0.0
    ensures mm * PxPerMM(radius) == periPx
    ensures mm * (2.0 * radius) == periPx * COIN_DIAMETER_MM
    ensures periPx > 0.0 ==> mm > 0.0
  {
    periPx / PxPerMM(radius)
  }

  /**
   * The perimeter, in millimetres, that `measurePerimeter` reports for a photo
   * whose traced contours are `contours`, or the error it throws.
   */
  function Measure(contours: seq<Contour>): (r: Result<real, MeasureError>)
    requires AllGeometric(contours)
    ensures r.Failure? <==> |Survivors(contours)| < 2
    ensures r.Success? ==> r.value > 0.0
  {
    var valid := Survivors(contours);
    if |valid| < 2 then Failure(NotEnoughContours)
    else
      var coin := CoinIndex(valid);
      var obj := ObjectIndex(valid, coin);
      SurvivorsQualify(contours);
      Success(PerimeterMM(valid[obj].perimeterPx, valid[coin].enclosingRadius))
  }

  /** `measurePerimeter` from the traced contours on, with the filter loop of the source. */
  method MeasurePerimeter(contours: seq<Contour>) returns (r: Result<real, MeasureError>)
    requires AllGeometric(contours)
    ensures r == Measure(contours)
  {
    var valid := FilterContours(contours);
    if |valid| < 2 {
      return Failure(NotEnoughContours);
    }
    var coin := CoinIndex(valid);
    SurvivorsQualify(contours);
    var pxPerMM := PxPerMM(valid[coin].enclosingRadius);
    var obj := ObjectIndex(valid, coin);
    var periPx := valid[obj].perimeterPx;
    r := Success(periPx / pxPerMM);
  }

  /**
   * A successful measurement is the perimeter of the largest non-coin survivor
   * times 24 mm over the coin's enclosing diameter, where the coin is the most
   * circular survivor (larger area, then earlier position, breaking ties).
   */
  lemma MeasureOfCoinAndObject(contours: seq<Contour>, coin: nat, obj: nat)
    requires AllGeometric(contours)
    requires IsCoin(Survivors(contours), coin)
    requires IsObject(Survivors(contours), coin, obj)
    ensures Survivors(contours)[coin].enclosingRadius > 0.0
    ensures Measure(contours)
         == Success(PerimeterMM(Survivors(contours)[obj].perimeterPx, Survivors(contours)[coin].enclosingRadius))
  {
    var valid := Survivors(contours);
    CoinUnique(valid, coin);
    ObjectUnique(valid, coin, obj);
    SurvivorsQualify(contours);
  }

  /** An enclosing radius of 50 px and a perimeter of 300 px give 72 mm. */
  lemma ScaleExample()
    ensures PxPerMM(50.0) == 100.0 / 24.0
    ensures PerimeterMM(300.0, 50.0) == 72.0
  {
  }

  /**
   * A photo with a noise blob of exactly the noise floor, a true circle of
   * radius 50 px and a 300 px object of area 5000 px² measures 72 mm.
   */
  lemma MeasureExample()
    ensures Measure([Contour(500.0, 90.0, 13.0),
                     Contour(PI * 2500.0, PI * 100.0, 50.0),
                     Contour(5000.0, 300.0, 60.0)]) == Success(72.0)
  {
    var noise := Contour(500.0, 90.0, 13.0);
    var coin := Contour(PI * 2500.0, PI * 100.0, 50.0);
    var target := Contour(5000.0, 300.0, 60.0);
    var cs := [noise, coin, target];
    assert cs[..2] == [noise, coin] && [noise, coin][..1] == [noise] && [noise][..0] == [];
    assert Survivors([noise]) == [];
    assert Survivors([noise, coin]) == [coin];
    assert Survivors(cs) == [coin, target];
    assert Circularity(coin) == 1.0;
    assert Deficit(target) > 0.0;
    assert [coin, target][..1] == [coin];
    assert CoinIndex([coin, target]) == 0;
    assert ObjectIndex([coin, target], 0) == 1;
  }
}
