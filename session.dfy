/**
 * The session state of the app: the stored master perimeter and the number
 * of comparisons recorded in the history, and the capture handler that
 * updates them.
 */
module SessionState {
  import opened Wrappers
  import opened Contours
  import opened Measurer
  import opened Scoring

  /** What one capture shows the user. */
  datatype Outcome =
    | DetectionFailed
    | MasterStored(perimeter: real)
    | Compared(result: MatchResult)

  class Session {
    /** `masterPerimeter`: `None` until a master capture succeeds. */
    var masterPerimeter: Option<real>
    /** `measurementCount`: how many comparisons the history holds. */
    var measurementCount: nat

    /** A stored master is a positive length, so it can divide. */
    ghost predicate Valid()
      reads this
    {
      masterPerimeter.Some? ==> masterPerimeter.value > 0.0
    }

    /** A fresh session: no master, empty history. */
    constructor ()
      ensures Valid()
      ensures masterPerimeter == None && measurementCount == 0
    {
      masterPerimeter := None;
      measurementCount := 0;
    }

    /** `addToHistory`: count the comparison and work out its reason. */
    method AddToHistory(pct: real, passed: bool, productP: real, masterP: real) returns (reason: Reason)
      requires Valid()
      requires masterP != 0.0
      modifies this`measurementCount
      ensures Valid()
      ensures measurementCount == old(measurementCount) + 1
      ensures reason == ReasonFor(pct, passed, productP, masterP)
    {
      measurementCount := measurementCount + 1;
      reason := ReasonFor(pct, passed, productP, masterP);
    }

    /**
     * `handleImage` once the photo is decoded: measure it, then store it as
     * the master or compare it with the stored master. A failed measurement
     * changes nothing; a master capture changes only the master; a
     * comparison changes only the count, by one.
     */
    method HandleImage(contours: seq<Contour>, isMaster: bool) returns (outcome: Outcome)
      requires Valid()
      requires AllGeometric(contours)
      requires !isMaster ==> masterPerimeter.Some?
      modifies this
      ensures Valid()
      ensures Measure(contours).Failure? ==>
        && outcome == DetectionFailed
        && masterPerimeter == old(masterPerimeter)
        && measurementCount == old(measurementCount)
      ensures Measure(contours).Success? && isMaster ==>
        && outcome == MasterStored(Measure(contours).value)
        && masterPerimeter == Some(Measure(contours).value)
        && measurementCount == old(measurementCount)
      ensures Measure(contours).Success? && !isMaster ==>
        && outcome == Compared(Score(Measure(contours).value, old(masterPerimeter).value))
        && masterPerimeter == old(masterPerimeter)
        && measurementCount == old(measurementCount) + 1
    {
      var measured := MeasurePerimeter(contours);
      if measured.Failure? {
        return DetectionFailed;
      }
      var perimeter := measured.value;
      if isMaster {
        masterPerimeter := Some(perimeter);
        outcome := MasterStored(perimeter);
      } else {
        var master := masterPerimeter.value;
        var pct := ComputeMatch(perimeter, master);
        var passed := Passes(pct);
        var reason := AddToHistory(pct, passed, perimeter, master);
        outcome := Compared(MatchResult(pct, passed, reason));
      }
    }
  }

  /**
   * A new session in which the same photo is captured as master and then as
   * product: the comparison is a perfect match and is the first one recorded.
   * A photo that cannot be measured leaves the session without a master, so
   * the product capture stays disabled (`None`).
   */
  method MasterThenSameProduct(contours: seq<Contour>) returns (master: Outcome, product: Option<Outcome>, count: nat)
    requires AllGeometric(contours)
    ensures Measure(contours).Failure? ==> master == DetectionFailed && product == None && count == 0
    ensures Measure(contours).Success? ==>
      && master == MasterStored(Measure(contours).value)
      && product == Some(Compared(MatchResult(100.0, true, PerfectMatch)))
      && count == 1
  {
    var session := new Session();
    master := session.HandleImage(contours, true);
    if session.masterPerimeter.None? {
      return master, None, session.measurementCount;
    }
    var compared := session.HandleImage(contours, false);
    product := Some(compared);
    count := session.measurementCount;
    ScoreOfMaster(Measure(contours).value);
  }
}
