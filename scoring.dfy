/**
 * Comparing a product measurement with the stored master: the clamped match
 * percentage, the pass/fail verdict and the reason shown in the history.
 */
module Scoring {
  import opened Config

  /** `computeMatch`: 100 less the relative deviation in percent, never below 0. */
  function ComputeMatch(product: real, master: real): (r: real)
    requires master > 0.0
    ensures 0.0 <= r <= 100.0
    ensures r == 100.0 <==> product == master
  {
    var diff := Abs(product - master);
    Max(0.0, 100.0 - (diff / master) * 100.0)
  }

  /** A product passes when its match is at least the threshold. */
  predicate Passes(pct: real)
    ensures pct == 100.0 ==> Passes(pct)
    ensures Passes(pct) ==> pct > 0.0
  {
    pct >= PASS_THRESHOLD
  }

  /** The reason column of the history; its percentages are kept exact, not rounded to one decimal. */
  datatype Reason =
    | PerfectMatch
    | WithinTolerance
    | TooLarge(percentDiff: real)
    | TooSmall(percentDiff: real)

  /** What one comparison reports: the match, the verdict and the reason. */
  datatype MatchResult = MatchResult(matchPercent: real, passed: bool, reason: Reason)

  /**
   * The reason `addToHistory` records for a comparison whose match is `pct`:
   * a failure is too large or too small, by the signed deviation in percent;
   * a pass is perfect when the match is not below 100 and within tolerance
   * otherwise.
   */
  function ReasonFor(pct: real, passed: bool, productP: real, masterP: real): (r: Reason)
    requires masterP != 0.0
    ensures r.TooLarge? || r.TooSmall? <==> !passed
    ensures r.TooLarge? ==> productP > masterP
    ensures r.TooSmall? ==> productP <= masterP
    ensures (r.TooLarge? || r.TooSmall?) ==> r.percentDiff * masterP == (productP - masterP) * 100.0
    ensures passed && pct < 100.0 ==> r == WithinTolerance
    ensures passed && pct >= 100.0 ==> r == PerfectMatch
  {
    if !passed then
      var diff := productP - masterP;
      var percentDiff := (diff / masterP) * 100.0;
      if diff > 0.0 then TooLarge(percentDiff) else TooSmall(percentDiff)
    else if pct < 100.0 then WithinTolerance
    else PerfectMatch
  }

  /** One comparison of a product measurement against the master, as `handleImage` makes it. */
  function Score(product: real, master: real): (r: MatchResult)
    requires master > 0.0
    ensures r.matchPercent == ComputeMatch(product, master)
    ensures 0.0 <= r.matchPercent <= 100.0
    ensures r.passed <==> r.matchPercent >= PASS_THRESHOLD
    ensures r.reason == PerfectMatch <==> r.passed && r.matchPercent == 100.0
    ensures r.reason == WithinTolerance <==> r.passed && r.matchPercent < 100.0
    ensures r.reason.TooLarge? <==> !r.passed && product > master
    ensures r.reason.TooSmall? <==> !r.passed && product <= master
    ensures r.reason.TooLarge? || r.reason.TooSmall? ==> r.reason.percentDiff * master == (product - master) * 100.0
  {
    var pct := ComputeMatch(product, master);
    MatchResult(pct, Passes(pct), ReasonFor(pct, Passes(pct), product, master))
  }

  /**
   * The outcome of a comparison in terms of the deviation alone: a pass is a
   * deviation of at most 5 % of the master, a perfect match an exact one, and
   * a failure is too large or too small by the side the deviation lies on.
   */
  lemma ScoreWithinFivePercent(product: real, master: real)
    requires master > 0.0
    ensures Score(product, master).passed <==> 20.0 * Abs(product - master) <= master
    ensures Score(product, master).reason == PerfectMatch <==> product == master
    ensures Score(product, master).reason == WithinTolerance <==> product != master && 20.0 * Abs(product - master) <= master
    ensures Score(product, master).reason.TooLarge? <==> 20.0 * (product - master) > master
    ensures Score(product, master).reason.TooSmall? <==> 20.0 * (master - product) > master
  {
    PassWithinFivePercent(product, master);
  }

  /** Passing means deviating from the master by at most 5 % of it. */
  lemma PassWithinFivePercent(product: real, master: real)
    requires master > 0.0
    ensures Passes(ComputeMatch(product, master)) <==> 20.0 * Abs(product - master) <= master
  {
    var diff := Abs(product - master);
    var q := diff / master;
    assert q * master == diff;
    DivBound(diff, master);
  }

  /** Dividing by a positive master keeps the comparison with 1/20. */
  lemma DivBound(diff: real, master: real)
    requires master > 0.0
    ensures diff / master <= 0.05 <==> 20.0 * diff <= master
  {
  }

  /** The match drops to 0 exactly when the deviation reaches the master itself. */
  lemma MatchZero(product: real, master: real)
    requires master > 0.0
    ensures ComputeMatch(product, master) == 0.0 <==> Abs(product - master) >= master
  {
    var diff := Abs(product - master);
    var q := diff / master;
    assert diff == q * master;
    if q >= 1.0 {
      assert q * master >= 1.0 * master;
    } else {
      assert q * master < 1.0 * master;
    }
  }

  /** Deviating by the same amount above or below the master gives the same match. */
  lemma MatchSymmetric(master: real, d: real)
    requires master > 0.0
    ensures ComputeMatch(master + d, master) == ComputeMatch(master - d, master)
  {
    assert Abs(master + d - master) == Abs(master - d - master);
  }

  /** An exact copy of the master scores 100, passes and is a perfect match. */
  lemma ScoreOfMaster(m: real)
    requires m > 0.0
    ensures Score(m, m) == MatchResult(100.0, true, PerfectMatch)
  {
  }

  /** 75.6 mm against 72 mm is exactly 5 % over: 95 %, a pass within tolerance. */
  lemma ScoreAtThreshold()
    ensures Score(75.6, 72.0) == MatchResult(95.0, true, WithinTolerance)
  {
  }

  /** 80 mm against 72 mm scores 800/9 % and fails as too large by 100/9 %. */
  lemma ScoreTooLarge()
    ensures Score(80.0, 72.0) == MatchResult(800.0 / 9.0, false, TooLarge(100.0 / 9.0))
  {
  }
}
