# OptiMetric measuring core, modelled in Dafny

OptiMetric is a browser app for relative dimensional checks. The user photographs a
master part next to a 24 mm coin, then photographs products next to the same coin.
The app traces the outer contours in each photo with OpenCV. It keeps those above a
noise floor of 500 px² and takes the most circular one as the coin. The coin's
enclosing circle sets the pixels-per-millimetre scale. The largest remaining contour
is the part, and its perimeter is converted to millimetres. A product's perimeter is
scored against the stored master as a percentage clamped at 0, passes at 95 % or more,
and is logged in a history with a reason.

The model covers that pipeline from the traced contours on:

- `wrappers.dfy` (`Wrappers`): `Option` and `Result`.
- `config.dfy` (`Config`): the three configuration constants, `Math.PI`, `Math.abs` and `Math.max`.
- `contours.dfy` (`Contours`): a contour is a record of its area, closed perimeter and
  enclosing-circle radius; circularity and its deficit; the filter loop, specified by `Survivors`.
- `selection.dfy` (`Selection`): coin and object choice. Each is the head of a stable
  sort, characterised by `IsCoin` and `IsObject`. Contours are identified by position,
  which is what the reference test `c !== coin` does.
- `measurer.dfy` (`Measurer`): the pixel-to-millimetre conversion and the whole measurement, as
  the function `Measure` and the method `MeasurePerimeter` that follows the source's steps.
- `scoring.dfy` (`Scoring`): `computeMatch`, the verdict, the history reason, and `Score`, which bundles them.
- `session.dfy` (`SessionState`): the class `Session` with the two globals `masterPerimeter` and
  `measurementCount`, and the capture handler that updates them.

Below, `m` is the master perimeter and `p` the product perimeter. The model follows the
code at three points that are easy to misread:

- The noise filter keeps areas strictly above 500, so an area of exactly 500 is dropped.
- A failed comparison is "Too Small" whenever the product is not larger than the master.
- There is no separate invalid-reference error. The master is simply required to be positive, and the session invariant guarantees that.

## Model

| member | source | states |
|---|---|---|
| Config.Abs | script.js:150 | `Math.abs`: not negative, and equal to x or −x |
| Config.Max | script.js:151 | `Math.max`: at least both arguments, and equal to one of them |
| Contours.Qualifies | script.js:122 | the noise-floor test; a kept contour with OpenCV's geometry has a positive perimeter and enclosing radius |
| Contours.Circularity | script.js:91-95 | zero for a zero perimeter; otherwise circularity × perimeter² = 4·π·area |
| Contours.Deficit | script.js:130 | the coin score is never negative and is exactly 1 for a zero-perimeter contour |
| Contours.FilterContours | script.js:119-123 | the loop's result is exactly `Survivors` of the traced contours |
| Contours.Survivors | script.js:119-123 | the valid list is never longer than the input |
| Contours.SurvivorsMembers | script.js:119-123 | a contour is valid iff it is in the input and its area is strictly above 500 |
| Contours.SurvivorsSingleton | script.js:122 | an area of exactly 500 is discarded, one above it is kept |
| Contours.SurvivorsAppend | script.js:119-123 | filtering distributes over concatenation, so the original order is kept |
| Contours.SurvivorsIdempotent | script.js:119-123 | filtering the valid list again leaves it unchanged |
| Contours.SurvivorsQualify | script.js:119-123 | every valid contour is above the noise floor and keeps the input's geometric facts |
| Selection.CoinBefore | script.js:133 | the sort comparator: a contour sorted first never has the larger deficit, and no contour sorts before itself |
| Selection.CoinBeforeStrictOrder | script.js:133 | the comparator is a strict order: never both ways round, and transitive |
| Selection.CoinIndex | script.js:127-133 | the chosen coin has no survivor sorting before it (smaller deficit, or equal deficit and larger area) and sorts strictly before every earlier survivor (stable tie-break) |
| Selection.CoinUnique | script.js:127-133 | only one index meets that property, so it is the head of the stable sort |
| Selection.CoinIsMostCircular | script.js:127-133 | the coin's deficit is minimal, and among equal deficits its area is maximal |
| Selection.LargestIndex | script.js:140 | the head of a stable sort by decreasing area: maximal area, earliest among equals |
| Selection.Without | script.js:139 | the list without the coin is one shorter and keeps every other contour in order |
| Selection.ObjectIndex | script.js:138-140 | the object is never the coin, has area ≥ every other non-coin survivor, and is the earliest such |
| Selection.ObjectFromRest | script.js:138-140 | the largest contour of the list without the coin, moved back to its index in the full list, is the object |
| Selection.ObjectUnique | script.js:138-140 | only one index meets the object property |
| Measurer.PxPerMM | script.js:136 | pixels per millimetre times the 24 mm coin diameter is the enclosing diameter in pixels; positive for a positive radius |
| Measurer.PerimeterMM | script.js:135-143 | mm × pxPerMM = pixels, i.e. mm × 2r = pixels × 24; positive for a positive pixel length |
| Measurer.Measure | script.js:119-146 | fails iff fewer than two contours survive the filter; a success is a positive length |
| Measurer.MeasurePerimeter | script.js:119-146 | the filter-loop version returns exactly `Measure` of the contours, error included |
| Measurer.MeasureOfCoinAndObject | script.js:127-143 | for the coin and object characterised by `IsCoin`/`IsObject`, the measurement is the object's pixel perimeter at the coin's scale |
| Measurer.ScaleExample | script.js:135-143 | radius 50 px gives 100/24 px per mm, and 300 px gives 72 mm |
| Measurer.MeasureExample | script.js:119-146 | a 500 px² blob (dropped), a true circle of radius 50 and a 300 px object measure 72 mm |
| Scoring.ComputeMatch | script.js:149-152 | for a positive master the match lies in [0, 100] and is 100 iff product = master |
| Scoring.MatchSymmetric | script.js:149-152 | deviating by d above or below the master gives the same match |
| Scoring.MatchZero | script.js:151 | the match is clamped to 0 exactly when the deviation is at least the master |
| Scoring.Passes | script.js:73 | the verdict `match >= 95`: a match of 100 passes, and a passing match is positive |
| Scoring.PassWithinFivePercent | script.js:73 | pass iff 20·\|p − m\| ≤ m, i.e. within 5 % of the master |
| Scoring.ReasonFor | script.js:164-172 | a failure, and only a failure, is Too Large (product above master) or Too Small (not above), carrying (p − m)/m × 100; a pass below 100 is Within Tolerance; any other pass is Perfect Match |
| Scoring.Score | script.js:72-77 | the match is `ComputeMatch`, in [0, 100]; passed iff the match is at least 95; Perfect Match iff passed with 100; Within Tolerance iff passed below 100; Too Large iff failed with product above master; Too Small iff failed with product not above; a failure carries (p − m)/m × 100 |
| Scoring.ScoreWithinFivePercent | script.js:72-77 | the same outcome by deviation: pass iff within 5 %; Perfect Match iff p = m; Within Tolerance iff p ≠ m within 5 %; Too Large iff more than 5 % over; Too Small iff more than 5 % under |
| Scoring.ScoreOfMaster | script.js:72-77 | scoring the master against itself gives 100, pass, Perfect Match |
| Scoring.ScoreAtThreshold | script.js:72-77 | 75.6 against 72 is 95, a pass, Within Tolerance |
| Scoring.ScoreTooLarge | script.js:164-172 | 80 against 72 is 800/9, a fail, Too Large by 100/9 % |
| SessionState.Session.constructor | script.js:11-12 | a session starts without a master and with a count of 0 |
| SessionState.Session.AddToHistory | script.js:154-172 | the count grows by exactly one and the reason is `ReasonFor` the comparison: Too Large or Too Small on a failure, Within Tolerance on a pass below 100, Perfect Match on any other pass |
| SessionState.Session.HandleImage | script.js:58-81 | a failed measurement changes neither the master nor the count; a master capture overwrites the master and keeps the count; a comparison keeps the master, adds one to the count and reports `Score` against the old master; a stored master stays positive |
| SessionState.MasterThenSameProduct | script.js:58-81 | in a new session, the same photo as master and then as product gives a Perfect Match as the first recorded comparison; an unmeasurable photo stores no master |

## Left out

- Image processing (script.js:98-117): grey conversion, Otsu threshold, morphological closing and contour tracing are OpenCV calls. Their output enters the model as a sequence of contour records.
- `cv.contourArea`, `cv.arcLength` and `cv.minEnclosingCircle` are given fields of each record, not computed from points. `Measure`, `MeasurePerimeter` and `HandleImage` require `Geometric` of every record: measures are not negative, and a contour with area has a positive perimeter and enclosing radius. The code divides by the coin's enclosing radius, which a contour of area above 500 never has at 0.
- Floating point: all arithmetic is exact over `real`, with π as the shortest decimal that reads back as `Math.PI`. IEEE rounding, `Infinity` and `NaN` are not modelled. So neither is the rounding that can put a nominal 5 % deviation just below or above the threshold.
- `toFixed` formatting of the match and the reason's percentage (script.js:74, 167, 178): the reason carries the exact percentage.
- Scoring.ComputeMatch: requires a positive master. The code divides by a master of 0 without a guard. The session only ever stores positive masters, so that case cannot arise from a capture.
- SessionState.Session.HandleImage: requires a stored master for a product capture. The product button is enabled only after a master is stored (script.js:63), so the code's path with a `null` master is not modelled.
- DOM and browser work: element lookups, event wiring, button and light state, the status text, the `Image`/`onload` callback and `URL.createObjectURL`, and building and inserting the history row (script.js:17-56, 63-70, 156-188).
- Releasing OpenCV `Mat` buffers with `.delete()` (script.js:82, 145): this is memory management in a foreign heap. The releases at script.js:145 are skipped when script.js:125 throws; `src.delete()` at script.js:82 runs on both paths; `kernel` (script.js:107) is never released.
- The sorts (script.js:133, 140) are modelled by their first element only, which is all the code reads. The order of the rest of the sorted arrays is not modelled.
