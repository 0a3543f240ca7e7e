/**
 * Choosing the coin and the measured object among the valid contours.
 *
 * Both choices are the first element of a stable sort, so each is the
 * earliest index that no other contour beats under the sort's comparator.
 * Contours are identified by their index in the valid list, which is what
 * the reference comparison `c !== coin` amounts to.
 */
module Selection {
  import opened Contours

  /**
   * `a` sorts strictly before `b` under the coin comparator: a smaller
   * deficit first, and among equal deficits the larger area.
   */
  predicate CoinBefore(a: Contour, b: Contour)
    ensures CoinBefore(a, b) ==> Deficit(a) <= Deficit(b)
    ensures a == b ==> !CoinBefore(a, b)
  {
    Deficit(a) < Deficit(b) || (Deficit(a) == Deficit(b) && a.area > b.area)
  }

  /** The comparator is a strict order: asymmetric and transitive. */
  lemma CoinBeforeStrictOrder(a: Contour, b: Contour, c: Contour)
    ensures CoinBefore(a, b) ==> !CoinBefore(b, a)
    ensures CoinBefore(a, b) && CoinBefore(b, c) ==> CoinBefore(a, c)
  {
  }

  /** `k` is what a stable sort under the coin comparator puts first. */
  predicate IsCoin(s: seq<Contour>, k: nat) {
    && k < |s|
    && (forall j :: 0 <= j < |s| ==> !CoinBefore(s[j], s[k]))
    && (forall j :: 0 <= j < k ==> CoinBefore(s[k], s[j]))
  }

  /** The index of the coin: the head of the valid list sorted by the coin comparator. */
  function CoinIndex(s: seq<Contour>): (k: nat)
    requires |s| > 0
    ensures IsCoin(s, k)
    decreases |s|
  {
    if |s| == 1 then 0
    else
      var k := CoinIndex(s[..|s| - 1]);
      if CoinBefore(s[|s| - 1], s[k]) then |s| - 1 else k
  }

  /** Only one index has the coin property, so CoinIndex is the sort's head. */
  lemma CoinUnique(s: seq<Contour>, k: nat)
    requires IsCoin(s, k)
    ensures k == CoinIndex(s)
  {
  }

  /**
   * The coin has the least deficit; among those, the largest area; a contour
   * less circular than another is never the coin.
   */
  lemma CoinIsMostCircular(s: seq<Contour>, j: nat)
    requires j < |s|
    ensures Deficit(s[CoinIndex(s)]) <= Deficit(s[j])
    ensures Deficit(s[CoinIndex(s)]) == Deficit(s[j]) ==> s[CoinIndex(s)].area >= s[j].area
  {
  }

  /** `k` is what a stable sort by decreasing area puts first. */
  predicate IsLargest(s: seq<Contour>, k: nat) {
    && k < |s|
    && (forall j :: 0 <= j < |s| ==> s[j].area <= s[k].area)
    && (forall j :: 0 <= j < k ==> s[j].area < s[k].area)
  }

  /** The head of a list sorted by decreasing area. */
  function LargestIndex(s: seq<Contour>): (k: nat)
    requires |s| > 0
    ensures IsLargest(s, k)
    decreases |s|
  {
    if |s| == 1 then 0
    else
      var k := LargestIndex(s[..|s| - 1]);
      if s[|s| - 1].area > s[k].area then |s| - 1 else k
  }

  /** The valid list with the coin taken out, as `valid.filter(c => c !== coin)` builds it. */
  function Without(s: seq<Contour>, coin: nat): (r: seq<Contour>)
    requires coin < |s|
    ensures |r| == |s| - 1
    ensures forall i :: 0 <= i < coin ==> r[i] == s[i]
    ensures forall i :: coin <= i < |r| ==> r[i] == s[i + 1]
  {
    s[..coin] + s[coin + 1..]
  }

  /**
   * `k` is the measured object: not the coin, of the largest area among the
   * other contours, and the earliest such.
   */
  predicate IsObject(s: seq<Contour>, coin: nat, k: nat) {
    && k < |s| && k != coin
    && (forall j :: 0 <= j < |s| && j != coin ==> s[j].area <= s[k].area)
    && (forall j :: 0 <= j < k && j != coin ==> s[j].area < s[k].area)
  }

  /** The index, in the valid list, of the largest contour other than the coin. */
  function ObjectIndex(s: seq<Contour>, coin: nat): (k: nat)
    requires 2 <= |s| && coin < |s|
    ensures IsObject(s, coin, k)
  {
    var rest := Without(s, coin);
    var i := LargestIndex(rest);
    ObjectFromRest(s, coin, i);
    if i < coin then i else i + 1
  }

  /** The largest contour of the list without the coin, mapped back to its index in the list. */
  lemma ObjectFromRest(s: seq<Contour>, coin: nat, i: nat)
    requires 2 <= |s| && coin < |s|
    requires IsLargest(Without(s, coin), i)
    ensures IsObject(s, coin, if i < coin then i else i + 1)
  {
    var rest := Without(s, coin);
    var k := if i < coin then i else i + 1;
    assert s[k] == rest[i];
    forall j | 0 <= j < |s| && j != coin
      ensures s[j].area <= s[k].area
      ensures j < k ==> s[j].area < s[k].area
    {
      var jr := if j < coin then j else j - 1;
      assert s[j] == rest[jr];
    }
  }

  /** Only one index has the object property. */
  lemma ObjectUnique(s: seq<Contour>, coin: nat, k: nat)
    requires 2 <= |s| && coin < |s|
    requires IsObject(s, coin, k)
    ensures k == ObjectIndex(s, coin)
  {
  }
}
