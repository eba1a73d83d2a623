/** Small shared vocabulary: an optional value, real min/max/clamp, and the
    type of a `Math.random()` draw. */
module Common {

  /** A value that may be missing (the source's `null` / `undefined`). */
  datatype Option<+T> = None | Some(value: T)

  /** A draw of `Math.random()`: a real in [0, 1). Every random choice of the
      source is passed in as one of these. */
  type Unit = r: real | 0.0 <= r < 1.0 witness 0.0

  function Min(a: real, b: real): (r: real)
    ensures r <= a && r <= b
    ensures r == a || r == b
  {
    if a <= b then a else b
  }

  function Max(a: real, b: real): (r: real)
    ensures r >= a && r >= b
    ensures r == a || r == b
  {
    if a >= b then a else b
  }

  /** `Math.max(lo, Math.min(hi, v))`, the clamp idiom the source uses everywhere. */
  function Clamp(lo: real, hi: real, v: real): (r: real)
    ensures lo <= hi ==> lo <= r <= hi
    ensures lo <= v <= hi ==> r == v
  {
    Max(lo, Min(hi, v))
  }

  /** The integer clamp used on grid coordinates. */
  function ClampInt(lo: int, hi: int, v: int): (r: int)
    ensures lo <= hi ==> lo <= r <= hi
    ensures lo <= v <= hi ==> r == v
  {
    var m := if hi < v then hi else v;
    if m < lo then lo else m
  }

  function Abs(x: real): (r: real)
    ensures r >= 0.0
    ensures r == x || r == -x
  {
    if x < 0.0 then -x else x
  }

  /** JavaScript `Math.floor(x * 0.7)`-style scaling of an integer by a real. */
  function FloorScale(n: int, factor: real): int
  {
    (n as real * factor).Floor
  }

  /** The "keep the strictly nearer candidate" scan the source writes out
      several times, from position k on: `mask` says which positions are
      candidates, `best` is the first strictly nearest candidate so far. */
  function FirstNearestFrom(mask: seq<bool>, dist: seq<real>, k: int, best: Option<int>): (r: Option<int>)
    requires |mask| == |dist| && 0 <= k <= |mask|
    requires best.Some? ==> 0 <= best.value < k && mask[best.value]
    ensures r.Some? ==> 0 <= r.value < |mask| && mask[r.value]
    ensures r.None? ==> best.None? && forall j :: k <= j < |mask| ==> !mask[j]
    ensures r.Some? && best.Some? ==> dist[r.value] <= dist[best.value]
    ensures forall j :: k <= j < |mask| && mask[j] ==> r.Some? && dist[r.value] <= dist[j]
    decreases |mask| - k
  {
    if k == |mask| then best
    else if mask[k] && (best.None? || dist[k] < dist[best.value]) then
      FirstNearestFrom(mask, dist, k + 1, Some(k))
    else
      FirstNearestFrom(mask, dist, k + 1, best)
  }

  lemma {:induction false} FirstNearestFromIsFirstMinimum(mask: seq<bool>, dist: seq<real>, k: int, best: Option<int>)
    requires |mask| == |dist| && 0 <= k <= |mask|
    requires best.Some? ==> 0 <= best.value < k && mask[best.value]
    requires best.None? ==> forall j :: 0 <= j < k ==> !mask[j]
    requires best.Some? ==> forall j :: 0 <= j < k && mask[j] ==> dist[best.value] <= dist[j]
    requires best.Some? ==> forall j :: 0 <= j < best.value && mask[j] ==> dist[best.value] < dist[j]
    ensures var r := FirstNearestFrom(mask, dist, k, best);
      r.Some? ==> forall j :: 0 <= j < r.value && mask[j] ==> dist[r.value] < dist[j]
    decreases |mask| - k
  {
    if k < |mask| {
      if mask[k] && (best.None? || dist[k] < dist[best.value]) {
        FirstNearestFromIsFirstMinimum(mask, dist, k + 1, Some(k));
      } else {
        FirstNearestFromIsFirstMinimum(mask, dist, k + 1, best);
      }
    }
  }

  /** The whole scan: the first candidate of least distance, if any. */
  function FirstNearest(mask: seq<bool>, dist: seq<real>): (r: Option<int>)
    requires |mask| == |dist|
    ensures r.Some? ==> 0 <= r.value < |mask| && mask[r.value]
    ensures r.None? <==> forall j :: 0 <= j < |mask| ==> !mask[j]
    ensures r.Some? ==> forall j :: 0 <= j < |mask| && mask[j] ==> dist[r.value] <= dist[j]
  {
    FirstNearestFrom(mask, dist, 0, None)
  }

  /** No earlier candidate ties the one chosen. */
  lemma FirstNearestIsFirstMinimum(mask: seq<bool>, dist: seq<real>)
    requires |mask| == |dist|
    ensures var r := FirstNearest(mask, dist);
      r.Some? ==> forall j :: 0 <= j < r.value && mask[j] ==> dist[r.value] < dist[j]
  {
    FirstNearestFromIsFirstMinimum(mask, dist, 0, None);
  }
}
