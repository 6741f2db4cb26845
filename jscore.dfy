/** The few JavaScript built-ins the screener's logic relies on, over Dafny values:
    `Math.max`, the `%` operator and the minutes/seconds split built from it,
    `Array.prototype.findIndex`/`find` and `Array.prototype.slice(0, end)`. Numbers are modelled as mathematical integers. */
module JsCore {

  datatype Option<+T> = None | Some(value: T)

  /** `Math.max(a, b)`. */
  function Max(a: int, b: int): (r: int)
    ensures r >= a && r >= b
    ensures r == a || r == b
  {
    if a >= b then a else b
  }

  /** JavaScript's `a % b` for a positive divisor: the remainder of division
      truncated toward zero, so it takes the sign of `a`. */
  function Rem(a: int, b: int): (r: int)
    requires b > 0
    ensures a >= 0 ==> 0 <= r < b && r == a % b
    ensures a < 0 ==> -b < r <= 0 && -r == (-a) % b
  {
    if a >= 0 then a % b else -((-a) % b)
  }

  datatype MinSec = MinSec(minutes: int, seconds: int)

  /** `Math.floor(n / 60)` and `n % 60`, the split of a number of seconds into
      whole minutes and the seconds left over. */
  function SplitMinutes(n: int): (d: MinSec)
    ensures n >= 0 ==> d.minutes >= 0 && 0 <= d.seconds < 60 && d.minutes * 60 + d.seconds == n
    ensures n < 0 ==> d.minutes < 0 && -60 < d.seconds <= 0
  {
    MinSec(n / 60, Rem(n, 60))
  }

  /** `Array.prototype.findIndex`: the index of the first element satisfying `p`, or -1. */
  function FindIndex<T>(xs: seq<T>, p: T -> bool): (k: int)
    ensures -1 <= k < |xs|
    ensures k >= 0 ==> p(xs[k])
    ensures forall j :: 0 <= j < |xs| && (k < 0 || j < k) ==> !p(xs[j])
  {
    if |xs| == 0 then -1
    else if p(xs[0]) then 0
    else
      var k := FindIndex(xs[1..], p);
      if k < 0 then -1 else k + 1
  }

  /** `Array.prototype.find`: the first element satisfying `p`, if any. */
  function Find<T>(xs: seq<T>, p: T -> bool): (r: Option<T>)
    ensures r.None? <==> forall j :: 0 <= j < |xs| ==> !p(xs[j])
    ensures r.Some? ==> r.value in xs && p(r.value)
    ensures r.Some? ==> r.value == xs[FindIndex(xs, p)]
  {
    var k := FindIndex(xs, p);
    if k < 0 then None else Some(xs[k])
  }

  /** Once an element at index `i` satisfies `p` and none before it does, `find` returns it. */
  lemma FindFirst<T>(xs: seq<T>, p: T -> bool, i: int)
    requires 0 <= i < |xs| && p(xs[i])
    requires forall j :: 0 <= j < i ==> !p(xs[j])
    ensures Find(xs, p) == Some(xs[i])
  {
    var k := FindIndex(xs, p);
    assert k >= 0;
    assert !(k < i) && !(i < k);
  }

  /** `xs.slice(0, end)`: a negative `end` counts back from the end of the array,
      and an `end` past the length is cut to the length. */
  function Take<T>(xs: seq<T>, end: int): (r: seq<T>)
    ensures |r| <= |xs| && r == xs[..|r|]
    ensures 0 <= end <= |xs| ==> |r| == end
    ensures end > |xs| ==> r == xs
    ensures end < 0 ==> |r| == Max(0, |xs| + end)
  {
    if end >= 0 then
      if end <= |xs| then xs[..end] else xs
    else
      xs[..Max(0, |xs| + end)]
  }
}
