/** The star block of `renderStars` (script.js): a rating becomes a count of
    filled stars by strict half-point thresholds, followed by empty stars up
    to five glyphs. */
module Stars {

  /** Glyphs in a star block. */
  const StarsPerBlock: nat := 5

  datatype Glyph = FilledStar | EmptyStar

  /** The filled-star count: the rating's bucket between the thresholds
      0.5, 1.5, 2.5, 3.5 and 4.5, each threshold itself belonging to the
      lower bucket. Ratings outside [0, 5] land in the end buckets. */
  function FilledStars(rating: real): (n: nat)
    ensures n <= StarsPerBlock
    ensures n == 0 || rating > n as real - 0.5
    ensures n == StarsPerBlock || rating <= n as real + 0.5
  {
    if rating > 4.5 then 5
    else if rating > 3.5 then 4
    else if rating > 2.5 then 3
    else if rating > 1.5 then 2
    else if rating > 0.5 then 1
    else 0
  }

  /** The number of thresholds 0.5, 1.5, ... among the first `k` that the
      rating strictly exceeds: an independent statement of the bucketing. */
  function ThresholdsPassed(rating: real, k: nat): (c: nat)
    ensures c <= k
  {
    if k == 0 then 0
    else ThresholdsPassed(rating, k - 1) + (if rating > (k - 1) as real + 0.5 then 1 else 0)
  }

  /** A rating that passes a threshold passes every lower one, so the count of
      passed thresholds is the index of the first one it does not pass. */
  lemma {:induction false} ThresholdsPassedIsBucket(rating: real, k: nat)
    ensures ThresholdsPassed(rating, k) == if rating <= 0.5 then 0 else
      Min(k, Ceiling(rating - 0.5))
  {
    if k > 0 {
      ThresholdsPassedIsBucket(rating, k - 1);
    }
  }

  function Min(a: nat, b: nat): nat {
    if a <= b then a else b
  }

  /** The least natural number not below `x`, for `x > 0`. */
  function Ceiling(x: real): (n: nat)
    requires x > 0.0
    ensures n as real >= x > n as real - 1.0
  {
    var f := x.Floor;
    if f as real == x then f else f + 1
  }

  /** The filled count is exactly the number of thresholds the rating exceeds. */
  lemma FilledStarsCountsThresholds(rating: real)
    ensures FilledStars(rating) == ThresholdsPassed(rating, StarsPerBlock)
  {
    ThresholdsPassedIsBucket(rating, StarsPerBlock);
  }

  /** A higher rating never shows fewer filled stars. */
  lemma FilledStarsMonotone(lower: real, higher: real)
    requires lower <= higher
    ensures FilledStars(lower) <= FilledStars(higher)
  {
  }

  /** The boundary table: a threshold itself stays in the lower bucket. */
  lemma FilledStarsBoundaries()
    ensures FilledStars(4.5) == 4 && FilledStars(4.51) == 5
    ensures FilledStars(0.5) == 0 && FilledStars(0.51) == 1
    ensures FilledStars(5.0) == 5 && FilledStars(0.0) == 0
  {
  }

  /** The glyph sequence of `renderStars`: the filled stars first, then
      `5 - filled` empty ones. */
  method RenderStars(rating: real) returns (glyphs: seq<Glyph>)
    ensures |glyphs| == StarsPerBlock
    ensures forall i :: 0 <= i < |glyphs| ==> (glyphs[i] == FilledStar <==> i < FilledStars(rating))
  {
    var filled := FilledStars(rating);
    var empty := StarsPerBlock - filled;
    glyphs := [];
    var i := 0;
    while i < filled
      invariant i <= filled
      invariant |glyphs| == i
      invariant forall k :: 0 <= k < i ==> glyphs[k] == FilledStar
    {
      glyphs := glyphs + [FilledStar];
      i := i + 1;
    }
    i := 0;
    while i < empty
      invariant i <= empty
      invariant |glyphs| == filled + i
      invariant forall k :: 0 <= k < filled ==> glyphs[k] == FilledStar
      invariant forall k :: filled <= k < |glyphs| ==> glyphs[k] == EmptyStar
    {
      glyphs := glyphs + [EmptyStar];
      i := i + 1;
    }
  }
}
