/** Floor division by a positive width, as the bucket arithmetic of the scheduler needs it. */
module Arithmetic {
  lemma MulGap(a: int, b: int, width: int)
    requires width > 0
    ensures a < b ==> a * width + width <= b * width
    ensures a <= b ==> a * width <= b * width
  {
    var d := b - a;
    assert b * width == a * width + d * width;
    if d >= 1 { assert d * width >= width; }
    if d == 0 { assert d * width == 0; }
  }

  lemma Quotient(t: int, width: int)
    requires width > 0
    ensures t / width * width <= t < t / width * width + width
  {
    assert t == t / width * width + t % width;
  }

  lemma BucketOf(t: int, b: int, width: int)
    requires width > 0 && b * width <= t < b * width + width
    ensures t / width == b
  {
    Quotient(t, width);
    MulGap(b, t / width, width);
    MulGap(t / width, b, width);
  }

  lemma DivMonotone(t: int, u: int, width: int)
    requires width > 0 && t <= u
    ensures t / width <= u / width
  {
    Quotient(t, width);
    Quotient(u, width);
    MulGap(u / width, t / width, width);
  }

  /** Less than `k` widths later is at most `k` buckets later. */
  lemma BucketStep(t: int, u: int, k: nat, width: int)
    requires width > 0 && u < t + k * width
    ensures u / width <= t / width + k
  {
    Quotient(t, width);
    Quotient(u, width);
    assert (t / width + k) * width == t / width * width + k * width;
    MulGap(t / width + k, u / width, width);
  }

  /** A whole width later is a later bucket. */
  lemma NextBucket(t: int, u: int, width: int)
    requires width > 0 && t + width <= u
    ensures t / width < u / width
  {
    Quotient(t, width);
    Quotient(u, width);
    MulGap(u / width, t / width, width);
  }
}
