/** The few facts about products and multiples that the models need. */
module Arithmetic {

  lemma MulMonotone(a: int, b: int, d: nat)
    requires a <= b
    ensures a * d <= b * d
  {
    assert 0 <= (b - a) * d;
  }

  lemma MultiplesApart(a: int, b: int, d: nat)
    requires a < b
    ensures a * d + d <= b * d
  {
    assert (a + 1) * d == a * d + d;
    MulMonotone(a + 1, b, d);
  }

  /** The largest multiples of `d` at or below two numbers are equal, or at least `d` apart. */
  lemma FloorsOrdered(s: int, t: int, d: nat)
    requires s <= t && 0 < d
    ensures s - s % d == t - t % d || s - s % d + d <= t - t % d
  {
    var a, b := s / d, t / d;
    assert a * d == s - s % d && b * d == t - t % d;
    if a < b {
      MultiplesApart(a, b, d);
    } else if b < a {
      MultiplesApart(b, a, d);
    }
  }
}
