/** What every component that computes with real numbers or sizes of sets needs. */
module Numbers {

  /** A numeric library function; what is assumed of it is said where it is used. */
  type RealFunction = real -> real

  lemma QuotientTimes(a: real, b: real)
    requires b != 0.0
    ensures a / b * b == a
  {
  }

  lemma SubsetSize<T>(a: set<T>, b: set<T>)
    requires a <= b
    ensures |a| <= |b|
    ensures |a| == |b| ==> a == b
  {
    assert b == a + (b - a);
  }
}
