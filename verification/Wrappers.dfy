/** The optional value used for absent fields, failed lookups and raised exceptions, how calls
    into other services turn out, and a fact about finite sets. */
module Wrappers {
  datatype Option<+T> = None | Some(value: T)

  /** A call into another service works, or raises before or after taking effect. */
  datatype Fault = Fine | Before | After

  lemma SubsetCard<T>(a: set<T>, b: set<T>)
    requires a <= b
    ensures |a| <= |b|
  {
    assert b == a + (b - a);
  }
}
