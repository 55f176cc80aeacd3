/** Shared vocabulary. Times and durations are whole nanoseconds, as in Go's time.Duration. */
module Common {
  datatype Option<+T> = None | Some(value: T)

  type Time = nat

  const SECOND: Time := 1_000_000_000
  const HOUR: Time := 3600 * SECOND

  lemma SubsetSize<T>(a: set<T>, b: set<T>)
    requires a <= b
    ensures |a| <= |b|
  {
    assert b == a + (b - a);
  }

  ghost function Upto(n: nat): (s: set<nat>)
    ensures |s| == n && forall t :: t in s <==> 0 <= t < n
  {
    if n == 0 then {} else Upto(n - 1) + {n - 1}
  }

  lemma {:induction false} UpperBound(s: set<nat>) returns (bound: nat)
    ensures forall x :: x in s ==> x < bound
    decreases |s|
  {
    bound := 0;
    if x :| x in s {
      var rest := UpperBound(s - {x});
      bound := if x < rest then rest else x + 1;
      assert forall y :: y in s ==> y == x || y in s - {x};
    }
  }
}
