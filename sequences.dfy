/** Facts about sequences that several modules share. */
module Sequences {

  /** No element occurs twice. */
  predicate Distinct<T(==)>(s: seq<T>) {
    forall a, b :: 0 <= a < b < |s| ==> s[a] != s[b]
  }

  /** A sequence with a head is distinct exactly when its head does not recur
      and its tail is distinct. */
  lemma DistinctCons<T>(x: T, rest: seq<T>)
    ensures Distinct([x] + rest) <==> x !in rest && Distinct(rest)
  {
    var all := [x] + rest;
    if x !in rest && Distinct(rest) {
      forall a, b | 0 <= a < b < |all| ensures all[a] != all[b] {
        if a == 0 {
          assert all[b] == rest[b - 1];
        } else {
          assert all[a] == rest[a - 1] && all[b] == rest[b - 1];
        }
      }
    }
    if Distinct(all) {
      forall b | 0 <= b < |rest| ensures rest[b] != x {
        assert all[b + 1] == rest[b] && all[0] == x;
      }
      forall a, b | 0 <= a < b < |rest| ensures rest[a] != rest[b] {
        assert all[a + 1] == rest[a] && all[b + 1] == rest[b];
      }
    }
  }
}
