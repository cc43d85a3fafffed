/** Finite counting: a list of distinct small numbers lists all of them. */
module Permutations {

  ghost predicate Distinct(s: seq<nat>) {
    forall i, j :: 0 <= i < j < |s| ==> s[i] != s[j]
  }

  ghost function Below(n: nat): (r: set<nat>)
    ensures forall v: nat :: v in r <==> v < n
  {
    if n == 0 then {} else Below(n - 1) + {n - 1}
  }

  lemma {:induction false} BelowSize(n: nat)
    ensures |Below(n)| == n
  {
    if n != 0 {
      BelowSize(n - 1);
      var below := Below(n - 1);
      assert Below(n) == below + {n - 1};
      assert n - 1 !in below;
    }
  }

  ghost function Elements(s: seq<nat>): set<nat> {
    set i | 0 <= i < |s| :: s[i]
  }

  lemma {:induction false} DistinctSize(s: seq<nat>)
    requires Distinct(s)
    ensures |Elements(s)| == |s|
  {
    if s != [] {
      var n := |s| - 1;
      DistinctSize(s[..n]);
      assert Elements(s) == Elements(s[..n]) + {s[n]};
    }
  }

  lemma {:induction false} SubsetOfSameSize<T>(a: set<T>, b: set<T>)
    requires a <= b && |a| == |b|
    ensures a == b
  {
    assert |b - a| == |b| - |a|;
  }

  /** An injection of n values into the numbers below n is onto. */
  lemma {:induction false} InjectionIsOnto(s: seq<nat>, v: nat) returns (i: nat)
    requires Distinct(s) && v < |s|
    requires forall i :: 0 <= i < |s| ==> s[i] < |s|
    ensures i < |s| && s[i] == v
  {
    DistinctSize(s);
    BelowSize(|s|);
    SubsetOfSameSize(Elements(s), Below(|s|));
    assert v in Elements(s);
    i :| 0 <= i < |s| && s[i] == v;
  }
}
