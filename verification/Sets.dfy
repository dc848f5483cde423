/** Sizes of finite sets. */
module Sets {
  lemma SubsetSize<T>(a: set<T>, b: set<T>)
    requires a <= b
    ensures |a| <= |b|
  {
    assert b == a + (b - a);
  }

  lemma Minimum(s: set<nat>) returns (m: nat)
    requires s != {}
    ensures m in s && forall i :: i in s ==> m <= i
    decreases |s|
  {
    m :| m in s;
    var below := set i | i in s && i < m;
    if below != {} {
      assert |below| < |s| by {
        assert below < s;
        assert s == below + (s - below);
      }
      var before := m;
      m := Minimum(below);
      assert forall i :: i in s ==> i in below || before <= i;
    } else {
      assert forall i :: i in s ==> i !in below;
    }
  }

  /** A set with at most one element in every stretch of `step` numbers is no larger than its span allows. */
  lemma {:induction false} SparseSize(s: set<nat>, lo: nat, step: nat, stretches: nat)
    requires forall i :: i in s ==> lo <= i < lo + stretches * step
    requires forall i, j :: i in s && j in s && i < j ==> i + step <= j
    ensures |s| <= stretches
    decreases stretches
  {
    if s != {} {
      var first := Minimum(s);
      var rest := s - {first};
      assert stretches > 0;
      assert lo + step + (stretches - 1) * step == lo + stretches * step;
      SparseSize(rest, lo + step, step, stretches - 1);
      assert s == rest + {first};
    }
  }
}
