/** The unbiased pass@k estimator: its product form against its combinatorial meaning. */
module PassAtK {
  import opened Arithmetic

  /** The number of k-element subsets of n elements. */
  function Choose(n: nat, k: nat): nat {
    if k == 0 then 1 else if n == 0 then 0 else Choose(n - 1, k - 1) + Choose(n - 1, k)
  }

  /** The product of 1 - k/i for i in [lo, hi). */
  function Product(k: nat, lo: nat, hi: nat): real
    requires 0 < lo <= hi
    decreases hi
  {
    if lo == hi then 1.0 else Product(k, lo, hi - 1) * (1.0 - k as real / (hi - 1) as real)
  }

  function Estimate(n: nat, c: nat, k: nat): real
    requires c <= n
  {
    if n - c < k then 1.0 else 1.0 - Product(k, n - c + 1, n + 1)
  }

  /** The subsets of a fixed size, counted explicitly: `Choose` is what it claims to be. */
  ghost function Subsets(n: nat, k: nat): set<set<nat>> {
    if k == 0 then {{}}
    else if n == 0 then {}
    else Subsets(n - 1, k) + Extended(Subsets(n - 1, k - 1), n - 1)
  }

  ghost function Extended(family: set<set<nat>>, x: nat): set<set<nat>> {
    set s | s in family :: s + {x}
  }

  ghost predicate Within(s: set<nat>, n: nat) {
    forall x :: x in s ==> x < n
  }

  lemma ExtendedMember(family: set<set<nat>>, x: nat, s: set<nat>)
    requires forall t :: t in family ==> x !in t
    ensures s in Extended(family, x) <==> x in s && s - {x} in family
  {
    if x in s && s - {x} in family {
      assert s == (s - {x}) + {x};
    }
    if s in Extended(family, x) {
      var t :| t in family && s == t + {x};
      assert s - {x} == t;
    }
  }

  lemma SplitAt(s: set<nat>, n: nat, k: nat)
    requires n > 0 && k > 0
    ensures n - 1 in s ==> (Within(s, n) && |s| == k <==> Within(s - {n - 1}, n - 1) && |s - {n - 1}| == k - 1)
    ensures n - 1 !in s ==> (Within(s, n) <==> Within(s, n - 1))
    ensures n - 1 in s ==> !Within(s, n - 1)
  {
    if n - 1 in s {
      assert forall x :: x in s ==> x == n - 1 || x in s - {n - 1};
    }
  }

  /** If two families are the k- and the (k-1)-subsets below n-1, together they give the k-subsets below n. */
  lemma FamilyStep(n: nat, k: nat, without: set<set<nat>>, with: set<set<nat>>)
    requires n > 0 && k > 0
    requires forall s :: s in without <==> Within(s, n - 1) && |s| == k
    requires forall s :: s in with <==> Within(s, n - 1) && |s| == k - 1
    ensures forall s :: s in without + Extended(with, n - 1) <==> Within(s, n) && |s| == k
  {
    hide Extended;
    assert forall t :: t in with ==> n - 1 !in t;
    forall s: set<nat> ensures s in without + Extended(with, n - 1) <==> Within(s, n) && |s| == k {
      assert s in without <==> Within(s, n - 1) && |s| == k;
      assert s - {n - 1} in with <==> Within(s - {n - 1}, n - 1) && |s - {n - 1}| == k - 1;
      FamilyStepAt(n, k, without, with, s);
    }
  }

  lemma FamilyStepAt(n: nat, k: nat, without: set<set<nat>>, with: set<set<nat>>, s: set<nat>)
    requires n > 0 && k > 0 && forall t :: t in with ==> n - 1 !in t
    requires s in without <==> Within(s, n - 1) && |s| == k
    requires s - {n - 1} in with <==> Within(s - {n - 1}, n - 1) && |s - {n - 1}| == k - 1
    ensures s in without + Extended(with, n - 1) <==> Within(s, n) && |s| == k
  {
    ExtendedMember(with, n - 1, s);
    SplitAt(s, n, k);
    hide Extended, Within;
  }

  lemma {:induction false} SubsetsAreExactly(n: nat, k: nat)
    ensures forall s :: s in Subsets(n, k) <==> Within(s, n) && |s| == k
  {
    if k == 0 {
    } else if n == 0 {
      assert Subsets(n, k) == {};
      forall s: set<nat> | Within(s, 0) ensures s == {} {}
    } else {
      SubsetsAreExactly(n - 1, k);
      SubsetsAreExactly(n - 1, k - 1);
      FamilyStep(n, k, Subsets(n - 1, k), Subsets(n - 1, k - 1));
    }
  }

  lemma ExtendedSplit(family: set<set<nat>>, x: nat, s: set<nat>)
    requires s in family
    ensures Extended(family, x) == Extended(family - {s}, x) + {s + {x}}
  {
  }

  lemma {:induction false} ExtendedCount(family: set<set<nat>>, x: nat)
    requires forall s :: s in family ==> x !in s
    ensures |Extended(family, x)| == |family|
  {
    if family == {} {
      assert Extended(family, x) == {};
    } else {
      var s :| s in family;
      var rest := family - {s};
      ExtendedCount(rest, x);
      ExtendedSplit(family, x, s);
      hide Extended;
      ExtendedMember(rest, x, s + {x});
      assert (s + {x}) - {x} == s;
    }
  }

  lemma FamilyCount(with: set<set<nat>>, without: set<set<nat>>, x: nat)
    requires forall s :: s in with ==> x !in s
    requires forall s :: s in without ==> x !in s
    ensures |without + Extended(with, x)| == |without| + |with|
  {
    ExtendedCount(with, x);
    forall s | s in without ensures s !in Extended(with, x) {
      ExtendedMember(with, x, s);
    }
    assert without !! Extended(with, x);
  }

  lemma SubsetsAvoid(n: nat, k: nat)
    ensures forall s :: s in Subsets(n, k) ==> n !in s
  {
    SubsetsAreExactly(n, k);
  }

  lemma SubsetsStep(n: nat, k: nat)
    ensures k == 0 ==> Subsets(n, k) == {{}} && Choose(n, k) == 1
    ensures k > 0 && n == 0 ==> Subsets(n, k) == {} && Choose(n, k) == 0
    ensures k > 0 && n > 0 ==> Subsets(n, k) == Subsets(n - 1, k) + Extended(Subsets(n - 1, k - 1), n - 1)
    ensures k > 0 && n > 0 ==> Choose(n, k) == Choose(n - 1, k - 1) + Choose(n - 1, k)
  {
    hide Extended;
  }

  /** Pascal's triangle counts subsets. */
  lemma {:induction false} ChooseCountsSubsets(n: nat, k: nat)
    ensures |Subsets(n, k)| == Choose(n, k)
  {
    hide Extended, Within, Subsets, Choose;
    SubsetsStep(n, k);
    if k > 0 && n > 0 {
      ChooseCountsSubsets(n - 1, k);
      ChooseCountsSubsets(n - 1, k - 1);
      SubsetsAvoid(n - 1, k);
      SubsetsAvoid(n - 1, k - 1);
      FamilyCount(Subsets(n - 1, k - 1), Subsets(n - 1, k), n - 1);
    }
  }

  // ---------- the binomial identities behind the product ----------

  /** k C(m, k) = m C(m-1, k-1). */
  lemma {:induction false} Absorb(m: nat, k: nat)
    requires m > 0 && k > 0
    ensures k * Choose(m, k) == m * Choose(m - 1, k - 1)
  {
    if m > 1 && k > 1 {
      Absorb(m - 1, k);
      Absorb(m - 1, k - 1);
      var p, q, r := Choose(m - 2, k - 2), Choose(m - 2, k - 1), Choose(m - 1, k - 1);
      assert r == p + q;
      AbsorbSum(m, k, p, q, r, Choose(m - 1, k));
    } else if m > 1 {
      Absorb(m - 1, 1);
    } else {
      assert Choose(0, k) == 0;
    }
  }

  lemma AbsorbSum(m: int, k: int, p: int, q: int, r: int, s: int)
    requires r == p + q && k * s == (m - 1) * q && (k - 1) * r == (m - 1) * p
    ensures k * (r + s) == m * r
  {
    assert k * (r + s) == (k - 1) * r + r + k * s;
    assert (m - 1) * p + (m - 1) * q == (m - 1) * r;
  }

  /** m C(m-1, k) = (m-k) C(m, k). */
  lemma Descend(m: nat, k: nat)
    requires m > 0
    ensures m * Choose(m - 1, k) == (m - k) * Choose(m, k)
  {
    if k > 0 {
      Absorb(m, k);
      Pascal(m, k);
      hide Choose;
      DescendSum(m, k, Choose(m - 1, k - 1), Choose(m - 1, k));
    }
  }

  lemma Pascal(m: nat, k: nat)
    requires m > 0 && k > 0
    ensures Choose(m, k) == Choose(m - 1, k - 1) + Choose(m - 1, k)
  {
  }

  lemma DescendSum(m: int, k: int, a: int, b: int)
    requires k * (a + b) == m * a
    ensures m * b == (m - k) * (a + b)
  {
    assert m * (a + b) == m * a + m * b;
  }

  lemma {:induction false} ChoosePositive(n: nat, k: nat)
    requires k <= n
    ensures Choose(n, k) > 0
  {
    if k > 0 {
      ChoosePositive(n - 1, k - 1);
    }
  }

  lemma FactorStep(k: nat, m: nat, below: nat, at: nat)
    requires m > 0 && m * below == (m - k) * at
    ensures (1.0 - k as real / m as real) * at as real == below as real
  {
    var x := 1.0 - k as real / m as real;
    assert x * m as real == m as real - k as real == (m - k) as real;
    assert (x * at as real) * m as real == (x * m as real) * at as real;
    assert (m * below) as real == m as real * below as real;
    assert ((m - k) * at) as real == (m - k) as real * at as real;
    CancelFactor(x * at as real, below as real, m as real);
  }

  /** The product telescopes: it is C(a, k) / C(b, k). */
  lemma {:induction false} ProductIsRatio(k: nat, a: nat, b: nat)
    requires a <= b
    ensures Product(k, a + 1, b + 1) * Choose(b, k) as real == Choose(a, k) as real
    decreases b
  {
    hide Choose;
    if a < b {
      ProductIsRatio(k, a, b - 1);
      Descend(b, k);
      FactorStep(k, b, Choose(b - 1, k), Choose(b, k));
      Reassociate(Product(k, a + 1, b), 1.0 - k as real / b as real, Choose(b, k) as real);
    }
  }

  lemma Reassociate(x: real, y: real, z: real)
    ensures (x * y) * z == x * (y * z)
  {
  }

  // ---------- what the estimator means ----------

  /** The k-element draws from n samples, the last c of them correct, that contain a correct one. */
  ghost function Hits(n: nat, c: nat, k: nat): set<set<nat>>
    requires c <= n
  {
    set s | s in Subsets(n, k) && !Within(s, n - c)
  }

  lemma HitsCount(n: nat, c: nat, k: nat)
    requires c <= n
    ensures |Hits(n, c, k)| == Choose(n, k) - Choose(n - c, k)
  {
    hide Subsets, Choose;
    var misses := Subsets(n - c, k);
    SubsetsAreExactly(n, k);
    SubsetsAreExactly(n - c, k);
    assert forall s :: Within(s, n - c) ==> Within(s, n);
    assert Subsets(n, k) == Hits(n, c, k) + misses;
    assert Hits(n, c, k) !! misses;
    ChooseCountsSubsets(n, k);
    ChooseCountsSubsets(n - c, k);
  }

  lemma {:induction false} ChooseVanishes(n: nat, k: nat)
    requires n < k
    ensures Choose(n, k) == 0
  {
    if n > 0 {
      ChooseVanishes(n - 1, k - 1);
      ChooseVanishes(n - 1, k);
    }
  }

  lemma RatioOf(p: real, miss: real, total: real)
    requires p * total == miss && total > 0.0
    ensures p == miss / total && (1.0 - p) * total == total - miss
  {
    var q := miss / total;
    assert q * total == miss;
    CancelFactor(p, q, total);
  }

  /** The estimate is the fraction of all k-element draws that contain a correct sample. */
  lemma EstimateIsHitRate(n: nat, c: nat, k: nat)
    requires c <= n && k <= n
    ensures Choose(n, k) == |Subsets(n, k)| > 0
    ensures Estimate(n, c, k) * Choose(n, k) as real == |Hits(n, c, k)| as real
    ensures Estimate(n, c, k) == 1.0 - Choose(n - c, k) as real / Choose(n, k) as real
  {
    hide Choose, Product, Hits, Subsets;
    ChooseCountsSubsets(n, k);
    ChoosePositive(n, k);
    HitsCount(n, c, k);
    var p := if n - c < k then 0.0 else Product(k, n - c + 1, n + 1);
    if n - c < k {
      ChooseVanishes(n - c, k);
    } else {
      ProductIsRatio(k, n - c, n);
    }
    RatioOf(p, Choose(n - c, k) as real, Choose(n, k) as real);
  }

  /** With fewer wrong samples than draws, so also with fewer samples than draws, the estimate is one. */
  lemma EstimateSaturates(n: nat, c: nat, k: nat)
    requires c <= n
    ensures n - c < k ==> Estimate(n, c, k) == 1.0
    ensures k <= n ==> (Estimate(n, c, k) == 1.0 <==> n - c < k)
  {
    if k <= n {
      EstimateIsHitRate(n, c, k);
      hide Estimate, Choose;
      if k <= n - c {
        ChoosePositive(n - c, k);
        PositiveRatio(Choose(n - c, k) as real, Choose(n, k) as real);
      } else {
        ChooseVanishes(n - c, k);
        ZeroRatio(Choose(n, k) as real);
      }
    }
  }

  lemma PositiveRatio(x: real, y: real)
    requires x > 0.0 && y > 0.0
    ensures x / y > 0.0
  {
    var q := x / y;
    assert q * y == x;
  }

  lemma ZeroRatio(y: real)
    requires y > 0.0
    ensures 0.0 / y == 0.0
  {
  }

  lemma {:induction false} ChooseMonotone(n: nat, k: nat)
    ensures Choose(n, k) <= Choose(n + 1, k)
  {
    if k > 0 {
      assert Choose(n + 1, k) == Choose(n, k - 1) + Choose(n, k);
    }
  }

  lemma {:induction false} ChooseMonotoneUpTo(n: nat, m: nat, k: nat)
    requires n <= m
    ensures Choose(n, k) <= Choose(m, k)
    decreases m
  {
    if n < m {
      ChooseMonotoneUpTo(n, m - 1, k);
      ChooseMonotone(m - 1, k);
    }
  }

  /** A probability, and one more correct sample never lowers it. */
  lemma EstimateIsMonotone(n: nat, c: nat, k: nat)
    requires c <= n && k <= n
    ensures 0.0 <= Estimate(n, c, k) <= 1.0
    ensures c < n ==> Estimate(n, c, k) <= Estimate(n, c + 1, k)
  {
    hide Choose, Estimate, Hits, Subsets;
    EstimateIsHitRate(n, c, k);
    ChooseMonotoneUpTo(n - c, n, k);
    var total := Choose(n, k) as real;
    RatioBounds(Choose(n - c, k) as real, total, total);
    if c < n {
      EstimateIsHitRate(n, c + 1, k);
      ChooseMonotone(n - c - 1, k);
      RatioBounds(Choose(n - c - 1, k) as real, Choose(n - c, k) as real, total);
    }
  }

  lemma RatioBounds(x: real, y: real, total: real)
    requires 0.0 <= x <= y && total > 0.0
    ensures 0.0 <= x / total <= y / total && total / total == 1.0
  {
    var p, q := x / total, y / total;
    assert p * total == x && q * total == y;
    assert (q - p) * total >= 0.0;
  }
}
