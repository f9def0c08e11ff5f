/** When wave attention is exact, and why its output is always a mixture of the values read. */
module WaveTheorems {
  import opened Arithmetic
  import opened Outcomes
  import opened Sorting
  import opened WaveAttention

  // ---------- regrouping weighted token sums by zone ----------

  lemma TimesAppend(x1: seq<real>, y1: seq<real>, x2: seq<real>, y2: seq<real>)
    requires |x1| == |y1| && |x2| == |y2|
    ensures Times(x1 + x2, y1 + y2) == Times(x1, y1) + Times(x2, y2)
  {
    var left, right := Times(x1 + x2, y1 + y2), Times(x1, y1) + Times(x2, y2);
    forall i | 0 <= i < |left| ensures left[i] == right[i] {
      if i < |x1| {
        assert (x1 + x2)[i] == x1[i] && (y1 + y2)[i] == y1[i];
      } else {
        assert (x1 + x2)[i] == x2[i - |x1|] && (y1 + y2)[i] == y2[i - |x1|];
      }
    }
  }

  lemma TimesSelect(xs: seq<real>, ys: seq<real>, a: seq<nat>, p: set<nat>)
    requires |xs| == |ys| == |a|
    ensures Times(Select(xs, a, p), Select(ys, a, p)) == Select(Times(xs, ys), a, p)
  {
    var left, right := Times(Select(xs, a, p), Select(ys, a, p)), Select(Times(xs, ys), a, p);
    forall i | 0 <= i < |left| ensures left[i] == right[i] {
      assert Select(xs, a, p)[i] == xs[Members(a, p)[i]] && Select(ys, a, p)[i] == ys[Members(a, p)[i]];
    }
  }

  ghost function SteadyWeights(E: real -> real, z: Zones, shift: real): seq<real>
    requires WellFormed(z)
  {
    Weights(E, Logits(z.q, z.steadyKeys, z.scale), shift)
  }

  ghost function TokenWeights(E: real -> real, z: Zones, shift: real): (r: seq<real>)
    requires WellFormed(z)
    ensures |r| == |z.keys|
  {
    Weights(E, Logits(z.q, z.keys, z.scale), shift)
  }

  /** The steady keys and those of the tokens in the given clusters, in order; and their values. */
  ghost function KeysIn(z: Zones, p: set<nat>): (r: seq<Vec>)
    requires WellFormed(z)
    ensures forall i :: 0 <= i < |r| ==> |r[i]| == |z.q|
  {
    z.steadyKeys + Select(z.keys, z.ix.assignment, p)
  }

  ghost function ValuesIn(z: Zones, p: set<nat>): (r: seq<Vec>)
    requires WellFormed(z)
    ensures |r| == |KeysIn(z, p)| && forall i :: 0 <= i < |r| ==> |r[i]| == |z.q|
  {
    z.steadyValues + Select(z.values, z.ix.assignment, p)
  }

  lemma WeightsIn(E: real -> real, z: Zones, shift: real, p: set<nat>)
    requires WellFormed(z)
    ensures Weights(E, Logits(z.q, KeysIn(z, p), z.scale), shift)
         == SteadyWeights(E, z, shift) + Select(TokenWeights(E, z, shift), z.ix.assignment, p)
  {
    hide Logit;
    var a := z.ix.assignment;
    var left := Weights(E, Logits(z.q, KeysIn(z, p), z.scale), shift);
    var right := SteadyWeights(E, z, shift) + Select(TokenWeights(E, z, shift), a, p);
    forall i | 0 <= i < |left| ensures left[i] == right[i] {
      assert left[i] == E(Logit(z.q, KeysIn(z, p)[i], z.scale) - shift);
      if i >= |z.steadyKeys| {
        var j := i - |z.steadyKeys|;
        assert KeysIn(z, p)[i] == z.keys[Members(a, p)[j]];
        assert right[i] == TokenWeights(E, z, shift)[Members(a, p)[j]];
      }
    }
  }

  /** The weighted total over the steady tokens and the tokens of the given clusters. */
  lemma TotalIn(E: real -> real, z: Zones, shift: real, p: set<nat>, steady: seq<real>, indexed: seq<real>)
    requires WellFormed(z) && |steady| == |z.steadyKeys| && |indexed| == |z.keys|
    ensures |steady + Select(indexed, z.ix.assignment, p)| == |KeysIn(z, p)|
    ensures Sum(Times(Weights(E, Logits(z.q, KeysIn(z, p), z.scale), shift), steady + Select(indexed, z.ix.assignment, p)))
         == Sum(Times(SteadyWeights(E, z, shift), steady)) + SumIn(Times(TokenWeights(E, z, shift), indexed), z.ix.assignment, p)
  {
    hide Logits, Sum, SteadyWeights, TokenWeights, WellFormed, KeysIn;
    WeightsIn(E, z, shift, p);
    var a, ws, wi := z.ix.assignment, SteadyWeights(E, z, shift), TokenWeights(E, z, shift);
    SteadyLength(E, z, shift);
    TimesAppend(ws, steady, Select(wi, a, p), Select(indexed, a, p));
    SumAppend(Times(ws, steady), Times(Select(wi, a, p), Select(indexed, a, p)));
    TimesSelect(wi, indexed, a, p);
    SumSelect(Times(wi, indexed), a, p);
  }

  lemma SteadyLength(E: real -> real, z: Zones, shift: real)
    requires WellFormed(z)
    ensures |SteadyWeights(E, z, shift)| == |z.steadyKeys| && |TokenWeights(E, z, shift)| == |z.keys| == |z.ix.assignment|
  {
  }

  ghost predicate Uniform(keys: seq<Vec>, a: seq<nat>, c: nat)
    requires |keys| == |a|
  {
    forall i, j :: 0 <= i < |a| && 0 <= j < |a| && a[i] == c && a[j] == c ==> keys[i] == keys[j]
  }

  lemma TimesOnes(xs: seq<real>)
    ensures Times(xs, Ones(|xs|)) == xs
  {
    forall i | 0 <= i < |xs| ensures Times(xs, Ones(|xs|))[i] == xs[i] {
      assert Ones(|xs|)[i] == 1.0;
    }
  }

  /** The clusters that are read. */
  ghost function ReadClusters(z: Zones): set<nat> { Elements(z.retrieved) + Elements(z.estimated) }

  /** Every estimated cluster holds copies of one key. */
  ghost predicate Copies(z: Zones)
    requires WellFormed(z)
  {
    forall c :: c in z.estimated ==> Uniform(z.keys, z.ix.assignment, c)
  }

  /** Every token's cluster is read, and every estimated cluster holds copies of one key. */
  ghost predicate Faithful(z: Zones)
    requires WellFormed(z)
  {
    && (forall i :: 0 <= i < |z.keys| ==> z.ix.assignment[i] in z.retrieved || z.ix.assignment[i] in z.estimated)
    && Copies(z)
  }

  lemma UniformColumn(column: seq<real>, a: seq<nat>, c: nat, k: real)
    requires |column| == |a| && forall i :: 0 <= i < |a| && a[i] == c ==> column[i] == k
    ensures SumIn(column, a, {c}) == k * SumIn(Ones(|a|), a, {c})
  {
    hide SumIn, Times;
    SumInFactor(column, Ones(|a|), a, c, k);
    TimesOnes(column);
  }

  lemma UniformComponent(ix: Index, keys: seq<Vec>, values: seq<Vec>, dim: nat, c: nat, i: nat, d: nat)
    requires Indexes(ix, keys, values, dim) && c < |ix.sizes| && ix.sizes[c] > 0 && Uniform(keys, ix.assignment, c)
    requires i < |keys| && ix.assignment[i] == c && d < dim
    ensures ix.centroids[c][d] == keys[i][d]
  {
    hide SumIn;
    var column, size := Column(keys, d), ix.sizes[c] as real;
    assert ix.centroids[c][d] * size == SumIn(column, ix.assignment, {c});
    assert size == SumIn(Ones(|keys|), ix.assignment, {c});
    hide Indexes;
    UniformColumn(column, ix.assignment, c, keys[i][d]);
    CancelFactor(ix.centroids[c][d], keys[i][d], size);
  }

  /** The centroid of a cluster of identical keys is that key. */
  lemma UniformCentroid(ix: Index, keys: seq<Vec>, values: seq<Vec>, dim: nat, c: nat, i: nat)
    requires Indexes(ix, keys, values, dim) && c < |ix.sizes| && ix.sizes[c] > 0 && Uniform(keys, ix.assignment, c)
    requires i < |keys| && ix.assignment[i] == c
    ensures ix.centroids[c] == keys[i]
  {
    hide SumIn, Uniform;
    forall d | 0 <= d < dim ensures ix.centroids[c][d] == keys[i][d] {
      UniformComponent(ix, keys, values, dim, c, i, d);
    }
  }

  /** A weight per cluster that agrees with the weights of its tokens may be applied to the cluster's sum. */
  lemma {:induction false} WeightedClusters(ws: seq<real>, est: seq<nat>, sums: seq<real>, tokenWs: seq<real>, indexed: seq<real>, a: seq<nat>)
    requires |ws| == |est| && |tokenWs| == |indexed| == |a|
    requires forall i :: 0 <= i < |est| ==> est[i] < |sums| && sums[est[i]] == SumIn(indexed, a, {est[i]})
    requires forall i, j :: 0 <= i < |est| && 0 <= j < |a| && a[j] == est[i] ==> tokenWs[j] == ws[i]
    ensures Sum(Times(ws, Gather(sums, est))) == ClusterTotal(Times(tokenWs, indexed), a, est)
  {
    hide SumIn, Times;
    if est != [] {
      var n := |est| - 1;
      WeightedClusters(ws[..n], est[..n], sums, tokenWs, indexed, a);
      var g := Gather(sums, est);
      TimesFront(ws, g);
      assert g[..n] == Gather(sums, est[..n]);
      SumInFactor(tokenWs, indexed, a, est[n], ws[n]);
      assert Times(ws, g)[n] == ws[n] * g[n];
    }
  }

  /** Every token of an estimated cluster has the weight of the cluster's centroid. */
  lemma EstimatedWeight(E: real -> real, z: Zones, shift: real, i: nat, j: nat)
    requires WellFormed(z) && Copies(z) && i < |EstimatedClusters(z)| && j < |z.keys|
    requires j < |z.ix.assignment| && z.ix.assignment[j] == EstimatedClusters(z)[i]
    ensures TokenWeights(E, z, shift)[j] == Weights(E, EstimatedLogits(z), shift)[i]
  {
    hide Logit, TokenWeights, Uniform, Indexes, EstimatedLogits;
    var c := EstimatedClusters(z)[i];
    ClusterWeight(E, z, shift, c);
    EstimatedLogit(z, i);
  }

  /** Through centroids, each estimated cluster contributes exactly what its tokens would. */
  lemma EstimatedTotal(E: real -> real, z: Zones, shift: real, indexed: seq<real>, sums: seq<real>)
    requires WellFormed(z) && Copies(z) && |indexed| == |z.keys| && |sums| == |z.ix.sizes|
    requires forall c :: 0 <= c < |sums| ==> sums[c] == SumIn(indexed, z.ix.assignment, {c})
    ensures Sum(Times(Weights(E, EstimatedLogits(z), shift), Gather(sums, EstimatedClusters(z))))
         == ClusterTotal(Times(TokenWeights(E, z, shift), indexed), z.ix.assignment, EstimatedClusters(z))
  {
    hide SumIn, Times, TokenWeights, Sum, WellFormed, Copies, Weights, EstimatedLogits, EstimatedClusters, ClusterTotal;
    var est, ws, ts := EstimatedClusters(z), Weights(E, EstimatedLogits(z), shift), TokenWeights(E, z, shift);
    SteadyLength(E, z, shift);
    forall i, j | 0 <= i < |est| && 0 <= j < |z.keys| && z.ix.assignment[j] == est[i]
      ensures ts[j] == ws[i]
    {
      EstimatedWeight(E, z, shift, i, j);
    }
    WeightedClusters(ws, est, sums, ts, indexed, z.ix.assignment);
  }

  lemma EstimatedLogit(z: Zones, i: nat)
    requires WellFormed(z) && i < |EstimatedClusters(z)|
    ensures |z.ix.centroids[EstimatedClusters(z)[i]]| == |z.q|
    ensures EstimatedLogits(z)[i] == Logit(z.q, z.ix.centroids[EstimatedClusters(z)[i]], z.scale)
  {
    hide Logit;
  }

  lemma ClusterWeight(E: real -> real, z: Zones, shift: real, c: nat)
    requires WellFormed(z) && c < |z.ix.sizes| && z.ix.sizes[c] > 0 && Uniform(z.keys, z.ix.assignment, c)
    ensures forall i :: 0 <= i < |z.keys| && z.ix.assignment[i] == c ==>
              TokenWeights(E, z, shift)[i] == E(Logit(z.q, z.ix.centroids[c], z.scale) - shift)
  {
    hide Logit;
    forall i | 0 <= i < |z.keys| && z.ix.assignment[i] == c
      ensures TokenWeights(E, z, shift)[i] == E(Logit(z.q, z.ix.centroids[c], z.scale) - shift)
    {
      UniformCentroid(z.ix, z.keys, z.values, |z.q|, c, i);
    }
  }

  lemma {:induction false} OccupiedIsNonempty(a: seq<nat>, c: nat)
    ensures SumIn(Ones(|a|), a, {c}) >= 0.0
    ensures c in a ==> SumIn(Ones(|a|), a, {c}) > 0.0
  {
    if a != [] {
      var n := |a| - 1;
      OccupiedIsNonempty(a[..n], c);
      assert Ones(|a|)[..n] == Ones(n);
      assert c in a ==> c in a[..n] || a[n] == c;
    }
  }

  lemma {:induction false} NonemptyDistinct(estimated: seq<nat>, sizes: seq<nat>)
    requires forall i :: 0 <= i < |estimated| ==> estimated[i] < |sizes|
    requires Distinct(estimated)
    ensures Distinct(Nonempty(estimated, sizes))
  {
    if estimated != [] {
      var front := estimated[..|estimated| - 1];
      NonemptyDistinct(front, sizes);
      assert estimated[|estimated| - 1] !in front;
    }
  }

  lemma {:induction false} SumInAlike(xs: seq<real>, a: seq<nat>, p: set<nat>, q: set<nat>)
    requires |xs| == |a| && forall i :: 0 <= i < |a| ==> (a[i] in p <==> a[i] in q)
    ensures SumIn(xs, a, p) == SumIn(xs, a, q)
  {
    if xs != [] {
      SumInAlike(xs[..|xs| - 1], a[..|xs| - 1], p, q);
    }
  }

  /** Empty estimated clusters are skipped, and hold no token. */
  lemma OccupiedIsEstimated(z: Zones, i: nat)
    requires WellFormed(z) && i < |z.keys|
    ensures z.ix.assignment[i] in z.estimated <==> z.ix.assignment[i] in EstimatedClusters(z)
  {
    OccupiedIsNonempty(z.ix.assignment, z.ix.assignment[i]);
  }

  /** The tokens read are those of the zones read, for any per-token quantity. */
  lemma ZonesCoverTokens(z: Zones, xs: seq<real>)
    requires WellFormed(z) && |xs| == |z.keys|
    ensures |xs| == |z.ix.assignment|
    ensures SumIn(xs, z.ix.assignment, ReadClusters(z))
         == SumIn(xs, z.ix.assignment, Elements(z.retrieved)) + ClusterTotal(xs, z.ix.assignment, EstimatedClusters(z))
  {
    hide Indexes, SumIn;
    var a, est := z.ix.assignment, EstimatedClusters(z);
    assert |xs| == |a| by { AssignmentLength(z); }
    NonemptyDistinct(z.estimated, z.ix.sizes);
    Regroup(xs, a, est);
    SumInDisjoint(xs, a, Elements(z.retrieved), Elements(est));
    forall i | 0 <= i < |a| ensures a[i] in ReadClusters(z) <==> a[i] in Elements(z.retrieved) + Elements(est) {
      OccupiedIsEstimated(z, i);
    }
    SumInAlike(xs, a, ReadClusters(z), Elements(z.retrieved) + Elements(est));
  }

  lemma AssignmentLength(z: Zones)
    requires WellFormed(z)
    ensures |z.ix.assignment| == |z.keys| == |z.values| && |z.steadyKeys| == |z.steadyValues|
  {
  }

  /** Zone totals are totals over the tokens read, for any per-token quantity whose cluster sums are at hand. */
  lemma ZoneTotal(E: real -> real, z: Zones, shift: real, steady: seq<real>, indexed: seq<real>, sums: seq<real>)
    requires WellFormed(z) && Copies(z)
    requires |steady| == |z.steadyKeys| && |indexed| == |z.keys| && |sums| == |z.ix.sizes|
    requires forall c :: 0 <= c < |sums| ==> sums[c] == SumIn(indexed, z.ix.assignment, {c})
    ensures |steady + Select(indexed, z.ix.assignment, Elements(z.retrieved))| == |ExactLogits(z)|
    ensures |steady + Select(indexed, z.ix.assignment, ReadClusters(z))| == |KeysIn(z, ReadClusters(z))|
    ensures Sum(Times(Weights(E, Logits(z.q, KeysIn(z, ReadClusters(z)), z.scale), shift), steady + Select(indexed, z.ix.assignment, ReadClusters(z))))
         == Sum(Times(Weights(E, ExactLogits(z), shift), steady + Select(indexed, z.ix.assignment, Elements(z.retrieved))))
            + Sum(Times(Weights(E, EstimatedLogits(z), shift), Gather(sums, EstimatedClusters(z))))
  {
    hide Sum, SteadyWeights, TokenWeights, Indexes, Uniform, Times, Copies, ReadClusters, Logits, SumIn, Select, Members;
    SteadyLength(E, z, shift);
    TotalIn(E, z, shift, Elements(z.retrieved), steady, indexed);
    TotalIn(E, z, shift, ReadClusters(z), steady, indexed);
    EstimatedTotal(E, z, shift, indexed, sums);
    ZonesCoverTokens(z, Times(TokenWeights(E, z, shift), indexed));
  }

  // ---------- wave attention is dense attention ----------

  lemma ScaledTotal(ws: seq<real>, col: seq<real>, k: real)
    requires |ws| == |col|
    ensures Sum(Times(Scale(ws, k), col)) == k * Sum(Times(ws, col))
  {
    hide Sum;
    var left, right := Times(Scale(ws, k), col), Scale(Times(ws, col), k);
    forall i | 0 <= i < |ws| ensures left[i] == right[i] {
      assert Scale(ws, k)[i] == k * ws[i];
      assert right[i] == k * (ws[i] * col[i]);
    }
    assert left == right;
    SumScale(Times(ws, col), k);
  }

  lemma ShiftedWeight(E: real -> real, x: real, shift: real)
    requires Exponential(E)
    ensures E(x - 0.0) == Mul(E(shift), E(x - shift))
  {
    hide Exponential;
    ExponentialAt(E, x, shift);
    assert x - 0.0 == x;
  }

  /** Shifting every logit divides every weight by the same factor. */
  lemma ShiftedWeights(E: real -> real, logits: seq<real>, shift: real)
    requires Exponential(E)
    ensures Weights(E, logits, 0.0) == Scale(Weights(E, logits, shift), E(shift))
  {
    hide Exponential, Mul;
    var left, right := Weights(E, logits, 0.0), Scale(Weights(E, logits, shift), E(shift));
    forall i | 0 <= i < |logits| ensures left[i] == right[i] {
      ShiftedWeight(E, logits[i], shift);
      assert right[i] == Mul(E(shift), Weights(E, logits, shift)[i]);
    }
  }

  /** A total over the tokens read under unshifted weights is `E(shift)` times the zone total. */
  lemma DenseTotal(E: real -> real, z: Zones, shift: real, steady: seq<real>, indexed: seq<real>, sums: seq<real>)
    requires WellFormed(z) && Copies(z) && Exponential(E)
    requires |steady| == |z.steadyKeys| && |indexed| == |z.keys| && |sums| == |z.ix.sizes|
    requires forall c :: 0 <= c < |sums| ==> sums[c] == SumIn(indexed, z.ix.assignment, {c})
    ensures |steady + Select(indexed, z.ix.assignment, Elements(z.retrieved))| == |ExactLogits(z)|
    ensures |steady + Select(indexed, z.ix.assignment, ReadClusters(z))| == |KeysIn(z, ReadClusters(z))|
    ensures Sum(Times(Weights(E, Logits(z.q, KeysIn(z, ReadClusters(z)), z.scale), 0.0), steady + Select(indexed, z.ix.assignment, ReadClusters(z))))
         == E(shift) * (
              Sum(Times(Weights(E, ExactLogits(z), shift), steady + Select(indexed, z.ix.assignment, Elements(z.retrieved))))
              + Sum(Times(Weights(E, EstimatedLogits(z), shift), Gather(sums, EstimatedClusters(z)))))
  {
    hide Sum, SumIn, Times, Uniform, Logit, Copies, ReadClusters, Select, KeysIn, ExactLogits, EstimatedLogits;
    var logits := Logits(z.q, KeysIn(z, ReadClusters(z)), z.scale);
    ShiftedWeights(E, logits, shift);
    ZoneTotal(E, z, shift, steady, indexed, sums);
    ScaledTotal(Weights(E, logits, shift), steady + Select(indexed, z.ix.assignment, ReadClusters(z)), E(shift));
  }

  lemma ColumnIn(z: Zones, p: set<nat>, d: nat)
    requires WellFormed(z) && d < |z.q|
    ensures Column(ValuesIn(z, p), d) == Column(z.steadyValues, d) + Select(Column(z.values, d), z.ix.assignment, p)
  {
    hide SumIn, Members;
  }

  lemma ColumnOfSums(z: Zones, d: nat)
    requires WellFormed(z) && d < |z.q|
    ensures Column(Gather(z.ix.valueSums, EstimatedClusters(z)), d) == Gather(Column(z.ix.valueSums, d), EstimatedClusters(z))
    ensures ExactValues(z) == ValuesIn(z, Elements(z.retrieved))
  {
    hide SumIn, Members, Nonempty, Elements;
  }

  lemma ReadShapes(z: Zones, p: set<nat>)
    requires WellFormed(z)
    ensures Shaped(KeysIn(z, p), |KeysIn(z, p)|, |z.q|) && Shaped(ValuesIn(z, p), |KeysIn(z, p)|, |z.q|)
  {
    hide SumIn, Members;
  }

  lemma DenseNumerator(E: real -> real, z: Zones, shift: real, d: nat)
    requires WellFormed(z) && Copies(z) && Exponential(E) && d < |z.q|
    ensures Sum(Times(Weights(E, Logits(z.q, KeysIn(z, ReadClusters(z)), z.scale), 0.0), Column(ValuesIn(z, ReadClusters(z)), d)))
         == E(shift) * Numerator(E, z, shift, d)
  {
    hide Sum, SumIn, Times, Logit, Copies, Exponential, ExactLogits, EstimatedLogits, Select, ReadClusters, KeysIn, ValuesIn;
    ColumnIn(z, ReadClusters(z), d);
    ColumnIn(z, Elements(z.retrieved), d);
    ColumnOfSums(z, d);
    DenseTotal(E, z, shift, Column(z.steadyValues, d), Column(z.values, d), Column(z.ix.valueSums, d));
  }

  lemma SelectOnes(n: nat, a: seq<nat>, p: set<nat>, steady: nat, all: nat)
    requires n == |a| && all == steady + |Members(a, p)|
    ensures Ones(steady) + Select(Ones(n), a, p) == Ones(all)
  {
    hide Members;
  }

  lemma DenseDenominator(E: real -> real, z: Zones, shift: real)
    requires WellFormed(z) && Copies(z) && Exponential(E)
    ensures Sum(Weights(E, Logits(z.q, KeysIn(z, ReadClusters(z)), z.scale), 0.0)) == E(shift) * Denominator(E, z, shift)
  {
    hide Sum, SumIn, Times, Logit, Copies, ReadClusters, Members;
    var steady, indexed := Ones(|z.steadyKeys|), Ones(|z.keys|);
    var all := Weights(E, Logits(z.q, KeysIn(z, ReadClusters(z)), z.scale), 0.0);
    SelectOnes(|z.keys|, z.ix.assignment, ReadClusters(z), |z.steadyKeys|, |all|);
    TimesOnes(all);
    var exact := Weights(E, ExactLogits(z), shift);
    SelectOnes(|z.keys|, z.ix.assignment, Elements(z.retrieved), |z.steadyKeys|, |exact|);
    TimesOnes(exact);
    DenseTotal(E, z, shift, steady, indexed, AsReals(z.ix.sizes));
  }

  /** There are entries exactly if there is a token to read. */
  lemma SomethingIsRead(z: Zones)
    requires WellFormed(z)
    ensures ExactLogits(z) + EstimatedLogits(z) == [] <==> KeysIn(z, ReadClusters(z)) == []
  {
    hide Logits, SumIn, Indexes, Members, ReadClusters, EstimatedClusters, EstimatedLogits, Elements;
    AssignmentLength(z);
    if EstimatedClusters(z) != [] {
      EstimateHasToken(z);
    }
    ReadMembers(z);
  }

  lemma ReadMembers(z: Zones)
    requires WellFormed(z)
    ensures Members(z.ix.assignment, ReadClusters(z)) != [] ==>
      Members(z.ix.assignment, Elements(z.retrieved)) != [] || EstimatedClusters(z) != []
    ensures Members(z.ix.assignment, Elements(z.retrieved)) != [] ==> Members(z.ix.assignment, ReadClusters(z)) != []
  {
    hide SumIn, Indexes, Members, EstimatedClusters;
    AssignmentLength(z);
    var a := z.ix.assignment;
    if Members(a, ReadClusters(z)) != [] {
      var i := Members(a, ReadClusters(z))[0];
      OccupiedIsEstimated(z, i);
      if a[i] in z.retrieved {
        MemberExists(a, Elements(z.retrieved), i);
      }
    }
    if Members(a, Elements(z.retrieved)) != [] {
      MemberExists(a, ReadClusters(z), Members(a, Elements(z.retrieved))[0]);
    }
  }

  lemma EstimateHasToken(z: Zones)
    requires WellFormed(z) && EstimatedClusters(z) != []
    ensures Members(z.ix.assignment, ReadClusters(z)) != []
  {
    hide SumIn, Members;
    var c := EstimatedClusters(z)[0];
    assert c in EstimatedClusters(z);
    var i := SomeToken(z.ix.assignment, c);
    MemberExists(z.ix.assignment, ReadClusters(z), i);
  }

  lemma {:induction false} SomeToken(a: seq<nat>, c: nat) returns (i: nat)
    requires SumIn(Ones(|a|), a, {c}) > 0.0
    ensures i < |a| && a[i] == c
  {
    var n := |a| - 1;
    if a[n] == c {
      i := n;
    } else {
      assert Ones(|a|)[..n] == Ones(n);
      i := SomeToken(a[..n], c);
    }
  }

  lemma {:induction false} MemberExists(a: seq<nat>, p: set<nat>, i: nat)
    requires i < |a| && a[i] in p
    ensures Members(a, p) != []
  {
    if i < |a| - 1 {
      MemberExists(a[..|a| - 1], p, i);
    }
  }

  lemma Quotient(k: real, n: real, m: real)
    requires k > 0.0 && m > 0.0 && k * m != 0.0
    ensures (k * n) / (k * m) == n / m
  {
    var q := n / m;
    assert q * m == n;
    assert q * (k * m) == k * n;
  }

  lemma AttendAt(E: real -> real, z: Zones, d: nat)
    requires WellFormed(z) && Exponential(E) && d < |z.q| && ExactLogits(z) + EstimatedLogits(z) != []
    ensures var shift := Maximum(ExactLogits(z) + EstimatedLogits(z));
      && Denominator(E, z, shift) > 0.0
      && Attend(E, z).Ok? && |Attend(E, z).value| == |z.q|
      && Attend(E, z).value[d] == Numerator(E, z, shift, d) / Denominator(E, z, shift)
  {
    hide Numerator, Denominator, Exponential, Maximum, ExactLogits, EstimatedLogits;
    DenominatorPositive(E, z, Maximum(ExactLogits(z) + EstimatedLogits(z)));
  }

  lemma DenseAt(E: real -> real, z: Zones, shift: real, d: nat)
    requires WellFormed(z) && Copies(z) && Exponential(E) && KeysIn(z, ReadClusters(z)) != [] && d < |z.q|
    requires Shaped(KeysIn(z, ReadClusters(z)), |KeysIn(z, ReadClusters(z))|, |z.q|)
    requires Shaped(ValuesIn(z, ReadClusters(z)), |KeysIn(z, ReadClusters(z))|, |z.q|)
    requires Denominator(E, z, shift) > 0.0
    ensures Dense(E, z.q, z.scale, KeysIn(z, ReadClusters(z)), ValuesIn(z, ReadClusters(z)), d)
         == Numerator(E, z, shift, d) / Denominator(E, z, shift)
  {
    hide Numerator, Denominator, Sum, Times, Copies, Logit, Exponential, KeysIn, ValuesIn, ReadClusters;
    DenseNumerator(E, z, shift, d);
    DenseDenominator(E, z, shift);
    assert E(shift) > 0.0 by { PositiveAt(E, shift); }
    var n, m := Numerator(E, z, shift, d), Denominator(E, z, shift);
    assert E(shift) * m > 0.0;
    Quotient(E(shift), n, m);
  }

  lemma PositiveAt(E: real -> real, a: real)
    requires Exponential(E)
    ensures E(a) > 0.0
  {
  }

  lemma ReadIsDenseAt(E: real -> real, z: Zones, d: nat)
    requires WellFormed(z) && Copies(z) && Exponential(E) && KeysIn(z, ReadClusters(z)) != [] && d < |z.q|
    requires Shaped(KeysIn(z, ReadClusters(z)), |KeysIn(z, ReadClusters(z))|, |z.q|)
    requires Shaped(ValuesIn(z, ReadClusters(z)), |KeysIn(z, ReadClusters(z))|, |z.q|)
    ensures Attend(E, z).Ok? && |Attend(E, z).value| == |z.q|
    ensures Attend(E, z).value[d] == Dense(E, z.q, z.scale, KeysIn(z, ReadClusters(z)), ValuesIn(z, ReadClusters(z)), d)
  {
    hide Numerator, Denominator, Copies, Exponential, Maximum, Dense, Attend, ExactLogits, EstimatedLogits, KeysIn, ValuesIn, ReadClusters;
    SomethingIsRead(z);
    AttendAt(E, z, d);
    DenseAt(E, z, Maximum(ExactLogits(z) + EstimatedLogits(z)), d);
  }

  // ---------- softmax, from first principles ----------

  /** x[0] * y[0] + x[1] * y[1] + ... */
  ghost function InnerProduct(x: seq<real>, y: seq<real>): real
    requires |x| == |y|
  {
    if x == [] then 0.0 else InnerProduct(x[..|x| - 1], y[..|y| - 1]) + x[|x| - 1] * y[|y| - 1]
  }

  lemma {:induction false} TimesProduct(x: seq<real>, y: seq<real>)
    requires |x| == |y|
    ensures Sum(Times(x, y)) == InnerProduct(x, y)
  {
    if x != [] {
      TimesProduct(x[..|x| - 1], y[..|y| - 1]);
      TimesFront(x, y);
      assert Times(x, y)[|x| - 1] == x[|x| - 1] * y[|y| - 1];
    }
  }

  /** The scaled product of query and key, in the exponential. */
  ghost function Affinity(E: real -> real, q: Vec, scale: real, key: Vec): real
    requires |key| == |q|
  {
    E(scale * InnerProduct(key, q))
  }

  lemma AffinityIs(E: real -> real, q: Vec, scale: real, key: Vec)
    requires |key| == |q|
    ensures Affinity(E, q, scale, key) == E(Logit(q, key, scale) - 0.0)
  {
    TimesProduct(key, q);
    var l := Logit(q, key, scale);
    assert l == scale * InnerProduct(key, q) by { hide Sum, Times, InnerProduct; }
    assert l - 0.0 == l;
  }

  /** Positive weights that sum to one and stand in the ratio of their affinities. */
  ghost predicate IsSoftmax(E: real -> real, q: Vec, scale: real, keys: seq<Vec>, w: seq<real>)
    requires Shaped(keys, |keys|, |q|)
  {
    && |w| == |keys| && (forall i :: 0 <= i < |w| ==> w[i] > 0.0) && InnerProduct(w, Ones(|w|)) == 1.0
    && forall i, j :: 0 <= i < |w| && 0 <= j < |w| ==>
         w[i] * Affinity(E, q, scale, keys[j]) == w[j] * Affinity(E, q, scale, keys[i])
  }

  /** The output mixes the values with softmax weights over the keys. */
  ghost predicate IsAttention(E: real -> real, q: Vec, scale: real, keys: seq<Vec>, values: seq<Vec>, output: Vec)
    requires Shaped(keys, |keys|, |q|) && Shaped(values, |keys|, |q|)
  {
    && |output| == |q|
    && exists w :: IsSoftmax(E, q, scale, keys, w) && forall d: nat :: d < |q| ==> output[d] == InnerProduct(w, Column(values, d))
  }

  lemma RatioKept(x: real, y: real, a: real, b: real, total: real)
    requires x * total == a && y * total == b
    ensures x * b == y * a
  {
    assert x * (y * total) == y * (x * total);
  }

  lemma NormalizedPositive(x: real, a: real, total: real)
    requires total > 0.0 && a > 0.0 && x * total == a
    ensures x > 0.0
  {
    assert x <= 0.0 ==> x * total <= 0.0;
  }

  lemma NormalizedTotal(ws: seq<real>, w: seq<real>, xs: seq<real>, total: real)
    requires total > 0.0 && |w| == |ws| == |xs| && forall i :: 0 <= i < |ws| ==> w[i] * total == ws[i]
    ensures InnerProduct(w, xs) == Sum(Times(ws, xs)) / total
  {
    hide Sum, InnerProduct;
    assert Scale(w, total) == ws;
    ScaledTotal(w, xs, total);
    TimesProduct(w, xs);
    DividesOut(total, InnerProduct(w, xs));
  }

  lemma DividesOut(k: real, x: real)
    requires k > 0.0
    ensures (k * x) / k == x
  {
  }

  /** `Dense` is softmax attention. */
  lemma DenseIsAttention(E: real -> real, q: Vec, scale: real, keys: seq<Vec>, values: seq<Vec>, output: Vec)
    requires Exponential(E) && keys != [] && Shaped(keys, |keys|, |q|) && Shaped(values, |keys|, |q|) && |output| == |q|
    requires forall d: nat :: d < |q| ==> output[d] == Dense(E, q, scale, keys, values, d)
    ensures IsAttention(E, q, scale, keys, values, output)
  {
    hide Sum, Times, InnerProduct, Logit, IsSoftmax;
    var ws := Weights(E, Logits(q, keys, scale), 0.0);
    SumPositive(ws);
    var w := seq(|ws|, i requires 0 <= i < |ws| => ws[i] / Sum(ws));
    forall i | 0 <= i < |ws| ensures w[i] * Sum(ws) == ws[i] {
      QuotientTimes(ws[i], Sum(ws));
    }
    WeightsAreSoftmax(E, q, scale, keys, ws, w);
    forall d: nat | d < |q| ensures output[d] == InnerProduct(w, Column(values, d)) {
      NormalizedTotal(ws, w, Column(values, d), Sum(ws));
    }
  }

  /** Weights divided by their sum. */
  lemma WeightsAreSoftmax(E: real -> real, q: Vec, scale: real, keys: seq<Vec>, ws: seq<real>, w: seq<real>)
    requires Exponential(E) && Shaped(keys, |keys|, |q|) && ws == Weights(E, Logits(q, keys, scale), 0.0) && ws != [] && Sum(ws) > 0.0
    requires |w| == |ws| && forall i :: 0 <= i < |ws| ==> w[i] * Sum(ws) == ws[i]
    ensures IsSoftmax(E, q, scale, keys, w)
  {
    hide Sum, Times, InnerProduct, Logit, Affinity;
    forall i | 0 <= i < |keys| ensures ws[i] == Affinity(E, q, scale, keys[i]) {
      AffinityIs(E, q, scale, keys[i]);
    }
    forall i | 0 <= i < |w| ensures w[i] > 0.0 {
      NormalizedPositive(w[i], ws[i], Sum(ws));
    }
    forall i, j | 0 <= i < |w| && 0 <= j < |w|
      ensures w[i] * Affinity(E, q, scale, keys[j]) == w[j] * Affinity(E, q, scale, keys[i])
    {
      RatioKept(w[i], w[j], ws[i], ws[j], Sum(ws));
    }
    NormalizedTotal(ws, w, Ones(|w|), Sum(ws));
    TimesOnes(ws);
    QuotientOne(Sum(ws));
  }

  lemma QuotientOne(x: real)
    requires x > 0.0
    ensures x / x == 1.0
  {
  }

  // ---------- wave attention is attention over cluster means ----------

  /** The mean of a cluster's keys. */
  ghost predicate MeanKey(keys: seq<Vec>, a: seq<nat>, c: nat, dim: nat, mean: Vec) {
    && Shaped(keys, |a|, dim) && |mean| == dim
    && forall d :: 0 <= d < dim ==> mean[d] * SumIn(Ones(|a|), a, {c}) == SumIn(Column(keys, d), a, {c})
  }

  /** The keys with each one in an estimated cluster replaced by the mean of that cluster's keys. */
  ghost predicate Averaged(z: Zones, keys: seq<Vec>)
    requires WellFormed(z)
  {
    && Shaped(keys, |z.keys|, |z.q|)
    && forall i :: 0 <= i < |keys| ==>
         if z.ix.assignment[i] in z.estimated then MeanKey(z.keys, z.ix.assignment, z.ix.assignment[i], |z.q|, keys[i])
         else keys[i] == z.keys[i]
  }

  lemma MeanIsCentroid(z: Zones, c: nat, mean: Vec)
    requires WellFormed(z) && c in z.ix.assignment && MeanKey(z.keys, z.ix.assignment, c, |z.q|, mean)
    ensures c < |z.ix.sizes| && z.ix.sizes[c] > 0 && mean == z.ix.centroids[c]
  {
    hide SumIn;
    var i :| 0 <= i < |z.ix.assignment| && z.ix.assignment[i] == c;
    OccupiedIsNonempty(z.ix.assignment, c);
    assert z.ix.sizes[c] as real == SumIn(Ones(|z.ix.assignment|), z.ix.assignment, {c});
    forall d | 0 <= d < |z.q| ensures mean[d] == z.ix.centroids[c][d] {
      assert mean[d] * SumIn(Ones(|z.ix.assignment|), z.ix.assignment, {c}) == SumIn(Column(z.keys, d), z.ix.assignment, {c});
      CancelFactor(mean[d], z.ix.centroids[c][d], z.ix.sizes[c] as real);
    }
  }

  /** Averaging keeps every cluster's key sums. */
  lemma AveragedSums(z: Zones, keys: seq<Vec>, c: nat, d: nat)
    requires WellFormed(z) && Averaged(z, keys) && c < |z.ix.sizes| && d < |z.q|
    ensures SumIn(Column(keys, d), z.ix.assignment, {c}) == SumIn(Column(z.keys, d), z.ix.assignment, {c})
  {
    hide SumIn;
    var a := z.ix.assignment;
    if c in z.estimated && c in a {
      var k: nat :| k < |a| && a[k] == c;
      forall i | 0 <= i < |a| && a[i] == c ensures keys[i] == keys[k] {
        MeanIsCentroid(z, c, keys[i]);
        MeanIsCentroid(z, c, keys[k]);
      }
      UniformColumn(Column(keys, d), a, c, keys[k][d]);
    } else {
      SumInCongruent(Column(keys, d), Column(z.keys, d), a, c);
    }
  }

  lemma {:induction false} SumInCongruent(xs: seq<real>, ys: seq<real>, a: seq<nat>, c: nat)
    requires |xs| == |ys| == |a| && forall i :: 0 <= i < |a| && a[i] == c ==> xs[i] == ys[i]
    ensures SumIn(xs, a, {c}) == SumIn(ys, a, {c})
  {
    if a != [] {
      SumInCongruent(xs[..|a| - 1], ys[..|a| - 1], a[..|a| - 1], c);
    }
  }

  /** Averaging leaves the index, and what attention computes, as they were; estimated clusters now hold copies. */
  lemma AveragedZones(E: real -> real, z: Zones, keys: seq<Vec>)
    requires WellFormed(z) && Averaged(z, keys) && Exponential(E)
    ensures var z' := z.(keys := keys); WellFormed(z') && Copies(z') && Attend(E, z') == Attend(E, z)
  {
    var z' := z.(keys := keys);
    AveragedWellFormed(z, keys);
    AveragedCopies(z, keys);
    hide SumIn, Indexes, Averaged, Copies;
    SameEntries(z, keys);
    hide WellFormed, ExactLogits, EstimatedLogits, ExactValues, EstimatedClusters;
    assert forall shift :: Denominator(E, z', shift) == Denominator(E, z, shift);
    assert forall shift, d :: 0 <= d < |z.q| ==> Numerator(E, z', shift, d) == Numerator(E, z, shift, d);
    SameOutput(E, z, z');
  }

  lemma SameOutput(E: real -> real, z: Zones, z': Zones)
    requires WellFormed(z) && WellFormed(z') && Exponential(E) && |z'.q| == |z.q|
    requires ExactLogits(z') + EstimatedLogits(z') == ExactLogits(z) + EstimatedLogits(z)
    requires forall shift :: Denominator(E, z', shift) == Denominator(E, z, shift)
    requires forall shift, d :: 0 <= d < |z.q| ==> Numerator(E, z', shift, d) == Numerator(E, z, shift, d)
    ensures Attend(E, z') == Attend(E, z)
  {
    hide WellFormed, Exponential, Numerator, Denominator, ExactLogits, EstimatedLogits, Maximum;
    if Attend(E, z).Ok? {
      assert Attend(E, z').value == Attend(E, z).value;
    }
  }

  lemma AveragedWellFormed(z: Zones, keys: seq<Vec>)
    requires WellFormed(z) && Averaged(z, keys)
    ensures WellFormed(z.(keys := keys))
  {
    hide SumIn, Averaged;
    assert Shaped(keys, |z.keys|, |z.q|) by { AveragedShape(z, keys); }
    forall c, d | 0 <= c < |z.ix.sizes| && 0 <= d < |z.q|
      ensures SumIn(Column(keys, d), z.ix.assignment, {c}) == SumIn(Column(z.keys, d), z.ix.assignment, {c})
    {
      AveragedSums(z, keys, c, d);
    }
  }

  lemma AveragedShape(z: Zones, keys: seq<Vec>)
    requires WellFormed(z) && Averaged(z, keys)
    ensures Shaped(keys, |z.keys|, |z.q|)
    ensures forall i :: 0 <= i < |keys| && z.ix.assignment[i] !in z.estimated ==> keys[i] == z.keys[i]
  {
  }

  lemma AveragedCopies(z: Zones, keys: seq<Vec>)
    requires WellFormed(z) && Averaged(z, keys) && WellFormed(z.(keys := keys))
    ensures Copies(z.(keys := keys))
  {
    hide SumIn, MeanKey, Indexes;
    AssignmentLength(z);
    var a := z.ix.assignment;
    forall c | c in z.estimated ensures Uniform(keys, a, c) {
      forall i, j | 0 <= i < |a| && 0 <= j < |a| && a[i] == c && a[j] == c ensures keys[i] == keys[j] {
        MeanIsCentroid(z, c, keys[i]);
        MeanIsCentroid(z, c, keys[j]);
      }
    }
  }

  lemma SameEntries(z: Zones, keys: seq<Vec>)
    requires WellFormed(z) && Averaged(z, keys) && WellFormed(z.(keys := keys))
    ensures var z' := z.(keys := keys);
      && ExactLogits(z') == ExactLogits(z) && ExactValues(z') == ExactValues(z)
      && EstimatedClusters(z') == EstimatedClusters(z) && EstimatedLogits(z') == EstimatedLogits(z)
  {
    hide SumIn, Indexes, Averaged, Logits;
    AssignmentLength(z);
    AveragedShape(z, keys);
    var z' := z.(keys := keys);
    var a, p := z.ix.assignment, Elements(z.retrieved);
    forall i | 0 <= i < |Members(a, p)| ensures keys[Members(a, p)[i]] == z.keys[Members(a, p)[i]] {
      assert a[Members(a, p)[i]] in p;
    }
    assert Select(keys, a, p) == Select(z.keys, a, p);
    assert ExactKeys(z') == ExactKeys(z);
  }

  /**
   Whatever the index holds: the output is softmax attention over the steady tokens and the tokens of
   the clusters read, with each key of an estimated cluster replaced by the mean of that cluster's keys
   and every value kept.  Without such a token there is no output.
   */
  lemma WaveAttendsMeans(E: real -> real, z: Zones, keys: seq<Vec>)
    requires WellFormed(z) && Exponential(E) && Averaged(z, keys)
    ensures var z' := z.(keys := keys); var read := ReadClusters(z);
      && WellFormed(z')
      && Shaped(KeysIn(z', read), |KeysIn(z', read)|, |z.q|) && Shaped(ValuesIn(z', read), |KeysIn(z', read)|, |z.q|)
      && if KeysIn(z', read) == [] then Attend(E, z) == Err(NoEntries)
         else Attend(E, z).Ok? && IsAttention(E, z.q, z.scale, KeysIn(z', read), ValuesIn(z', read), Attend(E, z).value)
  {
    hide Exponential, Averaged, Dense, IsAttention, KeysIn, ValuesIn, ReadClusters, Copies, ExactLogits, EstimatedLogits;
    var z' := z.(keys := keys);
    AveragedZones(E, z, keys);
    assert ReadClusters(z') == ReadClusters(z) by { SameRead(z, keys); }
    ReadIsAttention(E, z');
  }

  lemma SameRead(z: Zones, keys: seq<Vec>)
    ensures ReadClusters(z.(keys := keys)) == ReadClusters(z)
  {
  }

  lemma ReadIsAttention(E: real -> real, z: Zones)
    requires WellFormed(z) && Exponential(E) && Copies(z)
    ensures var read := ReadClusters(z);
      && Shaped(KeysIn(z, read), |KeysIn(z, read)|, |z.q|) && Shaped(ValuesIn(z, read), |KeysIn(z, read)|, |z.q|)
      && if KeysIn(z, read) == [] then Attend(E, z) == Err(NoEntries)
         else
           && Attend(E, z).Ok? && |Attend(E, z).value| == |z.q|
           && IsAttention(E, z.q, z.scale, KeysIn(z, read), ValuesIn(z, read), Attend(E, z).value)
           && forall d: nat :: d < |z.q| ==> Attend(E, z).value[d] == Dense(E, z.q, z.scale, KeysIn(z, read), ValuesIn(z, read), d)
  {
    hide Exponential, Dense, IsAttention, KeysIn, ValuesIn, ReadClusters, Copies, ExactLogits, EstimatedLogits, WellFormed;
    var read := ReadClusters(z);
    ReadShapes(z, read);
    SomethingIsRead(z);
    if KeysIn(z, read) != [] {
      hide Attend;
      OutputLength(E, z);
      forall d: nat | d < |z.q| ensures Attend(E, z).value[d] == Dense(E, z.q, z.scale, KeysIn(z, read), ValuesIn(z, read), d) {
        ReadIsDenseAt(E, z, d);
      }
      DenseIsAttention(E, z.q, z.scale, KeysIn(z, read), ValuesIn(z, read), Attend(E, z).value);
    }
  }

  lemma OutputLength(E: real -> real, z: Zones)
    requires WellFormed(z) && Exponential(E) && ExactLogits(z) + EstimatedLogits(z) != []
    ensures Attend(E, z).Ok? && |Attend(E, z).value| == |z.q|
  {
    hide WellFormed, Exponential, Numerator, Denominator, ExactLogits, EstimatedLogits, Maximum;
  }

  /** Such keys exist, so the last result always applies. */
  lemma SomeAverage(z: Zones) returns (keys: seq<Vec>)
    requires WellFormed(z)
    ensures Averaged(z, keys)
  {
    hide SumIn;
    keys := seq(|z.keys|, i requires 0 <= i < |z.keys| && i < |z.ix.assignment| && z.ix.assignment[i] < |z.ix.centroids| =>
      if z.ix.assignment[i] in z.estimated then z.ix.centroids[z.ix.assignment[i]] else z.keys[i]);
    forall i | 0 <= i < |keys| && z.ix.assignment[i] in z.estimated
      ensures MeanKey(z.keys, z.ix.assignment, z.ix.assignment[i], |z.q|, keys[i])
    {
      OccupiedIsNonempty(z.ix.assignment, z.ix.assignment[i]);
    }
  }

  // ---------- when it is exact ----------

  /** The output is softmax attention over every steady and indexed token. */
  ghost predicate AttendsDensely(E: real -> real, z: Zones)
    requires WellFormed(z) && Exponential(E) && z.steadyKeys + z.keys != []
  {
    && Attend(E, z).Ok? && |Attend(E, z).value| == |z.q|
    && IsAttention(E, z.q, z.scale, z.steadyKeys + z.keys, z.steadyValues + z.values, Attend(E, z).value)
    && forall d: nat :: d < |z.q| ==>
         Attend(E, z).value[d] == Dense(E, z.q, z.scale, z.steadyKeys + z.keys, z.steadyValues + z.values, d)
  }

  /**
   Wave attention equals softmax attention over all steady and indexed tokens whenever every
   occupied cluster is read and every estimated cluster holds copies of one key.
   */
  lemma WaveIsDense(E: real -> real, z: Zones)
    requires WellFormed(z) && Faithful(z) && Exponential(E) && z.steadyKeys + z.keys != []
    ensures AttendsDensely(E, z)
  {
    hide Dense, Exponential, Copies, IsAttention, Attend;
    ReadIsAttention(E, z);
    EverythingRead(z);
  }

  lemma EverythingRead(z: Zones)
    requires WellFormed(z) && Faithful(z)
    ensures KeysIn(z, ReadClusters(z)) == z.steadyKeys + z.keys && ValuesIn(z, ReadClusters(z)) == z.steadyValues + z.values
  {
    hide SumIn, Copies;
    SelectAll(z.keys, z.ix.assignment, ReadClusters(z));
    SelectAll(z.values, z.ix.assignment, ReadClusters(z));
  }

  lemma {:induction false} MembersAll(a: seq<nat>, p: set<nat>)
    requires forall i :: 0 <= i < |a| ==> a[i] in p
    ensures Members(a, p) == seq(|a|, i => i)
  {
    if a != [] {
      MembersAll(a[..|a| - 1], p);
    }
  }

  lemma SelectAll<T>(xs: seq<T>, a: seq<nat>, p: set<nat>)
    requires |xs| == |a| && forall i :: 0 <= i < |a| ==> a[i] in p
    ensures Select(xs, a, p) == xs
  {
    MembersAll(a, p);
  }

  // ---------- the output is a mixture of what was read ----------

  lemma {:induction false} TotalsMonotone(ws: seq<real>, xs: seq<real>, ys: seq<real>)
    requires |ws| == |xs| == |ys| && forall i :: 0 <= i < |ws| ==> ws[i] > 0.0 && xs[i] <= ys[i]
    ensures Sum(Times(ws, xs)) <= Sum(Times(ws, ys))
  {
    hide Times;
    if ws != [] {
      var n := |ws| - 1;
      TotalsMonotone(ws[..n], xs[..n], ys[..n]);
      TimesFront(ws, xs);
      TimesFront(ws, ys);
      ProductMonotone(ws[n], xs[n], ys[n]);
    }
  }

  lemma ProductMonotone(w: real, x: real, y: real)
    requires w > 0.0 && x <= y
    ensures w * x <= w * y
  {
  }

  lemma ScaledColumn(ws: seq<real>, col: seq<real>, k: real)
    requires |ws| == |col|
    ensures Sum(Times(ws, Scale(col, k))) == Mul(k, Sum(Times(ws, col)))
  {
    hide Sum;
    var left, right := Times(ws, Scale(col, k)), Scale(Times(ws, col), k);
    forall i | 0 <= i < |ws| ensures left[i] == right[i] {
      assert Scale(col, k)[i] == k * col[i];
      assert right[i] == k * (ws[i] * col[i]);
    }
    assert left == right;
    SumScale(Times(ws, col), k);
  }

  lemma WeightedBounds(ws: seq<real>, xs: seq<real>, sizes: seq<real>, lo: real, hi: real)
    requires |ws| == |xs| == |sizes|
    requires forall i :: 0 <= i < |ws| ==> ws[i] > 0.0 && Scale(sizes, lo)[i] <= xs[i] <= Scale(sizes, hi)[i]
    ensures Mul(lo, Sum(Times(ws, sizes))) <= Sum(Times(ws, xs)) <= Mul(hi, Sum(Times(ws, sizes)))
  {
    hide Mul, Times, Sum, Scale;
    ScaledColumn(ws, sizes, lo);
    ScaledColumn(ws, sizes, hi);
    TotalsMonotone(ws, Scale(sizes, lo), xs);
    TotalsMonotone(ws, xs, Scale(sizes, hi));
  }

  lemma {:induction false} ClusterMonotone(xs: seq<real>, ys: seq<real>, a: seq<nat>, c: nat)
    requires |xs| == |ys| == |a| && forall i :: 0 <= i < |a| && a[i] == c ==> xs[i] <= ys[i]
    ensures SumIn(xs, a, {c}) <= SumIn(ys, a, {c})
  {
    if a != [] {
      ClusterMonotone(xs[..|a| - 1], ys[..|a| - 1], a[..|a| - 1], c);
    }
  }

  lemma ClusterBounds(col: seq<real>, a: seq<nat>, c: nat, lo: real, hi: real)
    requires |col| == |a| && forall i :: 0 <= i < |a| && a[i] == c ==> lo <= col[i] <= hi
    ensures lo * SumIn(Ones(|a|), a, {c}) <= SumIn(col, a, {c}) <= hi * SumIn(Ones(|a|), a, {c})
  {
    hide SumIn;
    var low, high := seq(|a|, i => lo), seq(|a|, i => hi);
    UniformColumn(low, a, c, lo);
    UniformColumn(high, a, c, hi);
    ClusterMonotone(low, col, a, c);
    ClusterMonotone(col, high, a, c);
  }

  /** Component `d` of every value in the zones read lies in [lo, hi]. */
  ghost predicate ReadWithin(z: Zones, d: nat, lo: real, hi: real)
    requires WellFormed(z) && d < |z.q|
  {
    && (forall i :: 0 <= i < |z.steadyValues| ==> lo <= z.steadyValues[i][d] <= hi)
    && (forall i :: 0 <= i < |z.values| && (z.ix.assignment[i] in z.retrieved || z.ix.assignment[i] in z.estimated) ==>
          lo <= z.values[i][d] <= hi)
  }

  lemma ExactBounds(E: real -> real, z: Zones, shift: real, d: nat, lo: real, hi: real)
    requires WellFormed(z) && Exponential(E) && d < |z.q| && ReadWithin(z, d, lo, hi)
    ensures var w := Weights(E, ExactLogits(z), shift);
            lo * Sum(w) <= Sum(Times(w, Column(ExactValues(z), d))) <= hi * Sum(w)
  {
    hide Sum, Times, ExactLogits;
    var w, col := Weights(E, ExactLogits(z), shift), Column(ExactValues(z), d);
    TimesOnes(w);
    forall i | 0 <= i < |w| ensures w[i] > 0.0 && Scale(Ones(|w|), lo)[i] <= col[i] <= Scale(Ones(|w|), hi)[i] {
      assert ExactValues(z)[i][d] == col[i];
    }
    WeightedBounds(w, col, Ones(|w|), lo, hi);
  }

  lemma WeightsPositive(E: real -> real, logits: seq<real>, shift: real)
    requires Exponential(E)
    ensures forall i :: 0 <= i < |logits| ==> Weights(E, logits, shift)[i] > 0.0
  {
  }

  lemma EstimateBounds(E: real -> real, z: Zones, shift: real, d: nat, lo: real, hi: real)
    requires WellFormed(z) && Exponential(E) && d < |z.q| && ReadWithin(z, d, lo, hi)
    ensures var w := Weights(E, EstimatedLogits(z), shift); var est := EstimatedClusters(z);
            var sizes := Gather(AsReals(z.ix.sizes), est);
            Mul(lo, Sum(Times(w, sizes))) <= Sum(Times(w, Column(Gather(z.ix.valueSums, est), d))) <= Mul(hi, Sum(Times(w, sizes)))
  {
    hide Sum, Times, EstimatedLogits, SumIn, ReadWithin, Exponential, Weights, Mul;
    var w, est := Weights(E, EstimatedLogits(z), shift), EstimatedClusters(z);
    var sizes, col := Gather(AsReals(z.ix.sizes), est), Column(Gather(z.ix.valueSums, est), d);
    WeightsPositive(E, EstimatedLogits(z), shift);
    forall i | 0 <= i < |w| ensures Scale(sizes, lo)[i] <= col[i] <= Scale(sizes, hi)[i] {
      assert est[i] in est;
      EstimateBound(z, d, lo, hi, est[i]);
    }
    hide Scale, WellFormed;
    WeightedBounds(w, col, sizes, lo, hi);
  }

  lemma EstimateBound(z: Zones, d: nat, lo: real, hi: real, c: nat)
    requires WellFormed(z) && d < |z.q| && ReadWithin(z, d, lo, hi) && c in z.estimated && c < |z.ix.sizes|
    ensures Mul(lo, z.ix.sizes[c] as real) <= z.ix.valueSums[c][d] <= Mul(hi, z.ix.sizes[c] as real)
  {
    hide SumIn;
    ClusterBounds(Column(z.values, d), z.ix.assignment, c, lo, hi);
  }

  lemma QuotientBounds(n: real, m: real, lo: real, hi: real)
    requires m > 0.0 && lo * m <= n <= hi * m
    ensures lo <= n / m <= hi
  {
    var q := n / m;
    assert q * m == n;
    assert (lo - q) * m <= 0.0 && (q - hi) * m <= 0.0;
  }

  /** Every output component lies between the least and the greatest value component read. */
  lemma WaveStaysWithin(E: real -> real, z: Zones, d: nat, lo: real, hi: real)
    requires WellFormed(z) && Exponential(E) && Attend(E, z).Ok? && d < |z.q| && ReadWithin(z, d, lo, hi)
    ensures |Attend(E, z).value| == |z.q| && lo <= Attend(E, z).value[d] <= hi
  {
    hide ReadWithin, Numerator, Denominator, WellFormed, Exponential, Maximum, ExactLogits, EstimatedLogits;
    var shift := Maximum(ExactLogits(z) + EstimatedLogits(z));
    AttendAt(E, z, d);
    WithinAt(E, z, shift, d, lo, hi);
    QuotientBounds(Numerator(E, z, shift, d), Denominator(E, z, shift), lo, hi);
  }

  lemma WithinAt(E: real -> real, z: Zones, shift: real, d: nat, lo: real, hi: real)
    requires WellFormed(z) && Exponential(E) && d < |z.q| && ReadWithin(z, d, lo, hi)
    ensures lo * Denominator(E, z, shift) <= Numerator(E, z, shift, d) <= hi * Denominator(E, z, shift)
  {
    hide Sum, Times, ReadWithin, ExactLogits, EstimatedLogits, WellFormed, Exponential;
    ExactBounds(E, z, shift, d, lo, hi);
    EstimateBounds(E, z, shift, d, lo, hi);
    var w := Sum(Weights(E, ExactLogits(z), shift));
    var t := Sum(Times(Weights(E, EstimatedLogits(z), shift), Gather(AsReals(z.ix.sizes), EstimatedClusters(z))));
    assert lo * (w + t) == lo * w + lo * t && hi * (w + t) == hi * w + hi * t;
  }
}
