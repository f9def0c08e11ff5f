/**
 The RetroInfer wave-index oracle over exact reals: tokens are grouped into
 clusters, and one decode step attends exactly to the steady zone and the
 retrieved clusters, approximately (through centroid, size and value sum) to the
 estimated clusters, and not at all to the rest.  Heads are independent; this
 module treats one KV head.
 */
module WaveAttention {
  import opened Arithmetic
  import opened Outcomes
  import opened Sorting

  type Vec = seq<real>

  // ---------- sums over tokens and over clusters ----------

  /** The sum of the entries whose token is assigned to one of `clusters`. */
  ghost function SumIn(xs: seq<real>, assignment: seq<nat>, clusters: set<nat>): real
    requires |xs| == |assignment|
  {
    if xs == [] then 0.0
    else
      SumIn(xs[..|xs| - 1], assignment[..|xs| - 1], clusters)
      + (if assignment[|xs| - 1] in clusters then xs[|xs| - 1] else 0.0)
  }

  function Mul(x: real, y: real): real { x * y }

  function Scale(xs: seq<real>, k: real): (r: seq<real>)
    ensures |r| == |xs| && forall i :: 0 <= i < |xs| ==> r[i] == Mul(k, xs[i])
  {
    seq(|xs|, i requires 0 <= i < |xs| => Mul(k, xs[i]))
  }

  function Times(xs: seq<real>, ys: seq<real>): (r: seq<real>)
    requires |xs| == |ys|
    ensures |r| == |xs| && forall i :: 0 <= i < |xs| ==> r[i] == Mul(xs[i], ys[i])
  {
    seq(|xs|, i requires 0 <= i < |xs| => Mul(xs[i], ys[i]))
  }

  ghost function Ones(n: nat): (r: seq<real>)
    ensures |r| == n && forall i :: 0 <= i < n ==> r[i] == 1.0
  {
    seq(n, i => 1.0)
  }

  function Elements(s: seq<nat>): set<nat> { set x | x in s }

  /** The tokens assigned to one of `clusters`, in order. */
  function Members(assignment: seq<nat>, clusters: set<nat>): (r: seq<nat>)
    ensures forall i :: 0 <= i < |r| ==> r[i] < |assignment| && assignment[r[i]] in clusters
  {
    if assignment == [] then []
    else
      var n := |assignment| - 1;
      Members(assignment[..n], clusters) + (if assignment[n] in clusters then [n] else [])
  }

  function Gather<T>(xs: seq<T>, at: seq<nat>): (r: seq<T>)
    requires forall i :: 0 <= i < |at| ==> at[i] < |xs|
    ensures |r| == |at| && forall i :: 0 <= i < |at| ==> r[i] == xs[at[i]]
  {
    seq(|at|, i requires 0 <= i < |at| => xs[at[i]])
  }

  /** The entries whose token is assigned to one of `clusters`, in token order. */
  function Select<T>(xs: seq<T>, assignment: seq<nat>, clusters: set<nat>): (r: seq<T>)
    requires |xs| == |assignment|
    ensures |r| == |Members(assignment, clusters)|
    ensures forall i :: 0 <= i < |r| ==> r[i] == xs[Members(assignment, clusters)[i]]
  {
    Gather(xs, Members(assignment, clusters))
  }

  lemma {:induction false} SumAppend(xs: seq<real>, ys: seq<real>)
    ensures Sum(xs + ys) == Sum(xs) + Sum(ys)
  {
    if ys == [] {
      assert xs + ys == xs;
    } else {
      assert (xs + ys)[..|xs + ys| - 1] == xs + ys[..|ys| - 1];
      SumAppend(xs, ys[..|ys| - 1]);
    }
  }

  lemma {:induction false} SumScale(xs: seq<real>, k: real)
    ensures Sum(Scale(xs, k)) == Mul(k, Sum(xs))
  {
    hide Mul;
    if xs == [] {
      Distribute(k, 0.0, 0.0);
    } else {
      Distribute(k, Sum(xs[..|xs| - 1]), xs[|xs| - 1]);
      var front := xs[..|xs| - 1];
      assert Scale(xs, k)[..|xs| - 1] == Scale(front, k) by {
        forall i | 0 <= i < |front| ensures Scale(xs, k)[i] == Scale(front, k)[i] {
          assert front[i] == xs[i];
        }
      }
      SumScale(xs[..|xs| - 1], k);
    }
  }

  lemma {:induction false} SumInDisjoint(xs: seq<real>, a: seq<nat>, p: set<nat>, q: set<nat>)
    requires |xs| == |a| && p !! q
    ensures SumIn(xs, a, p + q) == SumIn(xs, a, p) + SumIn(xs, a, q)
  {
    if xs != [] {
      SumInDisjoint(xs[..|xs| - 1], a[..|xs| - 1], p, q);
    }
  }

  lemma {:induction false} SumInAll(xs: seq<real>, a: seq<nat>, p: set<nat>)
    requires |xs| == |a| && forall i :: 0 <= i < |a| ==> a[i] in p
    ensures SumIn(xs, a, p) == Sum(xs)
  {
    if xs != [] {
      SumInAll(xs[..|xs| - 1], a[..|xs| - 1], p);
    }
  }

  lemma {:induction false} SumInNone(xs: seq<real>, a: seq<nat>)
    requires |xs| == |a|
    ensures SumIn(xs, a, {}) == 0.0
  {
    if xs != [] {
      SumInNone(xs[..|xs| - 1], a[..|xs| - 1]);
    }
  }

  lemma {:induction false} SumSelect(xs: seq<real>, a: seq<nat>, p: set<nat>)
    requires |xs| == |a|
    ensures Sum(Select(xs, a, p)) == SumIn(xs, a, p)
  {
    if xs != [] {
      var n := |xs| - 1;
      SumSelect(xs[..n], a[..n], p);
      var front := Select(xs[..n], a[..n], p);
      if a[n] in p {
        assert Select(xs, a, p) == front + [xs[n]];
        assert (front + [xs[n]])[..|front|] == front;
      } else {
        assert Select(xs, a, p) == front;
      }
    }
  }

  lemma TimesFront(xs: seq<real>, ys: seq<real>)
    requires |xs| == |ys| > 0
    ensures Times(xs, ys)[..|xs| - 1] == Times(xs[..|xs| - 1], ys[..|xs| - 1])
  {
    var n := |xs| - 1;
    forall i | 0 <= i < n ensures Times(xs, ys)[i] == Times(xs[..n], ys[..n])[i] {
      assert xs[..n][i] == xs[i] && ys[..n][i] == ys[i];
    }
  }

  lemma Distribute(w: real, x: real, y: real)
    ensures Mul(w, x + y) == Mul(w, x) + Mul(w, y) && Mul(w, 0.0) == 0.0
  {
  }

  /** A factor that is constant on a cluster comes out of its sum. */
  lemma {:induction false} SumInFactor(ws: seq<real>, vs: seq<real>, a: seq<nat>, c: nat, w: real)
    requires |ws| == |vs| == |a| && forall i :: 0 <= i < |a| && a[i] == c ==> ws[i] == w
    ensures SumIn(Times(ws, vs), a, {c}) == Mul(w, SumIn(vs, a, {c}))
  {
    hide Mul, Times;
    if ws == [] {
      Distribute(w, 0.0, 0.0);
    } else {
      var n := |ws| - 1;
      SumInFactor(ws[..n], vs[..n], a[..n], c, w);
      TimesFront(ws, vs);
      Distribute(w, SumIn(vs[..n], a[..n], {c}), vs[n]);
    }
  }

  /** Cluster sums of an index refine into the token sum: the regrouping step. */
  ghost function ClusterTotal(xs: seq<real>, a: seq<nat>, clusters: seq<nat>): real
    requires |xs| == |a|
  {
    if clusters == [] then 0.0
    else ClusterTotal(xs, a, clusters[..|clusters| - 1]) + SumIn(xs, a, {clusters[|clusters| - 1]})
  }

  lemma {:induction false} Regroup(xs: seq<real>, a: seq<nat>, clusters: seq<nat>)
    requires |xs| == |a| && Distinct(clusters)
    ensures ClusterTotal(xs, a, clusters) == SumIn(xs, a, Elements(clusters))
  {
    if clusters == [] {
      SumInNone(xs, a);
      assert Elements(clusters) == {};
    } else {
      var front, last := clusters[..|clusters| - 1], clusters[|clusters| - 1];
      Regroup(xs, a, front);
      assert last !in front;
      assert Elements(clusters) == Elements(front) + {last};
      SumInDisjoint(xs, a, Elements(front), {last});
    }
  }

  // ---------- the index ----------

  datatype Index = Index(centroids: seq<Vec>, valueSums: seq<Vec>, sizes: seq<nat>, assignment: seq<nat>)

  predicate Shaped(rows: seq<Vec>, n: nat, dim: nat) {
    |rows| == n && forall i :: 0 <= i < n ==> |rows[i]| == dim
  }

  function Column(rows: seq<Vec>, d: nat): (r: seq<real>)
    requires forall i :: 0 <= i < |rows| ==> d < |rows[i]|
    ensures |r| == |rows| && forall i :: 0 <= i < |rows| ==> r[i] == rows[i][d]
  {
    seq(|rows|, i requires 0 <= i < |rows| => rows[i][d])
  }

  /** Sizes partition the tokens, value sums partition the values, and a nonempty centroid is the mean of its keys. */
  ghost predicate Indexes(ix: Index, keys: seq<Vec>, values: seq<Vec>, dim: nat) {
    var n := |keys|; var clusters := |ix.sizes|;
    && Shaped(keys, n, dim) && Shaped(values, n, dim)
    && Shaped(ix.centroids, clusters, dim) && Shaped(ix.valueSums, clusters, dim)
    && |ix.assignment| == n && (forall i :: 0 <= i < n ==> ix.assignment[i] < clusters)
    && (forall c :: 0 <= c < clusters ==> ix.sizes[c] as real == SumIn(Ones(n), ix.assignment, {c}))
    && (forall c, d :: 0 <= c < clusters && 0 <= d < dim ==>
          ix.valueSums[c][d] == SumIn(Column(values, d), ix.assignment, {c}))
    && (forall c, d :: 0 <= c < clusters && 0 <= d < dim && ix.sizes[c] > 0 ==>
          ix.centroids[c][d] * ix.sizes[c] as real == SumIn(Column(keys, d), ix.assignment, {c}))
  }

  // ---------- one decode step ----------

  function Dot(x: Vec, y: Vec): real
    requires |x| == |y|
  {
    Sum(Times(x, y))
  }

  function Logit(q: Vec, key: Vec, scale: real): real
    requires |key| == |q|
  {
    Dot(key, q) * scale
  }

  function Logits(q: Vec, keys: seq<Vec>, scale: real): (r: seq<real>)
    requires forall i :: 0 <= i < |keys| ==> |keys[i]| == |q|
    ensures |r| == |keys| && forall i :: 0 <= i < |keys| ==> r[i] == Logit(q, keys[i], scale)
  {
    seq(|keys|, i requires 0 <= i < |keys| => Logit(q, keys[i], scale))
  }

  function Weights(E: real -> real, logits: seq<real>, shift: real): (r: seq<real>)
    ensures |r| == |logits| && forall i :: 0 <= i < |logits| ==> r[i] == E(logits[i] - shift)
  {
    seq(|logits|, i requires 0 <= i < |logits| => E(logits[i] - shift))
  }

  /** The properties of `exp` that attention relies on. */
  ghost predicate Exponential(E: real -> real) {
    && (forall a {:trigger E(a)} :: E(a) > 0.0)
    && (forall a, b :: Divides(E, a, b))
  }

  /** The law that lets softmax subtract a common shift. */
  ghost predicate Divides(E: real -> real, a: real, b: real) {
    E(a - b) * E(b) == E(a)
  }

  lemma ExponentialAt(E: real -> real, a: real, b: real)
    requires Exponential(E)
    ensures E(a) > 0.0 && E(a - b) * E(b) == E(a)
  {
    assert Divides(E, a, b);
  }

  function Maximum(xs: seq<real>): (m: real)
    requires xs != []
    ensures m in xs && forall i :: 0 <= i < |xs| ==> xs[i] <= m
  {
    if |xs| == 1 then xs[0]
    else
      var m := Maximum(xs[..|xs| - 1]);
      if xs[|xs| - 1] > m then xs[|xs| - 1] else m
  }

  function Nonempty(estimated: seq<nat>, sizes: seq<nat>): (r: seq<nat>)
    requires forall i :: 0 <= i < |estimated| ==> estimated[i] < |sizes|
    ensures forall i :: 0 <= i < |r| ==> r[i] < |sizes| && sizes[r[i]] > 0
    ensures forall c :: c in r <==> c in estimated && sizes[c] > 0
  {
    if estimated == [] then []
    else
      var last := estimated[|estimated| - 1];
      Nonempty(estimated[..|estimated| - 1], sizes) + (if sizes[last] > 0 then [last] else [])
  }

  /** The inputs of one head for one query. */
  datatype Zones = Zones(
    q: Vec, scale: real, steadyKeys: seq<Vec>, steadyValues: seq<Vec>,
    keys: seq<Vec>, values: seq<Vec>, ix: Index, retrieved: seq<nat>, estimated: seq<nat>)

  ghost predicate WellFormed(z: Zones) {
    && Shaped(z.steadyKeys, |z.steadyKeys|, |z.q|) && Shaped(z.steadyValues, |z.steadyKeys|, |z.q|)
    && Indexes(z.ix, z.keys, z.values, |z.q|)
    && (forall i :: 0 <= i < |z.retrieved| ==> z.retrieved[i] < |z.ix.sizes|)
    && (forall i :: 0 <= i < |z.estimated| ==> z.estimated[i] < |z.ix.sizes|)
    && Distinct(z.estimated)
    && Elements(z.retrieved) !! Elements(z.estimated)
  }

  function ExactKeys(z: Zones): (r: seq<Vec>)
    requires WellFormed(z)
    ensures forall i :: 0 <= i < |r| ==> |r[i]| == |z.q|
  {
    z.steadyKeys + Select(z.keys, z.ix.assignment, Elements(z.retrieved))
  }

  function ExactValues(z: Zones): (r: seq<Vec>)
    requires WellFormed(z)
    ensures |r| == |ExactKeys(z)| && forall i :: 0 <= i < |r| ==> |r[i]| == |z.q|
  {
    z.steadyValues + Select(z.values, z.ix.assignment, Elements(z.retrieved))
  }

  function ExactLogits(z: Zones): (r: seq<real>)
    requires WellFormed(z)
    ensures |r| == |ExactKeys(z)|
  {
    Logits(z.q, ExactKeys(z), z.scale)
  }

  function EstimatedClusters(z: Zones): (r: seq<nat>)
    requires WellFormed(z)
    ensures forall i :: 0 <= i < |r| ==> r[i] < |z.ix.sizes|
  {
    Nonempty(z.estimated, z.ix.sizes)
  }

  function EstimatedLogits(z: Zones): (r: seq<real>)
    requires WellFormed(z)
    ensures |r| == |EstimatedClusters(z)|
  {
    Logits(z.q, Gather(z.ix.centroids, EstimatedClusters(z)), z.scale)
  }

  function AsReals(xs: seq<nat>): (r: seq<real>)
    ensures |r| == |xs| && forall i :: 0 <= i < |xs| ==> r[i] == xs[i] as real
  {
    seq(|xs|, i requires 0 <= i < |xs| => xs[i] as real)
  }

  function Denominator(E: real -> real, z: Zones, shift: real): real
    requires WellFormed(z)
  {
    Sum(Weights(E, ExactLogits(z), shift))
    + Sum(Times(Weights(E, EstimatedLogits(z), shift), Gather(AsReals(z.ix.sizes), EstimatedClusters(z))))
  }

  function Numerator(E: real -> real, z: Zones, shift: real, d: nat): real
    requires WellFormed(z) && d < |z.q|
  {
    Sum(Times(Weights(E, ExactLogits(z), shift), Column(ExactValues(z), d)))
    + Sum(Times(Weights(E, EstimatedLogits(z), shift), Column(Gather(z.ix.valueSums, EstimatedClusters(z)), d)))
  }

  datatype AttentionError = NoEntries

  /** Attention of one query over the zones read. */
  function Attend(E: real -> real, z: Zones): (r: Result<Vec, AttentionError>)
    requires WellFormed(z) && Exponential(E)
  {
    var logits := ExactLogits(z) + EstimatedLogits(z);
    if logits == [] then Err(NoEntries)
    else
      var shift := Maximum(logits);
      DenominatorPositive(E, z, shift);
      Ok(seq(|z.q|, d requires 0 <= d < |z.q| && WellFormed(z) && Denominator(E, z, shift) > 0.0 =>
        Numerator(E, z, shift, d) / Denominator(E, z, shift)))
  }

  /** Softmax attention over every token, written without any shift. */
  ghost function Dense(E: real -> real, q: Vec, scale: real, keys: seq<Vec>, values: seq<Vec>, d: nat): real
    requires Exponential(E) && keys != [] && Shaped(keys, |keys|, |q|) && Shaped(values, |keys|, |q|) && d < |q|
  {
    var w := Weights(E, Logits(q, keys, scale), 0.0);
    SumPositive(w);
    Sum(Times(w, Column(values, d))) / Sum(w)
  }

  // ---------- well-formedness ----------

  lemma {:induction false} SumPositive(xs: seq<real>)
    requires forall i :: 0 <= i < |xs| ==> xs[i] > 0.0
    ensures xs != [] ==> Sum(xs) > 0.0
    ensures Sum(xs) >= 0.0
  {
    if xs != [] {
      SumPositive(xs[..|xs| - 1]);
    }
  }

  lemma TimesPositive(xs: seq<real>, ys: seq<real>)
    requires |xs| == |ys| && forall i :: 0 <= i < |xs| ==> xs[i] > 0.0 && ys[i] > 0.0
    ensures forall i :: 0 <= i < |xs| ==> Times(xs, ys)[i] > 0.0
  {
  }

  lemma DenominatorPositive(E: real -> real, z: Zones, shift: real)
    requires WellFormed(z) && Exponential(E) && ExactLogits(z) + EstimatedLogits(z) != []
    ensures Denominator(E, z, shift) > 0.0
  {
    hide ExactLogits, EstimatedLogits, Sum;
    var sizes := Gather(AsReals(z.ix.sizes), EstimatedClusters(z));
    var w := Weights(E, EstimatedLogits(z), shift);
    TimesPositive(w, sizes);
    SumPositive(Weights(E, ExactLogits(z), shift));
    SumPositive(Times(w, sizes));
  }
}
