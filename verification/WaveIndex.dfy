/** Building the wave index, ranking its clusters, and what the ranking budget must be. */
module WaveIndex {
  import opened Arithmetic
  import opened Outcomes
  import opened Sorting
  import opened WaveAttention
  import opened WaveTheorems

  // ---------- scatter-add ----------

  function Add(x: Vec, y: Vec): (r: Vec)
    requires |x| == |y|
    ensures |r| == |x| && forall d :: 0 <= d < |x| ==> r[d] == x[d] + y[d]
  {
    seq(|x|, d requires 0 <= d < |x| => x[d] + y[d])
  }

  lemma SumInFirst(column: seq<real>, a: seq<nat>, i: nat, c: nat)
    requires |column| == |a| && i < |a|
    ensures SumIn(column[..i + 1], a[..i + 1], {c}) == SumIn(column[..i], a[..i], {c}) + (if a[i] == c then column[i] else 0.0)
  {
    assert column[..i + 1][..i] == column[..i] && a[..i + 1][..i] == a[..i];
  }

  /** Rows added into the slot of their cluster: slot c ends as the sum of the rows assigned to c. */
  method ScatterAdd(rows: seq<Vec>, assignment: seq<nat>, clusters: nat, dim: nat) returns (sums: seq<Vec>)
    requires Shaped(rows, |assignment|, dim) && forall i :: 0 <= i < |assignment| ==> assignment[i] < clusters
    ensures Shaped(sums, clusters, dim)
    ensures forall c, d :: 0 <= c < clusters && 0 <= d < dim ==> sums[c][d] == SumIn(Column(rows, d), assignment, {c})
  {
    sums := seq(clusters, c => seq(dim, d => 0.0));
    var i := 0;
    while i < |rows|
      invariant 0 <= i <= |rows| && Shaped(sums, clusters, dim)
      invariant forall c, d :: 0 <= c < clusters && 0 <= d < dim ==>
        sums[c][d] == SumIn(Column(rows, d)[..i], assignment[..i], {c})
    {
      var slot := assignment[i];
      forall c, d | 0 <= c < clusters && 0 <= d < dim
        ensures SumIn(Column(rows, d)[..i + 1], assignment[..i + 1], {c})
             == sums[c][d] + (if slot == c then rows[i][d] else 0.0)
      {
        SumInFirst(Column(rows, d), assignment, i, c);
      }
      sums := sums[slot := Add(sums[slot], rows[i])];
      i := i + 1;
    }
    assert assignment[..i] == assignment;
    forall d | 0 <= d < dim ensures Column(rows, d)[..i] == Column(rows, d) {}
  }

  method ScatterCount(assignment: seq<nat>, clusters: nat) returns (sizes: seq<nat>)
    requires forall i :: 0 <= i < |assignment| ==> assignment[i] < clusters
    ensures |sizes| == clusters
    ensures forall c :: 0 <= c < clusters ==> sizes[c] as real == SumIn(Ones(|assignment|), assignment, {c})
  {
    sizes := seq(clusters, c => 0);
    var i := 0;
    while i < |assignment|
      invariant 0 <= i <= |assignment| == |Ones(|assignment|)| && |sizes| == clusters
      invariant forall c :: 0 <= c < clusters ==> sizes[c] as real == SumIn(Ones(|assignment|)[..i], assignment[..i], {c})
    {
      var slot := assignment[i];
      forall c | 0 <= c < clusters
        ensures SumIn(Ones(|assignment|)[..i + 1], assignment[..i + 1], {c}) == sizes[c] as real + (if slot == c then 1.0 else 0.0)
      {
        SumInFirst(Ones(|assignment|), assignment, i, c);
      }
      sizes := sizes[slot := sizes[slot] + 1];
      i := i + 1;
    }
    assert assignment[..i] == assignment && Ones(i)[..i] == Ones(i);
  }

  // ---------- the builder ----------

  datatype BuildError = BadShape | EmptyInput | BadCounts | Indivisible | BadIterations

  function Mean(keys: seq<Vec>, d: nat): real
    requires keys != [] && forall i :: 0 <= i < |keys| ==> d < |keys[i]|
  {
    Sum(Column(keys, d)) / |keys| as real
  }

  function ArgMax(xs: seq<real>): (k: nat)
    requires xs != []
    ensures k < |xs| && forall i :: 0 <= i < |xs| ==> xs[i] <= xs[k]
  {
    if |xs| == 1 then 0
    else
      var best := ArgMax(xs[..|xs| - 1]);
      assert forall i :: 0 <= i < |xs| - 1 ==> xs[..|xs| - 1][i] == xs[i];
      if xs[|xs| - 1] > xs[best] then |xs| - 1 else best
  }

  lemma {:induction false} SumInMinus(xs: seq<real>, ys: seq<real>, zs: seq<real>, a: seq<nat>, c: nat)
    requires |xs| == |ys| == |zs| == |a| && forall i :: 0 <= i < |a| ==> zs[i] == xs[i] - ys[i]
    ensures SumIn(zs, a, {c}) == SumIn(xs, a, {c}) - SumIn(ys, a, {c})
  {
    if a != [] {
      var n := |a| - 1;
      SumInMinus(xs[..n], ys[..n], zs[..n], a[..n], c);
    }
  }

  /** Subtracting the mean from every key moves a cluster's sum by the mean once per member. */
  lemma CenteringCancels(column: seq<real>, a: seq<nat>, c: nat, mean: real, centered: seq<real>)
    requires |column| == |centered| == |a| && forall i :: 0 <= i < |a| ==> centered[i] == column[i] - mean
    ensures SumIn(centered, a, {c}) == SumIn(column, a, {c}) - mean * SumIn(Ones(|a|), a, {c})
  {
    hide SumIn;
    var means := seq(|a|, i => mean);
    SumInMinus(column, means, centered, a, c);
    UniformColumn(means, a, c, mean);
  }

  lemma MeanOfCluster(csum: real, size: nat, mean: real, total: real)
    requires size > 0 && csum == total - mean * size as real
    ensures (csum / size as real + mean) * size as real == total
  {
    var s := size as real;
    assert (csum / s) * s == csum;
    assert (csum / s + mean) * s == (csum / s) * s + mean * s;
  }

  /** The mean of the cluster's original keys, from the sums of centered keys. */
  function Centroid(sums: Vec, size: nat, mean: Vec): (r: Vec)
    requires |sums| == |mean|
    ensures |r| == |mean|
    ensures forall d :: 0 <= d < |r| ==> r[d] == sums[d] / (if size < 1 then 1 else size) as real + mean[d]
  {
    seq(|mean|, d requires 0 <= d < |mean| => sums[d] / (if size < 1 then 1 else size) as real + mean[d])
  }

  lemma CentroidIsMean(keys: seq<Vec>, centered: seq<Vec>, mean: Vec, a: seq<nat>, c: nat, size: nat, sums: Vec, d: nat)
    requires Shaped(keys, |a|, |mean|) && Shaped(centered, |a|, |mean|) && |sums| == |mean| && d < |mean| && size > 0
    requires forall i :: 0 <= i < |a| ==> centered[i][d] == keys[i][d] - mean[d]
    requires size as real == SumIn(Ones(|a|), a, {c}) && sums[d] == SumIn(Column(centered, d), a, {c})
    ensures Centroid(sums, size, mean)[d] * size as real == SumIn(Column(keys, d), a, {c})
  {
    hide SumIn;
    CenteringCancels(Column(keys, d), a, c, mean[d], Column(centered, d));
    MeanOfCluster(sums[d], size, mean[d], SumIn(Column(keys, d), a, {c}));
  }

  /** A cluster without tokens gets the mean of all keys. */
  lemma EmptyCentroid(centered: seq<Vec>, mean: Vec, a: seq<nat>, c: nat, sums: Vec)
    requires Shaped(centered, |a|, |mean|) && |sums| == |mean| && SumIn(Ones(|a|), a, {c}) == 0.0
    requires forall d :: 0 <= d < |mean| ==> sums[d] == SumIn(Column(centered, d), a, {c})
    ensures Centroid(sums, 0, mean) == mean
  {
    hide SumIn;
    OccupiedIsNonempty(a, c);
    forall d | 0 <= d < |mean| ensures sums[d] == 0.0 {
      var zeros := seq(|a|, i => 0.0);
      SumInCongruent(Column(centered, d), zeros, a, c);
      UniformColumn(zeros, a, c, 0.0);
    }
  }

  /** The index of an assignment, whatever assignment it is. */
  method Collect(keys: seq<Vec>, values: seq<Vec>, centered: seq<Vec>, mean: Vec, assignment: seq<nat>, clusters: nat)
    returns (ix: Index)
    requires Shaped(keys, |assignment|, |mean|) && Shaped(values, |assignment|, |mean|) && Shaped(centered, |assignment|, |mean|)
    requires forall i, d :: 0 <= i < |assignment| && 0 <= d < |mean| ==> centered[i][d] == keys[i][d] - mean[d]
    requires forall i :: 0 <= i < |assignment| ==> assignment[i] < clusters
    ensures |ix.sizes| == clusters && ix.assignment == assignment && Indexes(ix, keys, values, |mean|)
    ensures forall c :: 0 <= c < clusters && ix.sizes[c] == 0 ==> ix.centroids[c] == mean
  {
    hide SumIn, Centroid;
    var centroidSums := ScatterAdd(centered, assignment, clusters, |mean|);
    var valueSums := ScatterAdd(values, assignment, clusters, |mean|);
    var sizes := ScatterCount(assignment, clusters);
    var centroids := seq(clusters, c requires 0 <= c < clusters => Centroid(centroidSums[c], sizes[c], mean));
    forall c, d | 0 <= c < clusters && 0 <= d < |mean| && sizes[c] > 0
      ensures centroids[c][d] * sizes[c] as real == SumIn(Column(keys, d), assignment, {c})
    {
      CentroidIsMean(keys, centered, mean, assignment, c, sizes[c], centroidSums[c], d);
    }
    forall c | 0 <= c < clusters && sizes[c] == 0 ensures centroids[c] == mean {
      EmptyCentroid(centered, mean, assignment, c, centroidSums[c]);
    }
    ix := Index(centroids, valueSums, sizes, assignment);
  }

  // ---------- segmented training ----------

  /** The token whose key cluster c starts from: `(c + 0.5) * tokens / clusters`, truncated. */
  function Seed(c: nat, clusters: nat, tokens: nat): nat
    requires clusters > 0
  {
    Multiply(2 * c + 1, tokens) / (2 * clusters)
  }

  lemma SeedInRange(c: nat, clusters: nat, tokens: nat)
    requires c < clusters && tokens > 0
    ensures Seed(c, clusters, tokens) < tokens
  {
    var m, rest := 2 * clusters, 2 * clusters - (2 * c + 1);
    assert m * tokens == (2 * c + 1) * tokens + rest * tokens;
    assert rest * tokens > 0;
    hide Multiply;
    MultiplyIs(2 * c + 1, tokens);
    QuotientBelow(Multiply(2 * c + 1, tokens), m, tokens);
  }

  /** The seed of cluster c is where the middle of the c-th of `clusters` equal parts falls. */
  lemma SeedIsMiddle(c: nat, clusters: nat, tokens: nat)
    requires clusters > 0
    ensures var middle := (c as real + 0.5) * (tokens as real / clusters as real);
      Seed(c, clusters, tokens) as real <= middle < Seed(c, clusters, tokens) as real + 1.0
  {
    var s, m := Seed(c, clusters, tokens), 2 * clusters;
    var total := Multiply(2 * c + 1, tokens);
    assert m * s <= total < m * s + m;
    var middle := (c as real + 0.5) * (tokens as real / clusters as real);
    assert (tokens as real / clusters as real) * clusters as real == tokens as real by { QuotientTimes(tokens as real, clusters as real); }
    MiddleTimes(c, clusters, tokens, tokens as real / clusters as real);
    MultiplyIs(2 * c + 1, tokens);
    BetweenMultiples(middle, s, m, total);
  }

  lemma MiddleTimes(c: nat, clusters: nat, tokens: nat, part: real)
    requires part * clusters as real == tokens as real
    ensures ((c as real + 0.5) * part) * (2 * clusters) as real == ((2 * c + 1) * tokens) as real
  {
    var k := c as real + 0.5;
    assert (k * part) * (2 * clusters) as real == (2.0 * k) * (part * clusters as real);
    assert 2.0 * k == (2 * c + 1) as real;
    assert (2 * c + 1) as real * tokens as real == ((2 * c + 1) * tokens) as real;
  }

  lemma BetweenMultiples(x: real, s: nat, m: nat, total: nat)
    requires m > 0 && x * m as real == total as real && m * s <= total < m * s + m
    ensures s as real <= x < s as real + 1.0
  {
    assert (m * s) as real == s as real * m as real;
    Between(x, s as real, m as real, total as real);
  }

  lemma Between(x: real, s: real, m: real, total: real)
    requires m > 0.0 && x * m == total && s * m <= total < s * m + m
    ensures s <= x < s + 1.0
  {
    var d := x - s;
    assert d * m == total - s * m;
    assert (d < 0.0 ==> d * m < 0.0) && (d >= 1.0 ==> d * m >= m);
  }

  lemma MultiplyIs(a: nat, b: nat)
    ensures Multiply(a, b) == a * b
  {
  }

  lemma OddGap(c: nat, d: nat, t: nat)
    requires c < d
    ensures Multiply(2 * d + 1, t) >= Multiply(2 * c + 1, t) + 2 * t
  {
    var gap := 2 * (d - c);
    assert (2 * d + 1) * t == (2 * c + 1) * t + gap * t;
    assert gap >= 2 ==> gap * t >= 2 * t;
  }

  /** Seeds are tokens, all different. */
  lemma SeedsIncrease(c: nat, d: nat, clusters: nat, tokens: nat)
    requires c < d < clusters <= tokens
    ensures Seed(c, clusters, tokens) < Seed(d, clusters, tokens) < tokens
  {
    hide Multiply;
    SeedInRange(d, clusters, tokens);
    OddGap(c, d, tokens);
    QuotientRises(Multiply(2 * c + 1, tokens), Multiply(2 * d + 1, tokens), 2 * clusters);
  }

  /** Centroid a has the greatest inner product with the token. */
  ghost predicate BestMatch(token: Vec, trained: seq<Vec>, a: nat)
    requires forall c :: 0 <= c < |trained| ==> |trained[c]| == |token|
  {
    a < |trained| && forall c :: 0 <= c < |trained| ==> InnerProduct(trained[c], token) <= InnerProduct(trained[a], token)
  }

  /** Entry i of the assignment is the best-matching centroid of token i. */
  ghost predicate BestMatches(tokens: seq<Vec>, trained: seq<Vec>, dim: nat, assignment: seq<nat>) {
    && Shaped(tokens, |tokens|, dim) && Shaped(trained, |trained|, dim) && |assignment| == |tokens|
    && forall i :: 0 <= i < |tokens| ==> BestMatch(tokens[i], trained, assignment[i])
  }

  lemma ArgMaxMatches(token: Vec, trained: seq<Vec>)
    requires trained != [] && forall c :: 0 <= c < |trained| ==> |trained[c]| == |token|
    ensures BestMatch(token, trained, ArgMax(Logits(token, trained, 1.0)))
  {
    hide ArgMax, InnerProduct, Sum, Times;
    var logits := Logits(token, trained, 1.0);
    TimesProduct(trained[ArgMax(logits)], token);
    forall c | 0 <= c < |trained| ensures InnerProduct(trained[c], token) <= InnerProduct(trained[ArgMax(logits)], token) {
      TimesProduct(trained[c], token);
      assert logits[c] <= logits[ArgMax(logits)];
    }
  }

  /** The best-matching centroid of every token. */
  function Matches(tokens: seq<Vec>, trained: seq<Vec>, dim: nat): (assignment: seq<nat>)
    requires Shaped(tokens, |tokens|, dim) && Shaped(trained, |trained|, dim) && trained != []
    ensures BestMatches(tokens, trained, dim, assignment)
  {
    hide BestMatch, ArgMax;
    var assignment := seq(|tokens|, i requires 0 <= i < |tokens| => ArgMax(Logits(tokens[i], trained, 1.0)));
    assert BestMatches(tokens, trained, dim, assignment) by {
      forall i | 0 <= i < |tokens| ensures BestMatch(tokens[i], trained, assignment[i]) {
        ArgMaxMatches(tokens[i], trained);
      }
    }
    assignment
  }

  /** The mean of the tokens that an assignment gives to c. */
  ghost predicate IsMean(mean: Vec, tokens: seq<Vec>, assignment: seq<nat>, c: nat, dim: nat) {
    && Shaped(tokens, |assignment|, dim) && |mean| == dim
    && forall d :: 0 <= d < dim ==> mean[d] * SumIn(Ones(|assignment|), assignment, {c}) == SumIn(Column(tokens, d), assignment, {c})
  }

  /** The mean of the tokens in cluster c. */
  ghost function MeanOf(tokens: seq<Vec>, assignment: seq<nat>, c: nat, dim: nat): (mean: Vec)
    requires Shaped(tokens, |assignment|, dim) && c in assignment
    ensures |mean| == dim && IsMean(mean, tokens, assignment, c, dim)
  {
    hide SumIn;
    OccupiedIsNonempty(assignment, c);
    var size := SumIn(Ones(|assignment|), assignment, {c});
    var mean := seq(dim, d requires 0 <= d < dim => SumIn(Column(tokens, d), assignment, {c}) / size);
    assert forall d :: 0 <= d < dim ==> mean[d] * size == SumIn(Column(tokens, d), assignment, {c}) by {
      forall d | 0 <= d < dim ensures mean[d] * size == SumIn(Column(tokens, d), assignment, {c}) {
        QuotientTimes(SumIn(Column(tokens, d), assignment, {c}), size);
      }
    }
    mean
  }

  ghost predicate Trainable(tokens: seq<Vec>, trained: seq<Vec>, dim: nat, normalize: Vec -> Vec) {
    && Shaped(tokens, |tokens|, dim) && Shaped(trained, |trained|, dim) && trained != []
    && forall v :: |normalize(v)| == |v|
  }

  ghost function Learned(tokens: seq<Vec>, trained: seq<Vec>, dim: nat, normalize: Vec -> Vec, assignment: seq<nat>, c: nat): (v: Vec)
    requires Trainable(tokens, trained, dim, normalize) && |assignment| == |tokens| && c < |trained|
    ensures |v| == dim
  {
    if c in assignment then normalize(MeanOf(tokens, assignment, c, dim)) else trained[c]
  }

  /** One round: a cluster with tokens becomes their normalized mean, an empty one keeps its centroid. */
  ghost function Round(tokens: seq<Vec>, trained: seq<Vec>, dim: nat, normalize: Vec -> Vec): (next: seq<Vec>)
    requires Trainable(tokens, trained, dim, normalize)
    ensures Shaped(next, |trained|, dim)
  {
    hide IsMean, BestMatches;
    var assignment := Matches(tokens, trained, dim);
    MatchesInRange(tokens, trained, dim, assignment);
    seq(|trained|, c requires 0 <= c < |trained| => Learned(tokens, trained, dim, normalize, assignment, c))
  }

  ghost function Rounds(tokens: seq<Vec>, seeds: seq<Vec>, dim: nat, normalize: Vec -> Vec, n: nat): (trained: seq<Vec>)
    requires Trainable(tokens, seeds, dim, normalize)
    ensures Shaped(trained, |seeds|, dim)
  {
    if n == 0 then seeds else Round(tokens, Rounds(tokens, seeds, dim, normalize, n - 1), dim, normalize)
  }

  /** No token matches cluster c best in the rounds from `first` up to n. */
  ghost predicate Empty(tokens: seq<Vec>, seeds: seq<Vec>, dim: nat, normalize: Vec -> Vec, c: nat, first: nat, n: nat)
    requires Trainable(tokens, seeds, dim, normalize)
  {
    forall k: nat :: first <= k < n ==> c !in Matches(tokens, Rounds(tokens, seeds, dim, normalize, k), dim)
  }

  /** v is the normalized mean of the tokens that match centroid c best after k rounds. */
  ghost predicate LearnedAt(v: Vec, tokens: seq<Vec>, seeds: seq<Vec>, dim: nat, normalize: Vec -> Vec, c: nat, k: nat)
    requires Trainable(tokens, seeds, dim, normalize)
  {
    exists assignment, mean ::
      && BestMatches(tokens, Rounds(tokens, seeds, dim, normalize, k), dim, assignment)
      && c in assignment && IsMean(mean, tokens, assignment, c, dim) && v == normalize(mean)
  }

  lemma RoundAt(tokens: seq<Vec>, seeds: seq<Vec>, dim: nat, normalize: Vec -> Vec, n: nat, c: nat)
    requires Trainable(tokens, seeds, dim, normalize) && c < |seeds|
    ensures var before, after := Rounds(tokens, seeds, dim, normalize, n), Rounds(tokens, seeds, dim, normalize, n + 1);
      if c in Matches(tokens, before, dim) then LearnedAt(after[c], tokens, seeds, dim, normalize, c, n) else after[c] == before[c]
  {
    hide IsMean, BestMatches, Matches, MeanOf;
    var before := Rounds(tokens, seeds, dim, normalize, n);
    var assignment := Matches(tokens, before, dim);
    if c in assignment {
      MatchesInRange(tokens, before, dim, assignment);
      var mean := MeanOf(tokens, assignment, c, dim);
      assert Round(tokens, before, dim, normalize)[c] == normalize(mean);
    }
  }

  /** v is what cluster c learned in its last nonempty round of n, or its seed if it never had a token. */
  ghost predicate History(v: Vec, tokens: seq<Vec>, seeds: seq<Vec>, dim: nat, normalize: Vec -> Vec, c: nat, n: nat)
    requires Trainable(tokens, seeds, dim, normalize) && c < |seeds|
  {
    || (v == seeds[c] && Empty(tokens, seeds, dim, normalize, c, 0, n))
    || exists k: nat :: k < n && LearnedAt(v, tokens, seeds, dim, normalize, c, k) && Empty(tokens, seeds, dim, normalize, c, k + 1, n)
  }

  lemma HistoryKept(v: Vec, tokens: seq<Vec>, seeds: seq<Vec>, dim: nat, normalize: Vec -> Vec, c: nat, n: nat)
    requires Trainable(tokens, seeds, dim, normalize) && c < |seeds| && History(v, tokens, seeds, dim, normalize, c, n)
    requires c !in Matches(tokens, Rounds(tokens, seeds, dim, normalize, n), dim)
    ensures History(v, tokens, seeds, dim, normalize, c, n + 1)
  {
    hide Matches, LearnedAt, Rounds, Trainable;
    if v == seeds[c] && Empty(tokens, seeds, dim, normalize, c, 0, n) {
      assert Empty(tokens, seeds, dim, normalize, c, 0, n + 1);
    } else {
      var k: nat :| k < n && LearnedAt(v, tokens, seeds, dim, normalize, c, k) && Empty(tokens, seeds, dim, normalize, c, k + 1, n);
      assert Empty(tokens, seeds, dim, normalize, c, k + 1, n + 1);
    }
  }

  lemma HistoryLearned(v: Vec, tokens: seq<Vec>, seeds: seq<Vec>, dim: nat, normalize: Vec -> Vec, c: nat, n: nat)
    requires Trainable(tokens, seeds, dim, normalize) && c < |seeds| && LearnedAt(v, tokens, seeds, dim, normalize, c, n)
    ensures History(v, tokens, seeds, dim, normalize, c, n + 1)
  {
    hide Matches, LearnedAt, Rounds, Trainable;
    assert Empty(tokens, seeds, dim, normalize, c, n + 1, n + 1);
  }

  lemma HistoryStarts(tokens: seq<Vec>, seeds: seq<Vec>, dim: nat, normalize: Vec -> Vec, c: nat)
    requires Trainable(tokens, seeds, dim, normalize) && c < |seeds|
    ensures History(Rounds(tokens, seeds, dim, normalize, 0)[c], tokens, seeds, dim, normalize, c, 0)
  {
    hide Matches, LearnedAt;
    assert Empty(tokens, seeds, dim, normalize, c, 0, 0);
  }

  /** The history of every centroid, after any number of rounds. */
  lemma {:induction false} CentroidHistory(tokens: seq<Vec>, seeds: seq<Vec>, dim: nat, normalize: Vec -> Vec, n: nat, c: nat)
    requires Trainable(tokens, seeds, dim, normalize) && c < |seeds|
    ensures History(Rounds(tokens, seeds, dim, normalize, n)[c], tokens, seeds, dim, normalize, c, n)
  {
    hide Matches, LearnedAt, Round, History, Trainable, Rounds;
    if n == 0 {
      HistoryStarts(tokens, seeds, dim, normalize, c);
    } else {
      CentroidHistory(tokens, seeds, dim, normalize, n - 1, c);
      RoundAt(tokens, seeds, dim, normalize, n - 1, c);
      var v := Rounds(tokens, seeds, dim, normalize, n)[c];
      if c in Matches(tokens, Rounds(tokens, seeds, dim, normalize, n - 1), dim) {
        HistoryLearned(v, tokens, seeds, dim, normalize, c, n - 1);
      } else {
        HistoryKept(v, tokens, seeds, dim, normalize, c, n - 1);
      }
    }
  }

  function Divided(sums: Vec, size: nat): (r: Vec)
    ensures |r| == |sums| && forall d :: 0 <= d < |r| ==> r[d] == sums[d] / (if size < 1 then 1 else size) as real
  {
    seq(|sums|, d requires 0 <= d < |sums| => sums[d] / (if size < 1 then 1 else size) as real)
  }

  lemma DividedIsMean(sums: Vec, size: nat, tokens: seq<Vec>, assignment: seq<nat>, c: nat, dim: nat)
    requires Shaped(tokens, |assignment|, dim) && |sums| == dim && size > 0 && c in assignment
    requires size as real == SumIn(Ones(|assignment|), assignment, {c})
    requires forall d :: 0 <= d < dim ==> sums[d] == SumIn(Column(tokens, d), assignment, {c})
    ensures Divided(sums, size) == MeanOf(tokens, assignment, c, dim)
  {
    hide SumIn, IsMean;
  }

  /** One round on one segment, by scatter-adding the tokens into the slots of their clusters. */
  method TrainSegment(tokens: seq<Vec>, trained: seq<Vec>, dim: nat, normalize: Vec -> Vec) returns (next: seq<Vec>)
    requires Trainable(tokens, trained, dim, normalize)
    ensures next == Round(tokens, trained, dim, normalize)
  {
    hide SumIn, IsMean, BestMatches, Matches, MeanOf, Divided;
    var assignment := Matches(tokens, trained, dim);
    MatchesInRange(tokens, trained, dim, assignment);
    var sums := ScatterAdd(tokens, assignment, |trained|, dim);
    var counts := ScatterCount(assignment, |trained|);
    next := seq(|trained|, c requires 0 <= c < |trained| =>
      if counts[c] > 0 then normalize(Divided(sums[c], counts[c])) else trained[c]);
    forall c | 0 <= c < |trained| ensures next[c] == Round(tokens, trained, dim, normalize)[c] {
      CountedOccurs(assignment, c);
      OccupiedIsNonempty(assignment, c);
      if counts[c] > 0 {
        DividedIsMean(sums[c], counts[c], tokens, assignment, c, dim);
      }
    }
  }

  lemma MatchesInRange(tokens: seq<Vec>, trained: seq<Vec>, dim: nat, assignment: seq<nat>)
    requires BestMatches(tokens, trained, dim, assignment)
    ensures |assignment| == |tokens| && forall i :: 0 <= i < |assignment| ==> assignment[i] < |trained|
  {
  }

  lemma {:induction false} CountedOccurs(assignment: seq<nat>, c: nat)
    ensures SumIn(Ones(|assignment|), assignment, {c}) > 0.0 ==> c in assignment
  {
    if assignment != [] {
      var n := |assignment| - 1;
      CountedOccurs(assignment[..n], c);
      assert Ones(|assignment|)[..n] == Ones(n);
    }
  }

  /** The k-th of equal consecutive parts. */
  function Part<T>(xs: seq<T>, k: nat, size: nat): (r: seq<T>)
    requires Multiply(k, size) + size <= |xs|
    ensures |r| == size
  {
    xs[Multiply(k, size)..Multiply(k, size) + size]
  }

  lemma PartFits(k: nat, parts: nat, size: nat, total: nat)
    requires k < parts && Multiply(parts, size) <= total
    ensures Multiply(k, size) + size <= total
  {
    assert (k + 1) * size <= parts * size;
  }

  lemma Segments(clusters: nat, segments: nat, tokens: nat)
    requires 0 < segments <= tokens && 0 < clusters && clusters % segments == 0
    ensures Multiply(segments, clusters / segments) == clusters && clusters / segments > 0 && segments <= clusters
    ensures Multiply(segments, tokens / segments) <= tokens
  {
    var width := clusters / segments;
    assert clusters == segments * width + clusters % segments;
    assert width <= 0 ==> segments * width <= 0;
    assert width >= 1 ==> segments * width >= segments;
    assert tokens == segments * (tokens / segments) + tokens % segments;
  }

  lemma PartsGrow<T>(xs: seq<T>, part: seq<T>, s: nat, width: nat)
    requires |xs| == Multiply(s, width) && |part| == width
    ensures |xs + part| == Multiply(s + 1, width) && Part(xs + part, s, width) == part
    ensures forall k: nat :: k < s ==> Multiply(k, width) + width <= |xs| && Part(xs + part, k, width) == Part(xs, k, width)
  {
    assert Multiply(s + 1, width) == Multiply(s, width) + width;
    forall k: nat | k < s ensures Multiply(k, width) + width <= |xs| && Part(xs + part, k, width) == Part(xs, k, width) {
      PartFits(k, s, width, |xs|);
    }
  }

  /** The keys of the seed tokens. */
  function Seeds(centered: seq<Vec>, clusters: nat): (seeds: seq<Vec>)
    requires centered != [] && clusters > 0
    ensures |seeds| == clusters
    ensures forall c: nat :: c < clusters ==> Seed(c, clusters, |centered|) < |centered| && seeds[c] == centered[Seed(c, clusters, |centered|)]
  {
    hide Seed;
    assert forall c: nat :: c < clusters ==> Seed(c, clusters, |centered|) < |centered| by {
      forall c: nat | c < clusters ensures Seed(c, clusters, |centered|) < |centered| {
        SeedInRange(c, clusters, |centered|);
      }
    }
    seq(clusters, c requires 0 <= c < clusters => centered[Seed(c, clusters, |centered|)])
  }

  /** The sizes for which the keys and the clusters split into segments. */
  ghost predicate Splits(centered: seq<Vec>, dim: nat, clusters: nat, segments: nat, normalize: Vec -> Vec) {
    && Shaped(centered, |centered|, dim) && 0 < segments <= |centered| && 0 < clusters <= |centered| && clusters % segments == 0
    && forall v :: |normalize(v)| == |v|
  }

  lemma SegmentFits(centered: seq<Vec>, dim: nat, clusters: nat, segments: nat, normalize: Vec -> Vec, s: nat)
    requires Splits(centered, dim, clusters, segments, normalize) && s < segments
    ensures clusters / segments > 0 && Multiply(s, clusters / segments) + clusters / segments <= clusters
    ensures Multiply(s, |centered| / segments) + |centered| / segments <= |centered|
    ensures Trainable(Part(centered, s, |centered| / segments), Part(Seeds(centered, clusters), s, clusters / segments), dim, normalize)
  {
    hide Multiply, Seed;
    Segments(clusters, segments, |centered|);
    PartFits(s, segments, |centered| / segments, |centered|);
    PartFits(s, segments, clusters / segments, clusters);
  }

  /** Segment s after n rounds over its own tokens, from its own seeds: no other segment enters. */
  ghost function SegmentRounds(centered: seq<Vec>, dim: nat, clusters: nat, segments: nat, normalize: Vec -> Vec, s: nat, n: nat): (part: seq<Vec>)
    requires Splits(centered, dim, clusters, segments, normalize) && s < segments
    ensures Shaped(part, clusters / segments, dim)
  {
    hide Seeds, Part, Rounds;
    SegmentFits(centered, dim, clusters, segments, normalize, s);
    Rounds(Part(centered, s, |centered| / segments), Part(Seeds(centered, clusters), s, clusters / segments), dim, normalize, n)
  }

  /** Every segment of the centroids is what n rounds make of it. */
  ghost predicate TrainedFor(trained: seq<Vec>, centered: seq<Vec>, dim: nat, clusters: nat, segments: nat, normalize: Vec -> Vec, n: nat)
    requires Splits(centered, dim, clusters, segments, normalize)
  {
    && Shaped(trained, clusters, dim)
    && TrainedUpTo(trained, centered, dim, clusters, segments, normalize, segments, n)
  }

  ghost predicate TrainedUpTo(trained: seq<Vec>, centered: seq<Vec>, dim: nat, clusters: nat, segments: nat, normalize: Vec -> Vec, s: nat, n: nat)
    requires Splits(centered, dim, clusters, segments, normalize)
  {
    s <= segments && forall k: nat :: k < s ==> PartTrained(trained, centered, dim, clusters, segments, normalize, k, n)
  }

  ghost predicate PartTrained(trained: seq<Vec>, centered: seq<Vec>, dim: nat, clusters: nat, segments: nat, normalize: Vec -> Vec, s: nat, n: nat)
    requires Splits(centered, dim, clusters, segments, normalize) && s < segments
  {
    var width := clusters / segments;
    Multiply(s, width) + width <= |trained| && Part(trained, s, width) == SegmentRounds(centered, dim, clusters, segments, normalize, s, n)
  }

  lemma SeedsTrained(centered: seq<Vec>, dim: nat, clusters: nat, segments: nat, normalize: Vec -> Vec)
    requires Splits(centered, dim, clusters, segments, normalize)
    ensures TrainedFor(Seeds(centered, clusters), centered, dim, clusters, segments, normalize, 0)
  {
    hide Seed, Multiply, Part;
    forall k: nat | k < segments ensures PartTrained(Seeds(centered, clusters), centered, dim, clusters, segments, normalize, k, 0) {
      SegmentFits(centered, dim, clusters, segments, normalize, k);
    }
  }

  /** The seeds, then `iterations - 1` rounds over every segment. */
  method Train(centered: seq<Vec>, dim: nat, clusters: nat, segments: nat, iterations: nat, normalize: Vec -> Vec) returns (trained: seq<Vec>)
    requires Splits(centered, dim, clusters, segments, normalize) && iterations > 0
    ensures TrainedFor(trained, centered, dim, clusters, segments, normalize, iterations - 1)
  {
    hide Round, Multiply, Part, Seeds, SegmentRounds, TrainedFor;
    trained := Seeds(centered, clusters);
    SeedsTrained(centered, dim, clusters, segments, normalize);
    for round := 1 to iterations
      invariant TrainedFor(trained, centered, dim, clusters, segments, normalize, round - 1)
    {
      trained := TrainRound(centered, dim, clusters, segments, normalize, trained, round - 1);
    }
  }

  /** One round over every segment. */
  method TrainRound(centered: seq<Vec>, dim: nat, clusters: nat, segments: nat, normalize: Vec -> Vec, trained: seq<Vec>, ghost n: nat)
    returns (next: seq<Vec>)
    requires Splits(centered, dim, clusters, segments, normalize)
    requires TrainedFor(trained, centered, dim, clusters, segments, normalize, n)
    ensures TrainedFor(next, centered, dim, clusters, segments, normalize, n + 1)
  {
    hide Round, Multiply, Part, Seeds, SegmentRounds, PartTrained, Splits, TrainedUpTo;
    NoneTrained(centered, dim, clusters, segments, normalize, n + 1);
    Segmented(centered, dim, clusters, segments, normalize);
    var tokens, width := |centered| / segments, clusters / segments;
    next := [];
    for s := 0 to segments
      invariant Shaped(next, Multiply(s, width), dim)
      invariant TrainedUpTo(next, centered, dim, clusters, segments, normalize, s, n + 1)
    {
      SegmentFits(centered, dim, clusters, segments, normalize, s);
      SegmentTrained(trained, centered, dim, clusters, segments, normalize, s, n);
      var part := TrainSegment(Part(centered, s, tokens), Part(trained, s, width), dim, normalize);
      TrainedNext(next, part, centered, dim, clusters, segments, normalize, s, n + 1);
      next := next + part;
    }
  }

  lemma Segmented(centered: seq<Vec>, dim: nat, clusters: nat, segments: nat, normalize: Vec -> Vec)
    requires Splits(centered, dim, clusters, segments, normalize)
    ensures segments > 0 && Multiply(0, clusters / segments) == 0 && Multiply(segments, clusters / segments) == clusters
  {
    Segments(clusters, segments, |centered|);
  }

  lemma NoneTrained(centered: seq<Vec>, dim: nat, clusters: nat, segments: nat, normalize: Vec -> Vec, n: nat)
    requires Splits(centered, dim, clusters, segments, normalize)
    ensures TrainedUpTo([], centered, dim, clusters, segments, normalize, 0, n)
  {
  }

  /** The round of one segment is the next entry of that segment's own rounds. */
  lemma SegmentTrained(trained: seq<Vec>, centered: seq<Vec>, dim: nat, clusters: nat, segments: nat, normalize: Vec -> Vec, s: nat, n: nat)
    requires Splits(centered, dim, clusters, segments, normalize) && s < segments
    requires TrainedFor(trained, centered, dim, clusters, segments, normalize, n)
    ensures var tokens, width := |centered| / segments, clusters / segments;
      && Multiply(s, tokens) + tokens <= |centered| && Multiply(s, width) + width <= |trained|
      && Trainable(Part(centered, s, tokens), Part(trained, s, width), dim, normalize)
      && Round(Part(centered, s, tokens), Part(trained, s, width), dim, normalize)
         == SegmentRounds(centered, dim, clusters, segments, normalize, s, n + 1)
  {
    hide Round, Multiply, Part, Seeds;
    SegmentFits(centered, dim, clusters, segments, normalize, s);
    assert PartTrained(trained, centered, dim, clusters, segments, normalize, s, n);
  }

  lemma TrainedNext(xs: seq<Vec>, part: seq<Vec>, centered: seq<Vec>, dim: nat, clusters: nat, segments: nat, normalize: Vec -> Vec, s: nat, n: nat)
    requires Splits(centered, dim, clusters, segments, normalize) && s < segments
    requires Shaped(xs, Multiply(s, clusters / segments), dim) && part == SegmentRounds(centered, dim, clusters, segments, normalize, s, n)
    requires TrainedUpTo(xs, centered, dim, clusters, segments, normalize, s, n)
    ensures Shaped(xs + part, Multiply(s + 1, clusters / segments), dim)
    ensures TrainedUpTo(xs + part, centered, dim, clusters, segments, normalize, s + 1, n)
  {
    hide Multiply, Part, SegmentRounds;
    PartsGrow(xs, part, s, clusters / segments);
    forall k: nat | k < s + 1 ensures PartTrained(xs + part, centered, dim, clusters, segments, normalize, k, n) {
      assert k < s ==> PartTrained(xs, centered, dim, clusters, segments, normalize, k, n);
    }
  }

  lemma TrainedShape(trained: seq<Vec>, centered: seq<Vec>, dim: nat, clusters: nat, segments: nat, normalize: Vec -> Vec, n: nat)
    requires Splits(centered, dim, clusters, segments, normalize)
    requires TrainedFor(trained, centered, dim, clusters, segments, normalize, n)
    ensures Shaped(trained, clusters, dim)
  {
  }

  lemma PartEntry<T>(xs: seq<T>, c: nat, width: nat)
    requires width > 0 && Multiply(c / width, width) + width <= |xs|
    ensures c < |xs| && Part(xs, c / width, width)[c % width] == xs[c]
  {
    assert c == (c / width) * width + c % width;
  }

  /** Training is determined: cluster c is entry `c % width` of segment `c / width` after its own rounds. */
  lemma TrainedCentroid(trained: seq<Vec>, centered: seq<Vec>, dim: nat, clusters: nat, segments: nat, normalize: Vec -> Vec, n: nat, c: nat)
    requires Splits(centered, dim, clusters, segments, normalize) && c < clusters
    requires TrainedFor(trained, centered, dim, clusters, segments, normalize, n)
    ensures var width := clusters / segments;
      && width > 0 && c / width < segments && c % width < width
      && trained[c] == SegmentRounds(centered, dim, clusters, segments, normalize, c / width, n)[c % width]
  {
    hide SegmentRounds, Multiply, Part;
    Segments(clusters, segments, |centered|);
    var width := clusters / segments;
    SegmentOf(c, width, segments);
    assert PartTrained(trained, centered, dim, clusters, segments, normalize, c / width, n);
    PartEntry(trained, c, width);
  }

  lemma SegmentOf(c: nat, width: nat, segments: nat)
    requires width > 0 && c < Multiply(segments, width)
    ensures c / width < segments && c % width < width
  {
    QuotientBelow(c, width, segments);
  }

  /** The keys, all moved alike, so that they sum to zero. */
  ghost predicate Centers(centered: seq<Vec>, keys: seq<Vec>, dim: nat) {
    && keys != [] && Shaped(keys, |keys|, dim) && Shaped(centered, |keys|, dim)
    && (forall d :: 0 <= d < dim ==> Sum(Column(centered, d)) == 0.0)
    && forall i, j, d :: 0 <= i < |keys| && 0 <= j < |keys| && 0 <= d < dim ==>
         centered[i][d] - centered[j][d] == keys[i][d] - keys[j][d]
  }

  lemma CenteredSum(column: seq<real>, mean: real, centered: seq<real>)
    requires column != [] && mean * |column| as real == Sum(column)
    requires |centered| == |column| && forall i :: 0 <= i < |column| ==> centered[i] == column[i] - mean
    ensures Sum(centered) == 0.0
  {
    hide Sum, SumIn;
    var a: seq<nat> := seq(|column|, i => 0);
    CenteringCancels(column, a, 0, mean, centered);
    SumInAll(column, a, {0});
    SumInAll(centered, a, {0});
    SumInAll(Ones(|a|), a, {0});
    SumOnes(|a|);
  }

  method Center(keys: seq<Vec>, dim: nat) returns (centered: seq<Vec>, mean: Vec)
    requires keys != [] && Shaped(keys, |keys|, dim)
    ensures Centers(centered, keys, dim) && |mean| == dim
    ensures forall i, d :: 0 <= i < |keys| && 0 <= d < dim ==> centered[i][d] == keys[i][d] - mean[d]
    ensures forall d :: 0 <= d < dim ==> mean[d] * |keys| as real == Sum(Column(keys, d))
  {
    hide Mean, Sum;
    mean := seq(dim, d requires 0 <= d < dim => Mean(keys, d));
    centered := seq(|keys|, i requires 0 <= i < |keys| => seq(dim, d requires 0 <= d < dim => keys[i][d] - mean[d]));
    forall d | 0 <= d < dim ensures Sum(Column(centered, d)) == 0.0 && mean[d] * |keys| as real == Sum(Column(keys, d)) {
      MeanTimes(keys, d);
      CenteredSum(Column(keys, d), mean[d], Column(centered, d));
    }
  }

  lemma MeanTimes(keys: seq<Vec>, d: nat)
    requires keys != [] && forall i :: 0 <= i < |keys| ==> d < |keys[i]|
    ensures Mean(keys, d) * |keys| as real == Sum(Column(keys, d))
  {
    hide Sum;
    QuotientTimes(Sum(Column(keys, d)), |keys| as real);
  }

  /** An empty cluster's centroid is the mean of all keys. */
  ghost predicate EmptyAtMean(ix: Index, keys: seq<Vec>, dim: nat)
    requires Shaped(keys, |keys|, dim) && Shaped(ix.centroids, |ix.sizes|, dim)
  {
    forall c, d :: 0 <= c < |ix.sizes| && 0 <= d < dim && ix.sizes[c] == 0 ==> ix.centroids[c][d] * |keys| as real == Sum(Column(keys, d))
  }

  /** The index belongs to these keys: trained on the centered keys, every token in its best-matching cluster. */
  ghost predicate BuiltFrom(ix: Index, keys: seq<Vec>, values: seq<Vec>, dim: nat, clusters: nat, segments: nat, iterations: nat, normalize: Vec -> Vec)
    requires iterations > 0
  {
    && |ix.sizes| == clusters && Indexes(ix, keys, values, dim) && EmptyAtMean(ix, keys, dim)
    && exists centered, trained ::
         && Centers(centered, keys, dim) && Splits(centered, dim, clusters, segments, normalize)
         && TrainedFor(trained, centered, dim, clusters, segments, normalize, iterations - 1)
         && BestMatches(centered, trained, dim, ix.assignment)
  }

  /** The whole builder, for any normalization that keeps dimensions. */
  method Build(keys: seq<Vec>, values: seq<Vec>, dim: nat, clusters: int, segments: int, iterations: int, normalize: Vec -> Vec)
    returns (r: Result<Index, BuildError>)
    requires Shaped(keys, |keys|, dim) && forall v :: |normalize(v)| == |v|
    ensures r.Ok? <==>
      && Shaped(values, |keys|, dim) && keys != [] && dim > 0 && 0 < segments <= |keys| && 0 < clusters <= |keys|
      && clusters % segments == 0 && iterations > 0
    ensures r.Ok? ==> BuiltFrom(r.value, keys, values, dim, clusters, segments, iterations, normalize)
  {
    hide SumIn, Sum, Indexes, Dot, Mean, TrainedFor, BestMatches, Matches;
    if !Shaped(values, |keys|, dim) {
      return Err(BadShape);
    }
    if keys == [] || dim == 0 {
      return Err(EmptyInput);
    }
    if !(0 < segments <= |keys|) || !(0 < clusters <= |keys|) {
      return Err(BadCounts);
    }
    if clusters % segments != 0 {
      return Err(Indivisible);
    }
    if iterations <= 0 {
      return Err(BadIterations);
    }
    var centered, mean := Center(keys, dim);
    var trained := Train(centered, dim, clusters, segments, iterations, normalize);
    TrainedShape(trained, centered, dim, clusters, segments, normalize, iterations - 1);
    var assignment := Matches(centered, trained, dim);
    MatchesInRange(centered, trained, dim, assignment);
    var ix := Collect(keys, values, centered, mean, assignment, clusters);
    return Ok(ix);
  }

  // ---------- conservation ----------

  lemma SumNext(sums: seq<real>, n: nat)
    requires 0 < n <= |sums|
    ensures Sum(sums[..n]) == Sum(sums[..n - 1]) + sums[n - 1]
  {
    assert sums[..n][..n - 1] == sums[..n - 1];
  }

  lemma {:induction false} SlotsRegroup(sums: seq<real>, xs: seq<real>, a: seq<nat>, n: nat)
    requires |xs| == |a| && n <= |sums| && forall c :: 0 <= c < n ==> sums[c] == SumIn(xs, a, {c})
    ensures Sum(sums[..n]) == SumIn(xs, a, Below(n))
  {
    if n == 0 {
      SumInNone(xs, a);
    } else {
      hide Sum, SumIn;
      SlotsRegroup(sums, xs, a, n - 1);
      SumNext(sums, n);
      SumInDisjoint(xs, a, Below(n - 1), {n - 1});
    }
  }

  lemma {:induction false} SumOnes(n: nat)
    ensures Sum(Ones(n)) == n as real
  {
    if n > 0 {
      assert Ones(n)[..n - 1] == Ones(n - 1);
      SumOnes(n - 1);
    }
  }

  /** No token is lost or counted twice: sizes add up to the token count, value sums to the total value. */
  lemma IndexConserves(ix: Index, keys: seq<Vec>, values: seq<Vec>, dim: nat, d: nat)
    requires Indexes(ix, keys, values, dim) && d < dim
    ensures Sum(AsReals(ix.sizes)) == |keys| as real
    ensures Sum(Column(ix.valueSums, d)) == Sum(Column(values, d))
  {
    hide Sum, SumIn;
    var clusters := |ix.sizes|;
    SlotsRegroup(AsReals(ix.sizes), Ones(|keys|), ix.assignment, clusters);
    SumInAll(Ones(|keys|), ix.assignment, Below(clusters));
    SumOnes(|keys|);
    assert AsReals(ix.sizes)[..clusters] == AsReals(ix.sizes);
    SlotsRegroup(Column(ix.valueSums, d), Column(values, d), ix.assignment, clusters);
    SumInAll(Column(values, d), ix.assignment, Below(clusters));
    assert Column(ix.valueSums, d)[..clusters] == Column(ix.valueSums, d);
  }

  // ---------- ranking ----------

  /** Attention weights of the centroids, with empty clusters masked out. */
  function MaskedWeights(E: real -> real, q: Vec, scale: real, ix: Index): (r: seq<real>)
    requires Shaped(ix.centroids, |ix.sizes|, |q|)
    ensures |r| == |ix.sizes|
    ensures forall c :: 0 <= c < |r| ==> r[c] == if ix.sizes[c] == 0 then 0.0 else E(Logit(q, ix.centroids[c], scale))
  {
    seq(|ix.sizes|, c requires 0 <= c < |ix.sizes| =>
      if ix.sizes[c] == 0 then 0.0 else E(Logit(q, ix.centroids[c], scale)))
  }

  /** The probability of cluster c, summed over the query heads that share the KV head. */
  ghost function RankingScore(E: real -> real, queries: seq<Vec>, scale: real, ix: Index, dim: nat, c: nat): real
    requires Shaped(ix.centroids, |ix.sizes|, dim) && Shaped(queries, |queries|, dim) && c < |ix.sizes|
  {
    if queries == [] then 0.0
    else
      var w := MaskedWeights(E, queries[|queries| - 1], scale, ix);
      RankingScore(E, queries[..|queries| - 1], scale, ix, dim, c) + (if Sum(w) == 0.0 then 0.0 else w[c] / Sum(w))
  }

  lemma {:induction false} SumAtLeast(xs: seq<real>, k: nat)
    requires k < |xs| && forall i :: 0 <= i < |xs| ==> xs[i] >= 0.0
    ensures Sum(xs) >= xs[k]
  {
    var n := |xs| - 1;
    if k < n {
      SumAtLeast(xs[..n], k);
    } else if n > 0 {
      SumAtLeast(xs[..n], 0);
    }
  }

  lemma FractionSign(x: real, s: real)
    requires x >= 0.0 && s > 0.0
    ensures x / s >= 0.0 && (x > 0.0 ==> x / s > 0.0) && (x == 0.0 ==> x / s == 0.0)
  {
    var q := x / s;
    assert q * s == x;
  }

  /** Exactly the nonempty clusters have a positive score. */
  lemma {:induction false} PositiveScores(E: real -> real, queries: seq<Vec>, scale: real, ix: Index, dim: nat, c: nat)
    requires Exponential(E) && Shaped(ix.centroids, |ix.sizes|, dim) && Shaped(queries, |queries|, dim) && c < |ix.sizes|
    ensures RankingScore(E, queries, scale, ix, dim, c) >= 0.0
    ensures queries != [] && ix.sizes[c] > 0 ==> RankingScore(E, queries, scale, ix, dim, c) > 0.0
    ensures ix.sizes[c] == 0 ==> RankingScore(E, queries, scale, ix, dim, c) == 0.0
  {
    hide Sum, Logit;
    if queries != [] {
      PositiveScores(E, queries[..|queries| - 1], scale, ix, dim, c);
      var w := MaskedWeights(E, queries[|queries| - 1], scale, ix);
      assert forall i :: 0 <= i < |w| ==> w[i] >= 0.0;
      SumAtLeast(w, c);
      if Sum(w) != 0.0 {
        FractionSign(w[c], Sum(w));
      }
    }
  }

  /** Zero for empty clusters; for the others positive, summing to one, and in the ratio of their affinities. */
  ghost predicate IsMaskedSoftmax(E: real -> real, q: Vec, scale: real, ix: Index, w: seq<real>)
    requires Shaped(ix.centroids, |ix.sizes|, |q|)
  {
    && |w| == |ix.sizes| && (forall c :: 0 <= c < |w| ==> if ix.sizes[c] > 0 then w[c] > 0.0 else w[c] == 0.0)
    && (NonemptyClusters(ix.sizes) != {} ==> InnerProduct(w, Ones(|w|)) == 1.0)
    && forall c, d :: 0 <= c < |w| && 0 <= d < |w| && ix.sizes[c] > 0 && ix.sizes[d] > 0 ==>
         w[c] * Affinity(E, q, scale, ix.centroids[d]) == w[d] * Affinity(E, q, scale, ix.centroids[c])
  }

  /** A score is the sum, over the queries, of the cluster's softmax weights. */
  lemma ScoresAddUp(E: real -> real, queries: seq<Vec>, q: Vec, scale: real, ix: Index, dim: nat) returns (w: seq<real>)
    requires Exponential(E) && Shaped(ix.centroids, |ix.sizes|, dim) && Shaped(queries, |queries|, dim) && |q| == dim
    ensures IsMaskedSoftmax(E, q, scale, ix, w)
    ensures forall c :: 0 <= c < |ix.sizes| ==>
      && RankingScore(E, [], scale, ix, dim, c) == 0.0
      && RankingScore(E, queries + [q], scale, ix, dim, c) == RankingScore(E, queries, scale, ix, dim, c) + w[c]
  {
    hide Sum, Logit, IsMaskedSoftmax;
    var masked := MaskedWeights(E, q, scale, ix);
    assert (queries + [q])[..|queries|] == queries;
    w := seq(|masked|, c requires 0 <= c < |masked| => if Sum(masked) == 0.0 then 0.0 else masked[c] / Sum(masked));
    MaskedIsSoftmax(E, q, scale, ix, w);
  }

  lemma MaskedIsSoftmax(E: real -> real, q: Vec, scale: real, ix: Index, w: seq<real>)
    requires Exponential(E) && Shaped(ix.centroids, |ix.sizes|, |q|) && |w| == |ix.sizes|
    requires var masked := MaskedWeights(E, q, scale, ix);
      forall c :: 0 <= c < |w| ==> w[c] == if Sum(masked) == 0.0 then 0.0 else masked[c] / Sum(masked)
    ensures IsMaskedSoftmax(E, q, scale, ix, w)
  {
    hide Sum, InnerProduct, Affinity, Times, MaskedWeights;
    var masked := MaskedWeights(E, q, scale, ix);
    if NonemptyClusters(ix.sizes) == {} {
      AllMasked(E, q, scale, ix);
    } else {
      MaskedAffinities(E, q, scale, ix);
      NormalizedMask(masked, w);
      forall c, d | 0 <= c < |w| && 0 <= d < |w| && ix.sizes[c] > 0 && ix.sizes[d] > 0
        ensures w[c] * Affinity(E, q, scale, ix.centroids[d]) == w[d] * Affinity(E, q, scale, ix.centroids[c])
      {
        RatioKept(w[c], w[d], masked[c], masked[d], Sum(masked));
      }
    }
  }

  lemma MaskedAffinities(E: real -> real, q: Vec, scale: real, ix: Index)
    requires Exponential(E) && Shaped(ix.centroids, |ix.sizes|, |q|)
    ensures var masked := MaskedWeights(E, q, scale, ix);
      && (forall c :: 0 <= c < |masked| ==> masked[c] == if ix.sizes[c] == 0 then 0.0 else Affinity(E, q, scale, ix.centroids[c]))
      && (forall c :: 0 <= c < |masked| ==> if ix.sizes[c] > 0 then masked[c] > 0.0 else masked[c] == 0.0)
      && (NonemptyClusters(ix.sizes) != {} ==> Sum(masked) > 0.0)
  {
    hide Sum, Logit, Affinity;
    var masked := MaskedWeights(E, q, scale, ix);
    forall c | 0 <= c < |masked| && ix.sizes[c] > 0 ensures masked[c] == Affinity(E, q, scale, ix.centroids[c]) {
      AffinityIs(E, q, scale, ix.centroids[c]);
      assert Logit(q, ix.centroids[c], scale) - 0.0 == Logit(q, ix.centroids[c], scale);
    }
    if NonemptyClusters(ix.sizes) != {} {
      var some := SomeMember(NonemptyClusters(ix.sizes));
      SumAtLeast(masked, some);
    }
  }

  lemma NormalizedMask(masked: seq<real>, w: seq<real>)
    requires Sum(masked) > 0.0 && |w| == |masked| && forall c :: 0 <= c < |w| ==> masked[c] >= 0.0 && w[c] == masked[c] / Sum(masked)
    ensures forall c :: 0 <= c < |w| ==> w[c] * Sum(masked) == masked[c]
    ensures forall c :: 0 <= c < |w| ==> if masked[c] > 0.0 then w[c] > 0.0 else w[c] == 0.0
    ensures InnerProduct(w, Ones(|w|)) == 1.0
  {
    hide Sum, InnerProduct, Times;
    forall c | 0 <= c < |w| ensures w[c] * Sum(masked) == masked[c] && if masked[c] > 0.0 then w[c] > 0.0 else w[c] == 0.0 {
      QuotientTimes(masked[c], Sum(masked));
      FractionSign(masked[c], Sum(masked));
    }
    NormalizedTotal(masked, w, Ones(|w|), Sum(masked));
    TimesOnes(masked);
    QuotientOne(Sum(masked));
  }

  lemma AllMasked(E: real -> real, q: Vec, scale: real, ix: Index)
    requires Shaped(ix.centroids, |ix.sizes|, |q|) && NonemptyClusters(ix.sizes) == {}
    ensures Sum(MaskedWeights(E, q, scale, ix)) == 0.0
    ensures forall c :: 0 <= c < |ix.sizes| ==> ix.sizes[c] == 0
  {
    forall c | 0 <= c < |ix.sizes| ensures ix.sizes[c] == 0 {
      assert c in NonemptyClusters(ix.sizes) <==> ix.sizes[c] > 0;
    }
    SumZeros(MaskedWeights(E, q, scale, ix));
  }

  lemma {:induction false} SumZeros(xs: seq<real>)
    requires forall i :: 0 <= i < |xs| ==> xs[i] == 0.0
    ensures Sum(xs) == 0.0
  {
    if xs != [] {
      SumZeros(xs[..|xs| - 1]);
    }
  }

  /** With one query, nonempty clusters rank by affinity: the closest centroid first. */
  lemma RanksClosestFirst(E: real -> real, q: Vec, scale: real, ix: Index, c: nat, d: nat)
    requires Exponential(E) && Shaped(ix.centroids, |ix.sizes|, |q|)
    requires c < |ix.sizes| && d < |ix.sizes| && ix.sizes[c] > 0 && ix.sizes[d] > 0
    ensures RankingScore(E, [q], scale, ix, |q|, c) >= RankingScore(E, [q], scale, ix, |q|, d)
      <==> Affinity(E, q, scale, ix.centroids[c]) >= Affinity(E, q, scale, ix.centroids[d])
  {
    hide RankingScore, Affinity, InnerProduct;
    var w := ScoresAddUp(E, [], q, scale, ix, |q|);
    assert [] + [q] == [q];
    PositiveAffinity(E, q, scale, ix.centroids[c]);
    PositiveAffinity(E, q, scale, ix.centroids[d]);
    SameOrder(w[c], w[d], Affinity(E, q, scale, ix.centroids[c]), Affinity(E, q, scale, ix.centroids[d]));
  }

  lemma PositiveAffinity(E: real -> real, q: Vec, scale: real, key: Vec)
    requires Exponential(E) && |key| == |q|
    ensures Affinity(E, q, scale, key) > 0.0
  {
  }

  lemma SameOrder(x: real, y: real, a: real, b: real)
    requires x > 0.0 && y > 0.0 && a > 0.0 && b > 0.0 && x * b == y * a
    ensures x >= y <==> a >= b
  {
    assert x >= y ==> y * a >= y * b by { assert x >= y ==> (x - y) * b >= 0.0; }
    assert y * a >= y * b ==> a >= b by { assert a < b ==> y * (b - a) > 0.0; }
    assert a >= b ==> y * (a - b) >= 0.0;
    assert x < y ==> (y - x) * b > 0.0;
  }

  /** A ranking: every cluster once, scores never increasing (ties in any order). */
  ghost predicate Ranking(ranked: seq<nat>, scores: seq<real>) {
    && |ranked| == |scores|
    && (forall i :: 0 <= i < |ranked| ==> ranked[i] < |scores|)
    && Distinct(ranked)
    && (forall i, j :: 0 <= i < j < |ranked| ==> scores[ranked[i]] >= scores[ranked[j]])
  }

  ghost function NonemptyClusters(sizes: seq<nat>): set<nat> {
    set c | 0 <= c < |sizes| && sizes[c] > 0
  }

  lemma {:induction false} DistinctCount(s: seq<nat>)
    requires Distinct(s)
    ensures |Elements(s)| == |s|
  {
    if s != [] {
      var front := s[..|s| - 1];
      DistinctCount(front);
      assert s[|s| - 1] !in Elements(front);
      assert Elements(s) == Elements(front) + {s[|s| - 1]};
    } else {
      assert Elements(s) == {};
    }
  }

  ghost function Below(n: nat): (r: set<nat>)
    ensures |r| == n && forall c: nat :: c in r <==> c < n
  {
    if n == 0 then {} else Below(n - 1) + {n - 1}
  }

  lemma RankingIsComplete(ranked: seq<nat>, scores: seq<real>, c: nat)
    requires Ranking(ranked, scores) && c < |scores|
    ensures c in ranked
  {
    DistinctCount(ranked);
    var all := Below(|scores|);
    assert Elements(ranked) <= all;
    SubsetSize(Elements(ranked), all);
    assert c in all;
  }

  /** The first k ranked clusters contain every nonempty cluster exactly when there are at most k of them. */
  lemma BudgetCovers(ranked: seq<nat>, scores: seq<real>, sizes: seq<nat>, k: nat)
    requires Ranking(ranked, scores) && |sizes| == |scores| && k <= |ranked|
    requires forall c :: 0 <= c < |sizes| ==> (scores[c] > 0.0 <==> sizes[c] > 0)
    ensures NonemptyClusters(sizes) <= Elements(ranked[..k]) <==> |NonemptyClusters(sizes)| <= k
  {
    var top, full := Elements(ranked[..k]), NonemptyClusters(sizes);
    DistinctCount(ranked[..k]);
    if full <= top {
      SubsetSize(full, top);
    }
    if |full| <= k && !(full <= top) {
      var c :| c in full && c !in top;
      RankingIsComplete(ranked, scores, c);
      var p :| 0 <= p < |ranked| && ranked[p] == c;
      assert forall i :: 0 <= i < k ==> ranked[..k][i] in top;
      assert p >= k;
      forall x | x in top ensures x in full {
        var i :| 0 <= i < k && ranked[i] == x;
        assert scores[ranked[i]] >= scores[ranked[p]];
      }
      SubsetSize(top + {c}, full);
      assert false;
    }
  }

  // ---------- the reference, end to end ----------

  lemma RankedZonesWellFormed(z: Zones, ranked: seq<nat>, retrieval: nat, estimation: nat)
    requires retrieval + estimation <= |ranked| == |z.ix.sizes|
    requires z.retrieved == ranked[..retrieval] && z.estimated == ranked[retrieval..retrieval + estimation]
    requires forall i :: 0 <= i < |ranked| ==> ranked[i] < |ranked|
    requires Distinct(ranked)
    requires Shaped(z.steadyKeys, |z.steadyKeys|, |z.q|) && Shaped(z.steadyValues, |z.steadyKeys|, |z.q|)
    requires Indexes(z.ix, z.keys, z.values, |z.q|)
    ensures WellFormed(z)
  {
    hide Indexes;
  }

  lemma RankedZonesCover(z: Zones, ranked: seq<nat>, retrieval: nat, estimation: nat)
    requires WellFormed(z) && retrieval + estimation <= |ranked|
    requires z.retrieved == ranked[..retrieval] && z.estimated == ranked[retrieval..retrieval + estimation]
    requires forall i :: 0 <= i < |z.keys| ==> z.ix.assignment[i] in ranked[..retrieval + estimation]
    ensures forall i :: 0 <= i < |z.keys| ==> z.ix.assignment[i] in z.retrieved || z.ix.assignment[i] in z.estimated
  {
    hide Indexes;
    assert ranked[..retrieval + estimation] == z.retrieved + z.estimated;
  }

  /** A ranking by these scores that reaches every nonempty cluster, split into the two zones. */
  ghost predicate Budgeted(E: real -> real, queries: seq<Vec>, z: Zones, ranked: seq<nat>, scores: seq<real>, retrieval: nat, estimation: nat) {
    && Shaped(queries, |queries|, |z.q|) && z.q in queries && z.keys != []
    && Shaped(z.steadyKeys, |z.steadyKeys|, |z.q|) && Shaped(z.steadyValues, |z.steadyKeys|, |z.q|)
    && Indexes(z.ix, z.keys, z.values, |z.q|) && |scores| == |z.ix.sizes|
    && (forall c :: 0 <= c < |scores| ==> scores[c] == RankingScore(E, queries, z.scale, z.ix, |z.q|, c))
    && Ranking(ranked, scores) && |NonemptyClusters(z.ix.sizes)| <= retrieval + estimation <= |ranked|
    && z.retrieved == ranked[..retrieval] && z.estimated == ranked[retrieval..retrieval + estimation]
  }

  lemma BudgetCoversTokens(E: real -> real, queries: seq<Vec>, z: Zones, ranked: seq<nat>, scores: seq<real>, retrieval: nat, estimation: nat)
    requires Exponential(E) && Budgeted(E, queries, z, ranked, scores, retrieval, estimation)
    ensures WellFormed(z)
    ensures forall i :: 0 <= i < |z.keys| ==> z.ix.assignment[i] in z.retrieved || z.ix.assignment[i] in z.estimated
  {
    hide Exponential, RankingScore, NonemptyClusters;
    RankedZonesWellFormed(z, ranked, retrieval, estimation);
    BudgetReadsAll(E, queries, z.scale, |z.q|, z.keys, z.values, z.ix, ranked, scores, retrieval + estimation);
    RankedZonesCover(z, ranked, retrieval, estimation);
  }

  /**
   With a budget of at least the number of nonempty clusters, one decode step of the reference is
   softmax attention over every steady and indexed token, with each key of an estimated cluster
   replaced by the mean of that cluster's keys.
   */
  lemma SufficientBudgetAttendsAll(E: real -> real, queries: seq<Vec>, z: Zones, ranked: seq<nat>, scores: seq<real>,
                                   retrieval: nat, estimation: nat, keys: seq<Vec>)
    requires Exponential(E) && Budgeted(E, queries, z, ranked, scores, retrieval, estimation)
    requires WellFormed(z) && Averaged(z, keys)
    ensures Shaped(z.steadyKeys + keys, |z.steadyKeys + keys|, |z.q|)
    ensures Shaped(z.steadyValues + z.values, |z.steadyKeys + keys|, |z.q|)
    ensures Attend(E, z).Ok?
    ensures IsAttention(E, z.q, z.scale, z.steadyKeys + keys, z.steadyValues + z.values, Attend(E, z).value)
  {
    hide Exponential, Budgeted, IsAttention, Attend, Averaged, KeysIn, ValuesIn, ReadClusters;
    BudgetCoversTokens(E, queries, z, ranked, scores, retrieval, estimation);
    WaveAttendsMeans(E, z, keys);
    AveragedEverywhere(z, keys);
    SomeKeys(E, queries, z, ranked, scores, retrieval, estimation);
  }

  lemma SomeKeys(E: real -> real, queries: seq<Vec>, z: Zones, ranked: seq<nat>, scores: seq<real>, retrieval: nat, estimation: nat)
    requires Budgeted(E, queries, z, ranked, scores, retrieval, estimation)
    ensures z.keys != []
  {
    hide Indexes, RankingScore;
  }

  lemma AveragedEverywhere(z: Zones, keys: seq<Vec>)
    requires WellFormed(z) && Averaged(z, keys) && WellFormed(z.(keys := keys))
    requires forall i :: 0 <= i < |z.keys| ==> z.ix.assignment[i] in z.retrieved || z.ix.assignment[i] in z.estimated
    ensures |keys| == |z.keys|
    ensures KeysIn(z.(keys := keys), ReadClusters(z)) == z.steadyKeys + keys
    ensures ValuesIn(z.(keys := keys), ReadClusters(z)) == z.steadyValues + z.values
  {
    hide SumIn;
    AveragedShape(z, keys);
    SelectAll(keys, z.ix.assignment, ReadClusters(z));
    SelectAll(z.values, z.ix.assignment, ReadClusters(z));
  }

  /**
   With a budget of at least the number of nonempty clusters, one decode step of the reference is
   softmax attention over every steady and indexed token, provided each estimated cluster holds
   copies of one key; with no estimated clusters nothing is asked of the keys.
   */
  lemma SufficientBudgetIsDense(E: real -> real, queries: seq<Vec>, z: Zones, ranked: seq<nat>, scores: seq<real>,
                                retrieval: nat, estimation: nat)
    requires Exponential(E) && Budgeted(E, queries, z, ranked, scores, retrieval, estimation)
    requires forall c :: c in z.estimated ==> |z.keys| == |z.ix.assignment| && Uniform(z.keys, z.ix.assignment, c)
    ensures z.steadyKeys + z.keys != [] && WellFormed(z) && AttendsDensely(E, z)
  {
    hide AttendsDensely, Exponential, Uniform, Budgeted, Indexes;
    BudgetCoversTokens(E, queries, z, ranked, scores, retrieval, estimation);
    SomeKeys(E, queries, z, ranked, scores, retrieval, estimation);
    WaveIsDense(E, z);
  }

  lemma BudgetReadsAll(E: real -> real, queries: seq<Vec>, scale: real, dim: nat, keys: seq<Vec>, values: seq<Vec>,
                       ix: Index, ranked: seq<nat>, scores: seq<real>, budget: nat)
    requires Exponential(E) && Shaped(queries, |queries|, dim) && queries != []
    requires Indexes(ix, keys, values, dim) && |scores| == |ix.sizes|
    requires forall c :: 0 <= c < |scores| ==> scores[c] == RankingScore(E, queries, scale, ix, dim, c)
    requires Ranking(ranked, scores) && |NonemptyClusters(ix.sizes)| <= budget <= |ranked|
    ensures forall i :: 0 <= i < |keys| ==> ix.assignment[i] in ranked[..budget]
  {
    hide RankingScore, Exponential, SumIn;
    forall c | 0 <= c < |scores| ensures scores[c] > 0.0 <==> ix.sizes[c] > 0 {
      PositiveScores(E, queries, scale, ix, dim, c);
    }
    BudgetCovers(ranked, scores, ix.sizes, budget);
    forall i | 0 <= i < |keys| ensures ix.assignment[i] in ranked[..budget] {
      OccupiedIsNonempty(ix.assignment, ix.assignment[i]);
      assert ix.assignment[i] in NonemptyClusters(ix.sizes);
    }
  }
}
