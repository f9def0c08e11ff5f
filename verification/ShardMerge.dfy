/** Strided sharding over workers and the merge of their outputs. */
module ShardMerge {
  import opened Arithmetic
  import opened Outcomes
  import opened Sorting

  datatype Row = Row(dataset: string, sourceIdx: int, sampleIdx: int, payload: string)

  datatype MergeError = DuplicateIdentity(id: (string, int))

  /** A sample is known by its data set and its position there. */
  function IdOf(row: Row): (string, int) { (row.dataset, row.sourceIdx) }

  predicate RowLe(x: Row, y: Row) {
    if x.dataset != y.dataset then StringLe(x.dataset, y.dataset)
    else x.sourceIdx < y.sourceIdx || (x.sourceIdx == y.sourceIdx && x.sampleIdx <= y.sampleIdx)
  }

  /** The slice `data[start::stride]`. */
  function Stride<T>(data: seq<T>, start: nat, stride: nat): seq<T>
    requires stride > 0
    decreases |data| - start
  {
    if start >= |data| then [] else [data[start]] + Stride(data, start + stride, stride)
  }

  /** The shard holds every stride-th element, from `start` on to the end of the data. */
  lemma {:induction false} StrideAt<T>(data: seq<T>, start: nat, stride: nat, i: nat)
    requires stride > 0
    ensures i < |Stride(data, start, stride)| <==> start + i * stride < |data|
    ensures start + i * stride < |data| ==> Stride(data, start, stride)[i] == data[start + i * stride]
    decreases i
  {
    if i == 0 {
    } else if start < |data| {
      StrideAt(data, start + stride, stride, i - 1);
      assert start + stride + (i - 1) * stride == start + i * stride by { assert (i - 1) * stride == i * stride - stride; }
    } else {
      assert i * stride >= 0;
    }
  }

  function Shards<T>(data: seq<T>, workers: nat): (r: seq<seq<T>>)
    requires workers > 0
    ensures |r| == workers && forall k :: 0 <= k < workers ==> r[k] == Stride(data, k, workers)
  {
    seq(workers, k requires 0 <= k < workers => Stride(data, k, workers))
  }

  // ---------- sharding loses and repeats nothing ----------

  lemma ModShift(a: int, m: int)
    requires m > 0
    ensures (a + m) % m == a % m
  {
    var q := a / m;
    assert a + m == m * (q + 1) + a % m by { assert m * (q + 1) == m * q + m; }
    DivModUnique(a + m, m, q + 1, a % m);
  }

  lemma NextHit(n: nat, start: nat, stride: nat)
    requires stride > 0 && start < n
    ensures (n - start) % stride == 0 <==> start + stride <= n && (n - (start + stride)) % stride == 0
  {
    if start + stride <= n {
      ModShift(n - (start + stride), stride);
    } else {
      DivModUnique(n - start, stride, 0, n - start);
    }
  }

  lemma {:induction false} StrideSnoc<T>(data: seq<T>, x: T, start: nat, stride: nat)
    requires stride > 0
    ensures Stride(data + [x], start, stride)
         == Stride(data, start, stride) + (if start <= |data| && (|data| - start) % stride == 0 then [x] else [])
    decreases |data| - start
  {
    var n := |data|;
    if start < n {
      StrideSnoc(data, x, start + stride, stride);
      NextHit(n, start, stride);
      assert (data + [x])[start] == data[start];
    } else if start == n {
      assert Stride(data + [x], start + stride, stride) == [];
    }
  }

  /** Element n of the data goes to exactly one worker, number n modulo the worker count. */
  lemma Destination(n: nat, k: nat, workers: nat)
    requires k < workers
    ensures (k <= n && (n - k) % workers == 0) <==> n % workers == k
  {
    if k <= n {
      var q := (n - k) / workers;
      if (n - k) % workers == 0 {
        assert n == workers * q + k;
        DivModUnique(n, workers, q, k);
      } else if n % workers == k {
        DivModUnique(n - k, workers, n / workers, 0);
      }
    } else {
      DivModUnique(n, workers, 0, n);
    }
  }

  lemma ConcatLast<T>(parts: seq<seq<T>>)
    requires parts != []
    ensures multiset(Concat(parts)) == multiset(Concat(parts[..|parts| - 1])) + multiset(parts[|parts| - 1])
  {
  }

  lemma {:induction false} ConcatGrows<T>(parts: seq<seq<T>>, k: nat, x: T)
    requires k < |parts|
    ensures multiset(Concat(parts[k := parts[k] + [x]])) == multiset(Concat(parts)) + multiset{x}
  {
    hide Concat;
    var n := |parts| - 1;
    var grown := parts[k := parts[k] + [x]];
    ConcatLast(parts);
    ConcatLast(grown);
    if k < n {
      ConcatGrows(parts[..n], k, x);
      assert grown[..n] == parts[..n][k := parts[k] + [x]];
    } else {
      assert grown[..n] == parts[..n];
    }
  }

  lemma {:induction false} ConcatEmpty<T>(parts: seq<seq<T>>)
    requires forall k :: 0 <= k < |parts| ==> parts[k] == []
    ensures Concat(parts) == []
  {
    if parts != [] {
      ConcatEmpty(parts[..|parts| - 1]);
    }
  }

  /** For any worker count the shards together are the data. */
  lemma {:induction false} ShardsPartition<T>(data: seq<T>, workers: nat)
    requires workers > 0
    ensures multiset(Concat(Shards(data, workers))) == multiset(data)
  {
    hide Shards, Concat;
    if data == [] {
      ShardsOfNothing<T>(workers);
    } else {
      var n := |data| - 1;
      ShardsPartition(data[..n], workers);
      ShardsPartitionStep(data[..n], data[n], workers);
      assert data == data[..n] + [data[n]];
    }
  }

  lemma ShardsOfNothing<T>(workers: nat)
    requires workers > 0
    ensures Concat(Shards<T>([], workers)) == []
  {
    ConcatEmpty(Shards<T>([], workers));
  }

  lemma ShardsPartitionStep<T>(data: seq<T>, x: T, workers: nat)
    requires workers > 0 && multiset(Concat(Shards(data, workers))) == multiset(data)
    ensures multiset(Concat(Shards(data + [x], workers))) == multiset(data + [x])
  {
    hide Concat;
    ShardsSnoc(data, x, workers);
    var before, k := Shards(data, workers), |data| % workers;
    ConcatGrows(before, k, x);
  }

  lemma ShardsSnoc<T>(data: seq<T>, x: T, workers: nat)
    requires workers > 0
    ensures var before, k := Shards(data, workers), |data| % workers;
            Shards(data + [x], workers) == before[k := before[k] + [x]]
  {
    hide Stride;
    var before, k := Shards(data, workers), |data| % workers;
    var after := Shards(data + [x], workers);
    forall j | 0 <= j < workers ensures after[j] == before[k := before[k] + [x]][j] {
      StrideSnoc(data, x, j, workers);
      Destination(|data|, j, workers);
      assert before[j] + [] == before[j];
    }
  }

  /** What worker k writes to an artifact: its shard of every data set, one data set after the other. */
  function WorkerRows<T>(datasets: seq<seq<T>>, k: nat, workers: nat): seq<T>
    requires workers > 0
  {
    if datasets == [] then []
    else WorkerRows(datasets[..|datasets| - 1], k, workers) + Stride(datasets[|datasets| - 1], k, workers)
  }

  function Outputs<T>(datasets: seq<seq<T>>, workers: nat): (r: seq<seq<T>>)
    requires workers > 0
    ensures |r| == workers && forall k :: 0 <= k < workers ==> r[k] == WorkerRows(datasets, k, workers)
  {
    seq(workers, k requires 0 <= k < workers => WorkerRows(datasets, k, workers))
  }

  lemma {:induction false} ConcatZip<T>(a: seq<seq<T>>, b: seq<seq<T>>, both: seq<seq<T>>)
    requires |a| == |b| == |both| && forall k :: 0 <= k < |a| ==> both[k] == a[k] + b[k]
    ensures multiset(Concat(both)) == multiset(Concat(a)) + multiset(Concat(b))
  {
    if a != [] {
      var n := |a| - 1;
      ConcatZip(a[..n], b[..n], both[..n]);
      ConcatLast(a);
      ConcatLast(b);
      ConcatLast(both);
    }
  }

  /** For any worker count and any data sets the workers' outputs together are the data. */
  lemma {:induction false} OutputsPartition<T>(datasets: seq<seq<T>>, workers: nat)
    requires workers > 0
    ensures multiset(Concat(Outputs(datasets, workers))) == multiset(Concat(datasets))
  {
    hide Concat, Stride;
    if datasets == [] {
      NoOutputs<T>(workers);
    } else {
      var front, last := datasets[..|datasets| - 1], datasets[|datasets| - 1];
      OutputsPartition(front, workers);
      ShardsPartition(last, workers);
      ConcatZip(Outputs(front, workers), Shards(last, workers), Outputs(datasets, workers));
      ConcatLast(datasets);
    }
  }

  lemma NoOutputs<T>(workers: nat)
    requires workers > 0
    ensures Concat(Outputs<T>([], workers)) == [] == Concat<T>([])
  {
    ConcatEmpty(Outputs<T>([], workers));
  }

  // ---------- the merge ----------

  /** No two rows share both data set and source index. */
  ghost predicate UniqueIds(rows: seq<Row>) {
    forall i, j :: 0 <= i < j < |rows| ==> rows[i].dataset != rows[j].dataset || rows[i].sourceIdx != rows[j].sourceIdx
  }

  lemma UniqueByIds(rows: seq<Row>)
    ensures UniqueIds(rows) <==> forall i, j :: 0 <= i < j < |rows| ==> IdOf(rows[i]) != IdOf(rows[j])
  {
  }

  ghost predicate Seen(rows: seq<Row>, observed: set<(string, int)>) {
    (forall i :: 0 <= i < |rows| ==> IdOf(rows[i]) in observed)
    && forall id :: id in observed ==> exists i :: 0 <= i < |rows| && IdOf(rows[i]) == id
  }

  lemma SeenSnoc(rows: seq<Row>, observed: set<(string, int)>, row: Row)
    requires Seen(rows, observed)
    ensures Seen(rows + [row], observed + {IdOf(row)})
  {
    hide IdOf;
    var all := rows + [row];
    forall id | id in observed + {IdOf(row)} ensures exists i :: 0 <= i < |all| && IdOf(all[i]) == id {
      if id in observed {
        var i :| 0 <= i < |rows| && IdOf(rows[i]) == id;
        assert IdOf(all[i]) == id;
      } else {
        assert IdOf(all[|rows|]) == id;
      }
    }
  }

  lemma UniqueSnoc(rows: seq<Row>, observed: set<(string, int)>, row: Row)
    requires Seen(rows, observed) && UniqueIds(rows) && IdOf(row) !in observed
    ensures UniqueIds(rows + [row])
  {
    hide IdOf, UniqueIds;
    UniqueByIds(rows);
    UniqueByIds(rows + [row]);
    var all := rows + [row];
    forall i, j | 0 <= i < j < |all| ensures IdOf(all[i]) != IdOf(all[j]) {
      assert all[i] == rows[i];
    }
  }

  /** Reads the workers' rows in rank order, rejects a repeated identity, and sorts by name and source index. */
  method Merge(parts: seq<seq<Row>>) returns (r: Result<seq<Row>, MergeError>)
    ensures r.Ok? <==> UniqueIds(Concat(parts))
    ensures r.Ok? ==> r.value == Sort(RowLe, Concat(parts))
    ensures r.Ok? ==> InSourceOrder(r.value) && multiset(r.value) == multiset(Concat(parts))
    ensures r.Err? ==> FirstRepeated(Concat(parts), r.error.id)
  {
    hide UniqueIds, Seen, IdOf, Sort, FirstRepeated, InSourceOrder;
    var merged: seq<Row>, observed: set<(string, int)> := [], {};
    NothingSeen();
    for rank := 0 to |parts|
      invariant merged == Concat(parts[..rank]) && UniqueIds(merged) && Seen(merged, observed)
    {
      assert parts[..rank + 1][..rank] == parts[..rank];
      var rows := parts[rank];
      for i := 0 to |rows|
        invariant merged == Concat(parts[..rank]) + rows[..i] && UniqueIds(merged) && Seen(merged, observed)
      {
        var row := rows[i];
        if IdOf(row) in observed {
          ConcatPrefix(parts, rank, i);
          RepeatedIdentity(merged, observed, row, Concat(parts));
          return Err(DuplicateIdentity(IdOf(row)));
        }
        UniqueSnoc(merged, observed, row);
        SeenSnoc(merged, observed, row);
        observed := observed + {IdOf(row)};
        assert rows[..i + 1] == rows[..i] + [row];
        merged := merged + [row];
      }
      assert rows[..|rows|] == rows;
    }
    assert parts[..|parts|] == parts;
    SortInOrder(merged);
    return Ok(Sort(RowLe, merged));
  }

  ghost predicate Bears(row: Row, id: (string, int)) { row.dataset == id.0 && row.sourceIdx == id.1 }

  /** The identity is that of the first row, in reading order, whose identity was read before. */
  ghost predicate FirstRepeated(rows: seq<Row>, id: (string, int)) {
    exists n :: 0 <= n < |rows| && UniqueIds(rows[..n]) && Bears(rows[n], id) && exists k :: 0 <= k < n && Bears(rows[k], id)
  }

  lemma NothingSeen()
    ensures UniqueIds([]) && Seen([], {})
  {
  }

  lemma {:induction false} ConcatPrefix<T>(parts: seq<seq<T>>, rank: nat, i: nat)
    requires rank < |parts| && i < |parts[rank]|
    ensures Concat(parts[..rank]) + parts[rank][..i] + [parts[rank][i]] <= Concat(parts)
  {
    var n := |parts| - 1;
    if rank < n {
      ConcatPrefix(parts[..n], rank, i);
      assert parts[..n][..rank] == parts[..rank];
    } else {
      assert parts[rank] == parts[rank][..i] + [parts[rank][i]] + parts[rank][i + 1..];
    }
  }

  lemma RepeatedIdentity(merged: seq<Row>, observed: set<(string, int)>, row: Row, all: seq<Row>)
    requires UniqueIds(merged) && Seen(merged, observed) && IdOf(row) in observed && merged + [row] <= all
    ensures !UniqueIds(all) && FirstRepeated(all, IdOf(row))
  {
    var k :| 0 <= k < |merged| && IdOf(merged[k]) == IdOf(row);
    assert (merged + [row])[k] == all[k] && (merged + [row])[|merged|] == all[|merged|];
    assert all[..|merged|] == merged;
  }

  // ---------- round trip ----------

  lemma IdsCounted(rows: seq<Row>)
    ensures UniqueIds(rows) <==> Distinct(Map(IdOf, rows))
  {
    hide IdOf, UniqueIds;
    UniqueByIds(rows);
    var ids := Map(IdOf, rows);
    if UniqueIds(rows) {
      forall i, j | 0 <= i < j < |ids| ensures ids[i] != ids[j] {
        assert ids[i] == IdOf(rows[i]) && ids[j] == IdOf(rows[j]);
      }
    }
    if Distinct(ids) {
      forall i, j | 0 <= i < j < |rows| ensures IdOf(rows[i]) != IdOf(rows[j]) {
        assert ids[i] == IdOf(rows[i]) && ids[j] == IdOf(rows[j]);
      }
    }
  }

  /** Uniqueness of identities does not depend on the order of the rows. */
  lemma UniqueIdsPermute(a: seq<Row>, b: seq<Row>)
    requires multiset(a) == multiset(b) && UniqueIds(a)
    ensures UniqueIds(b)
  {
    hide UniqueIds, IdOf;
    var single := (row: Row) => [IdOf(row)];
    FlatPermute(single, a, b);
    FlatIsMap(a, single);
    FlatIsMap(b, single);
    IdsCounted(a);
    IdsCounted(b);
    DistinctPermute(Map(IdOf, a), Map(IdOf, b));
  }

  lemma DistinctPermute<T>(a: seq<T>, b: seq<T>)
    requires multiset(a) == multiset(b) && Distinct(a)
    ensures Distinct(b)
  {
    forall i, j | 0 <= i < j < |b| ensures b[i] != b[j] {
      OnceEach(a, b[i]);
      CountedOnce(b, i, j);
    }
  }

  lemma {:induction false} FlatIsMap(rows: seq<Row>, single: Row -> seq<(string, int)>)
    requires forall row {:trigger single(row)} :: single(row) == [IdOf(row)]
    ensures Flat(single, rows) == Map(IdOf, rows)
  {
    hide IdOf;
    if rows != [] {
      FlatIsMap(rows[..|rows| - 1], single);
      assert single(rows[|rows| - 1]) == [IdOf(rows[|rows| - 1])];
      MapSnoc(IdOf, rows[..|rows| - 1], rows[|rows| - 1]);
      assert rows == rows[..|rows| - 1] + [rows[|rows| - 1]];
    }
  }

  /** An earlier data set in name order, or the same one and an earlier source index. */
  ghost predicate Precedes(x: Row, y: Row) {
    StringBefore(x.dataset, y.dataset) || (x.dataset == y.dataset && x.sourceIdx < y.sourceIdx)
  }

  /** The rows come data set by data set in name order, and in source order within each. */
  ghost predicate InSourceOrder(rows: seq<Row>) {
    forall i, j :: 0 <= i < j < |rows| ==> Precedes(rows[i], rows[j])
  }

  lemma RowLeExactly(x: Row, y: Row)
    ensures IdOf(x) != IdOf(y) ==> (RowLe(x, y) <==> Precedes(x, y))
    ensures IdOf(x) == IdOf(y) ==> !Precedes(x, y)
  {
    hide StringLe, StringBefore;
    StringLeExactly(x.dataset, y.dataset);
    NeverBeforeItself(x.dataset);
  }

  /** Rows with different identities are sorted exactly if they are in source order. */
  lemma OrderedBySource(rows: seq<Row>)
    requires UniqueIds(rows)
    ensures Sorted(RowLe, rows) <==> InSourceOrder(rows)
  {
    hide RowLe, IdOf, Precedes, UniqueIds;
    UniqueByIds(rows);
    forall i, j | 0 <= i < j < |rows| ensures RowLe(rows[i], rows[j]) <==> Precedes(rows[i], rows[j]) {
      RowLeExactly(rows[i], rows[j]);
    }
  }

  lemma SortInOrder(rows: seq<Row>)
    requires UniqueIds(rows)
    ensures InSourceOrder(Sort(RowLe, rows))
  {
    hide Sort, UniqueIds, InSourceOrder, RowLe;
    RowLeIsTotal();
    SortSorted(RowLe, rows);
    UniqueIdsPermute(rows, Sort(RowLe, rows));
    OrderedBySource(Sort(RowLe, rows));
  }

  lemma RowLeOrder(x: Row, y: Row, z: Row)
    ensures RowLe(x, y) || RowLe(y, x)
    ensures RowLe(x, y) && RowLe(y, z) ==> RowLe(x, z)
    ensures RowLe(x, y) && RowLe(y, x) ==> IdOf(x) == IdOf(y)
  {
    StringLeTotal(x.dataset, y.dataset);
    StringLeTotal(y.dataset, z.dataset);
    if StringLe(x.dataset, y.dataset) && StringLe(y.dataset, z.dataset) {
      StringLeTransitive(x.dataset, y.dataset, z.dataset);
    }
  }

  lemma RowLeIsTotal()
    ensures TotalPreorder(RowLe)
  {
    forall x, y, z ensures (RowLe(x, y) || RowLe(y, x)) && (RowLe(x, y) && RowLe(y, z) ==> RowLe(x, z)) {
      RowLeOrder(x, y, z);
    }
  }

  /** Merging the workers' outputs sorts the data, whatever the number of workers and data sets. */
  lemma MergeSorts(datasets: seq<seq<Row>>, workers: nat)
    requires workers > 0 && UniqueIds(Concat(datasets))
    ensures UniqueIds(Concat(Outputs(datasets, workers)))
    ensures Sort(RowLe, Concat(Outputs(datasets, workers))) == Sort(RowLe, Concat(datasets))
    ensures InSourceOrder(Sort(RowLe, Concat(datasets)))
  {
    hide Sort, RowLe, UniqueIds, Concat, InSourceOrder;
    SortInOrder(Concat(datasets));
    var data, all := Concat(datasets), Concat(Outputs(datasets, workers));
    OutputsPartition(datasets, workers);
    UniqueIdsPermute(data, all);
    RowLeIsTotal();
    SortSorted(RowLe, all);
    SortSorted(RowLe, data);
    UniqueIdsPermute(all, Sort(RowLe, all));
    TiesAreOne(Sort(RowLe, all));
    SortedUnique(RowLe, Sort(RowLe, all), Sort(RowLe, data));
  }

  lemma TiesAreOne(rows: seq<Row>)
    requires UniqueIds(rows)
    ensures TiesAreIdentities(RowLe, rows)
  {
    hide RowLe, IdOf, UniqueIds;
    UniqueByIds(rows);
    forall i, j | 0 <= i < |rows| && 0 <= j < |rows| && RowLe(rows[i], rows[j]) && RowLe(rows[j], rows[i])
      ensures rows[i] == rows[j]
    {
      RowLeOrder(rows[i], rows[j], rows[i]);
      assert i == j;
    }
  }

  /**
   The round trip.  The merge accepts exactly unique identities, keeps every row once, and returns
   the data sets one after the other exactly when they are in name order and each in source order;
   what it returns is always in that order.
   */
  method ShardAndMerge(datasets: seq<seq<Row>>, workers: nat) returns (r: Result<seq<Row>, MergeError>)
    requires workers > 0
    ensures r.Ok? <==> UniqueIds(Concat(datasets))
    ensures r.Ok? ==> (r.value == Concat(datasets) <==> InSourceOrder(Concat(datasets)))
    ensures r.Ok? ==> InSourceOrder(r.value) && multiset(r.value) == multiset(Concat(datasets))
  {
    hide Sort, Concat, UniqueIds, InSourceOrder;
    r := Merge(Outputs(datasets, workers));
    OutputsPartition(datasets, workers);
    if UniqueIds(Concat(Outputs(datasets, workers))) {
      UniqueIdsPermute(Concat(Outputs(datasets, workers)), Concat(datasets));
    }
    if UniqueIds(Concat(datasets)) {
      MergeSorts(datasets, workers);
      SourceOrder(Concat(datasets));
    }
  }

  lemma SourceOrder(data: seq<Row>)
    requires UniqueIds(data)
    ensures Sort(RowLe, data) == data <==> InSourceOrder(data)
  {
    hide RowLe, UniqueIds, InSourceOrder;
    RowLeIsTotal();
    SortSorted(RowLe, data);
    OrderedBySource(data);
    if InSourceOrder(data) {
      SortFixed(RowLe, data);
    }
  }
}
