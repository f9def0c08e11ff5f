/** Token-length buckets: what the parser accepts. */
module TokenBuckets {
  import opened Outcomes

  datatype TokenBucket = TokenBucket(name: string, minTokens: int, maxTokens: int, samples: int) {
    predicate Contains(tokens: int) { minTokens <= tokens <= maxTokens }
  }

  /** A JSON list item; a field that is absent or of the wrong type is None. */
  datatype Item = NotAnObject | Object(name: Option<string>, minTokens: Option<int>, maxTokens: Option<int>, samples: Option<int>)

  datatype BucketError = EmptyList | ItemNotAnObject | BadName | DuplicateName | NotPositive | Inverted | Overlap

  predicate PositiveNumber(n: Option<int>) { n.Some? && n.value > 0 }

  predicate Sound(item: Item) {
    && item.Object? && item.name.Some? && item.name.value != ""
    && PositiveNumber(item.minTokens) && PositiveNumber(item.maxTokens) && PositiveNumber(item.samples)
    && item.minTokens.value <= item.maxTokens.value
  }

  function BucketOf(item: Item): TokenBucket
    requires Sound(item)
  {
    TokenBucket(item.name.value, item.minTokens.value, item.maxTokens.value, item.samples.value)
  }

  predicate Apart(a: TokenBucket, b: TokenBucket) {
    a.maxTokens < b.minTokens || a.minTokens > b.maxTokens
  }

  /** Nothing is wrong with these items. */
  ghost predicate Accepted(raw: seq<Item>) {
    && (forall i :: 0 <= i < |raw| ==> Readable(raw[i]))
    && (forall i, j :: 0 <= i < j < |raw| ==> raw[i].Object? && raw[j].Object? && raw[i].name != raw[j].name && NoOverlap(raw[j], raw[i]))
  }

  lemma AcceptedNext(raw: seq<Item>, i: nat)
    requires i < |raw| && Accepted(raw[..i]) && Readable(raw[i]) && raw[i].Object?
    requires forall k :: 0 <= k < i ==> raw[k].Object? && raw[k].name != raw[i].name && NoOverlap(raw[i], raw[k])
    ensures Accepted(raw[..i + 1])
  {
    hide Readable, NoOverlap;
    var all, front := raw[..i + 1], raw[..i];
    assert forall k :: 0 <= k < i ==> front[k] == all[k] == raw[k];
  }

  lemma FaultyRefuses(raw: seq<Item>, i: nat, e: BucketError)
    requires i < |raw| && Faulty(raw[..i], raw[i], e)
    ensures !Accepted(raw) && e != EmptyList
  {
    hide NoOverlap;
    if e == DuplicateName {
      var k :| 0 <= k < i && raw[..i][k].Object? && raw[..i][k].name == raw[i].name;
      assert raw[..i][k] == raw[k];
    } else if e == Overlap {
      var k :| 0 <= k < i && !NoOverlap(raw[i], raw[..i][k]);
      assert raw[..i][k] == raw[k];
    } else {
      assert !Readable(raw[i]);
    }
  }

  /** Positive, pairwise differently named and pairwise disjoint. */
  ghost predicate Stratified(buckets: seq<TokenBucket>) {
    && (forall i :: 0 <= i < |buckets| ==> 0 < buckets[i].minTokens <= buckets[i].maxTokens && buckets[i].samples > 0)
    && (forall i, j :: 0 <= i < j < |buckets| ==> buckets[i].name != buckets[j].name && Apart(buckets[j], buckets[i]))
  }

  method OverlapsAny(buckets: seq<TokenBucket>, b: TokenBucket) returns (found: bool)
    ensures found <==> exists i :: 0 <= i < |buckets| && !Apart(b, buckets[i])
  {
    var i := 0;
    while i < |buckets|
      invariant 0 <= i <= |buckets| && forall k :: 0 <= k < i ==> Apart(b, buckets[k])
    {
      if !Apart(b, buckets[i]) {
        return true;
      }
      i := i + 1;
    }
    return false;
  }

  /** The bucket has the fields of the item: a nonempty name and positive numbers, in order. */
  ghost predicate Reads(item: Item, b: TokenBucket) {
    && item == Object(Some(b.name), Some(b.minTokens), Some(b.maxTokens), Some(b.samples))
    && b.name != "" && 0 < b.minTokens <= b.maxTokens && b.samples > 0
  }

  ghost predicate Readable(item: Item) {
    exists b :: Reads(item, b)
  }

  /** The length lies in the item's range. */
  ghost predicate Spans(item: Item, n: int) {
    item.Object? && item.minTokens.Some? && item.maxTokens.Some? && item.minTokens.value <= n <= item.maxTokens.value
  }

  /** No length lies in both items' ranges. */
  ghost predicate NoOverlap(x: Item, y: Item) {
    forall n :: Spans(x, n) ==> !Spans(y, n)
  }

  /** What the parser looks for in an item, in this order, given the items before it. */
  ghost predicate Faulty(before: seq<Item>, item: Item, e: BucketError) {
    match e
    case EmptyList => false
    case ItemNotAnObject => item.NotAnObject?
    case BadName => item.Object? && (item.name.None? || item.name.value == "")
    case DuplicateName => Named(item) && !Fresh(before, item)
    case NotPositive => Named(item) && Fresh(before, item) && !Positive(item)
    case Inverted => Named(item) && Fresh(before, item) && Positive(item) && item.minTokens.value > item.maxTokens.value
    case Overlap => Readable(item) && Fresh(before, item) && exists i :: 0 <= i < |before| && !NoOverlap(item, before[i])
  }

  ghost predicate Named(item: Item) { item.Object? && item.name.Some? && item.name.value != "" }

  ghost predicate Fresh(before: seq<Item>, item: Item)
    requires item.Object?
  {
    forall i :: 0 <= i < |before| && before[i].Object? ==> before[i].name != item.name
  }

  ghost predicate Positive(item: Item) {
    && item.Object? && item.minTokens.Some? && item.maxTokens.Some? && item.samples.Some?
    && item.minTokens.value > 0 && item.maxTokens.value > 0 && item.samples.value > 0
  }

  lemma SoundReads(item: Item)
    ensures Sound(item) <==> Readable(item)
    ensures Sound(item) ==> Reads(item, BucketOf(item))
  {
    if Sound(item) {
      assert Reads(item, BucketOf(item));
    }
  }

  lemma ApartMeans(x: Item, y: Item)
    requires Sound(x) && Sound(y)
    ensures Apart(BucketOf(x), BucketOf(y)) <==> NoOverlap(x, y)
  {
    if !Apart(BucketOf(x), BucketOf(y)) {
      var n := if x.minTokens.value < y.minTokens.value then y.minTokens.value else x.minTokens.value;
      assert Spans(x, n) && Spans(y, n);
    }
  }

  /** Accepts exactly the nonempty lists of readable items that stratify the token axis; else blames the first faulty one. */
  method Parse(raw: seq<Item>) returns (r: Result<seq<TokenBucket>, BucketError>)
    ensures r.Ok? <==> raw != [] && Accepted(raw)
    ensures r.Ok? ==>
      && Stratified(r.value) && |r.value| == |raw|
      && forall i :: 0 <= i < |raw| ==> Reads(raw[i], r.value[i])
    ensures r == Err(EmptyList) <==> raw == []
    ensures r.Err? && raw != [] ==> exists i :: 0 <= i < |raw| && Accepted(raw[..i]) && Faulty(raw[..i], raw[i], r.error)
  {
    hide Accepted, Faulty, NoOverlap, Readable;
    if raw == [] {
      return Err(EmptyList);
    }
    var buckets: seq<TokenBucket> := [];
    var names: set<string> := {};
    NothingAccepted();
    var i := 0;
    while i < |raw|
      invariant 0 <= i <= |raw| && |buckets| == i && Accepted(raw[..i])
      invariant forall k :: 0 <= k < i ==> Sound(raw[k]) && buckets[k] == BucketOf(raw[k])
      invariant forall n :: n in names <==> exists k :: 0 <= k < i && buckets[k].name == n
      invariant Stratified(buckets)
    {
      var item := raw[i];
      var fault := Check(raw[..i], item, buckets, names);
      if fault.Some? {
        FaultyRefuses(raw, i, fault.value);
        return Err(fault.value);
      }
      AcceptedNext(raw, i);
      SoundReads(item);
      buckets := buckets + [BucketOf(item)];
      names := names + {item.name.value};
      i := i + 1;
    }
    assert raw[..i] == raw;
    forall k | 0 <= k < |raw| ensures Reads(raw[k], buckets[k]) {
      SoundReads(raw[k]);
    }
    return Ok(buckets);
  }

  /** The checks on one item, in order. */
  method Check(ghost before: seq<Item>, item: Item, buckets: seq<TokenBucket>, names: set<string>) returns (fault: Option<BucketError>)
    requires |buckets| == |before| && forall k :: 0 <= k < |before| ==> Sound(before[k]) && buckets[k] == BucketOf(before[k])
    requires forall n :: n in names <==> exists k :: 0 <= k < |before| && buckets[k].name == n
    ensures fault.Some? ==> Faulty(before, item, fault.value)
    ensures fault.None? ==>
      && Sound(item) && Readable(item) && item.name.value !in names
      && forall k :: 0 <= k < |before| ==>
           && before[k].Object? && before[k].name != item.name && NoOverlap(item, before[k]) && Apart(BucketOf(item), buckets[k])
           && buckets[k].name != item.name.value
  {
    hide NoOverlap, Readable;
    if item.NotAnObject? {
      return Some(ItemNotAnObject);
    }
    if item.name.None? || item.name.value == "" {
      return Some(BadName);
    }
    if item.name.value in names {
      ghost var k :| 0 <= k < |before| && buckets[k].name == item.name.value;
      return Some(DuplicateName);
    }
    if !PositiveNumber(item.minTokens) || !PositiveNumber(item.maxTokens) || !PositiveNumber(item.samples) {
      return Some(NotPositive);
    }
    if item.minTokens.value > item.maxTokens.value {
      return Some(Inverted);
    }
    SoundReads(item);
    forall k | 0 <= k < |before| ensures Readable(before[k]) && (NoOverlap(item, before[k]) <==> Apart(BucketOf(item), buckets[k])) {
      SoundReads(before[k]);
      ApartMeans(item, before[k]);
    }
    var overlaps := OverlapsAny(buckets, BucketOf(item));
    return if overlaps then Some(Overlap) else None;
  }

  lemma NothingAccepted()
    ensures Accepted([])
  {
  }

  /** A prompt length falls into at most one accepted bucket. */
  lemma OneBucket(buckets: seq<TokenBucket>, tokens: int, i: nat, j: nat)
    requires Stratified(buckets) && i < |buckets| && j < |buckets| && i != j && buckets[i].Contains(tokens)
    ensures !buckets[j].Contains(tokens)
  {
    assert if i < j then Apart(buckets[j], buckets[i]) else Apart(buckets[i], buckets[j]);
  }
}
