/** Hiding variable-tracking chains in a haystack: ordered insertion at drawn positions. */
module ChainInsertion {
  import opened Outcomes

  // ---------- subsequences ----------

  /** `at` lists, in increasing order, where the elements of `a` sit in `b`. */
  ghost predicate Embeds<T(!new)>(a: seq<T>, b: seq<T>, at: seq<nat>) {
    && |at| == |a|
    && (forall k :: 0 <= k < |at| ==> at[k] < |b| && b[at[k]] == a[k])
    && (forall j, k :: 0 <= j < k < |at| ==> at[j] < at[k])
  }

  ghost predicate IsSubsequence<T(!new)>(a: seq<T>, b: seq<T>) {
    exists at :: Embeds(a, b, at)
  }

  lemma SubsequenceTransitive<T(!new)>(a: seq<T>, b: seq<T>, c: seq<T>)
    requires IsSubsequence(a, b) && IsSubsequence(b, c)
    ensures IsSubsequence(a, c)
  {
    var ab :| Embeds(a, b, ab);
    var bc :| Embeds(b, c, bc);
    assert Embeds(a, c, seq(|ab|, k requires 0 <= k < |ab| => bc[ab[k]]));
  }

  lemma SubsequenceReflexive<T(!new)>(a: seq<T>)
    ensures IsSubsequence(a, a)
  {
    assert Embeds(a, a, seq(|a|, k => k));
  }

  // ---------- deleting what was inserted ----------

  /** The list without the elements at the given indices. */
  ghost function Delete<T>(list: seq<T>, at: set<nat>): seq<T> {
    if list == [] then []
    else Delete(list[..|list| - 1], at) + (if |list| - 1 in at then [] else [list[|list| - 1]])
  }

  lemma {:induction false} DeleteBeyond<T>(list: seq<T>, at: set<nat>, q: nat)
    requires q >= |list|
    ensures Delete(list, at + {q}) == Delete(list, at)
  {
    if list != [] {
      DeleteBeyond(list[..|list| - 1], at, q);
    }
  }

  lemma {:induction false} DeleteNothing<T>(list: seq<T>)
    ensures Delete(list, {}) == list
  {
    if list != [] {
      DeleteNothing(list[..|list| - 1]);
    }
  }

  function InsertAt<T>(list: seq<T>, q: nat, x: T): (r: seq<T>)
    requires q <= |list|
    ensures |r| == |list| + 1 && r[q] == x && multiset(r) == multiset(list) + multiset{x}
    ensures forall i :: 0 <= i < q ==> r[i] == list[i]
  {
    assert list == list[..q] + list[q..];
    list[..q] + [x] + list[q..]
  }

  /** Inserting behind all marked indices and marking the new one leaves the unmarked list alone. */
  lemma {:induction false} DeleteInserted<T>(list: seq<T>, at: set<nat>, q: nat, x: T)
    requires q <= |list| && forall i :: i in at ==> i < q
    ensures Delete(InsertAt(list, q, x), at + {q}) == Delete(list, at)
  {
    var r := InsertAt(list, q, x);
    if q == |list| {
      assert r[..|list|] == list;
      DeleteBeyond(list, at, q);
    } else {
      var front, last := list[..|list| - 1], list[|list| - 1];
      DeleteInserted(front, at, q, x);
      assert r[..|r| - 1] == InsertAt(front, q, x) && r[|r| - 1] == last;
      assert |r| - 1 !in at + {q} && |list| - 1 !in at;
    }
  }

  lemma {:induction false} DeleteEmbeds<T(!new)>(list: seq<T>, at: set<nat>) returns (where: seq<nat>)
    ensures Embeds(Delete(list, at), list, where) && forall i :: 0 <= i < |where| ==> where[i] !in at
  {
    if list == [] {
      where := [];
    } else {
      var front, n := list[..|list| - 1], |list| - 1;
      where := DeleteEmbeds(front, at);
      where := if n in at then where else where + [n];
    }
  }

  // ---------- one chain ----------

  predicate SortedSample(positions: seq<nat>, n: nat) {
    && (forall k :: 0 <= k < |positions| ==> positions[k] < n)
    && (forall j, k :: 0 <= j < k < |positions| ==> positions[j] < positions[k])
  }

  /** Where the first h hops end up: hop k at its drawn position plus k. */
  ghost function Landings(positions: seq<nat>, h: nat): set<nat>
    requires h <= |positions|
  {
    if h == 0 then {} else Landings(positions, h - 1) + {positions[h - 1] + h - 1}
  }

  lemma {:induction false} LandingsHold(positions: seq<nat>, h: nat)
    requires h <= |positions|
    ensures forall k :: 0 <= k < h ==> positions[k] + k in Landings(positions, h)
  {
    if h > 0 {
      LandingsHold(positions, h - 1);
    }
  }

  lemma {:induction false} LandingsBelow(positions: seq<nat>, h: nat, bound: nat)
    requires h <= |positions| && forall k :: 0 <= k < h ==> positions[k] + k < bound
    ensures forall i :: i in Landings(positions, h) ==> i < bound
  {
    if h > 0 {
      LandingsBelow(positions, h - 1, bound);
    }
  }

  /** After h insertions: hops 0..h-1 at their landings, everything else as before. */
  ghost predicate Placed<T(!new)>(sentences: seq<T>, chain: seq<T>, positions: seq<nat>, h: nat, list: seq<T>)
    requires |positions| == |chain| && h <= |chain| && SortedSample(positions, |sentences|)
  {
    && |list| == |sentences| + h && multiset(list) == multiset(sentences) + multiset(chain[..h])
    && (forall k :: 0 <= k < h ==> list[positions[k] + k] == chain[k])
    && Delete(list, Landings(positions, h)) == sentences
  }

  lemma PlaceNext<T(!new)>(sentences: seq<T>, chain: seq<T>, positions: seq<nat>, h: nat, list: seq<T>)
    requires |positions| == |chain| && h < |chain| && SortedSample(positions, |sentences|)
    requires Placed(sentences, chain, positions, h, list)
    ensures Placed(sentences, chain, positions, h + 1, InsertAt(list, positions[h] + h, chain[h]))
  {
    hide Delete, InsertAt;
    var q := positions[h] + h;
    LandingsBelow(positions, h, q);
    DeleteInserted(list, Landings(positions, h), q, chain[h]);
    assert chain[..h + 1] == chain[..h] + [chain[h]];
  }

  lemma PlaceNone<T(!new)>(sentences: seq<T>, chain: seq<T>, positions: seq<nat>)
    requires |positions| == |chain| && SortedSample(positions, |sentences|)
    ensures Placed(sentences, chain, positions, 0, sentences)
  {
    DeleteNothing(sentences);
  }

  /** The old sentences are found in order at the indices where no hop landed. */
  ghost predicate Surrounds<T(!new)>(sentences: seq<T>, positions: seq<nat>, list: seq<T>) {
    exists where :: Embeds(sentences, list, where) && Avoids(where, positions)
  }

  ghost predicate Avoids(where: seq<nat>, positions: seq<nat>) {
    forall i, h :: 0 <= i < |where| && 0 <= h < |positions| ==> where[i] != positions[h] + h
  }

  /** What a chain's insertion leaves behind. */
  ghost predicate Inserted<T(!new)>(sentences: seq<T>, chain: seq<T>, positions: seq<nat>, list: seq<T>)
    requires |positions| == |chain|
  {
    && |list| == |sentences| + |chain| && multiset(list) == multiset(sentences) + multiset(chain)
    && (forall h :: 0 <= h < |chain| ==> positions[h] + h < |list| && list[positions[h] + h] == chain[h])
    && Delete(list, Landings(positions, |chain|)) == sentences
    && Surrounds(sentences, positions, list)
    && IsSubsequence(sentences, list) && IsSubsequence(chain, list)
  }

  lemma PlacedAll<T(!new)>(sentences: seq<T>, chain: seq<T>, positions: seq<nat>, list: seq<T>)
    requires |positions| == |chain| && SortedSample(positions, |sentences|)
    requires Placed(sentences, chain, positions, |chain|, list)
    ensures Inserted(sentences, chain, positions, list)
  {
    hide Delete;
    var where := DeleteEmbeds(list, Landings(positions, |chain|));
    LandingsHold(positions, |chain|);
    assert Avoids(where, positions);
    assert Embeds(chain, list, seq(|chain|, h requires 0 <= h < |chain| => positions[h] + h));
    assert chain[..|chain|] == chain;
  }

  /** Hop h lands at p_h + h, deleting the landings restores the list, and nothing else is added. */
  method InsertChain<T(!new)>(sentences: seq<T>, chain: seq<T>, positions: seq<nat>) returns (list: seq<T>)
    requires |positions| == |chain| && SortedSample(positions, |sentences|)
    ensures |list| == |sentences| + |chain| && multiset(list) == multiset(sentences) + multiset(chain)
    ensures forall h :: 0 <= h < |chain| ==> positions[h] + h < |list| && list[positions[h] + h] == chain[h]
    ensures Delete(list, Landings(positions, |chain|)) == sentences && Surrounds(sentences, positions, list)
    ensures IsSubsequence(sentences, list) && IsSubsequence(chain, list)
  {
    hide IsSubsequence, Delete, Landings, Placed, InsertAt, Surrounds;
    list := sentences;
    PlaceNone(sentences, chain, positions);
    for h := 0 to |chain|
      invariant |list| == |sentences| + h && Placed(sentences, chain, positions, h, list)
    {
      PlaceNext(sentences, chain, positions, h, list);
      list := InsertAt(list, positions[h] + h, chain[h]);
    }
    PlacedAll(sentences, chain, positions, list);
  }

  // ---------- every chain ----------

  datatype SampleError = SampleTooLarge(chain: nat)

  function TotalLength<T>(chains: seq<seq<T>>): nat {
    if chains == [] then 0 else TotalLength(chains[..|chains| - 1]) + |chains[|chains| - 1]|
  }

  function AllHops<T>(chains: seq<seq<T>>): multiset<T> {
    if chains == [] then multiset{} else AllHops(chains[..|chains| - 1]) + multiset(chains[|chains| - 1])
  }

  /** Chain k can be placed: at least as many sentences as hops are there when its turn comes. */
  ghost predicate Placeable<T>(noise: seq<T>, chains: seq<seq<T>>, k: nat)
    requires k < |chains|
  {
    |chains[k]| <= |noise| + TotalLength(chains[..k])
  }

  /** Each chain in turn is inserted at its drawn positions: `lists[k]` is what there is before chain k. */
  ghost predicate InsertedInTurn<T(!new)>(noise: seq<T>, chains: seq<seq<T>>, upTo: nat, draws: seq<seq<nat>>, lists: seq<seq<T>>)
    requires upTo <= |chains|
  {
    && |draws| == upTo && |lists| == upTo + 1 && lists[0] == noise
    && forall k :: 0 <= k < upTo ==> InsertedAt(lists[k], chains[k], draws[k], lists[k + 1])
  }

  ghost predicate InsertedAt<T(!new)>(sentences: seq<T>, chain: seq<T>, positions: seq<nat>, list: seq<T>) {
    && |positions| == |chain| && (forall k :: 0 <= k < |positions| ==> positions[k] < |sentences|)
    && (forall j, k :: 0 <= j < k < |positions| ==> positions[j] < positions[k])
    && Inserted(sentences, chain, positions, list)
  }

  lemma NextInTurn<T(!new)>(noise: seq<T>, chains: seq<seq<T>>, k: nat, draws: seq<seq<nat>>, lists: seq<seq<T>>, positions: seq<nat>, list: seq<T>)
    requires k < |chains| && InsertedInTurn(noise, chains, k, draws, lists)
    requires InsertedAt(lists[k], chains[k], positions, list)
    ensures InsertedInTurn(noise, chains, k + 1, draws + [positions], lists + [list])
  {
    hide InsertedAt;
    var ds, ls := draws + [positions], lists + [list];
    forall j | 0 <= j < k + 1 ensures InsertedAt(ls[j], chains[j], ds[j], ls[j + 1]) {
      if j < k {
        assert InsertedAt(lists[j], chains[j], draws[j], lists[j + 1]);
      }
    }
  }

  /**
   All chains, at any drawn positions: every chain's hops stay in order, every noise sentence stays
   in order, nothing is lost or invented; it fails exactly at the first chain that finds too few
   sentences to sample from.
   */
  method InsertChains<T(!new)>(noise: seq<T>, chains: seq<seq<T>>)
    returns (r: Result<seq<T>, SampleError>, ghost draws: seq<seq<nat>>, ghost lists: seq<seq<T>>)
    ensures r.Ok? <==> forall k :: 0 <= k < |chains| ==> Placeable(noise, chains, k)
    ensures r.Err? ==>
      && r.error.chain < |chains| && !Placeable(noise, chains, r.error.chain)
      && forall k :: 0 <= k < r.error.chain ==> Placeable(noise, chains, k)
    ensures r.Ok? ==>
      && multiset(r.value) == multiset(noise) + AllHops(chains)
      && IsSubsequence(noise, r.value)
      && forall k :: 0 <= k < |chains| ==> IsSubsequence(chains[k], r.value)
    ensures r.Ok? ==> InsertedInTurn(noise, chains, |chains|, draws, lists) && lists[|chains|] == r.value
  {
    hide IsSubsequence, Hidden, Delete, TotalLength, AllHops, Surrounds, Landings, InsertedInTurn;
    var sentences := noise;
    draws, lists := [], [noise];
    NoneInTurn(noise, chains);
    NothingHidden(noise, chains);
    for i := 0 to |chains|
      invariant Hidden(noise, chains, i, sentences)
      invariant forall k :: 0 <= k < i ==> Placeable(noise, chains, k)
      invariant |lists| == i + 1 && lists[i] == sentences && InsertedInTurn(noise, chains, i, draws, lists)
    {
      var chain := chains[i];
      HiddenLength(noise, chains, i, sentences);
      if |chain| > |sentences| {
        return Err(SampleTooLarge(i)), draws, lists;
      }
      var positions: seq<nat> := Draw(|chain|, |sentences|);
      var list := InsertChain(sentences, chain, positions);
      HideNext(noise, chains, i, sentences, list);
      NextInTurn(noise, chains, i, draws, lists, positions, list);
      draws, lists := draws + [positions], lists + [list];
      sentences := list;
    }
    AllHidden(noise, chains, sentences);
    return Ok(sentences), draws, lists;
  }

  /** The first i chains and the noise are in the list, in order, and nothing else is. */
  ghost predicate Hidden<T(!new)>(noise: seq<T>, chains: seq<seq<T>>, i: nat, list: seq<T>)
    requires i <= |chains|
  {
    && |list| == |noise| + TotalLength(chains[..i])
    && multiset(list) == multiset(noise) + AllHops(chains[..i])
    && IsSubsequence(noise, list)
    && forall k :: 0 <= k < i ==> IsSubsequence(chains[k], list)
  }

  lemma NoneInTurn<T(!new)>(noise: seq<T>, chains: seq<seq<T>>)
    ensures InsertedInTurn(noise, chains, 0, [], [noise])
  {
  }

  lemma NothingHidden<T(!new)>(noise: seq<T>, chains: seq<seq<T>>)
    ensures Hidden(noise, chains, 0, noise)
  {
    SubsequenceReflexive(noise);
  }

  lemma HiddenLength<T(!new)>(noise: seq<T>, chains: seq<seq<T>>, i: nat, list: seq<T>)
    requires i < |chains| && Hidden(noise, chains, i, list)
    ensures Placeable(noise, chains, i) <==> |chains[i]| <= |list|
  {
  }

  lemma HideNext<T(!new)>(noise: seq<T>, chains: seq<seq<T>>, i: nat, list: seq<T>, list': seq<T>)
    requires i < |chains| && Hidden(noise, chains, i, list)
    requires |list'| == |list| + |chains[i]| && multiset(list') == multiset(list) + multiset(chains[i])
    requires IsSubsequence(list, list') && IsSubsequence(chains[i], list')
    ensures Hidden(noise, chains, i + 1, list')
  {
    hide IsSubsequence;
    SubsequenceTransitive(noise, list, list');
    forall k | 0 <= k < i ensures IsSubsequence(chains[k], list') {
      SubsequenceTransitive(chains[k], list, list');
    }
    assert chains[..i + 1][..i] == chains[..i];
  }

  lemma AllHidden<T(!new)>(noise: seq<T>, chains: seq<seq<T>>, list: seq<T>)
    requires Hidden(noise, chains, |chains|, list)
    ensures multiset(list) == multiset(noise) + AllHops(chains) && IsSubsequence(noise, list)
    ensures forall k :: 0 <= k < |chains| ==> IsSubsequence(chains[k], list)
  {
    assert chains[..|chains|] == chains;
  }

  /** Any sorted sample without replacement. */
  method Draw(k: nat, n: nat) returns (positions: seq<nat>)
    requires k <= n
    ensures |positions| == k && SortedSample(positions, n)
  {
    ghost var witness0: seq<nat> := seq(k, i => i);
    assert |witness0| == k && SortedSample(witness0, n);
    positions :| |positions| == k && SortedSample(positions, n);
  }
}
