/**
 Stable sorting, as Python's `sorted` and `list.sort` perform it: the order is a
 Boolean comparison, equal elements keep their input order.
 */
module Sorting {

  ghost predicate TotalPreorder<T(!new)>(le: (T, T) -> bool) {
    && (forall x, y :: le(x, y) || le(y, x))
    && (forall x, y, z :: le(x, y) && le(y, z) ==> le(x, z))
  }

  ghost predicate Sorted<T(!new)>(le: (T, T) -> bool, s: seq<T>) {
    forall i, j :: 0 <= i < j < |s| ==> le(s[i], s[j])
  }

  ghost predicate Distinct<T>(s: seq<T>) {
    forall i, j :: 0 <= i < j < |s| ==> s[i] != s[j]
  }

  /** Places `x` behind every element that does not exceed it. */
  function Insert<T(!new)>(le: (T, T) -> bool, s: seq<T>, x: T): (r: seq<T>)
    ensures |r| == |s| + 1
    ensures multiset(r) == multiset(s) + multiset{x}
  {
    if s == [] || le(s[|s| - 1], x) then s + [x]
    else
      assert s == s[..|s| - 1] + [s[|s| - 1]];
      Insert(le, s[..|s| - 1], x) + [s[|s| - 1]]
  }

  function Sort<T(!new)>(le: (T, T) -> bool, s: seq<T>): (r: seq<T>)
    ensures |r| == |s|
    ensures multiset(r) == multiset(s)
  {
    if s == [] then []
    else
      assert s == s[..|s| - 1] + [s[|s| - 1]];
      Insert(le, Sort(le, s[..|s| - 1]), s[|s| - 1])
  }

  function Take<T>(s: seq<T>, k: nat): (r: seq<T>) {
    if |s| <= k then s else s[..k]
  }

  function Map<S, T>(f: S -> T, s: seq<S>): (r: seq<T>)
    ensures |r| == |s|
    ensures forall i :: 0 <= i < |s| ==> r[i] == f(s[i])
  {
    seq(|s|, i requires 0 <= i < |s| => f(s[i]))
  }

  lemma SomeMember<T>(s: set<T>) returns (x: T)
    requires s != {}
    ensures x in s
  {
    x :| x in s;
  }

  lemma SubsetSize<T>(a: set<T>, b: set<T>)
    requires a <= b
    ensures |a| <= |b| && (|a| == |b| ==> a == b)
  {
    assert b == a + (b - a);
    assert |b| == |a| + |b - a|;
  }

  lemma MultisetMember<T>(s: seq<T>, t: seq<T>, x: T)
    requires multiset(s) == multiset(t)
    ensures x in s <==> x in t
  {
    assert x in s <==> x in multiset(s);
    assert x in t <==> x in multiset(t);
  }

  lemma {:induction false} InsertSorted<T(!new)>(le: (T, T) -> bool, s: seq<T>, x: T)
    requires TotalPreorder(le) && Sorted(le, s)
    ensures Sorted(le, Insert(le, s, x))
  {
    if s == [] || le(s[|s| - 1], x) {
      var r := Insert(le, s, x);
      forall i, j | 0 <= i < j < |r| ensures le(r[i], r[j]) {
        if j == |s| && i < |s| - 1 {
          assert le(s[i], s[|s| - 1]);
        }
      }
    } else {
      var front, last := s[..|s| - 1], s[|s| - 1];
      InsertSorted(le, front, x);
      var r := Insert(le, front, x);
      forall i | 0 <= i < |r| ensures le(r[i], last) {
        assert r[i] in multiset(r);
        if r[i] != x {
          assert r[i] in multiset(front);
        }
      }
    }
  }

  lemma {:induction false} SortSorted<T(!new)>(le: (T, T) -> bool, s: seq<T>)
    requires TotalPreorder(le)
    ensures Sorted(le, Sort(le, s))
  {
    if s != [] {
      SortSorted(le, s[..|s| - 1]);
      InsertSorted(le, Sort(le, s[..|s| - 1]), s[|s| - 1]);
    }
  }

  lemma SortSnoc<T(!new)>(le: (T, T) -> bool, s: seq<T>, x: T)
    ensures Sort(le, s + [x]) == Insert(le, Sort(le, s), x)
  {
    assert (s + [x])[..|s|] == s;
  }

  lemma InsertLast<T(!new)>(le: (T, T) -> bool, s: seq<T>, x: T)
    requires s == [] || le(s[|s| - 1], x)
    ensures Insert(le, s, x) == s + [x]
  {
  }

  lemma SortedFront<T(!new)>(le: (T, T) -> bool, s: seq<T>)
    requires Sorted(le, s) && s != []
    ensures Sorted(le, s[..|s| - 1])
    ensures TiesAreIdentities(le, s) ==> TiesAreIdentities(le, s[..|s| - 1])
    ensures |s| > 1 ==> le(s[|s| - 2], s[|s| - 1])
  {
    var front := s[..|s| - 1];
    forall i, j | 0 <= i < j < |front| ensures le(front[i], front[j]) {
      assert le(s[i], s[j]);
    }
  }

  /** A sorted list is a fixed point: stability never moves anything. */
  lemma {:induction false} SortFixed<T(!new)>(le: (T, T) -> bool, s: seq<T>)
    requires Sorted(le, s)
    ensures Sort(le, s) == s
  {
    hide Insert, Sorted;
    if s != [] {
      SortedFront(le, s);
      SortFixed(le, s[..|s| - 1]);
      InsertLast(le, s[..|s| - 1], s[|s| - 1]);
      assert s == s[..|s| - 1] + [s[|s| - 1]];
    }
  }

  ghost predicate TiesAreIdentities<T(!new)>(le: (T, T) -> bool, s: seq<T>) {
    forall i, j :: 0 <= i < |s| && 0 <= j < |s| && le(s[i], s[j]) && le(s[j], s[i]) ==> s[i] == s[j]
  }

  lemma SameLast<T(!new)>(le: (T, T) -> bool, a: seq<T>, b: seq<T>)
    requires Sorted(le, a) && Sorted(le, b) && multiset(a) == multiset(b)
    requires TiesAreIdentities(le, a) && |a| == |b| > 0
    ensures a[|a| - 1] == b[|b| - 1]
  {
    var x, y := a[|a| - 1], b[|b| - 1];
    MultisetMember(a, b, x);
    MultisetMember(a, b, y);
    var i :| 0 <= i < |a| && a[i] == y;
    var j :| 0 <= j < |b| && b[j] == x;
  }

  lemma DropLast<T>(s: seq<T>)
    requires s != []
    ensures multiset(s) == multiset(s[..|s| - 1]) + multiset{s[|s| - 1]}
  {
    assert s == s[..|s| - 1] + [s[|s| - 1]];
  }

  lemma SameFronts<T>(a: seq<T>, b: seq<T>)
    requires multiset(a) == multiset(b) && a != [] && b != [] && a[|a| - 1] == b[|b| - 1]
    ensures multiset(a[..|a| - 1]) == multiset(b[..|b| - 1])
  {
    DropLast(a);
    DropLast(b);
    var last := multiset{a[|a| - 1]};
    assert multiset(a[..|a| - 1]) == multiset(a) - last && multiset(b[..|b| - 1]) == multiset(b) - last;
  }

  /** Two sorted arrangements of the same elements are equal when ties are identities. */
  lemma {:induction false} SortedUnique<T(!new)>(le: (T, T) -> bool, a: seq<T>, b: seq<T>)
    requires Sorted(le, a) && Sorted(le, b) && multiset(a) == multiset(b)
    requires TiesAreIdentities(le, a)
    ensures a == b
  {
    hide Sorted, TiesAreIdentities;
    assert |a| == |multiset(a)| == |multiset(b)| == |b|;
    if a != [] {
      SameLast(le, a, b);
      SortedFront(le, a);
      SortedFront(le, b);
      SameFronts(a, b);
      SortedUnique(le, a[..|a| - 1], b[..|b| - 1]);
      assert a == a[..|a| - 1] + [a[|a| - 1]] && b == b[..|b| - 1] + [b[|b| - 1]];
    }
  }

  ghost predicate Projects<S(!new), T(!new)>(leS: (S, S) -> bool, leT: (T, T) -> bool, f: S -> T) {
    forall p, q {:trigger leS(p, q)} :: leS(p, q) <==> leT(f(p), f(q))
  }

  lemma MapSnoc<S, T>(f: S -> T, s: seq<S>, x: S)
    ensures Map(f, s + [x]) == Map(f, s) + [f(x)]
  {
  }

  lemma {:induction false} InsertMap<S(!new), T(!new)>(leS: (S, S) -> bool, leT: (T, T) -> bool, f: S -> T, s: seq<S>, x: S)
    requires Projects(leS, leT, f)
    ensures Map(f, Insert(leS, s, x)) == Insert(leT, Map(f, s), f(x))
  {
    MapSnoc(f, s, x);
    if s != [] {
      var front, last := s[..|s| - 1], s[|s| - 1];
      assert leS(last, x) <==> leT(f(last), f(x));
      if !leS(last, x) {
        InsertMap(leS, leT, f, front, x);
        MapSnoc(f, Insert(leS, front, x), last);
        assert Map(f, s)[..|s| - 1] == Map(f, front);
      }
    }
  }

  /** Sorting by a projection and projecting afterwards is sorting the projections. */
  lemma {:induction false} SortMap<S(!new), T(!new)>(leS: (S, S) -> bool, leT: (T, T) -> bool, f: S -> T, s: seq<S>)
    requires Projects(leS, leT, f)
    ensures Map(f, Sort(leS, s)) == Sort(leT, Map(f, s))
  {
    if s != [] {
      var front, last := s[..|s| - 1], s[|s| - 1];
      SortMap(leS, leT, f, front);
      InsertMap(leS, leT, f, Sort(leS, front), last);
      assert Map(f, s)[..|s| - 1] == Map(f, front);
    }
  }

  lemma TakeInsertBehind<T(!new)>(le: (T, T) -> bool, s: seq<T>, x: T, k: nat)
    requires Sorted(le, s) && TotalPreorder(le) && k < |s| && le(s[|s| - 1], x)
    ensures Take(Insert(le, s[..k], x), k) == s[..k] == Take(Insert(le, s, x), k)
  {
    if k > 0 {
      assert le(s[k - 1], s[|s| - 1]);
    }
    InsertLast(le, s[..k], x);
    InsertLast(le, s, x);
  }

  lemma InsertBefore<T(!new)>(le: (T, T) -> bool, s: seq<T>, x: T, k: nat)
    requires s != [] && !le(s[|s| - 1], x) && k <= |s|
    ensures Take(Insert(le, s, x), k) == Take(Insert(le, s[..|s| - 1], x), k)
  {
  }

  /** Dropping everything beyond position k before an insertion loses nothing of the first k. */
  lemma {:induction false} TakeInsert<T(!new)>(le: (T, T) -> bool, s: seq<T>, x: T, k: nat)
    requires TotalPreorder(le) && Sorted(le, s)
    ensures Take(Insert(le, Take(s, k), x), k) == Take(Insert(le, s, x), k)
  {
    hide Insert, Sorted, TotalPreorder;
    if |s| > k {
      if le(s[|s| - 1], x) {
        TakeInsertBehind(le, s, x, k);
      } else {
        SortedFront(le, s);
        TakeInsert(le, s[..|s| - 1], x, k);
        InsertBefore(le, s, x, k);
        assert Take(s[..|s| - 1], k) == Take(s, k);
      }
    }
  }

  // ---------- concatenation ----------

  function Concat<T>(parts: seq<seq<T>>): seq<T> {
    if parts == [] then [] else Concat(parts[..|parts| - 1]) + parts[|parts| - 1]
  }

  lemma ConcatSnoc<T>(parts: seq<seq<T>>, part: seq<T>)
    ensures Concat(parts + [part]) == Concat(parts) + part
  {
    assert (parts + [part])[..|parts|] == parts;
  }

  function Flat<S(!new), T>(f: S -> seq<T>, s: seq<S>): seq<T> {
    if s == [] then [] else Flat(f, s[..|s| - 1]) + f(s[|s| - 1])
  }

  lemma FlatSnoc<S(!new), T>(f: S -> seq<T>, s: seq<S>, x: S)
    ensures Flat(f, s + [x]) == Flat(f, s) + f(x)
    ensures multiset(Flat(f, s + [x])) == multiset(Flat(f, s)) + multiset(f(x))
  {
    assert (s + [x])[..|s|] == s;
  }

  lemma {:induction false} FlatWithout<S(!new), T>(f: S -> seq<T>, s: seq<S>, j: nat)
    requires j < |s|
    ensures multiset(Flat(f, s)) == multiset(Flat(f, s[..j] + s[j + 1..])) + multiset(f(s[j]))
  {
    hide Flat;
    var n := |s| - 1;
    assert s == s[..n] + [s[n]];
    FlatSnoc(f, s[..n], s[n]);
    if j < n {
      FlatWithout(f, s[..n], j);
      var inner := s[..n][..j] + s[..n][j + 1..];
      FlatSnoc(f, inner, s[n]);
      assert s[..j] + s[j + 1..] == inner + [s[n]];
    } else {
      assert s[..j] + s[j + 1..] == s[..n];
    }
  }

  /** Permuting the input permutes the concatenation. */
  lemma {:induction false} FlatPermute<S(!new), T>(f: S -> seq<T>, a: seq<S>, b: seq<S>)
    requires multiset(a) == multiset(b)
    ensures multiset(Flat(f, a)) == multiset(Flat(f, b))
  {
    hide Flat;
    assert |a| == |multiset(a)| == |multiset(b)| == |b|;
    if a == [] {
      assert a == b;
    } else {
      var n := |a| - 1;
      MultisetMember(a, b, a[n]);
      var j :| 0 <= j < |b| && b[j] == a[n];
      var rest := b[..j] + b[j + 1..];
      WithoutCommon(a, b, j);
      FlatPermute(f, a[..n], rest);
      FlatWithout(f, b, j);
      FlatWithout(f, a, n);
      assert a[..n] + a[n + 1..] == a[..n];
    }
  }

  lemma WithoutCommon<T>(a: seq<T>, b: seq<T>, j: nat)
    requires multiset(a) == multiset(b) && a != [] && j < |b| && b[j] == a[|a| - 1]
    ensures multiset(a[..|a| - 1]) == multiset(b[..j] + b[j + 1..])
  {
    RemoveAt(b, j);
    DropLast(a);
    var last := multiset{a[|a| - 1]};
    assert multiset(a[..|a| - 1]) == multiset(a) - last && multiset(b[..j] + b[j + 1..]) == multiset(b) - last;
  }

  /** An element counted at most once sits at one index only. */
  lemma CountedOnce<T>(s: seq<T>, i: nat, j: nat)
    requires i < j < |s| && multiset(s)[s[i]] <= 1
    ensures s[i] != s[j]
  {
    assert s == s[..i] + [s[i]] + s[i + 1..j] + [s[j]] + s[j + 1..];
  }

  lemma {:induction false} OnceEach<T>(s: seq<T>, x: T)
    requires Distinct(s)
    ensures multiset(s)[x] <= 1
  {
    if s != [] {
      OnceEach(s[..|s| - 1], x);
      assert s == s[..|s| - 1] + [s[|s| - 1]];
    }
  }

  function SetOf<T(!new)>(s: seq<T>): set<T> { set x | x in s }

  lemma TwoMembers<T(!new)>(s: seq<T>, a: T, b: T)
    requires a in s && b in s && a != b
    ensures |SetOf(s)| >= 2
  {
    TwoElements(SetOf(s), a, b);
  }

  lemma TwoElements<T>(s: set<T>, a: T, b: T)
    requires a in s && b in s && a != b
    ensures |s| >= 2
  {
    var rest := s - {a};
    assert |rest| == |s| - 1 && b in rest;
  }

  lemma RemoveAt<T>(s: seq<T>, j: nat)
    requires j < |s|
    ensures multiset(s) == multiset(s[..j] + s[j + 1..]) + multiset{s[j]}
  {
    assert s == s[..j] + [s[j]] + s[j + 1..];
  }

  predicate IntLe(x: int, y: int) { x <= y }

  predicate PairLe(p: (int, int), q: (int, int)) { p.0 < q.0 || (p.0 == q.0 && p.1 <= q.1) }

  /** Code-point order on strings, as Python compares them. */
  predicate StringLe(a: string, b: string) {
    a == [] || (b != [] && (a[0] < b[0] || (a[0] == b[0] && StringLe(a[1..], b[1..]))))
  }

  /** `a` is a proper prefix of `b`, or smaller at the first character where they differ. */
  ghost predicate StringBefore(a: string, b: string) {
    exists p: nat :: DiffersAt(a, b, p)
  }

  ghost predicate DiffersAt(a: string, b: string, p: nat) {
    p <= |a| && p < |b| && a[..p] == b[..p] && (p == |a| || a[p] < b[p])
  }

  lemma {:induction false} StringLeExactly(a: string, b: string)
    ensures StringLe(a, b) <==> a == b || StringBefore(a, b)
  {
    if a == [] || b == [] || a[0] != b[0] {
      assert StringLe(a, b) && a != b ==> DiffersAt(a, b, 0);
      if StringBefore(a, b) {
        var p: nat :| DiffersAt(a, b, p);
        assert p > 0 ==> a[..p][0] == b[..p][0];
      }
    } else {
      StringLeExactly(a[1..], b[1..]);
      assert a == [a[0]] + a[1..] && b == [b[0]] + b[1..];
      BeforeTail(a, b);
    }
  }

  lemma BeforeTail(a: string, b: string)
    requires a != [] && b != [] && a[0] == b[0]
    ensures StringBefore(a, b) <==> StringBefore(a[1..], b[1..])
  {
    if StringBefore(a, b) {
      var p: nat :| DiffersAt(a, b, p);
      assert a[1..][..p - 1] == a[..p][1..] && b[1..][..p - 1] == b[..p][1..];
      assert DiffersAt(a[1..], b[1..], p - 1);
    }
    if StringBefore(a[1..], b[1..]) {
      var p: nat :| DiffersAt(a[1..], b[1..], p);
      assert a[..p + 1] == [a[0]] + a[1..][..p] && b[..p + 1] == [b[0]] + b[1..][..p];
      assert DiffersAt(a, b, p + 1);
    }
  }

  lemma NeverBeforeItself(a: string)
    ensures !StringBefore(a, a)
  {
  }

  lemma {:induction false} StringLeTotal(a: string, b: string)
    ensures StringLe(a, b) || StringLe(b, a)
    ensures StringLe(a, b) && StringLe(b, a) ==> a == b
  {
    if a != [] && b != [] {
      StringLeTotal(a[1..], b[1..]);
      assert a == [a[0]] + a[1..] && b == [b[0]] + b[1..];
    }
  }

  lemma {:induction false} StringLeTransitive(a: string, b: string, c: string)
    requires StringLe(a, b) && StringLe(b, c)
    ensures StringLe(a, c)
  {
    if a != [] && a[0] == b[0] == c[0] {
      StringLeTransitive(a[1..], b[1..], c[1..]);
    }
  }
}
