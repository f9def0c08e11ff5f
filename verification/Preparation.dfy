/**
 Full-dataset preparation for LongBench v2: the sequential loop, and the bounded
 pool whose workers finish in any order.
 */
module Preparation {
  import opened Arithmetic
  import opened Outcomes
  import opened Sorting

  datatype Row = Row(id: string, content: string)

  datatype PrepareError = BadBudget | BadWorkers | Unrenderable(id: string) | UnusablePrompt(id: string)

  /** Template rendering, tokenizer and chat wrapping. */
  datatype Tools = Tools(
    render: Row -> Option<string>, encode: string -> seq<int>, decode: seq<int> -> string, chat: string -> (string, seq<int>))

  datatype Budget = Budget(truncateMax: int, promptMax: int)

  /** What a worker returns: everything but the row and its index. */
  datatype Prepared = Prepared(prompt: string, tokenIds: seq<int>, originalTokens: nat, truncated: bool)

  datatype Sample = Sample(index: nat, row: Row, prepared: Prepared)

  // ---------- middle truncation ----------

  /** `ids[:n // 2] + ids[-n // 2:]`, where `-n // 2` floors. */
  function Middle(ids: seq<int>, n: int): seq<int>
    requires 0 < n < |ids|
  {
    ids[..n / 2] + ids[|ids| + (-n) / 2..]
  }

  /** Exactly n tokens survive: the first n/2 and the last n - n/2. */
  lemma MiddleKeepsExactly(ids: seq<int>, n: int)
    requires 0 < n < |ids|
    ensures |Middle(ids, n)| == n
    ensures Middle(ids, n)[..n / 2] == ids[..n / 2] && Middle(ids, n)[n / 2..] == ids[|ids| - (n - n / 2)..]
  {
    assert (-n) / 2 == -(n - n / 2);
  }

  // ---------- one row ----------

  predicate Usable(b: Budget) { b.truncateMax > 0 && b.promptMax > 0 }

  /** The first n/2 and the last n - n/2 of the tokens, where n is the budget. */
  ghost predicate KeepsEnds(kept: seq<int>, ids: seq<int>, n: int)
    requires 0 < n < |ids|
  {
    |kept| == n && kept[..n / 2] == ids[..n / 2] && kept[n / 2..] == ids[|ids| - (n - n / 2)..]
  }

  /**
   The chat form of the rendered text, or of the text decoded from both ends of its tokens where
   there are more than the budget; refused if that is empty or too long.
   */
  ghost predicate Prepares(t: Tools, b: Budget, row: Row, r: Result<Prepared, PrepareError>) {
    && (b.truncateMax <= 0 || b.promptMax <= 0 ==> r == Err(BadBudget))
    && (b.truncateMax > 0 && b.promptMax > 0 && t.render(row).None? ==> r == Err(Unrenderable(row.id)))
    && (b.truncateMax > 0 && b.promptMax > 0 && t.render(row).Some? ==>
          var original := t.render(row).value;
          exists chatted :: Content(t, b, original, chatted)
            && if 0 < |chatted.1| <= b.promptMax then
                 r == Ok(Prepared(chatted.0, chatted.1, |t.encode(original)|, |t.encode(original)| > b.truncateMax))
               else r == Err(UnusablePrompt(row.id)))
  }

  /** What the chat template makes of the content that is left of a text. */
  ghost predicate Content(t: Tools, b: Budget, original: string, chatted: (string, seq<int>))
    requires b.truncateMax > 0
  {
    var ids := t.encode(original);
    if |ids| <= b.truncateMax then chatted == t.chat(original)
    else exists kept :: KeepsEnds(kept, ids, b.truncateMax) && chatted == t.chat(t.decode(kept))
  }

  function PrepareRow(t: Tools, b: Budget, row: Row): (r: Result<Prepared, PrepareError>)
    ensures Prepares(t, b, row, r)
  {
    if !Usable(b) then Err(BadBudget)
    else
      match t.render(row)
      case None => Err(Unrenderable(row.id))
      case Some(original) =>
        var ids := t.encode(original);
        var truncated := |ids| > b.truncateMax;
        var content := if truncated then t.decode(Middle(ids, b.truncateMax)) else original;
        var (prompt, tokenIds) := t.chat(content);
        assert Content(t, b, original, t.chat(content)) by {
          if truncated {
            MiddleKeepsExactly(ids, b.truncateMax);
            assert KeepsEnds(Middle(ids, b.truncateMax), ids, b.truncateMax);
          }
        }
        if !(0 < |tokenIds| <= b.promptMax) then Err(UnusablePrompt(row.id))
        else Ok(Prepared(prompt, tokenIds, |ids|, truncated))
  }

  ghost predicate AllPrepare(t: Tools, b: Budget, rows: seq<Row>) {
    forall i :: 0 <= i < |rows| ==> PrepareRow(t, b, rows[i]).Ok?
  }

  ghost predicate IsSequential(t: Tools, b: Budget, rows: seq<Row>, samples: seq<Sample>) {
    && |samples| == |rows|
    && forall i :: 0 <= i < |rows| ==>
         PrepareRow(t, b, rows[i]).Ok? && samples[i] == Sample(i, rows[i], PrepareRow(t, b, rows[i]).value)
  }

  /** The sequential preparer: the rows in order, stopping at the first failure. */
  method Prepare(t: Tools, b: Budget, rows: seq<Row>) returns (r: Result<seq<Sample>, PrepareError>)
    ensures r.Ok? <==> Usable(b) && AllPrepare(t, b, rows)
    ensures r.Ok? ==> IsSequential(t, b, rows, r.value)
    ensures !Usable(b) ==> r == Err(BadBudget)
    ensures r.Err? && Usable(b) ==>
      exists i :: 0 <= i < |rows| && PrepareRow(t, b, rows[i]) == Err(r.error) && AllPrepare(t, b, rows[..i])
  {
    if b.truncateMax <= 0 || b.promptMax <= 0 {
      return Err(BadBudget);
    }
    var selected := [];
    var i := 0;
    while i < |rows|
      invariant 0 <= i <= |rows| && IsSequential(t, b, rows[..i], selected)
    {
      var prepared := PrepareRow(t, b, rows[i]);
      if prepared.Err? {
        return Err(prepared.error);
      }
      selected := selected + [Sample(i, rows[i], prepared.value)];
      i := i + 1;
    }
    assert rows[..i] == rows;
    return Ok(selected);
  }

  // ---------- the bounded pool ----------

  /** A future is known by the order of its submission. */
  type Future = nat

  /** The slots of the results, the futures that are pending with their indices, and the next index to submit. */
  datatype Pool = Pool(selected: seq<Option<Sample>>, pending: map<Future, nat>, next: nat)

  /** Slot i is empty until its future is done, and then holds what the sequential loop would produce. */
  ghost predicate SlotHolds(t: Tools, b: Budget, rows: seq<Row>, i: nat, slot: Option<Sample>, done: bool)
    requires i < |rows|
  {
    if done then PrepareRow(t, b, rows[i]).Ok? && slot == Some(Sample(i, rows[i], PrepareRow(t, b, rows[i]).value))
    else slot == None
  }

  /** Only submitted futures are pending, at most `bound`, and fewer only when no index is left to submit. */
  ghost predicate Pends(pending: map<Future, nat>, next: nat, bound: nat, count: nat) {
    && next <= count && |pending| <= bound && (|pending| < bound ==> next == count)
    && forall f :: f in pending ==> f == pending[f] < next
  }

  /** Slots are filled exactly for the submitted indices that are no longer pending. */
  ghost predicate PoolInv(t: Tools, b: Budget, rows: seq<Row>, p: Pool, bound: nat) {
    && |p.selected| == |rows| && Pends(p.pending, p.next, bound, |rows|)
    && forall i :: 0 <= i < |rows| ==> SlotHolds(t, b, rows, i, p.selected[i], i < p.next && i !in p.pending)
  }

  /** The futures of the first n indices. */
  ghost function FirstFutures(n: nat): (pending: map<Future, nat>)
    ensures |pending| == n && forall f: nat :: f in pending <==> f < n
    ensures forall f: nat :: f in pending ==> pending[f] == f
  {
    if n == 0 then map[]
    else
      var rest := FirstFutures(n - 1);
      assert n - 1 !in rest;
      rest[n - 1 := n - 1]
  }

  /** The pool after the first `bound` submissions. */
  ghost function Start(rows: seq<Row>, bound: nat): Pool {
    Pool(seq(|rows|, i => None), FirstFutures(Min(bound, |rows|)), Min(bound, |rows|))
  }

  /** Taking out a pending future and submitting the next one, if there is one. */
  ghost function Replaced(pending: map<Future, nat>, f: Future, next: nat, more: bool): map<Future, nat> {
    var rest := pending - {f};
    if more then rest[next := next] else rest
  }

  /** What one finished future does to the pool. */
  ghost predicate Settles(t: Tools, b: Budget, rows: seq<Row>, p: Pool, f: Future, out: Result<Pool, PrepareError>) {
    && f in p.pending && f < |rows| == |p.selected| && p.next <= |rows|
    && match PrepareRow(t, b, rows[f])
       case Err(e) => out == Err(e)
       case Ok(prepared) =>
         out == Ok(Pool(p.selected[f := Some(Sample(f, rows[f], prepared))],
                        Replaced(p.pending, f, p.next, p.next < |rows|), Min(p.next + 1, |rows|)))
  }

  /** Futures that finish in this order lead from the pool to the outcome. */
  ghost predicate Plays(t: Tools, b: Budget, rows: seq<Row>, p: Pool, order: seq<Future>, out: Result<Pool, PrepareError>)
    decreases |order|
  {
    if order == [] then out == Ok(p)
    else exists m: Pool ::
      Plays(t, b, rows, p, order[..|order| - 1], Ok(m)) && Settles(t, b, rows, m, order[|order| - 1], out)
  }

  lemma PlaysNothing(t: Tools, b: Budget, rows: seq<Row>, p: Pool)
    ensures Plays(t, b, rows, p, [], Ok(p))
  {
  }

  lemma PlaysNext(t: Tools, b: Budget, rows: seq<Row>, p: Pool, order: seq<Future>, m: Pool, f: Future, out: Result<Pool, PrepareError>)
    requires Plays(t, b, rows, p, order, Ok(m)) && Settles(t, b, rows, m, f, out)
    ensures Plays(t, b, rows, p, order + [f], out)
  {
    hide Settles;
    assert (order + [f])[..|order|] == order;
  }

  /** Some order of completion ends the pool with this error. */
  ghost predicate CanRaise(t: Tools, b: Budget, rows: seq<Row>, bound: nat, e: PrepareError) {
    exists order :: Plays(t, b, rows, Start(rows, bound), order, Err(e))
  }

  lemma StartKeeps(t: Tools, b: Budget, rows: seq<Row>, bound: nat)
    ensures PoolInv(t, b, rows, Start(rows, bound), bound)
  {
    hide PrepareRow;
    var p := Start(rows, bound);
    forall i | 0 <= i < |rows| ensures SlotHolds(t, b, rows, i, p.selected[i], i < p.next && i !in p.pending) {
      assert p.selected[i] == None;
    }
  }

  /** The first `2 * workers` submissions, before any result is awaited. */
  method Fill(rows: seq<Row>, bound: nat) returns (p: Pool)
    ensures p == Start(rows, bound)
  {
    p := Pool(seq(|rows|, i => None), map[], 0);
    while p.next < Min(bound, |rows|)
      invariant p == Pool(Start(rows, bound).selected, FirstFutures(p.next), p.next) && p.next <= Min(bound, |rows|)
    {
      p := p.(pending := p.pending[p.next := p.next], next := p.next + 1);
    }
  }

  lemma WithoutCount(pending: map<Future, nat>, f: Future)
    requires f in pending
    ensures |pending - {f}| == |pending| - 1
  {
    assert pending == (pending - {f})[f := pending[f]];
  }

  /** The books' bound on what is left: every future that settles brings the pool one nearer to its end. */
  ghost function Remaining(rows: seq<Row>, p: Pool): int {
    |rows| - p.next + |p.pending|
  }

  lemma ReplacedKeys(pending: map<Future, nat>, f: Future, next: nat, bound: nat, count: nat)
    requires f in pending && Pends(pending, next, bound, count)
    ensures var after := Replaced(pending, f, next, next < count);
      && after.Keys == pending.Keys - {f} + (if next < count then {next} else {})
      && |after| == |pending| - (if next < count then 0 else 1) && Pends(after, Min(next + 1, count), bound, count)
  {
    WithoutCount(pending, f);
    assert next !in pending - {f};
  }

  lemma SlotFilled(t: Tools, b: Budget, rows: seq<Row>, p: Pool, f: Future, q: Pool)
    requires Settles(t, b, rows, p, f, Ok(q))
    ensures f < |q.selected| && SlotHolds(t, b, rows, f, q.selected[f], true)
  {
    hide PrepareRow;
  }

  lemma SettledPool(t: Tools, b: Budget, rows: seq<Row>, p: Pool, f: Future, q: Pool)
    requires Settles(t, b, rows, p, f, Ok(q))
    ensures f in p.pending && |q.selected| == |p.selected|
    ensures q.next == Min(p.next + 1, |rows|) && q.pending == Replaced(p.pending, f, p.next, p.next < |rows|)
  {
    hide PrepareRow, Replaced;
  }

  lemma SlotAfter(t: Tools, b: Budget, rows: seq<Row>, p: Pool, bound: nat, f: Future, q: Pool, i: nat)
    requires PoolInv(t, b, rows, p, bound) && Settles(t, b, rows, p, f, Ok(q)) && i < |rows|
    requires q.pending.Keys == p.pending.Keys - {f} + (if p.next < |rows| then {p.next} else {})
    ensures |q.selected| == |rows| && SlotHolds(t, b, rows, i, q.selected[i], i < q.next && i !in q.pending)
  {
    hide PrepareRow, SlotHolds, Replaced;
    SlotFilled(t, b, rows, p, f, q);
    assert f !in q.pending.Keys && f < q.next;
    if i != f {
      assert i < q.next && i !in q.pending.Keys <==> i < p.next && i !in p.pending.Keys;
    }
  }

  lemma SlotsAfter(t: Tools, b: Budget, rows: seq<Row>, p: Pool, bound: nat, f: Future, q: Pool)
    requires PoolInv(t, b, rows, p, bound) && Settles(t, b, rows, p, f, Ok(q)) && Pends(q.pending, q.next, bound, |rows|)
    requires q.pending.Keys == p.pending.Keys - {f} + (if p.next < |rows| then {p.next} else {})
    ensures PoolInv(t, b, rows, q, bound)
  {
    hide PrepareRow, SlotHolds, Replaced, Settles, Pends;
    SettledPool(t, b, rows, p, f, q);
    forall i: nat | i < |rows| ensures SlotHolds(t, b, rows, i, q.selected[i], i < q.next && i !in q.pending) {
      SlotAfter(t, b, rows, p, bound, f, q, i);
    }
  }

  /** A successful future leads to a pool with the same books, one nearer to the end. */
  lemma SuccessSettles(t: Tools, b: Budget, rows: seq<Row>, p: Pool, bound: nat, f: Future, q: Pool)
    requires PoolInv(t, b, rows, p, bound) && Settles(t, b, rows, p, f, Ok(q))
    ensures PoolInv(t, b, rows, q, bound) && Remaining(rows, q) == Remaining(rows, p) - 1
    ensures q.next == Min(p.next + 1, |rows|) && q.pending.Keys == p.pending.Keys - {f} + (if p.next < |rows| then {p.next} else {})
  {
    hide PrepareRow, SlotHolds, Replaced, Settles;
    SettledPool(t, b, rows, p, f, q);
    ReplacedKeys(p.pending, f, p.next, bound, |rows|);
    SlotsAfter(t, b, rows, p, bound, f, q);
  }

  /** One finished future: store its result in its slot and submit the next index, if any. */
  method Settle(t: Tools, b: Budget, rows: seq<Row>, p: Pool, bound: nat, f: Future) returns (r: Result<Pool, PrepareError>)
    requires PoolInv(t, b, rows, p, bound) && f in p.pending
    ensures Settles(t, b, rows, p, f, r)
    ensures r.Ok? ==> PoolInv(t, b, rows, r.value, bound) && Remaining(rows, r.value) == Remaining(rows, p) - 1
    ensures r.Ok? ==> r.value.pending.Keys == p.pending.Keys - {f} + (if p.next < |rows| then {p.next} else {})
    ensures r.Err? ==> RaisedBy(t, b, rows, bound, r.error)
  {
    hide PrepareRow, RaisedBy, SlotHolds;
    var index := p.pending[f];
    var prepared := PrepareRow(t, b, rows[index]);
    if prepared.Err? {
      PendingRaises(t, b, rows, p, bound, f);
      return Err(prepared.error);
    }
    var selected, pending := p.selected[index := Some(Sample(index, rows[index], prepared.value))], p.pending - {f};
    var q := if p.next < |rows| then Pool(selected, pending[p.next := p.next], p.next + 1) else Pool(selected, pending, p.next);
    SuccessSettles(t, b, rows, p, bound, f, q);
    return Ok(q);
  }

  // ---------- which failures can end a run ----------

  /** The rows among the first n that fail. */
  ghost function FailingRows(t: Tools, b: Budget, rows: seq<Row>, n: nat): set<nat>
    requires n <= |rows|
  {
    set i | 0 <= i < n && PrepareRow(t, b, rows[i]).Err?
  }

  /** Row j fails, and fewer than `bound` rows before it do. */
  ghost predicate Raisable(t: Tools, b: Budget, rows: seq<Row>, bound: nat, j: nat) {
    j < |rows| && PrepareRow(t, b, rows[j]).Err? && |FailingRows(t, b, rows, j)| < bound
  }

  /** The error of one of the first `bound` failing rows. */
  ghost predicate RaisedBy(t: Tools, b: Budget, rows: seq<Row>, bound: nat, e: PrepareError) {
    exists j: nat :: j < |rows| && Raisable(t, b, rows, bound, j) && PrepareRow(t, b, rows[j]) == Err(e)
  }

  /** A failing row that was submitted is still pending, so only the first `bound` failures can be raised. */
  lemma PendingIsRaisable(t: Tools, b: Budget, rows: seq<Row>, p: Pool, bound: nat, f: Future)
    requires PoolInv(t, b, rows, p, bound) && f in p.pending && PrepareRow(t, b, rows[f]).Err?
    ensures Raisable(t, b, rows, bound, f)
  {
    hide PrepareRow;
    var failing := FailingRows(t, b, rows, f);
    forall i | i in failing ensures i in p.pending.Keys - {f} {
      assert SlotHolds(t, b, rows, i, p.selected[i], i < p.next && i !in p.pending);
    }
    SubsetSize(failing, p.pending.Keys - {f});
    assert |p.pending.Keys - {f}| == |p.pending| - 1;
  }

  lemma PendingRaises(t: Tools, b: Budget, rows: seq<Row>, p: Pool, bound: nat, f: Future)
    requires PoolInv(t, b, rows, p, bound) && f in p.pending && f < |rows| && PrepareRow(t, b, rows[f]).Err?
    ensures RaisedBy(t, b, rows, bound, PrepareRow(t, b, rows[f]).error)
  {
    hide PrepareRow;
    PendingIsRaisable(t, b, rows, p, bound, f);
  }

  /** While a raisable row waits to be submitted, some pending row succeeds. */
  lemma SomeoneSucceeds(t: Tools, b: Budget, rows: seq<Row>, p: Pool, bound: nat, j: nat) returns (f: Future)
    requires PoolInv(t, b, rows, p, bound) && Raisable(t, b, rows, bound, j) && p.next <= j
    ensures f in p.pending && f < |rows| && PrepareRow(t, b, rows[f]).Ok?
  {
    hide PrepareRow, SlotHolds;
    if forall f :: f in p.pending ==> PrepareRow(t, b, rows[f]).Err? {
      SubsetSize(p.pending.Keys, FailingRows(t, b, rows, j));
    }
    f :| f in p.pending && PrepareRow(t, b, rows[f]).Ok?;
  }

  lemma FailingIsPending(t: Tools, b: Budget, rows: seq<Row>, p: Pool, bound: nat, j: nat)
    requires PoolInv(t, b, rows, p, bound) && j < p.next && PrepareRow(t, b, rows[j]).Err?
    ensures j in p.pending
  {
    hide PrepareRow;
    assert SlotHolds(t, b, rows, j, p.selected[j], j < p.next && j !in p.pending);
  }

  /** A pending future can settle, into the error of its row if that fails. */
  lemma SomeSettling(t: Tools, b: Budget, rows: seq<Row>, p: Pool, bound: nat, f: Future) returns (out: Result<Pool, PrepareError>)
    requires PoolInv(t, b, rows, p, bound) && f in p.pending
    ensures f < |rows| && Settles(t, b, rows, p, f, out) && (out.Err? <==> PrepareRow(t, b, rows[f]).Err?)
    ensures out.Err? ==> out.error == PrepareRow(t, b, rows[f]).error
  {
    hide PrepareRow;
    match PrepareRow(t, b, rows[f])
    case Err(e) => out := Err(e);
    case Ok(prepared) =>
      out := Ok(Pool(p.selected[f := Some(Sample(f, rows[f], prepared))],
                     Replaced(p.pending, f, p.next, p.next < |rows|), Min(p.next + 1, |rows|)));
  }

  /** An order of completion in which row j's failure is the one raised: only successes finish before it. */
  lemma RaceTo(t: Tools, b: Budget, rows: seq<Row>, bound: nat, j: nat) returns (order: seq<Future>)
    requires Raisable(t, b, rows, bound, j)
    ensures Plays(t, b, rows, Start(rows, bound), order, Err(PrepareRow(t, b, rows[j]).error))
    ensures forall i :: 0 <= i < |order| - 1 ==> order[i] < |rows| && PrepareRow(t, b, rows[order[i]]).Ok?
  {
    var p := Start(rows, bound);
    StartKeeps(t, b, rows, bound);
    order := [];
    PlaysNothing(t, b, rows, p);
    hide PrepareRow, PoolInv, Settles, Plays;
    while p.next <= j
      invariant PoolInv(t, b, rows, p, bound)
      invariant Plays(t, b, rows, Start(rows, bound), order, Ok(p))
      invariant forall i :: 0 <= i < |order| ==> order[i] < |rows| && PrepareRow(t, b, rows[order[i]]).Ok?
      decreases |rows| - p.next
    {
      var f := SomeoneSucceeds(t, b, rows, p, bound, j);
      var out := SomeSettling(t, b, rows, p, bound, f);
      SuccessSettles(t, b, rows, p, bound, f, out.value);
      PlaysNext(t, b, rows, Start(rows, bound), order, p, f, out);
      order, p := order + [f], out.value;
    }
    FailingIsPending(t, b, rows, p, bound, j);
    var out := SomeSettling(t, b, rows, p, bound, j);
    PlaysNext(t, b, rows, Start(rows, bound), order, p, j, out);
    order := order + [j];
  }

  /** Whatever finishes in whatever order, the books are kept until an error, and the error is a raisable one. */
  lemma {:induction false} PlaysKeeps(t: Tools, b: Budget, rows: seq<Row>, bound: nat, order: seq<Future>, out: Result<Pool, PrepareError>)
    requires Plays(t, b, rows, Start(rows, bound), order, out)
    ensures out.Ok? ==> PoolInv(t, b, rows, out.value, bound)
    ensures out.Err? ==> RaisedBy(t, b, rows, bound, out.error)
    decreases |order|
  {
    hide PrepareRow, PoolInv, RaisedBy, Settles;
    if order == [] {
      StartKeeps(t, b, rows, bound);
    } else {
      var front, f := order[..|order| - 1], order[|order| - 1];
      var m: Pool :| Plays(t, b, rows, Start(rows, bound), front, Ok(m)) && Settles(t, b, rows, m, f, out);
      PlaysKeeps(t, b, rows, bound, front, Ok(m));
      SettlesKeeps(t, b, rows, m, bound, f, out);
    }
  }

  lemma SettlesKeeps(t: Tools, b: Budget, rows: seq<Row>, m: Pool, bound: nat, f: Future, out: Result<Pool, PrepareError>)
    requires PoolInv(t, b, rows, m, bound) && Settles(t, b, rows, m, f, out)
    ensures out.Ok? ==> PoolInv(t, b, rows, out.value, bound)
    ensures out.Err? ==> RaisedBy(t, b, rows, bound, out.error)
  {
    hide PrepareRow, PoolInv, RaisedBy;
    if out.Ok? {
      SuccessSettles(t, b, rows, m, bound, f, out.value);
    } else {
      PendingRaises(t, b, rows, m, bound, f);
    }
  }

  /** The errors that some order of completion raises are exactly those of the first `bound` failing rows. */
  lemma CanRaiseExactly(t: Tools, b: Budget, rows: seq<Row>, bound: nat, e: PrepareError)
    ensures CanRaise(t, b, rows, bound, e) <==> RaisedBy(t, b, rows, bound, e)
  {
    hide PrepareRow, Plays, Raisable;
    if CanRaise(t, b, rows, bound, e) {
      var order :| Plays(t, b, rows, Start(rows, bound), order, Err(e));
      PlaysKeeps(t, b, rows, bound, order, Err(e));
    }
    if RaisedBy(t, b, rows, bound, e) {
      var j: nat :| j < |rows| && Raisable(t, b, rows, bound, j) && PrepareRow(t, b, rows[j]) == Err(e);
      var order := RaceTo(t, b, rows, bound, j);
    }
  }

  // ---------- the rounds of the pool ----------

  lemma StillPending(left: set<Future>, keys: set<Future>, keys': set<Future>, f: Future, added: set<Future>)
    requires f in left && left <= keys && keys' == keys - {f} + added
    ensures left - {f} <= keys' && |left - {f}| == |left| - 1
  {
  }

  function Values(slots: seq<Option<Sample>>): seq<Sample>
    requires forall i :: 0 <= i < |slots| ==> slots[i].Some?
  {
    seq(|slots|, i requires 0 <= i < |slots| => slots[i].value)
  }

  /** Settles any one of the finished futures that are left. */
  method SettleOne(t: Tools, b: Budget, rows: seq<Row>, p: Pool, bound: nat, left: set<Future>, ghost base: Pool, ghost before: seq<Future>)
    returns (r: Result<Pool, PrepareError>, left': set<Future>, ghost order: seq<Future>)
    requires PoolInv(t, b, rows, p, bound) && left != {} && left <= p.pending.Keys && Plays(t, b, rows, base, before, Ok(p))
    ensures Plays(t, b, rows, base, order, r)
    ensures r.Err? ==> RaisedBy(t, b, rows, bound, r.error)
    ensures r.Ok? ==> PoolInv(t, b, rows, r.value, bound) && Remaining(rows, r.value) == Remaining(rows, p) - 1
    ensures r.Ok? ==> left' <= r.value.pending.Keys && |left'| == |left| - 1
  {
    hide PrepareRow, PoolInv, RaisedBy, Settles, Plays, Remaining;
    var f :| f in left;
    r := Settle(t, b, rows, p, bound, f);
    left' := left - {f};
    PlaysNext(t, b, rows, base, before, p, f, r);
    order := before + [f];
    if r.Ok? {
      StillPending(left, p.pending.Keys, r.value.pending.Keys, f, if p.next < |rows| then {p.next} else {});
    }
  }

  /** One round: settle a set of finished futures, in any order. */
  method SettleAll(t: Tools, b: Budget, rows: seq<Row>, start: Pool, bound: nat, finished: set<Future>, ghost base: Pool, ghost before: seq<Future>)
    returns (r: Result<Pool, PrepareError>, ghost order: seq<Future>)
    requires PoolInv(t, b, rows, start, bound) && finished <= start.pending.Keys && Plays(t, b, rows, base, before, Ok(start))
    ensures Plays(t, b, rows, base, order, r)
    ensures r.Err? ==> RaisedBy(t, b, rows, bound, r.error)
    ensures r.Ok? ==> PoolInv(t, b, rows, r.value, bound) && Remaining(rows, r.value) == Remaining(rows, start) - |finished|
  {
    hide PrepareRow, PoolInv, RaisedBy, Settles, Plays, Remaining;
    var p, left := start, finished;
    order := before;
    while left != {}
      invariant PoolInv(t, b, rows, p, bound) && left <= p.pending.Keys
      invariant Remaining(rows, p) == Remaining(rows, start) - |finished| + |left|
      invariant Plays(t, b, rows, base, order, Ok(p))
      decreases |left|
    {
      r, left, order := SettleOne(t, b, rows, p, bound, left, base, order);
      if r.Err? {
        return;
      }
      p := r.value;
    }
    return Ok(p), order;
  }

  /** These futures, finishing in this order, leave nothing pending and every index submitted. */
  ghost predicate Finishes(t: Tools, b: Budget, rows: seq<Row>, start: Pool, order: seq<Future>) {
    exists p: Pool :: p.pending == map[] && p.next == |rows| && Plays(t, b, rows, start, order, Ok(p))
  }

  /** The rounds: wait for any nonempty set of futures, then settle them. */
  method Rounds(t: Tools, b: Budget, rows: seq<Row>, start: Pool, bound: nat) returns (r: Result<seq<Sample>, PrepareError>, ghost order: seq<Future>)
    requires bound > 0 && PoolInv(t, b, rows, start, bound)
    ensures r.Err? ==> Plays(t, b, rows, start, order, Err(r.error)) && RaisedBy(t, b, rows, bound, r.error)
    ensures r.Ok? ==> Finishes(t, b, rows, start, order) && IsSequential(t, b, rows, r.value)
  {
    hide PrepareRow, PoolInv, IsSequential, RaisedBy, Plays;
    PoolBounds(t, b, rows, start, bound);
    var p := start;
    order := [];
    PlaysNothing(t, b, rows, start);
    while p.pending != map[]
      invariant PoolInv(t, b, rows, p, bound) && p.next <= |rows|
      invariant Plays(t, b, rows, start, order, Ok(p))
      decreases Remaining(rows, p)
    {
      assert p.pending.Keys != {};
      var finished: set<Future> :| finished != {} && finished <= p.pending.Keys;
      var settled;
      settled, order := SettleAll(t, b, rows, p, bound, finished, start, order);
      if settled.Err? {
        return Err(settled.error), order;
      }
      p := settled.value;
      PoolBounds(t, b, rows, p, bound);
    }
    PoolDone(t, b, rows, p, bound);
    return Ok(Values(p.selected)), order;
  }

  /**
   After any order of completions: each future finished once, exactly the first indices were
   submitted, in order and once each, and pending are those of them that did not finish, at most
   `bound`.
   */
  lemma {:induction false} PoolAlong(t: Tools, b: Budget, rows: seq<Row>, bound: nat, order: seq<Future>, p: Pool)
    requires Plays(t, b, rows, Start(rows, bound), order, Ok(p))
    ensures |p.pending| <= bound && p.next == Min(bound + |order|, |rows|)
    ensures Distinct(order) && forall f :: f in order ==> f < p.next
    ensures forall f: nat :: f in p.pending <==> f < p.next && f !in order
    decreases |order|
  {
    hide PrepareRow, PoolInv, Settles;
    PlaysKeeps(t, b, rows, bound, order, Ok(p));
    PoolBounds(t, b, rows, p, bound);
    if order != [] {
      var front, f := order[..|order| - 1], order[|order| - 1];
      var m: Pool :| Plays(t, b, rows, Start(rows, bound), front, Ok(m)) && Settles(t, b, rows, m, f, Ok(p));
      PoolAlong(t, b, rows, bound, front, m);
      PlaysKeeps(t, b, rows, bound, front, Ok(m));
      SettledFuture(t, b, rows, m, f, p, bound);
      hide Plays;
      assert order == front + [f];
      assert forall g: nat :: g in order <==> g in front || g == f;
    }
  }

  lemma SettledFuture(t: Tools, b: Budget, rows: seq<Row>, m: Pool, f: Future, p: Pool, bound: nat)
    requires PoolInv(t, b, rows, m, bound) && Settles(t, b, rows, m, f, Ok(p))
    ensures f in m.pending && f < m.next <= |rows| && p.next == Min(m.next + 1, |rows|)
    ensures forall g: nat :: g in p.pending <==> (g in m.pending && g != f) || (g == m.next && m.next < |rows|)
  {
    hide PrepareRow;
    SuccessSettles(t, b, rows, m, bound, f, p);
    assert forall g: nat :: g in p.pending <==> g in p.pending.Keys;
  }

  lemma PoolBounds(t: Tools, b: Budget, rows: seq<Row>, p: Pool, bound: nat)
    requires PoolInv(t, b, rows, p, bound)
    ensures p.next <= |rows| && |p.pending| <= bound
  {
  }

  /** With nothing pending every slot is filled, and filled as the sequential loop would. */
  lemma PoolDone(t: Tools, b: Budget, rows: seq<Row>, p: Pool, bound: nat)
    requires bound > 0 && PoolInv(t, b, rows, p, bound) && p.pending == map[]
    ensures p.next == |rows| && forall i :: 0 <= i < |p.selected| ==> p.selected[i].Some?
    ensures IsSequential(t, b, rows, Values(p.selected))
  {
    hide PrepareRow;
    forall i | 0 <= i < |rows|
      ensures PrepareRow(t, b, rows[i]).Ok? && p.selected[i] == Some(Sample(i, rows[i], PrepareRow(t, b, rows[i]).value))
    {
      assert SlotHolds(t, b, rows, i, p.selected[i], true);
    }
  }

  /** The bound of the pool: twice the workers that are started. */
  function Bound(workers: int, rows: seq<Row>): (bound: nat)
    requires workers > 0
    ensures if workers <= |rows| then bound == workers + workers else bound == |rows| + |rows|
  {
    2 * Min(workers, |rows|)
  }

  lemma FailureShows(t: Tools, b: Budget, rows: seq<Row>, bound: nat, e: PrepareError)
    requires RaisedBy(t, b, rows, bound, e)
    ensures !AllPrepare(t, b, rows)
  {
    hide PrepareRow;
    var j: nat :| Raisable(t, b, rows, bound, j) && PrepareRow(t, b, rows[j]) == Err(e);
  }

  /**
   The parallel preparer.  On success the list is the sequential one; it fails only with the error
   of one of the first `2 * workers` failing rows.  What it does follows the order in which futures
   finish, so `PoolAlong` speaks of it: indices are submitted in order, each once, and no more than
   `2 * workers` are ever pending.
   */
  method PrepareParallel(t: Tools, b: Budget, rows: seq<Row>, workers: int)
    returns (r: Result<seq<Sample>, PrepareError>, ghost order: seq<Future>)
    ensures r.Ok? <==> workers > 0 && AllPrepare(t, b, rows)
    ensures r.Ok? ==> IsSequential(t, b, rows, r.value) && Finishes(t, b, rows, Start(rows, Bound(workers, rows)), order)
    ensures workers <= 0 ==> r == Err(BadWorkers)
    ensures r.Err? && workers > 0 ==>
      && Plays(t, b, rows, Start(rows, Bound(workers, rows)), order, Err(r.error))
      && CanRaise(t, b, rows, Bound(workers, rows), r.error) && RaisedBy(t, b, rows, Bound(workers, rows), r.error)
  {
    hide PrepareRow, RaisedBy, Plays, PoolInv;
    order := [];
    if workers <= 0 {
      return Err(BadWorkers), order;
    }
    var bound := Bound(workers, rows);
    if rows == [] {
      PlaysNothing(t, b, rows, Start(rows, bound));
      assert Start(rows, bound).pending == map[];
      return Ok([]), order;
    }
    var p := Fill(rows, bound);
    StartKeeps(t, b, rows, bound);
    r, order := Rounds(t, b, rows, p, bound);
    if r.Err? {
      FailureShows(t, b, rows, bound, r.error);
    }
  }

  /** All failures that can be raised are the same. */
  ghost predicate FailsAlike(t: Tools, b: Budget, rows: seq<Row>, bound: nat) {
    forall i: nat, j: nat :: i < |rows| && j < |rows| && Raisable(t, b, rows, bound, i) && Raisable(t, b, rows, bound, j) ==>
      PrepareRow(t, b, rows[i]) == PrepareRow(t, b, rows[j])
  }

  /** The sequential failure is one of those that the pool can raise. */
  lemma FirstFailureIsRaisable(t: Tools, b: Budget, rows: seq<Row>, bound: nat, i: nat)
    requires i < |rows| && PrepareRow(t, b, rows[i]).Err? && AllPrepare(t, b, rows[..i]) && bound > 0
    ensures Raisable(t, b, rows, bound, i)
  {
    hide PrepareRow;
    forall k | 0 <= k < i ensures PrepareRow(t, b, rows[k]).Ok? {
      assert rows[..i][k] == rows[k];
    }
    assert FailingRows(t, b, rows, i) == {};
  }

  /**
   The two preparers succeed on the same inputs, and then with the same list, unless the data set
   is empty and the budget unusable: there the sequential one raises and the parallel one returns
   [].  They also raise the same error if all failures that the pool can raise are the same;
   otherwise `Disagree` shows an order of completion in which they raise different errors.
   */
  method Compare(t: Tools, b: Budget, rows: seq<Row>, workers: int)
    returns (sequential: Result<seq<Sample>, PrepareError>, parallel: Result<seq<Sample>, PrepareError>)
    requires workers > 0
    ensures (sequential.Ok? <==> parallel.Ok?) <==> rows != [] || Usable(b)
    ensures sequential.Ok? ==> parallel == sequential
    ensures rows != [] && FailsAlike(t, b, rows, Bound(workers, rows)) ==> parallel == sequential
  {
    sequential := Prepare(t, b, rows);
    ghost var order;
    parallel, order := PrepareParallel(t, b, rows, workers);
    if sequential.Ok? {
      assert sequential.value == parallel.value;
    } else if rows != [] {
      var bound := Bound(workers, rows);
      FirstError(t, b, rows, bound, sequential.error);
    }
  }

  lemma FirstError(t: Tools, b: Budget, rows: seq<Row>, bound: nat, e: PrepareError)
    requires rows != [] && bound > 0
    requires if Usable(b) then exists i :: 0 <= i < |rows| && PrepareRow(t, b, rows[i]) == Err(e) && AllPrepare(t, b, rows[..i]) else e == BadBudget
    ensures RaisedBy(t, b, rows, bound, e)
  {
    var i: nat := 0;
    if Usable(b) {
      i :| 0 <= i < |rows| && PrepareRow(t, b, rows[i]) == Err(e) && AllPrepare(t, b, rows[..i]);
    }
    FirstFailureIsRaisable(t, b, rows, bound, i);
  }

  /** Unless all raisable failures are alike, some order of completion raises what the sequential preparer does not. */
  method Disagree(t: Tools, b: Budget, rows: seq<Row>, workers: int)
    returns (sequential: Result<seq<Sample>, PrepareError>, ghost other: PrepareError)
    requires workers > 0 && !FailsAlike(t, b, rows, Bound(workers, rows))
    ensures sequential.Err? && CanRaise(t, b, rows, Bound(workers, rows), other) && other != sequential.error
  {
    hide PrepareRow, Raisable, CanRaise;
    sequential := Prepare(t, b, rows);
    ghost var bound := Bound(workers, rows);
    ghost var i: nat, j: nat :| i < |rows| && j < |rows| && Raisable(t, b, rows, bound, i) && Raisable(t, b, rows, bound, j)
      && PrepareRow(t, b, rows[i]) != PrepareRow(t, b, rows[j]);
    RaisableFails(t, b, rows, bound, i);
    RaisableFails(t, b, rows, bound, j);
    ghost var k := if PrepareRow(t, b, rows[i]) != Err(sequential.error) then i else j;
    other := PrepareRow(t, b, rows[k]).error;
    CanRaiseExactly(t, b, rows, bound, other);
  }

  lemma RaisableFails(t: Tools, b: Budget, rows: seq<Row>, bound: nat, j: nat)
    requires Raisable(t, b, rows, bound, j)
    ensures j < |rows| && PrepareRow(t, b, rows[j]).Err? && !AllPrepare(t, b, rows)
  {
    hide PrepareRow;
  }
}
