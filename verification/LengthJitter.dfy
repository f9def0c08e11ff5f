/** Balanced length jitter for synthetic request traces. */
module LengthJitter {
  import opened Outcomes
  import opened Sorting

  datatype JitterError = BadSizes | BadFraction | OneLengthOnly

  /** n is the integer nearest to x, the even one where two are equally near. */
  ghost predicate Nearest(n: int, x: real) {
    && n as real - 0.5 <= x <= n as real + 0.5
    && (x == n as real - 0.5 || x == n as real + 0.5 ==> n % 2 == 0)
  }

  /** Round half to even. */
  function Round(x: real): (n: int)
    ensures Nearest(n, x)
  {
    var f := x.Floor;
    var rest := x - f as real;
    if rest < 0.5 || (rest == 0.5 && f % 2 == 0) then f else f + 1
  }

  /**
   The lowest length lies below the target by the given fraction of it, to the nearest integer, but
   by at least one, and never below one.
   */
  ghost predicate Lowest(lower: nat, target: nat, fraction: real) {
    exists n: int :: LowestBy(n, lower, target, fraction)
  }

  ghost predicate LowestBy(n: int, lower: nat, target: nat, fraction: real) {
    && Nearest(n, target as real * fraction)
    && (if n <= 1 then lower == (if target > 1 then target - 1 else 1)
        else if n < target then lower == target - n
        else lower == 1)
  }

  function Lower(target: nat, fraction: real): (r: nat)
    requires target > 0
    ensures 1 <= r <= target && (r == target <==> target == 1)
    ensures Lowest(r, target, fraction)
  {
    var tokens := if Round(target as real * fraction) > 1 then Round(target as real * fraction) else 1;
    var lower := if target - tokens > 1 then target - tokens else 1;
    assert LowestBy(Round(target as real * fraction), lower, target, fraction);
    lower
  }

  /** lower, lower + 1, ..., target. */
  function Candidates(lower: nat, target: nat): (r: seq<nat>)
    requires lower <= target
    ensures |r| == target - lower + 1 && forall i :: 0 <= i < |r| ==> r[i] == lower + i
  {
    seq(target - lower + 1, i => lower + i)
  }

  /** Replaces the last length if all lengths are equal. */
  function Repair(lengths: seq<nat>, candidates: seq<nat>): (r: seq<nat>)
    requires lengths != [] && candidates != []
    ensures |r| == |lengths|
  {
    if |SetOf(lengths)| < 2 then
      lengths[|lengths| - 1 := if lengths[0] != candidates[0] then candidates[0] else candidates[|candidates| - 1]]
    else lengths
  }

  /** All in range, and any two lengths of the range occur equally often, give or take one. */
  ghost predicate Balanced(lengths: seq<nat>, lower: nat, target: nat) {
    && (forall i :: 0 <= i < |lengths| ==> lower <= lengths[i] <= target)
    && forall u: nat, v: nat :: lower <= u <= target && lower <= v <= target ==> multiset(lengths)[u] <= multiset(lengths)[v] + 1
  }

  lemma {:induction false} CandidateOnce(lower: nat, target: nat, v: nat)
    requires lower <= target
    ensures multiset(Candidates(lower, target))[v] == if lower <= v <= target then 1 else 0
    decreases target
  {
    if lower < target {
      CandidateOnce(lower, target - 1, v);
      assert Candidates(lower, target) == Candidates(lower, target - 1) + [target];
    } else {
      assert Candidates(lower, target) == [lower];
    }
  }

  /** A whole number of cycles. */
  ghost predicate Even(base: seq<nat>, lower: nat, target: nat, rounds: nat) {
    forall v: nat :: multiset(base)[v] == if lower <= v <= target then rounds else 0
  }

  lemma EvenStep(base: seq<nat>, cycle: seq<nat>, lower: nat, target: nat, rounds: nat)
    requires lower <= target && Even(base, lower, target, rounds) && multiset(cycle) == multiset(Candidates(lower, target))
    ensures Even(base + cycle, lower, target, rounds + 1)
  {
    forall v: nat ensures multiset(base + cycle)[v] == if lower <= v <= target then rounds + 1 else 0 {
      CandidateOnce(lower, target, v);
    }
  }

  /** Cutting the last cycle short leaves the lengths balanced. */
  lemma CutIsBalanced(base: seq<nat>, cycle: seq<nat>, lower: nat, target: nat, rounds: nat, k: nat)
    requires lower <= target && Even(base, lower, target, rounds) && multiset(cycle) == multiset(Candidates(lower, target))
    requires k <= |cycle|
    ensures Balanced(base + cycle[..k], lower, target)
  {
    var all := base + cycle[..k];
    forall v: nat ensures multiset(all)[v] <= (if lower <= v <= target then rounds + 1 else 0)
      && (lower <= v <= target ==> multiset(all)[v] >= rounds)
    {
      CandidateOnce(lower, target, v);
      assert cycle == cycle[..k] + cycle[k..];
      assert multiset(cycle)[v] == multiset(cycle[..k])[v] + multiset(cycle[k..])[v];
    }
    forall i | 0 <= i < |all| ensures lower <= all[i] <= target {
      assert all[i] in all && all[i] in multiset(all);
    }
  }

  /** Two different lengths always survive the cut, so there is nothing to repair. */
  lemma NothingToRepair(base: seq<nat>, cycle: seq<nat>, lower: nat, target: nat, rounds: nat, k: nat)
    requires lower < target && Even(base, lower, target, rounds) && multiset(cycle) == multiset(Candidates(lower, target))
    requires k <= |cycle| && |base| + k >= 2 && (rounds == 0 ==> base == [])
    ensures |SetOf(base + cycle[..k])| >= 2
  {
    var all := base + cycle[..k];
    if rounds > 0 {
      assert multiset(base)[lower] >= 1 && multiset(base)[target] >= 1;
      assert lower in base && target in base;
      TwoMembers(all, lower, target);
    } else {
      CandidateOnce(lower, target, cycle[0]);
      CountedOnce(cycle, 0, 1);
      assert all[0] == cycle[0] && all[1] == cycle[1];
      TwoMembers(all, cycle[0], cycle[1]);
    }
  }

  lemma BalancedPermutes(a: seq<nat>, b: seq<nat>, lower: nat, target: nat)
    requires multiset(a) == multiset(b) && Balanced(a, lower, target)
    ensures Balanced(b, lower, target) && |b| == |a|
  {
    assert |a| == |multiset(a)| == |multiset(b)| == |b|;
    forall i | 0 <= i < |b| ensures lower <= b[i] <= target {
      MultisetMember(a, b, b[i]);
    }
  }

  /** Shuffled cycles until there are enough, cut to size. */
  method Cycles(lower: nat, target: nat, count: nat) returns (lengths: seq<nat>)
    requires lower < target && count >= 2
    ensures |lengths| == count && Balanced(lengths, lower, target) && |SetOf(lengths)| >= 2
  {
    hide Balanced, Candidates;
    var candidates := Candidates(lower, target);
    ghost var base, cycle, rounds: nat := [], [], 0;
    lengths := [];
    while |lengths| < count
      invariant if lengths == [] then base == cycle == [] && rounds == 0 else
        && lengths == base + cycle && |base| < count && multiset(cycle) == multiset(candidates) && (rounds == 0 ==> base == [])
      invariant Even(base, lower, target, rounds)
      decreases count - |lengths|
    {
      var next: seq<nat> :| multiset(next) == multiset(candidates);
      assert |next| == |multiset(next)| == |multiset(candidates)| == |candidates|;
      if lengths != [] {
        EvenStep(base, cycle, lower, target, rounds);
        base, rounds := lengths, rounds + 1;
      }
      cycle := next;
      lengths := lengths + next;
    }
    var k := count - |base|;
    assert lengths[..count] == base + cycle[..k];
    CutIsBalanced(base, cycle, lower, target, rounds, k);
    NothingToRepair(base, cycle, lower, target, rounds, k);
    lengths := lengths[..count];
  }

  /**
   For every shuffle: all lengths lie between the lowest length and the target, any two lengths in
   between occur equally often within one, and there are two different ones before any repair, so none
   is made; the call fails exactly on bad sizes or fractions, or when variation is wanted and the
   target is 1.
   */
  method Jitter(target: int, count: int, fraction: real, vary: bool) returns (r: Result<seq<nat>, JitterError>, ghost cut: seq<nat>)
    ensures r.Ok? <==>
      && target > 0 && count > 0 && 0.0 <= fraction < 1.0
      && (vary && count != 1 && fraction != 0.0 ==> target != 1)
    ensures target <= 0 || count <= 0 ==> r == Err(BadSizes)
    ensures target > 0 && count > 0 && !(0.0 <= fraction < 1.0) ==> r == Err(BadFraction)
    ensures r.Err? && target > 0 && count > 0 && 0.0 <= fraction < 1.0 ==> r == Err(OneLengthOnly)
    ensures r.Ok? ==> |r.value| == count
    ensures r.Ok? && !(vary && count != 1 && fraction != 0.0) ==> forall i :: 0 <= i < count ==> r.value[i] == target
    ensures r.Ok? && vary && count != 1 && fraction != 0.0 ==> Balanced(r.value, Lower(target, fraction), target)
    ensures r.Ok? && vary && count != 1 && fraction != 0.0 ==>
      exists lower: nat :: Lowest(lower, target, fraction) && Balanced(r.value, lower, target)
    ensures r.Ok? && vary && count != 1 && fraction != 0.0 ==> |SetOf(cut)| >= 2 && multiset(r.value) == multiset(cut)
  {
    hide Balanced, Lower, Lowest;
    cut := [];
    if target <= 0 || count <= 0 {
      return Err(BadSizes), cut;
    }
    if !(0.0 <= fraction < 1.0) {
      return Err(BadFraction), cut;
    }
    if !vary || count == 1 || fraction == 0.0 {
      return Ok(seq(count, i => target)), cut;
    }
    var lower := Lower(target, fraction);
    if |Candidates(lower, target)| == 1 {
      return Err(OneLengthOnly), cut;
    }
    var lengths := Cycles(lower, target, count);
    var fixed := Repair(lengths, Candidates(lower, target));
    cut := lengths;
    var shuffled: seq<nat> :| multiset(shuffled) == multiset(fixed);
    BalancedPermutes(fixed, shuffled, lower, target);
    return Ok(shuffled), cut;
  }
}
