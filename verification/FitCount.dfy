/** Fitting the largest haystack into a context length: doubling, then binary search. */
module FitCount {
  import opened Outcomes

  datatype FitError = DoesNotFit(minimum: int)

  /** The measured length of the payload built for a count. */
  function Length<P>(build: nat -> P, countTokens: P -> int, reserve: int, count: nat): int {
    countTokens(build(count)) + reserve
  }

  ghost predicate Fits<P(!new)>(build: nat -> P, countTokens: P -> int, reserve: int, target: int, count: nat) {
    countTokens(build(count)) + reserve <= target
  }

  /** From some count on, nothing fits: without this the doubling loop has no end. */
  ghost predicate Outgrows<P(!new)>(build: nat -> P, countTokens: P -> int, reserve: int, target: int, beyond: nat) {
    forall c: nat :: c >= beyond ==> !Fits(build, countTokens, reserve, target, c)
  }

  ghost predicate Monotone<P(!new)>(build: nat -> P, countTokens: P -> int, reserve: int) {
    forall a: nat, b: nat :: a <= b ==> Length(build, countTokens, reserve, a) <= Length(build, countTokens, reserve, b)
  }

  ghost function PowerOfTwo(k: nat): nat { if k == 0 then 1 else 2 * PowerOfTwo(k - 1) }

  /** Two to the k fits, as do all smaller powers of two, and the next one does not. */
  ghost predicate LastFittingPower<P(!new)>(build: nat -> P, countTokens: P -> int, reserve: int, target: int, k: nat) {
    && (forall j: nat :: j <= k ==> Fits(build, countTokens, reserve, target, PowerOfTwo(j)))
    && !Fits(build, countTokens, reserve, target, PowerOfTwo(k + 1))
  }

  /** Doubling: the last power of two up to which all fit, and its double, which does not fit. */
  method Bracket<P(!new)>(build: nat -> P, countTokens: P -> int, reserve: int, target: int, ghost beyond: nat)
    returns (lower: nat, upper: nat, ghost k: nat)
    requires Outgrows(build, countTokens, reserve, target, beyond) && Fits(build, countTokens, reserve, target, 1)
    ensures 1 <= lower < upper && Fits(build, countTokens, reserve, target, lower) && !Fits(build, countTokens, reserve, target, upper)
    ensures LastFittingPower(build, countTokens, reserve, target, k) && lower == PowerOfTwo(k) && upper == PowerOfTwo(k + 1)
  {
    lower, upper, k := 1, 2, 0;
    var upperLength := Length(build, countTokens, reserve, upper);
    while upperLength <= target
      invariant 1 <= lower < upper && Fits(build, countTokens, reserve, target, lower)
      invariant lower == PowerOfTwo(k) && upper == PowerOfTwo(k + 1)
      invariant forall j: nat :: j <= k ==> Fits(build, countTokens, reserve, target, PowerOfTwo(j))
      invariant upperLength == Length(build, countTokens, reserve, upper)
      decreases beyond - upper
    {
      assert Fits(build, countTokens, reserve, target, upper);
      lower := upper;
      upper := upper * 2;
      k := k + 1;
      upperLength := Length(build, countTokens, reserve, upper);
    }
  }

  /**
   The returned payload is that of a fitting count whose successor does not fit, with its own
   length, between the last power of two up to which all powers fit and the next; if lengths never
   shrink as the count grows, it is the largest fitting count.  The call fails exactly when a single
   repetition does not fit.
   */
  method Fit<P(!new)>(build: nat -> P, countTokens: P -> int, reserve: int, target: int, ghost beyond: nat)
    returns (r: Result<(P, int), FitError>, ghost count: nat, ghost k: nat)
    requires Outgrows(build, countTokens, reserve, target, beyond)
    ensures r.Ok? <==> Fits(build, countTokens, reserve, target, 1)
    ensures r.Err? ==> r.error.minimum == countTokens(build(1)) + reserve
    ensures r.Ok? ==>
      && count >= 1 && r.value == (build(count), countTokens(build(count)) + reserve)
      && LastFittingPower(build, countTokens, reserve, target, k) && PowerOfTwo(k) <= count < PowerOfTwo(k + 1)
      && Fits(build, countTokens, reserve, target, count) && !Fits(build, countTokens, reserve, target, count + 1)
    ensures r.Ok? && Monotone(build, countTokens, reserve) ==>
      forall c: nat :: Fits(build, countTokens, reserve, target, c) <==> c <= count
  {
    var bestPayload := build(1);
    var bestLength := countTokens(bestPayload) + reserve;
    count, k := 1, 0;
    if bestLength > target {
      return Err(DoesNotFit(bestLength)), count, k;
    }
    var lower, upper;
    lower, upper, k := Bracket(build, countTokens, reserve, target, beyond);
    ghost var low, high := lower, upper;
    while lower <= upper
      invariant low <= lower <= upper + 1 && upper <= high && 1 <= count
      invariant bestPayload == build(count) && bestLength == Length(build, countTokens, reserve, count) <= target
      invariant lower == low || count == lower - 1
      invariant upper == high || !Fits(build, countTokens, reserve, target, upper + 1)
    {
      var middle := (lower + upper) / 2;
      var payload := build(middle);
      var length := countTokens(payload) + reserve;
      if length <= target {
        bestPayload, bestLength, count := payload, length, middle;
        lower := middle + 1;
      } else {
        upper := middle - 1;
      }
    }
    if Monotone(build, countTokens, reserve) {
      forall c: nat ensures Fits(build, countTokens, reserve, target, c) <==> c <= count {
        assert c <= count ==> Length(build, countTokens, reserve, c) <= Length(build, countTokens, reserve, count);
        assert c > count ==> Length(build, countTokens, reserve, count + 1) <= Length(build, countTokens, reserve, c);
      }
    }
    return Ok((bestPayload, bestLength)), count, k;
  }
}
