/**
 * The conservative crawling AI: its weighting helpers and determine_action.
 *
 * Floating-point numbers are modelled as reals. The two probability
 * vectors, which the agent obtains from a probability handler, are inputs,
 * and random.random() is the pair of inputs u1 and u2 in [0, 1).
 * random.choices is modelled as CPython computes it: cumulative weights,
 * ValueError when their total is not positive, then bisect_right of
 * random() * total over all but the last cumulative weight.
 */
module ConservativeAgent {
  import opened Wrappers
  import opened Players
  import opened Dealing
  import opened Indexation
  import opened LocalGame

  // ---------------------------------------------------------------------------
  // Sums, normalise, elementwise_mul, compute_sampling_weights

  /** sum(arr), adding left to right. */
  function Sum(s: seq<real>): real
  {
    if s == [] then 0.0 else Sum(s[..|s| - 1]) + s[|s| - 1]
  }

  predicate NonNegative(s: seq<real>)
  {
    forall i :: 0 <= i < |s| ==> s[i] >= 0.0
  }

  /** normalise: every entry divided by the sum, or the input itself when the sum is 0. */
  function Normalise(arr: seq<real>): (r: seq<real>)
    ensures |r| == |arr|
  {
    var s := Sum(arr);
    if s != 0.0 then seq(|arr|, i requires 0 <= i < |arr| => arr[i] / s) else arr
  }

  lemma {:induction false} SumOfScaled(arr: seq<real>, s: real)
    requires s != 0.0
    ensures Sum(seq(|arr|, i requires 0 <= i < |arr| => arr[i] / s)) == Sum(arr) / s
  {
    if arr != [] {
      var init := arr[..|arr| - 1];
      var scaled := seq(|arr|, i requires 0 <= i < |arr| => arr[i] / s);
      assert scaled[..|arr| - 1] == seq(|init|, i requires 0 <= i < |init| => init[i] / s);
      SumOfScaled(init, s);
    }
  }

  lemma {:induction false} SumNonNegative(s: seq<real>)
    requires NonNegative(s)
    ensures Sum(s) >= 0.0
  {
    if s != [] {
      SumNonNegative(s[..|s| - 1]);
    }
  }

  /** A sum of non-negative entries is positive only if some entry is. */
  lemma {:induction false} PositiveSumHasPositiveEntry(s: seq<real>)
    requires NonNegative(s) && Sum(s) > 0.0
    ensures exists i :: 0 <= i < |s| && s[i] > 0.0
  {
    var init := s[..|s| - 1];
    if s[|s| - 1] <= 0.0 {
      PositiveSumHasPositiveEntry(init);
      var i :| 0 <= i < |init| && init[i] > 0.0;
      assert s[i] > 0.0;
    }
  }

  /** normalise divides by a non-zero sum, so the result sums to 1. */
  lemma NormaliseSumsToOne(arr: seq<real>)
    requires Sum(arr) != 0.0
    ensures Sum(Normalise(arr)) == 1.0
  {
    var s := Sum(arr);
    SumOfScaled(arr, s);
    DivideBySelf(s);
  }

  lemma DivideBySelf(s: real)
    requires s != 0.0
    ensures s / s == 1.0
  {
  }

  /** normalise keeps zero entries zero, and returns its input when the sum is 0. */
  lemma NormaliseKeepsZeros(arr: seq<real>)
    ensures forall i :: 0 <= i < |arr| && arr[i] == 0.0 ==> Normalise(arr)[i] == 0.0
    ensures Sum(arr) == 0.0 ==> Normalise(arr) == arr
  {
  }

  /** normalise keeps non-negative entries non-negative. */
  lemma NormaliseKeepsSign(arr: seq<real>)
    requires NonNegative(arr)
    ensures NonNegative(Normalise(arr))
  {
    var s := Sum(arr);
    SumNonNegative(arr);
    if s != 0.0 {
      forall i | 0 <= i < |arr|
        ensures Normalise(arr)[i] >= 0.0
      {
        DivideNonNegative(arr[i], s);
      }
    }
  }

  lemma DivideNonNegative(x: real, s: real)
    requires x >= 0.0 && s > 0.0
    ensures x / s >= 0.0
  {
  }

  /** elementwise_mul: zip stops at the shorter list. */
  function ElementwiseMul(first: seq<real>, second: seq<real>): (r: seq<real>)
    ensures |r| == if |first| < |second| then |first| else |second|
  {
    var n := if |first| < |second| then |first| else |second|;
    seq(n, i requires 0 <= i < n => first[i] * second[i])
  }

  /** A positive sum of products of non-negative factors needs a position where both factors are positive. */
  lemma PositiveProductSum(first: seq<real>, second: seq<real>)
    requires NonNegative(first) && NonNegative(second)
    ensures NonNegative(ElementwiseMul(first, second))
    ensures Sum(ElementwiseMul(first, second)) > 0.0 ==>
              exists i :: 0 <= i < |first| && i < |second| && first[i] > 0.0 && second[i] > 0.0
  {
    var prod := ElementwiseMul(first, second);
    assert NonNegative(prod) by {
      forall i | 0 <= i < |prod|
        ensures prod[i] >= 0.0
      {
        assert prod[i] == first[i] * second[i];
      }
    }
    if Sum(prod) > 0.0 {
      PositiveSumHasPositiveEntry(prod);
      var i :| 0 <= i < |prod| && prod[i] > 0.0;
      assert first[i] * second[i] > 0.0;
    }
  }

  /** The raw weights bet_probs[i]^3 * generic[i]^2 for the 88 bets. */
  function RawWeights(betProbs: seq<real>, genericProbs: seq<real>): (r: seq<real>)
    requires |betProbs| >= 88 && |genericProbs| >= 88
    ensures |r| == 88
  {
    seq(88, i requires 0 <= i < 88 => betProbs[i] * betProbs[i] * betProbs[i] * (genericProbs[i] * genericProbs[i]))
  }

  /**
   * compute_sampling_weights: the normalised raw weights, zero wherever the
   * bet is impossible and summing to 1 unless every raw weight cancels out.
   */
  function ComputeSamplingWeights(betProbs: seq<real>, genericProbs: seq<real>): (r: seq<real>)
    requires |betProbs| >= 88 && |genericProbs| >= 88
    ensures |r| == 88
    ensures forall i :: 0 <= i < 88 && betProbs[i] == 0.0 ==> r[i] == 0.0
    ensures Sum(RawWeights(betProbs, genericProbs)) != 0.0 ==> Sum(r) == 1.0
  {
    var raw := RawWeights(betProbs, genericProbs);
    NormaliseKeepsZeros(raw);
    if Sum(raw) != 0.0 then
      NormaliseSumsToOne(raw);
      Normalise(raw)
    else
      Normalise(raw)
  }

  /**
   * The sampling weights are 88 numbers, zero wherever the bet is
   * impossible, non-negative when the bet probabilities are, and summing to
   * 1 unless every raw weight cancels out.
   */
  lemma SamplingWeightsProperties(betProbs: seq<real>, genericProbs: seq<real>)
    requires |betProbs| >= 88 && |genericProbs| >= 88
    ensures forall i :: 0 <= i < 88 && betProbs[i] == 0.0 ==> ComputeSamplingWeights(betProbs, genericProbs)[i] == 0.0
    ensures (forall i :: 0 <= i < 88 ==> betProbs[i] >= 0.0) ==> NonNegative(ComputeSamplingWeights(betProbs, genericProbs))
    ensures Sum(RawWeights(betProbs, genericProbs)) != 0.0 ==> Sum(ComputeSamplingWeights(betProbs, genericProbs)) == 1.0
  {
    var raw := RawWeights(betProbs, genericProbs);
    NormaliseKeepsZeros(raw);
    if Sum(raw) != 0.0 {
      NormaliseSumsToOne(raw);
    }
    if forall i :: 0 <= i < 88 ==> betProbs[i] >= 0.0 {
      forall i | 0 <= i < 88
        ensures raw[i] >= 0.0
      {
        var b, g := betProbs[i], genericProbs[i];
        assert b * b >= 0.0;
        assert b * b * b >= 0.0;
        assert g * g >= 0.0;
      }
      NormaliseKeepsSign(raw);
    }
  }

  lemma {:induction false} EntryAtMostSum(s: seq<real>, i: int)
    requires NonNegative(s) && 0 <= i < |s|
    ensures s[i] <= Sum(s)
  {
    var init := s[..|s| - 1];
    if i < |s| - 1 {
      EntryAtMostSum(init, i);
    } else {
      SumNonNegative(init);
    }
  }

  // ---------------------------------------------------------------------------
  // random.choices

  /** itertools.accumulate: entry i is the sum of the weights up to and including i. */
  function Cumulative(weights: seq<real>): (r: seq<real>)
    ensures |r| == |weights|
  {
    seq(|weights|, i requires 0 <= i < |weights| => Sum(weights[..i + 1]))
  }

  /** bisect_right(a, x, lo, hi): the binary search of the bisect module. */
  function BisectRight(a: seq<real>, x: real, lo: int, hi: int): (r: int)
    requires 0 <= lo <= hi <= |a|
    ensures lo <= r <= hi
    decreases hi - lo
  {
    if lo < hi then
      var mid := (lo + hi) / 2;
      if x < a[mid] then BisectRight(a, x, lo, mid) else BisectRight(a, x, mid + 1, hi)
    else lo
  }

  predicate SortedBetween(a: seq<real>, lo: int, hi: int)
    requires 0 <= lo <= hi <= |a|
  {
    forall i, j :: lo <= i <= j < hi ==> a[i] <= a[j]
  }

  /** On a sorted range, bisect_right splits it into entries at most x and entries above x. */
  lemma {:induction false} BisectSplits(a: seq<real>, x: real, lo: int, hi: int)
    requires 0 <= lo <= hi <= |a| && SortedBetween(a, lo, hi)
    ensures forall i :: lo <= i < BisectRight(a, x, lo, hi) ==> a[i] <= x
    ensures forall i :: BisectRight(a, x, lo, hi) <= i < hi ==> a[i] > x
    decreases hi - lo
  {
    if lo < hi {
      var mid := (lo + hi) / 2;
      if x < a[mid] {
        BisectSplits(a, x, lo, mid);
      } else {
        BisectSplits(a, x, mid + 1, hi);
      }
    }
  }

  /** random.choices(range(n), weights, k=1)[0] with random() = u; None is its ValueError. */
  function Choose(weights: seq<real>, u: real): (r: Option<int>)
    requires |weights| > 0
    ensures r.None? <==> Sum(weights) <= 0.0
    ensures r.Some? ==> 0 <= r.value < |weights|
  {
    ChoiceTotal(weights);
    var cum := Cumulative(weights);
    var total := cum[|cum| - 1];
    if total <= 0.0 then None else Some(BisectRight(cum, Scale(u, total), 0, |weights| - 1))
  }

  /** random() * total */
  function Scale(u: real, total: real): real
  {
    u * total
  }

  lemma {:induction false} CumulativeSorted(weights: seq<real>)
    requires NonNegative(weights)
    ensures SortedBetween(Cumulative(weights), 0, |weights|)
    ensures forall i :: 0 < i < |weights| ==> Cumulative(weights)[i] == Cumulative(weights)[i - 1] + weights[i]
    ensures forall i :: 0 <= i < |weights| ==> Cumulative(weights)[i] >= 0.0
  {
    var cum := Cumulative(weights);
    forall i | 0 < i < |weights|
      ensures cum[i] == cum[i - 1] + weights[i]
    {
      assert weights[..i + 1][..i] == weights[..i];
    }
    forall i | 0 <= i < |weights|
      ensures cum[i] >= 0.0
    {
      assert NonNegative(weights[..i + 1]);
      SumNonNegative(weights[..i + 1]);
    }
    forall i, j | 0 <= i <= j < |weights|
      ensures cum[i] <= cum[j]
    {
      CumulativeGrows(weights, i, j);
    }
  }

  lemma {:induction false} CumulativeGrows(weights: seq<real>, i: int, j: int)
    requires NonNegative(weights) && 0 <= i <= j < |weights|
    ensures Cumulative(weights)[i] <= Cumulative(weights)[j]
    decreases j - i
  {
    if i < j {
      CumulativeGrows(weights, i, j - 1);
      assert weights[..j + 1][..j] == weights[..j];
    }
  }

  /** The total the choice compares against is the sum of the weights. */
  lemma ChoiceTotal(weights: seq<real>)
    requires |weights| > 0
    ensures Cumulative(weights)[|weights| - 1] == Sum(weights)
  {
    assert weights[..|weights|] == weights;
  }

  /** random.choices fails on a total of at most 0 and otherwise bisects at u times the sum. */
  lemma ChooseBySum(weights: seq<real>, u: real)
    requires |weights| > 0
    ensures Choose(weights, u) == if Sum(weights) <= 0.0 then None
                                  else Some(BisectRight(Cumulative(weights), Scale(u, Sum(weights)), 0, |weights| - 1))
  {
    var cum := Cumulative(weights);
    ChoiceTotal(weights);
    var total := cum[|cum| - 1];
    assert total == Sum(weights);
    assert Choose(weights, u) == if total <= 0.0 then None else Some(BisectRight(cum, Scale(u, total), 0, |weights| - 1));
  }

  /** The index bisect_right finds for a point below the total has positive weight. */
  lemma BisectPicksPositive(weights: seq<real>, x: real)
    requires |weights| > 0 && NonNegative(weights) && 0.0 <= x < Sum(weights)
    ensures weights[BisectRight(Cumulative(weights), x, 0, |weights| - 1)] > 0.0
  {
    var cum := Cumulative(weights);
    var n := |weights|;
    ChoiceTotal(weights);
    CumulativeSorted(weights);
    var j := BisectRight(cum, x, 0, n - 1);
    BisectSplits(cum, x, 0, n - 1);
    assert cum[j] > x;
    if j > 0 {
      assert cum[j - 1] <= x;
    } else {
      assert cum[0] == Sum(weights[..1]);
      assert weights[..1][..0] == [];
      assert Sum(weights[..1]) == Sum(weights[..1][..0]) + weights[0];
    }
  }

  /** On cumulative weights, bisect_right finds the index whose cumulative interval holds a point below the total. */
  lemma BisectInInterval(weights: seq<real>, x: real)
    requires |weights| > 0 && NonNegative(weights) && 0.0 <= x < Sum(weights)
    ensures var i := BisectRight(Cumulative(weights), x, 0, |weights| - 1);
            Sum(weights[..i]) <= x < Sum(weights[..i + 1])
  {
    var cum := Cumulative(weights);
    ChoiceTotal(weights);
    CumulativeSorted(weights);
    var i := BisectRight(cum, x, 0, |weights| - 1);
    BisectSplits(cum, x, 0, |weights| - 1);
    assert cum[i] == Sum(weights[..i + 1]) > x;
    if i > 0 {
      assert cum[i - 1] == Sum(weights[..i]) <= x;
    } else {
      assert Sum(weights[..0]) == 0.0;
    }
  }

  /**
   * With non-negative weights and a positive total, random.choices picks
   * index i exactly when random() times the total falls in the cumulative
   * interval [w[0] + ... + w[i-1], w[0] + ... + w[i]).
   */
  lemma ChoiceInInterval(weights: seq<real>, u: real)
    requires |weights| > 0 && NonNegative(weights) && 0.0 <= u < 1.0 && Sum(weights) > 0.0
    ensures Choose(weights, u).Some?
    ensures var i, x := Choose(weights, u).value, Scale(u, Sum(weights));
            0 <= i < |weights| && Sum(weights[..i]) <= x < Sum(weights[..i + 1])
  {
    ChooseBySum(weights, u);
    BelowTotal(u, Sum(weights));
    BisectInInterval(weights, Scale(u, Sum(weights)));
  }

  lemma BelowTotal(u: real, total: real)
    requires 0.0 <= u < 1.0 && total > 0.0
    ensures 0.0 <= Scale(u, total) < total
  {
  }

  /**
   * With non-negative weights, random.choices fails exactly when all
   * weights are zero, and otherwise never picks an index of zero weight.
   */
  lemma ChoosesPositiveWeight(weights: seq<real>, u: real)
    requires |weights| > 0 && NonNegative(weights) && 0.0 <= u < 1.0
    ensures Choose(weights, u).None? <==> Sum(weights) == 0.0
    ensures Choose(weights, u).Some? ==> weights[Choose(weights, u).value] > 0.0
  {
    var total := Sum(weights);
    ChooseBySum(weights, u);
    SumNonNegative(weights);
    if total > 0.0 {
      BelowTotal(u, total);
      BisectPicksPositive(weights, Scale(u, total));
    }
  }

  // ---------------------------------------------------------------------------
  // determine_action

  /** The game state the agent reads. */
  datatype View = View(cpNickname: Option<string>, hands: seq<Hand>, players: seq<Player>, history: seq<Move>)

  /** Why determine_action raises ValueError: no single hand of its own, or no cards held by the others. */
  datatype AgentError = HandNotFound | CardCountsMissing | SamplingFailed

  /** The hands tagged with the agent's nickname (the current player's). */
  function MatchingHands(view: View): (r: seq<Hand>)
    ensures forall h :: h in r ==> h in view.hands && Some(h.nickname) == view.cpNickname
  {
    MatchingFrom(view.hands, view.cpNickname)
  }

  function MatchingFrom(hands: seq<Hand>, cp: Option<string>): (r: seq<Hand>)
    ensures forall h :: h in r ==> h in hands && Some(h.nickname) == cp
  {
    if hands == [] then []
    else (if Some(hands[0].nickname) == cp then [hands[0]] else []) + MatchingFrom(hands[1..], cp)
  }

  /** The cards held by the players other than the agent. */
  function OthersCards(players: seq<Player>, cp: Option<string>): int
  {
    if players == [] then 0
    else (if Some(players[0].nickname) != cp then players[0].nCards else 0) + OthersCards(players[1..], cp)
  }

  /** The agent has its hand and the others hold cards: determine_action goes on to decide. */
  predicate Ready(view: View)
  {
    |MatchingHands(view)| == 1 && view.players != [] && OthersCards(view.players, view.cpNickname) != 0
  }

  /** The last claim, when the history ends in an action id of the catalogue (0..87). */
  function LastClaim(view: View): (r: Option<int>)
    ensures r.Some? ==> 0 <= r.value < 88
  {
    if view.history != [] && 0 <= view.history[|view.history| - 1].actionId < 88
    then Some(view.history[|view.history| - 1].actionId)
    else None
  }

  /** bet_probs after the loop: zero at every bet up to and including the last claim. */
  function Masked(betProbs: seq<real>, last: int): (r: seq<real>)
    ensures |r| == |betProbs|
  {
    seq(|betProbs|, i requires 0 <= i < |betProbs| => if i <= last then 0.0 else betProbs[i])
  }

  /** The bet probabilities the final sample weighs: masked after a claim, as given otherwise. */
  function FinalProbs(betProbs: seq<real>, last: Option<int>): (r: seq<real>)
    ensures |r| == |betProbs|
  {
    if last.Some? then Masked(betProbs, last.value) else betProbs
  }

  /** The expected success of a raise, before the factor 1.2 and the cube. */
  function RaiseSuccess(betProbs: seq<real>, genericProbs: seq<real>, last: int): real
    requires |betProbs| == 88 && |genericProbs| == 88
  {
    var masked := Masked(betProbs, last);
    Sum(ElementwiseMul(ComputeSamplingWeights(masked, genericProbs), masked))
  }

  /** The cubed [check, bet] weights: (1 - p_last)^3 and (1.2 * expected success of a raise)^3. */
  function CheckVsBet(betProbs: seq<real>, genericProbs: seq<real>, last: int): (r: seq<real>)
    requires |betProbs| == 88 && |genericProbs| == 88 && 0 <= last < 88
    ensures |r| == 2
  {
    var check := 1.0 - betProbs[last];
    var bet := RaiseSuccess(betProbs, genericProbs, last) * 1.2;
    [check * check * check, bet * bet * bet]
  }

  /**
   * determine_action. Check is 88. With a last claim in 0..87 it zeroes
   * every bet up to the claim, checks when the claim is impossible, and
   * otherwise chooses between checking and raising by the cubed weights;
   * a raise is sampled from the sampling weights.
   */
  method DetermineAction(view: View, betProbs: seq<real>, genericProbs: seq<real>, u1: real, u2: real)
    returns (r: Result<int, AgentError>)
    requires |betProbs| == 88 && |genericProbs| == 88
    requires 0.0 <= u1 < 1.0 && 0.0 <= u2 < 1.0
    ensures |MatchingHands(view)| != 1 ==> r == Failure(HandNotFound)
    ensures |MatchingHands(view)| == 1 && !Ready(view) ==> r == Failure(CardCountsMissing)
    ensures Ready(view) && LastClaim(view).Some? && betProbs[LastClaim(view).value] == 0.0 ==> r == Success(Check)
    ensures Ready(view) && LastClaim(view).Some? && Sum(CheckVsBet(betProbs, genericProbs, LastClaim(view).value)) == 0.0
            ==> r == Success(Check)
    ensures r.Success? && r.value != Check ==> 0 <= r.value < 88
    ensures Ready(view) && r.Success? && r.value != Check
            ==> Choose(ComputeSamplingWeights(FinalProbs(betProbs, LastClaim(view)), genericProbs), u2) == Some(r.value)
    ensures Ready(view) && LastClaim(view).Some? && betProbs[LastClaim(view).value] != 0.0
            && Sum(CheckVsBet(betProbs, genericProbs, LastClaim(view).value)) != 0.0
            ==> (r == Success(Check) <==> Choose(Normalise(CheckVsBet(betProbs, genericProbs, LastClaim(view).value)), u1) == Some(0))
    ensures NonNegative(betProbs) && LastClaim(view).Some? && r.Success? && r.value != Check
            ==> r.value > LastClaim(view).value
    ensures Ready(view) && LastClaim(view).Some? && Bounded(betProbs) ==> r.Success?
    ensures Ready(view) && LastClaim(view).None?
            ==> (r.Failure? <==> Sum(RawWeights(betProbs, genericProbs)) == 0.0)
                && (r.Failure? ==> r.error == SamplingFailed)
                && (r.Success? ==> r.value != Check)
  {
    if |MatchingHands(view)| != 1 {
      return Failure(HandNotFound);
    }
    var others := OthersCards(view.players, view.cpNickname);
    if view.players == [] || others == 0 {
      return Failure(CardCountsMissing);
    }
    var probs := betProbs;
    var last := LastClaim(view);
    if last.Some? {
      probs := ZeroBefore(betProbs, last.value);
      if probs[last.value] == 0.0 {
        return Success(Check);
      }
      var successOfCheck := 1.0 - probs[last.value];
      probs := probs[last.value := 0.0];
      var weights := ComputeSamplingWeights(probs, genericProbs);
      var weighted := ElementwiseMul(weights, probs);
      var successOfBet := Sum(weighted);
      var checkVsBet := [successOfCheck, successOfBet * 1.2];
      checkVsBet := [checkVsBet[0] * checkVsBet[0] * checkVsBet[0], checkVsBet[1] * checkVsBet[1] * checkVsBet[1]];
      assert weights == ComputeSamplingWeights(Masked(betProbs, last.value), genericProbs);
      assert successOfCheck == 1.0 - betProbs[last.value];
      ghost var spec := CheckVsBet(betProbs, genericProbs, last.value);
      assert successOfBet == Sum(ElementwiseMul(ComputeSamplingWeights(Masked(betProbs, last.value), genericProbs), Masked(betProbs, last.value)));
      assert checkVsBet[0] == spec[0];
      assert checkVsBet[1] == spec[1];
      assert checkVsBet == spec;
      if Sum(checkVsBet) == 0.0 {
        return Success(Check);
      }
      NormaliseSumsToOne(checkVsBet);
      ChoiceTotal(Normalise(checkVsBet));
      var check := Choose(Normalise(checkVsBet), u1);
      if check.None? {
        return Failure(SamplingFailed);
      }
      if check.value == 0 {
        return Success(Check);
      }
      RaiseHasWeight(betProbs, genericProbs, last.value, u1);
    }
    var sampling := ComputeSamplingWeights(probs, genericProbs);
    SampledRaise(betProbs, genericProbs, probs, last, u2);
    var sampled := Choose(sampling, u2);
    if sampled.None? {
      return Failure(SamplingFailed);
    }
    return Success(sampled.value);
  }

  /**
   * The loop of determine_action over the bets below the last claim: each
   * is set to 0, so that setting the claim itself to 0 afterwards gives the
   * masked probabilities.
   */
  method ZeroBefore(betProbs: seq<real>, last: int) returns (probs: seq<real>)
    requires |betProbs| == 88 && 0 <= last < 88
    ensures |probs| == 88 && probs[last] == betProbs[last]
    ensures probs[last := 0.0] == Masked(betProbs, last)
  {
    probs := betProbs;
    var i := 0;
    while i < last
      invariant 0 <= i <= last
      invariant |probs| == 88
      invariant forall k :: 0 <= k < 88 ==> probs[k] == if k < i then 0.0 else betProbs[k]
    {
      probs := probs[i := 0.0];
      i := i + 1;
    }
  }

  predicate Bounded(betProbs: seq<real>)
  {
    forall i :: 0 <= i < |betProbs| ==> 0.0 <= betProbs[i] <= 1.0
  }

  lemma CubeSign(x: real)
    ensures x >= 0.0 ==> x * x * x >= 0.0
    ensures x * x * x == 0.0 ==> x == 0.0
  {
    if x != 0.0 {
      assert x * x > 0.0;
    }
  }

  /** With probabilities in [0, 1] both cubed weights are non-negative. */
  lemma CheckVsBetNonNegative(betProbs: seq<real>, genericProbs: seq<real>, last: int)
    requires |betProbs| == 88 && |genericProbs| == 88 && 0 <= last < 88 && Bounded(betProbs)
    ensures NonNegative(CheckVsBet(betProbs, genericProbs, last))
    ensures CheckVsBet(betProbs, genericProbs, last)[1] != 0.0 ==> RaiseSuccess(betProbs, genericProbs, last) > 0.0
  {
    var masked := Masked(betProbs, last);
    var weights := ComputeSamplingWeights(masked, genericProbs);
    assert NonNegative(masked);
    SamplingWeightsProperties(masked, genericProbs);
    PositiveProductSum(weights, masked);
    SumNonNegative(ElementwiseMul(weights, masked));
    var sumBet := RaiseSuccess(betProbs, genericProbs, last);
    CubeSign(1.0 - betProbs[last]);
    CubeSign(sumBet * 1.2);
  }

  /** A positive expected success of a raise needs a positive raw weight. */
  lemma RaiseSuccessNeedsWeight(betProbs: seq<real>, genericProbs: seq<real>, last: int)
    requires |betProbs| == 88 && |genericProbs| == 88 && NonNegative(betProbs)
    requires RaiseSuccess(betProbs, genericProbs, last) > 0.0
    ensures Sum(RawWeights(Masked(betProbs, last), genericProbs)) != 0.0
  {
    var masked := Masked(betProbs, last);
    var raw := RawWeights(masked, genericProbs);
    var weights := ComputeSamplingWeights(masked, genericProbs);
    assert NonNegative(masked);
    SamplingWeightsProperties(masked, genericProbs);
    PositiveProductSum(weights, masked);
    var i :| 0 <= i < 88 && weights[i] > 0.0 && masked[i] > 0.0;
    if Sum(raw) == 0.0 {
      assert weights == raw;
      EntryAtMostSum(raw, i);
    }
  }

  /**
   * When the probabilities lie in [0, 1] and the agent decides to raise,
   * the expected success of a raise is positive, so some bet above the
   * last claim carries raw weight.
   */
  lemma RaiseHasWeight(betProbs: seq<real>, genericProbs: seq<real>, last: int, u1: real)
    requires |betProbs| == 88 && |genericProbs| == 88 && 0 <= last < 88 && 0.0 <= u1 < 1.0
    ensures Bounded(betProbs) && Choose(Normalise(CheckVsBet(betProbs, genericProbs, last)), u1) == Some(1)
            ==> Sum(RawWeights(Masked(betProbs, last), genericProbs)) != 0.0
  {
    var cvb := CheckVsBet(betProbs, genericProbs, last);
    if Bounded(betProbs) && Choose(Normalise(cvb), u1) == Some(1) {
      CheckVsBetNonNegative(betProbs, genericProbs, last);
      NormaliseKeepsSign(cvb);
      NormaliseKeepsZeros(cvb);
      ChoosesPositiveWeight(Normalise(cvb), u1);
      RaiseSuccessNeedsWeight(betProbs, genericProbs, last);
    }
  }

  /**
   * The final sample of determine_action: it fails exactly when the raw
   * weights sum to 0, and with non-negative probabilities a sample after a
   * claim lies above that claim.
   */
  lemma SampledRaise(betProbs: seq<real>, genericProbs: seq<real>, probs: seq<real>, last: Option<int>, u2: real)
    requires |betProbs| == 88 && |genericProbs| == 88 && 0.0 <= u2 < 1.0
    requires last.Some? ==> 0 <= last.value < 88
    requires probs == FinalProbs(betProbs, last)
    ensures Choose(ComputeSamplingWeights(probs, genericProbs), u2).None? <==> Sum(RawWeights(probs, genericProbs)) == 0.0
    ensures NonNegative(betProbs) && last.Some? && Choose(ComputeSamplingWeights(probs, genericProbs), u2).Some?
            ==> Choose(ComputeSamplingWeights(probs, genericProbs), u2).value > last.value
  {
    var raw := RawWeights(probs, genericProbs);
    var weights := ComputeSamplingWeights(probs, genericProbs);
    if Sum(raw) != 0.0 {
      NormaliseSumsToOne(raw);
    }
    ChoiceTotal(weights);
    if NonNegative(betProbs) && last.Some? {
      assert NonNegative(probs);
      SamplingWeightsProperties(probs, genericProbs);
      ChoosesPositiveWeight(weights, u2);
      var c := Choose(weights, u2);
      if c.Some? {
        assert probs[c.value] != 0.0;
      }
    }
  }
}
