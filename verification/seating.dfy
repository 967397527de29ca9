/**
 * arrange_players: the AI players are spread evenly round the table, at
 * positions floor(i * N / A) shifted by a random offset, and the shuffled
 * human players fill the other seats.
 *
 * choice(range(N)) is the offset parameter; shuffle(human_players) is the
 * shuffledHumans parameter, any reordering of the human players.
 */
module Seating {
  import opened Wrappers
  import opened Sequences

  /** A player joining a game: its nickname and whether it is an AI agent. */
  datatype Seat = Seat(nickname: string, aiAgent: bool)

  /** The AI players, in their original order (ai_players). */
  function Ais(s: seq<Seat>): seq<Seat>
  {
    if s == [] then [] else Ais(s[..|s| - 1]) + (if s[|s| - 1].aiAgent then [s[|s| - 1]] else [])
  }

  /** The human players, in their original order (human_players before the shuffle). */
  function Humans(s: seq<Seat>): seq<Seat>
  {
    if s == [] then [] else Humans(s[..|s| - 1]) + (if s[|s| - 1].aiAgent then [] else [s[|s| - 1]])
  }

  /** The AIs are AI players of the table and the humans are human players of it. */
  lemma {:induction false} FiltersKeepTheirKind(s: seq<Seat>)
    ensures forall x :: x in Ais(s) ==> x in s && x.aiAgent
    ensures forall x :: x in Humans(s) ==> x in s && !x.aiAgent
  {
    if s != [] {
      FiltersKeepTheirKind(s[..|s| - 1]);
    }
  }

  /** Splitting a table into its AI and human players loses nobody. */
  lemma {:induction false} SplitKeepsEveryone(s: seq<Seat>)
    ensures multiset(s) == multiset(Ais(s)) + multiset(Humans(s))
  {
    if s != [] {
      var init := s[..|s| - 1];
      SplitKeepsEveryone(init);
      assert s == init + [s[|s| - 1]];
    }
  }

  /** The seats reserved for AIs: (floor(i * N / A) + offset) mod N for i < A. */
  function AiPositions(n: nat, a: nat, offset: int): (r: seq<int>)
    requires n > 0
    ensures |r| == a
  {
    seq(a, i requires 0 <= i < a => (i * n / a + offset) % n)
  }

  lemma MulCancel(a: int, u: int, v: int)
    requires a > 0 && a * u < a * v
    ensures u < v
  {
  }

  /** Adding at least a to the numerator raises the quotient by a. */
  lemma DivisionStep(x: nat, y: nat, a: nat)
    requires a > 0 && x + a <= y
    ensures x / a < y / a
  {
    var qx, qy := x / a, y / a;
    assert a * qx + x % a == x && a * qy + y % a == y;
    assert a * (qx + 1) == a * qx + a;
    MulCancel(a, qx, qy);
  }

  lemma DivisionBelow(x: nat, n: nat, a: nat)
    requires a > 0 && x < a * n
    ensures x / a < n
  {
    assert a * (x / a) + x % a == x;
    MulCancel(a, x / a, n);
  }

  /** The i-th AI, before the offset, sits on a seat of the table. */
  lemma SpreadInRange(i: nat, n: nat, a: nat)
    requires i < a <= n
    ensures 0 <= i * n / a < n
  {
    assert i * n < a * n;
    DivisionBelow(i * n, n, a);
  }

  /** Later AIs sit strictly further round, because N / A >= 1. */
  lemma SpreadIncreasing(i: nat, j: nat, n: nat, a: nat)
    requires i < j < a <= n
    ensures i * n / a < j * n / a
  {
    var d := j - i;
    assert j * n == i * n + d * n;
    AtLeastOnce(d, n);
    DivisionStep(i * n, j * n, a);
  }

  lemma AtLeastOnce(d: int, n: nat)
    requires d >= 1
    ensures d * n >= n
  {
  }

  /** Turning the table by offset keeps different seats different. */
  lemma ShiftInjective(x: int, y: int, n: int, offset: int)
    requires 0 <= x < y < n && 0 <= offset < n
    ensures (x + offset) % n != (y + offset) % n
  {
    ModOnce(x + offset, n);
    ModOnce(y + offset, n);
  }

  /** Below 2n, taking the remainder by n subtracts n at most once. */
  lemma ModOnce(z: int, n: int)
    requires 0 <= z < 2 * n
    ensures z % n == if z < n then z else z - n
  {
    if z < n {
      assert z == 0 * n + z;
    } else {
      assert z == 1 * n + (z - n);
    }
  }

  /** Spacing the AIs N / A >= 1 apart never puts two of them on one seat, and every seat exists. */
  lemma AiPositionsDistinct(n: nat, a: nat, offset: int)
    requires 0 < n && a <= n && 0 <= offset < n
    ensures Distinct(AiPositions(n, a, offset))
    ensures forall p :: p in AiPositions(n, a, offset) ==> 0 <= p < n
  {
    var pos := AiPositions(n, a, offset);
    forall i, j | 0 <= i < j < a
      ensures pos[i] != pos[j]
    {
      SpreadInRange(j, n, a);
      SpreadIncreasing(i, j, n, a);
      ShiftInjective(i * n / a, j * n / a, n, offset);
    }
  }

  /** The reserved seats from lo up to hi. */
  function Reserved(pos: set<int>, lo: int, hi: int): nat
    decreases hi - lo
  {
    if lo >= hi then 0 else (if lo in pos then 1 else 0) + Reserved(pos, lo + 1, hi)
  }

  /** The free seats from lo up to hi. */
  function Free(pos: set<int>, lo: int, hi: int): nat
    decreases hi - lo
  {
    if lo >= hi then 0 else (if lo in pos then 0 else 1) + Free(pos, lo + 1, hi)
  }

  lemma {:induction false} ReservedCountsTheSet(pos: set<int>, lo: int, hi: int)
    requires lo <= hi
    ensures Reserved(pos, lo, hi) == |set p | p in pos && lo <= p < hi|
    ensures Reserved(pos, lo, hi) + Free(pos, lo, hi) == hi - lo
    decreases hi - lo
  {
    if lo < hi {
      ReservedCountsTheSet(pos, lo + 1, hi);
      var here, rest := set p | p in pos && lo <= p < hi, set p | p in pos && lo + 1 <= p < hi;
      if lo in pos {
        assert here == {lo} + rest;
      } else {
        assert here == rest;
      }
    } else {
      assert (set p | p in pos && lo <= p < hi) == {};
    }
  }

  /** The seat counts at the start: A reserved seats and N - A free ones. */
  lemma SeatCounts(n: nat, a: nat, offset: int)
    requires 0 < n && a <= n && 0 <= offset < n
    ensures Reserved(Elements(AiPositions(n, a, offset)), 0, n) == a
    ensures Free(Elements(AiPositions(n, a, offset)), 0, n) == n - a
  {
    var pos := AiPositions(n, a, offset);
    AiPositionsDistinct(n, a, offset);
    DistinctCardinality(pos);
    ReservedCountsTheSet(Elements(pos), 0, n);
    assert (set p | p in Elements(pos) && 0 <= p < n) == Elements(pos);
  }

  lemma AisStep(out: seq<Seat>, x: Seat)
    ensures Ais(out + [x]) == Ais(out) + (if x.aiAgent then [x] else [])
    ensures Humans(out + [x]) == Humans(out) + (if x.aiAgent then [] else [x])
  {
    assert (out + [x])[..|out|] == out;
  }

  /** What the seating starts from: A AIs for A reserved seats, N - A humans for the free ones. */
  lemma SeatingStart(players: seq<Seat>, offset: int, shuffledHumans: seq<Seat>)
    requires 0 <= offset < |players|
    requires multiset(shuffledHumans) == multiset(Humans(players))
    ensures |Ais(players)| <= |players|
    ensures Reserved(Elements(AiPositions(|players|, |Ais(players)|, offset)), 0, |players|) == |Ais(players)|
    ensures Free(Elements(AiPositions(|players|, |Ais(players)|, offset)), 0, |players|) == |shuffledHumans|
    ensures forall x :: x in shuffledHumans ==> !x.aiAgent
  {
    SplitKeepsEveryone(players);
    assert |multiset(players)| == |multiset(Ais(players))| + |multiset(Humans(players))|;
    assert |shuffledHumans| == |multiset(shuffledHumans)|;
    SeatCounts(|players|, |Ais(players)|, offset);
    FiltersKeepTheirKind(players);
    forall x | x in shuffledHumans
      ensures !x.aiAgent
    {
      assert x in multiset(Humans(players));
    }
  }

  /** Seats 0..i are filled and the AIs and humans still to seat are the ones the free and reserved seats ahead need. */
  ghost predicate SeatedSoFar(n: nat, reserved: set<int>, i: nat, out: seq<Seat>,
                              leftAis: seq<Seat>, leftHumans: seq<Seat>, ais: seq<Seat>, humans: seq<Seat>)
  {
    i <= n && |out| == i
    && Ais(out) + leftAis == ais && Humans(out) + leftHumans == humans
    && (forall x :: x in leftAis ==> x.aiAgent)
    && (forall x :: x in leftHumans ==> !x.aiAgent)
    && |leftAis| == Reserved(reserved, i, n) && |leftHumans| == Free(reserved, i, n)
    && (forall p :: 0 <= p < i ==> (out[p].aiAgent <==> p in reserved))
  }

  /** There is always someone to seat: an AI for a reserved seat, a human for a free one. */
  lemma SeatAvailable(n: nat, reserved: set<int>, i: nat, out: seq<Seat>,
                      leftAis: seq<Seat>, leftHumans: seq<Seat>, ais: seq<Seat>, humans: seq<Seat>)
    requires SeatedSoFar(n, reserved, i, out, leftAis, leftHumans, ais, humans) && i < n
    ensures i in reserved ==> |leftAis| > 0
    ensures i !in reserved ==> |leftHumans| > 0
  {
  }

  lemma AiSeated(n: nat, reserved: set<int>, i: nat, out: seq<Seat>,
                 leftAis: seq<Seat>, leftHumans: seq<Seat>, ais: seq<Seat>, humans: seq<Seat>)
    requires SeatedSoFar(n, reserved, i, out, leftAis, leftHumans, ais, humans) && i < n
    requires i in reserved && |leftAis| > 0
    ensures SeatedSoFar(n, reserved, i + 1, out + [leftAis[0]], leftAis[1..], leftHumans, ais, humans)
  {
    assert leftAis[0] in leftAis;
    AisStep(out, leftAis[0]);
    assert Ais(out) + leftAis == Ais(out) + [leftAis[0]] + leftAis[1..];
    assert forall x :: x in leftAis[1..] ==> x in leftAis;
  }

  lemma HumanSeated(n: nat, reserved: set<int>, i: nat, out: seq<Seat>,
                    leftAis: seq<Seat>, leftHumans: seq<Seat>, ais: seq<Seat>, humans: seq<Seat>)
    requires SeatedSoFar(n, reserved, i, out, leftAis, leftHumans, ais, humans) && i < n
    requires i !in reserved && |leftHumans| > 0
    ensures SeatedSoFar(n, reserved, i + 1, out + [leftHumans[0]], leftAis, leftHumans[1..], ais, humans)
  {
    assert leftHumans[0] in leftHumans;
    AisStep(out, leftHumans[0]);
    assert Humans(out) + leftHumans == Humans(out) + [leftHumans[0]] + leftHumans[1..];
    assert forall x :: x in leftHumans[1..] ==> x in leftHumans;
  }

  /**
   * The seating loop of arrange_players: seat p takes the next AI when p is
   * reserved and AIs are left, otherwise the next human when humans are left.
   */
  method FillSeats(n: nat, positions: seq<int>, ais: seq<Seat>, humans: seq<Seat>) returns (out: seq<Seat>)
    requires forall x :: x in ais ==> x.aiAgent
    requires forall x :: x in humans ==> !x.aiAgent
    requires |ais| == Reserved(Elements(positions), 0, n) && |humans| == Free(Elements(positions), 0, n)
    ensures |out| == n
    ensures Ais(out) == ais && Humans(out) == humans
    ensures forall p :: 0 <= p < n ==> (out[p].aiAgent <==> p in positions)
  {
    ghost var reserved := Elements(positions);
    var leftAis, leftHumans := ais, humans;
    out := [];
    var i := 0;
    while i < n
      invariant SeatedSoFar(n, reserved, i, out, leftAis, leftHumans, ais, humans)
    {
      assert i in reserved <==> i in positions;
      SeatAvailable(n, reserved, i, out, leftAis, leftHumans, ais, humans);
      if i in positions && |leftAis| > 0 {
        AiSeated(n, reserved, i, out, leftAis, leftHumans, ais, humans);
        out := out + [leftAis[0]];
        leftAis := leftAis[1..];
      } else if |leftHumans| > 0 {
        HumanSeated(n, reserved, i, out, leftAis, leftHumans, ais, humans);
        out := out + [leftHumans[0]];
        leftHumans := leftHumans[1..];
      }
      i := i + 1;
    }
    assert forall p :: 0 <= p < n ==> (p in reserved <==> p in positions);
  }

  /**
   * arrange_players. choice(range(0)) raises IndexError on an empty list.
   * Otherwise every seat is filled: a reserved seat takes the next AI, a
   * free seat the next shuffled human.
   */
  method ArrangePlayers(players: seq<Seat>, offset: int, shuffledHumans: seq<Seat>) returns (r: Result<seq<Seat>, Error>)
    requires |players| > 0 ==> 0 <= offset < |players|
    requires multiset(shuffledHumans) == multiset(Humans(players))
    ensures r.Failure? <==> |players| == 0
    ensures r.Failure? ==> r.error == IndexError
    ensures r.Success? ==> |r.value| == |players| && multiset(r.value) == multiset(players)
    ensures r.Success? ==> Ais(r.value) == Ais(players) && Humans(r.value) == shuffledHumans
    ensures r.Success? ==> forall p :: 0 <= p < |players| ==>
              (r.value[p].aiAgent <==> p in AiPositions(|players|, |Ais(players)|, offset))
  {
    var n := |players|;
    if n == 0 {
      return Failure(IndexError);
    }
    var ais := Ais(players);
    SeatingStart(players, offset, shuffledHumans);
    FiltersKeepTheirKind(players);
    var positions := AiPositions(n, |ais|, offset);
    var out := FillSeats(n, positions, ais, shuffledHumans);
    SplitKeepsEveryone(out);
    SplitKeepsEveryone(players);
    return Success(out);
  }
}
