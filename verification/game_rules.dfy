/**
 * The rules the local engine enforces, proved about PlayStep and CheckStep:
 * who loses a check, how counts change, elimination, the end of the game,
 * whose turn it is, and an invariant every successful move keeps.
 */
module GameRules {
  import opened Wrappers
  import opened Sequences
  import opened Cards
  import opened Indexation
  import opened Players
  import opened Dealing
  import opened LocalGame

  // ---------------------------------------------------------------------------
  // Facts about the list of players

  /** Whether the named player exists and still holds cards. */
  predicate HasCards(players: seq<Player>, name: Option<string>)
  {
    match FindPlayer(players, name)
    case None => false
    case Some(i) => players[i].nCards > 0
  }

  /** Changing one player's count changes the number of players with cards by at most one, as expected. */
  lemma {:induction false} CountAfterUpdate(players: seq<Player>, k: int, p: Player)
    requires 0 <= k < |players|
    ensures CountWithCards(players[k := p]) + (if players[k].nCards > 0 then 1 else 0)
            == CountWithCards(players) + (if p.nCards > 0 then 1 else 0)
  {
    if k > 0 {
      assert players[k := p][1..] == players[1..][k - 1 := p];
      CountAfterUpdate(players[1..], k - 1, p);
    } else {
      assert players[k := p][1..] == players[1..];
    }
  }

  /** Lookups by nickname see only nicknames, so a change of counts leaves them as they were. */
  lemma {:induction false} FindPlayerSeesNames(s: seq<Player>, t: seq<Player>, name: Option<string>)
    requires Nicknames(s) == Nicknames(t)
    ensures FindPlayer(s, name) == FindPlayer(t, name)
  {
    if s != [] {
      assert Nicknames(s[1..]) == Nicknames(t[1..]);
      assert s[0].nickname == t[0].nickname;
      FindPlayerSeesNames(s[1..], t[1..], name);
    }
  }

  /** Some player with cards sits at a position other than i when at least two players hold cards. */
  lemma {:induction false} AnotherWithCards(players: seq<Player>, i: int)
    requires 0 <= i < |players| && CountWithCards(players) >= 2
    ensures exists j :: 0 <= j < |players| && j != i && players[j].nCards > 0
  {
    var c := CountWithCards(players[1..]);
    if i == 0 {
      assert c >= 1;
      CountedHasWitness(players[1..]);
      var j :| 0 <= j < |players[1..]| && players[1..][j].nCards > 0;
      assert players[j + 1].nCards > 0;
    } else if players[0].nCards > 0 {
      assert players[0].nCards > 0;
    } else {
      AnotherWithCards(players[1..], i - 1);
      var j :| 0 <= j < |players[1..]| && j != i - 1 && players[1..][j].nCards > 0;
      assert players[j + 1].nCards > 0;
    }
  }

  lemma {:induction false} CountedHasWitness(players: seq<Player>)
    requires CountWithCards(players) >= 1
    ensures exists j :: 0 <= j < |players| && players[j].nCards > 0
  {
    if players[0].nCards <= 0 {
      CountedHasWitness(players[1..]);
      var j :| 0 <= j < |players[1..]| && players[1..][j].nCards > 0;
      assert players[j + 1].nCards > 0;
    } else {
      assert players[0].nCards > 0;
    }
  }

  lemma {:induction false} FirstWithCardsFinds(s: seq<Player>, j: int)
    requires 0 <= j < |s| && s[j].nCards != 0
    ensures FirstWithCards(s).Some? && FirstWithCards(s).value.nCards != 0
  {
    if s[0].nCards == 0 {
      FirstWithCardsFinds(s[1..], j - 1);
    }
  }

  /**
   * With unique nicknames, non-negative counts and someone else holding
   * cards, the turn passes from player i to a player who holds cards.
   */
  lemma NextHasCards(players: seq<Player>, i: int)
    requires UniqueNicknames(players) && 0 <= i < |players|
    requires forall j :: 0 <= j < |players| ==> players[j].nCards >= 0
    requires exists j :: 0 <= j < |players| && j != i && players[j].nCards > 0
    ensures FindNextActivePlayer(players, Some(players[i].nickname)).Some?
    ensures FindNextActivePlayer(players, Some(players[i].nickname)).value == NextInCycle(players, i)
    ensures NextInCycle(players, i).nCards > 0
    ensures NextInCycle(players, i).nickname != players[i].nickname
  {
    NextActiveGoesRound(players, i);
    NextInCycleHasCards(players, i);
  }

  /** Going round from player i, the first player with cards is another player, when someone else holds cards. */
  lemma NextInCycleHasCards(players: seq<Player>, i: int)
    requires UniqueNicknames(players) && 0 <= i < |players|
    requires forall j :: 0 <= j < |players| ==> players[j].nCards >= 0
    requires exists j :: 0 <= j < |players| && j != i && players[j].nCards > 0
    ensures NextInCycle(players, i).nCards > 0
    ensures NextInCycle(players, i).nickname != players[i].nickname
  {
    var j :| 0 <= j < |players| && j != i && players[j].nCards > 0;
    var rotated := players[i + 1..] + players[..i];
    var m := RotateIndex(players, i, j);
    FirstWithCardsFinds(rotated, m);
    var q := FirstWithCardsPosition(rotated);
    var r := RotateBack(players, i, q);
    assert NextInCycle(players, i) == players[r];
    DistinctApart(Nicknames(players), r, i);
  }

  lemma {:induction false} FirstWithCardsPosition(s: seq<Player>) returns (q: int)
    requires FirstWithCards(s).Some?
    ensures 0 <= q < |s| && s[q] == FirstWithCards(s).value
  {
    if s[0].nCards != 0 {
      q := 0;
    } else {
      q := FirstWithCardsPosition(s[1..]);
      q := q + 1;
    }
  }

  /** Where player j sits in the table seen from just after player i. */
  lemma RotateIndex(players: seq<Player>, i: int, j: int) returns (m: int)
    requires 0 <= i < |players| && 0 <= j < |players| && j != i
    ensures 0 <= m < |players| - 1 && (players[i + 1..] + players[..i])[m] == players[j]
  {
    m := if j > i then j - i - 1 else |players| - i - 1 + j;
  }

  /** Which player sits at position q of the table seen from just after player i. */
  lemma RotateBack(players: seq<Player>, i: int, q: int) returns (r: int)
    requires 0 <= i < |players| && 0 <= q < |players| - 1
    ensures 0 <= r < |players| && r != i && players[r] == (players[i + 1..] + players[..i])[q]
  {
    r := if q < |players| - i - 1 then q + i + 1 else q - (|players| - i - 1);
  }

  lemma {:induction false} FirstWithCardsIn(s: seq<Player>)
    ensures FirstWithCards(s).Some? ==> FirstWithCards(s).value in s
  {
    if s != [] && s[0].nCards == 0 {
      FirstWithCardsIn(s[1..]);
    }
  }

  // ---------------------------------------------------------------------------
  // handle_check

  /** The position of the player who loses the check, None when handle_check raises before the marker. */
  function Judge(g: GameState): (k: Option<nat>)
    ensures k.Some? ==> k.value < |g.players|
  {
    if |g.history| < 2 then None
    else match SetExists(AllCards(g.hands), g.history[|g.history| - 2].actionId)
      case None => None
      case Some(holds) => FindPlayer(g.players, LoserName(holds, g.history))
  }

  /** The record saved when the check is decided: the loss marker appended and no current player. */
  function Marked(g: GameState, k: nat): GameState
    requires k < |g.players|
  {
    g.(history := g.history + [Move(Some(g.players[k].nickname), LossMarker)], cpNickname := None)
  }

  /**
   * A check raises before deciding anything exactly when it cannot name a
   * loser: a history shorter than 2, a claim outside the catalogue, or a
   * loser nobody is called. Then the game is left as it was and nothing is
   * saved. Otherwise the marked record is saved first.
   */
  lemma CheckDecidesOrLeavesAlone(g: GameState, shuffled: seq<Card>)
    requires IsShuffledDeck(shuffled)
    ensures Judge(g).None? ==>
              CheckStep(g, shuffled).state == g && CheckStep(g, shuffled).saves == []
              && CheckStep(g, shuffled).outcome.Fail?
              && CheckStep(g, shuffled).outcome.error == (if |g.history| >= 2 && SetExists(AllCards(g.hands), g.history[|g.history| - 2].actionId).Some? then TypeError else IndexError)
    ensures Judge(g).Some? ==>
              |CheckStep(g, shuffled).saves| >= 1 && CheckStep(g, shuffled).saves[0] == Marked(g, Judge(g).value)
  {
  }

  /** Scoring changes the loser's count and nothing else about the players, nor the round, history or deal. */
  lemma ScoreCounts(g: GameState, k: nat, cp: Option<string>)
    requires k < |g.players|
    ensures var after := Score(g, k, cp);
            |after.players| == |g.players|
            && after.players[k].nickname == g.players[k].nickname
            && after.players[k].nCards == (if g.players[k].nCards + 1 > g.maxCards then 0 else g.players[k].nCards + 1)
            && (forall j :: 0 <= j < |g.players| && j != k ==> after.players[j] == g.players[j])
            && after.roundNumber == g.roundNumber && after.history == g.history && after.hands == g.hands
            && after.gameUuid == g.gameUuid && after.maxCards == g.maxCards
  {
  }

  /** A new round keeps the players, the status and the current player. */
  lemma NewRoundKeeps(g: GameState, shuffled: seq<Card>)
    requires IsShuffledDeck(shuffled)
    ensures var after := NewRound(g, shuffled).state;
            after.players == g.players && after.status == g.status && after.cpNickname == g.cpNickname
            && after.roundNumber == g.roundNumber + 1 && after.history == []
            && after.gameUuid == g.gameUuid && after.maxCards == g.maxCards
    ensures NewRound(g, shuffled).outcome == Pass <==> Dealable(g.players)
    ensures NewRound(g, shuffled).outcome == Pass ==>
              NewRound(g, shuffled).saves == [NewRound(g, shuffled).state]
              && 0 <= TotalCards(g.players)
              && NewRound(g, shuffled).state.hands == Deal(g.players, shuffled[..TotalCards(g.players)])
    ensures NewRound(g, shuffled).outcome.Fail? ==>
              NewRound(g, shuffled).outcome.error == ValueError && NewRound(g, shuffled).saves == []
              && NewRound(g, shuffled).state.hands == g.hands
  {
    if Dealable(g.players) {
      TotalNonNegative(g.players);
    }
  }

  /** handle_check past its guards: the marked record scored, then a new round. */
  lemma CheckUnfolds(g: GameState, shuffled: seq<Card>)
    requires IsShuffledDeck(shuffled) && Judge(g).Some?
    ensures CheckStep(g, shuffled).state == NewRound(Score(Marked(g, Judge(g).value), Judge(g).value, g.cpNickname), shuffled).state
    ensures CheckStep(g, shuffled).outcome == NewRound(Score(Marked(g, Judge(g).value), Judge(g).value, g.cpNickname), shuffled).outcome
    ensures CheckStep(g, shuffled).saves == [Marked(g, Judge(g).value)] + NewRound(Score(Marked(g, Judge(g).value), Judge(g).value, g.cpNickname), shuffled).saves
  {
    var h := g.history;
    assert SetExists(AllCards(g.hands), h[|h| - 2].actionId).Some?;
  }

  /**
   * The loser is the checker when the claim holds over all hands, the
   * claimant otherwise; the loser takes one more card and is out (0 cards)
   * beyond max_cards; nobody else's count changes; the round advances and
   * the history is emptied.
   */
  lemma CheckScoresTheLoser(g: GameState, shuffled: seq<Card>)
    requires IsShuffledDeck(shuffled) && Judge(g).Some?
    ensures var k, h := Judge(g).value, g.history;
            Named(g.players[k], if Holds(AllCards(g.hands), h[|h| - 2].actionId) then h[|h| - 1].player else h[|h| - 2].player)
    ensures var k, after := Judge(g).value, CheckStep(g, shuffled).state;
            |after.players| == |g.players|
            && after.players[k].nickname == g.players[k].nickname
            && after.players[k].nCards == (if g.players[k].nCards + 1 > g.maxCards then 0 else g.players[k].nCards + 1)
            && (forall j :: 0 <= j < |g.players| && j != k ==> after.players[j] == g.players[j])
    ensures var after := CheckStep(g, shuffled).state;
            after.roundNumber == g.roundNumber + 1 && after.history == []
            && after.gameUuid == g.gameUuid && after.maxCards == g.maxCards
  {
    var k, h := Judge(g).value, g.history;
    assert SetExists(AllCards(g.hands), h[|h| - 2].actionId).Some?;
    var marked := Marked(g, k);
    CheckUnfolds(g, shuffled);
    ScoreCounts(marked, k, g.cpNickname);
    NewRoundKeeps(Score(marked, k, g.cpNickname), shuffled);
  }

  /** Changing a player's count keeps every nickname, so lookups and uniqueness are unaffected. */
  lemma RecountKeepsNames(players: seq<Player>, k: int, n: int)
    requires 0 <= k < |players|
    ensures Nicknames(players[k := players[k].(nCards := n)]) == Nicknames(players)
    ensures UniqueNicknames(players) ==> UniqueNicknames(players[k := players[k].(nCards := n)])
    ensures forall name :: FindPlayer(players[k := players[k].(nCards := n)], name) == FindPlayer(players, name)
  {
    var updated := players[k := players[k].(nCards := n)];
    assert Nicknames(updated) == Nicknames(players);
    forall name
      ensures FindPlayer(updated, name) == FindPlayer(players, name)
    {
      FindPlayerSeesNames(updated, players, name);
    }
  }

  /**
   * Who plays after a check: the loser when it stays in; nobody once a
   * single player holds cards, and then the game is finished; the player
   * after the checker, round the table, when the checker went out; the
   * checker when the claimant went out.
   */
  lemma CheckSetsTheTurn(g: GameState, shuffled: seq<Card>)
    requires IsShuffledDeck(shuffled) && Judge(g).Some? && UniqueNicknames(g.players)
    ensures var k, after := Judge(g).value, CheckStep(g, shuffled).state;
            g.players[k].nCards + 1 <= g.maxCards ==>
              after.cpNickname == Some(g.players[k].nickname) && after.status == g.status
    ensures var k, after := Judge(g).value, CheckStep(g, shuffled).state;
            g.players[k].nCards + 1 > g.maxCards && CountWithCards(after.players) == 1 ==>
              after.cpNickname == None && after.status == Finished
    ensures var k, after := Judge(g).value, CheckStep(g, shuffled).state;
            g.players[k].nCards + 1 > g.maxCards && CountWithCards(after.players) != 1 && Named(g.players[k], g.cpNickname) ==>
              after.cpNickname == Some(NextInCycle(after.players, k).nickname) && after.status == g.status
    ensures var k, after := Judge(g).value, CheckStep(g, shuffled).state;
            g.players[k].nCards + 1 > g.maxCards && CountWithCards(after.players) != 1 && !Named(g.players[k], g.cpNickname) ==>
              after.cpNickname == g.cpNickname && after.status == g.status
  {
    var k := Judge(g).value;
    var marked := Marked(g, k);
    CheckUnfolds(g, shuffled);
    ScoreCounts(marked, k, g.cpNickname);
    var scored := Score(marked, k, g.cpNickname);
    NewRoundKeeps(scored, shuffled);
    if g.players[k].nCards + 1 > g.maxCards {
      RecountKeepsNames(g.players, k, 0);
      assert scored.players == g.players[k := g.players[k].(nCards := 0)];
      NextActiveGoesRound(scored.players, k);
    }
  }

  // ---------------------------------------------------------------------------
  // The invariant of a game

  /**
   * A well-formed game: unique nicknames, every count between 0 and
   * max_cards with room for all of them in the deck, and, while it runs, at
   * least two players with cards, a current player with cards, and a
   * history of catalogue claims by players with cards. A finished game has
   * no current player and an empty history.
   */
  predicate Consistent(g: GameState)
  {
    UniqueNicknames(g.players)
    && 0 <= g.maxCards && |g.players| * g.maxCards <= 24
    && (forall i :: 0 <= i < |g.players| ==> 0 <= g.players[i].nCards <= g.maxCards)
    && (g.status == Running ==>
          CountWithCards(g.players) >= 2 && HasCards(g.players, g.cpNickname)
          && forall m :: m in g.history ==> -88 <= m.actionId < 88 && HasCards(g.players, m.player))
    && (g.status == Finished ==> g.cpNickname == None && g.history == [])
  }

  lemma {:induction false} TotalAtMost(players: seq<Player>, max: int)
    requires forall i :: 0 <= i < |players| ==> players[i].nCards <= max
    ensures TotalCards(players) <= |players| * max
  {
    if players != [] {
      TotalAtMost(players[1..], max);
    }
  }

  /** In a consistent game every count fits in the deck, so dealing never raises. */
  lemma ConsistentDeals(g: GameState)
    requires Consistent(g)
    ensures Dealable(g.players)
  {
    TotalAtMost(g.players, g.maxCards);
  }

  lemma HasCardsOf(players: seq<Player>, r: int)
    requires UniqueNicknames(players) && 0 <= r < |players| && players[r].nCards > 0
    ensures HasCards(players, Some(players[r].nickname))
  {
    FindPlayerAt(players, r);
  }

  // ---------------------------------------------------------------------------
  // play

  /**
   * A claim (any action id but Check) is appended to the history as made by
   * the current player, nothing is saved, and the only other change is the
   * current player. It is refused, with IndexError, only outside the
   * catalogue or when nobody carries the current nickname; whether it
   * exceeds the previous claim is not looked at.
   */
  lemma PlayRecordsTheClaim(g: GameState, actionId: int, shuffled: seq<Card>)
    requires IsShuffledDeck(shuffled) && actionId != Check
    ensures var s := PlayStep(g, actionId, shuffled);
            s.saves == []
            && s.state == g.(history := g.history + [Move(g.cpNickname, actionId)], cpNickname := s.state.cpNickname)
    ensures var s := PlayStep(g, actionId, shuffled);
            s.outcome == Pass <==> -88 <= actionId < 88 && FindPlayer(g.players, g.cpNickname).Some?
    ensures var s := PlayStep(g, actionId, shuffled);
            s.outcome.Fail? ==> s.outcome == Fail(IndexError) && s.state.cpNickname == g.cpNickname
  {
  }

  /**
   * In a consistent running game every catalogue claim is accepted, and
   * the turn passes to the next player round the table who holds cards,
   * never back to the claimant.
   */
  lemma ClaimPassesTheTurn(g: GameState, actionId: int, shuffled: seq<Card>)
    requires IsShuffledDeck(shuffled) && Consistent(g) && g.status == Running && -88 <= actionId < 88
    ensures FindPlayer(g.players, g.cpNickname).Some?
    ensures var i := FindPlayer(g.players, g.cpNickname).value;
            PlayStep(g, actionId, shuffled)
              == Step(g.(history := g.history + [Move(g.cpNickname, actionId)],
                         cpNickname := Some(NextInCycle(g.players, i).nickname)), [], Pass)
            && NextInCycle(g.players, i).nCards > 0
            && NextInCycle(g.players, i).nickname != g.players[i].nickname
  {
    var i := FindPlayer(g.players, g.cpNickname).value;
    AnotherWithCards(g.players, i);
    NextHasCards(g.players, i);
  }

  /** A claim accepted in a consistent running game leaves it consistent. */
  lemma ClaimKeepsConsistent(g: GameState, actionId: int, shuffled: seq<Card>)
    requires IsShuffledDeck(shuffled) && Consistent(g) && g.status == Running && -88 <= actionId < 88
    ensures Consistent(PlayStep(g, actionId, shuffled).state)
  {
    ClaimPassesTheTurn(g, actionId, shuffled);
    var i := FindPlayer(g.players, g.cpNickname).value;
    var next := NextInCycle(g.players, i);
    NextCycleIn(g.players, i);
    var r :| 0 <= r < |g.players| && g.players[r] == next;
    HasCardsOf(g.players, r);
    ClaimRecordedConsistent(g, actionId, Some(next.nickname));
  }

  /** Recording a catalogue claim by the current player and handing the turn to a player with cards keeps a running game consistent. */
  lemma ClaimRecordedConsistent(g: GameState, actionId: int, name: Option<string>)
    requires Consistent(g) && g.status == Running && -88 <= actionId < 88 && HasCards(g.players, name)
    ensures Consistent(g.(history := g.history + [Move(g.cpNickname, actionId)], cpNickname := name))
  {
    var after := g.(history := g.history + [Move(g.cpNickname, actionId)], cpNickname := name);
    forall m | m in after.history
      ensures -88 <= m.actionId < 88 && HasCards(after.players, m.player)
    {
      if m !in g.history {
        assert m == Move(g.cpNickname, actionId);
      }
    }
  }

  lemma NextCycleIn(players: seq<Player>, i: int)
    requires 0 <= i < |players|
    ensures NextInCycle(players, i) in players
  {
    var rotated := players[i + 1..] + players[..i];
    FirstWithCardsIn(rotated);
    if FirstWithCards(rotated).Some? {
      var p := FirstWithCards(rotated).value;
      assert p in players[i + 1..] || p in players[..i];
    }
  }

  /** The history with the check appended, as play hands it to handle_check. */
  function WithCheck(g: GameState): GameState
  {
    g.(history := g.history + [Move(g.cpNickname, Check)])
  }

  /**
   * In a consistent running game a check after at least one claim always
   * names a loser, and the loser is a player holding cards.
   */
  lemma CheckFindsALoser(g: GameState)
    requires Consistent(g) && g.status == Running && g.history != []
    ensures Judge(WithCheck(g)).Some?
    ensures g.players[Judge(WithCheck(g)).value].nCards > 0
  {
    var g1 := WithCheck(g);
    var h := g1.history;
    var claim := g.history[|g.history| - 1];
    assert claim in g.history;
    assert h[|h| - 2] == claim && h[|h| - 1] == Move(g.cpNickname, Check);
    var holds := SetExists(AllCards(g1.hands), claim.actionId).value;
    assert HasCards(g.players, LoserName(holds, h));
  }

  /** A check as the first move of a round has no claim to judge: IndexError, with the check left in the history. */
  lemma CheckFirstRaises(g: GameState, shuffled: seq<Card>)
    requires IsShuffledDeck(shuffled) && g.history == []
    ensures PlayStep(g, Check, shuffled) == Step(WithCheck(g), [], Fail(IndexError))
  {
  }

  /** The record after a decided check, spelled out: the loser's new count in the players, and the new round. */
  lemma CheckOutcome(g: GameState, shuffled: seq<Card>)
    requires IsShuffledDeck(shuffled) && Judge(g).Some?
    ensures var k := Judge(g).value;
            var count := if g.players[k].nCards + 1 > g.maxCards then 0 else g.players[k].nCards + 1;
            CheckStep(g, shuffled).state.players == g.players[k := g.players[k].(nCards := count)]
    ensures CheckStep(g, shuffled).outcome == Pass <==> Dealable(CheckStep(g, shuffled).state.players)
  {
    var k := Judge(g).value;
    var marked := Marked(g, k);
    CheckUnfolds(g, shuffled);
    var scored := Score(marked, k, g.cpNickname);
    NewRoundKeeps(scored, shuffled);
  }

  /**
   * In a consistent running game a check after at least one claim always
   * completes: the loser is found and the next deal fits in the deck. The
   * game finishes exactly when a single player is left with cards.
   */
  lemma CheckCompletes(g: GameState, shuffled: seq<Card>)
    requires IsShuffledDeck(shuffled) && Consistent(g) && g.status == Running && g.history != []
    ensures PlayStep(g, Check, shuffled).outcome == Pass
    ensures var after := PlayStep(g, Check, shuffled).state;
            after.status == Finished <==> CountWithCards(after.players) == 1
  {
    var g1 := WithCheck(g);
    assert PlayStep(g, Check, shuffled) == CheckStep(g1, shuffled);
    CheckFindsALoser(g);
    var k := Judge(g1).value;
    CheckOutcome(g1, shuffled);
    CheckSetsTheTurn(g1, shuffled);
    var after := CheckStep(g1, shuffled).state;
    var count := if g.players[k].nCards + 1 > g.maxCards then 0 else g.players[k].nCards + 1;
    CountAfterUpdate(g.players, k, g.players[k].(nCards := count));
    assert forall i :: 0 <= i < |after.players| ==> 0 <= after.players[i].nCards <= g.maxCards;
    TotalAtMost(after.players, g.maxCards);
  }

  /** A loser who stays in, with count > 0 cards, holds cards. */
  lemma StayerHasCards(players: seq<Player>, k: int, count: int)
    requires UniqueNicknames(players) && 0 <= k < |players| && count > 0
    ensures HasCards(players[k := players[k].(nCards := count)], Some(players[k].nickname))
  {
    RecountKeepsNames(players, k, count);
    FindPlayerAt(players, k);
  }

  /** With two players holding cards, the player after position k round the table holds cards. */
  lemma NextAfterOutHasCards(players: seq<Player>, k: int)
    requires UniqueNicknames(players) && 0 <= k < |players| && CountWithCards(players) >= 2
    requires forall i :: 0 <= i < |players| ==> players[i].nCards >= 0
    ensures HasCards(players, Some(NextInCycle(players, k).nickname))
  {
    AnotherWithCards(players, k);
    NextHasCards(players, k);
    NextCycleIn(players, k);
    var r :| 0 <= r < |players| && players[r] == NextInCycle(players, k);
    HasCardsOf(players, r);
  }

  /** A player other than the one recounted keeps its cards. */
  lemma OtherKeepsCards(players: seq<Player>, k: int, count: int, cp: Option<string>)
    requires 0 <= k < |players| && HasCards(players, cp) && !Named(players[k], cp)
    ensures HasCards(players[k := players[k].(nCards := count)], cp)
  {
    RecountKeepsNames(players, k, count);
    var i := FindPlayer(players, cp).value;
    assert i != k;
  }

  /** After a completed check in a consistent running game, a running game's current player holds cards. */
  lemma NextTurnHasCards(g: GameState, shuffled: seq<Card>)
    requires IsShuffledDeck(shuffled) && Consistent(g) && g.status == Running && g.history != []
    ensures var after := PlayStep(g, Check, shuffled).state;
            after.status == Running ==> HasCards(after.players, after.cpNickname)
  {
    var g1 := WithCheck(g);
    assert PlayStep(g, Check, shuffled) == CheckStep(g1, shuffled);
    CheckFindsALoser(g);
    var k := Judge(g1).value;
    CheckOutcome(g1, shuffled);
    CheckSetsTheTurn(g1, shuffled);
    var after := CheckStep(g1, shuffled).state;
    if after.status == Running {
      TurnHolderHasCards(g, k, after.players, after.cpNickname);
    }
  }

  /**
   * The player handed the turn after the loser at position k is scored
   * holds cards, whichever way the turn was set: the loser who stays in,
   * the next player after a checker who went out, or the checker.
   */
  lemma TurnHolderHasCards(g: GameState, k: nat, players: seq<Player>, cp: Option<string>)
    requires Consistent(g) && g.status == Running && k < |g.players|
    requires var count := if g.players[k].nCards + 1 > g.maxCards then 0 else g.players[k].nCards + 1;
             players == g.players[k := g.players[k].(nCards := count)]
    requires g.players[k].nCards + 1 <= g.maxCards ==> cp == Some(g.players[k].nickname)
    requires g.players[k].nCards + 1 > g.maxCards ==> CountWithCards(players) != 1
    requires g.players[k].nCards + 1 > g.maxCards && Named(g.players[k], g.cpNickname) ==>
               cp == Some(NextInCycle(players, k).nickname)
    requires g.players[k].nCards + 1 > g.maxCards && !Named(g.players[k], g.cpNickname) ==> cp == g.cpNickname
    ensures HasCards(players, cp)
  {
    var count := if g.players[k].nCards + 1 > g.maxCards then 0 else g.players[k].nCards + 1;
    if g.players[k].nCards + 1 <= g.maxCards {
      StayerHasCards(g.players, k, count);
    } else if Named(g.players[k], g.cpNickname) {
      CountAfterUpdate(g.players, k, g.players[k].(nCards := count));
      RecountKeepsNames(g.players, k, count);
      NextAfterOutHasCards(players, k);
    } else {
      OtherKeepsCards(g.players, k, count, g.cpNickname);
    }
  }

  /** A check that completes in a consistent running game leaves it consistent. */
  lemma CheckKeepsConsistent(g: GameState, shuffled: seq<Card>)
    requires IsShuffledDeck(shuffled) && Consistent(g) && g.status == Running && g.history != []
    ensures Consistent(PlayStep(g, Check, shuffled).state)
  {
    var g1 := WithCheck(g);
    CheckFindsALoser(g);
    var k := Judge(g1).value;
    CheckOutcome(g1, shuffled);
    CheckSetsTheTurn(g1, shuffled);
    CheckScoresTheLoser(g1, shuffled);
    NextTurnHasCards(g, shuffled);
    var count := if g.players[k].nCards + 1 > g.maxCards then 0 else g.players[k].nCards + 1;
    CountAfterUpdate(g.players, k, g.players[k].(nCards := count));
    RecountKeepsNames(g.players, k, count);
  }
}
