/**
 * The local game engine: the game record, the moves play and handle_check
 * make on it, and create_game.
 *
 * The engine mutates one game record in place. It is modelled by the class
 * Game, whose methods are proved against the step functions PlayStep and
 * CheckStep. save() writes a snapshot of the record under the key
 * (game_uuid, round_number); the snapshots are kept in the map Game.saved.
 */
module LocalGame {
  import opened Wrappers
  import opened Sequences
  import opened Cards
  import opened Indexation
  import opened Players
  import opened Dealing

  /** The action id written into the history for the player who lost a check (not Check = 88). */
  const LossMarker: int := 89

  /** One history entry: who moved (None once the current player is cleared) and the action id. */
  datatype Move = Move(player: Option<string>, actionId: int)

  datatype Status = Running | Finished

  /** The game record. */
  datatype GameState = GameState(
    gameUuid: string,
    status: Status,
    roundNumber: int,
    maxCards: int,
    hands: seq<Hand>,
    players: seq<Player>,
    cpNickname: Option<string>,
    history: seq<Move>)

  /** What a move does: the record afterwards, the snapshots saved on the way, and the exception raised, if any. */
  datatype Step = Step(state: GameState, saves: seq<GameState>, outcome: Outcome<Error>)

  /** The saved files after writing the snapshots in order; a later snapshot replaces one with the same key. */
  function Store(saved: map<(string, int), GameState>, saves: seq<GameState>): (r: map<(string, int), GameState>)
    ensures forall s :: s in saves ==> (s.gameUuid, s.roundNumber) in r
    ensures forall key :: key in saved ==> key in r
    decreases |saves|
  {
    if saves == [] then saved
    else Store(saved[(saves[0].gameUuid, saves[0].roundNumber) := saves[0]], saves[1..])
  }

  lemma StoreFirst(saved: map<(string, int), GameState>, s: GameState, rest: seq<GameState>)
    ensures Store(saved, [s] + rest) == Store(saved[(s.gameUuid, s.roundNumber) := s], rest)
  {
    assert ([s] + rest)[1..] == rest;
  }

  // ---------------------------------------------------------------------------
  // handle_check

  /** The loser's nickname: the checker (history[-1]) when the claim (history[-2]) holds, the claimant otherwise. */
  function LoserName(holds: bool, history: seq<Move>): Option<string>
    requires |history| >= 2
  {
    if holds then history[|history| - 1].player else history[|history| - 2].player
  }

  /**
   * The loser, at position k, takes one more card; beyond max_cards it is
   * out, and then the game finishes when one player is left, the checker's
   * turn passes on if the checker went out, and stays with the checker
   * otherwise. A loser still in plays next. cp is the checker.
   */
  function Score(g: GameState, k: nat, cp: Option<string>): (r: GameState)
    requires k < |g.players|
    ensures r.gameUuid == g.gameUuid && r.roundNumber == g.roundNumber && r.maxCards == g.maxCards
    ensures r.hands == g.hands && r.history == g.history
    ensures |r.players| == |g.players| && r.players == g.players[k := r.players[k]]
    ensures r.players[k].nickname == g.players[k].nickname
    ensures r.players[k].nCards == if g.players[k].nCards + 1 > g.maxCards then 0 else g.players[k].nCards + 1
    ensures r.status != g.status ==> r.status == Finished && CountWithCards(r.players) == 1
    ensures g.players[k].nCards + 1 <= g.maxCards ==> r.cpNickname == Some(g.players[k].nickname)
    ensures r.cpNickname != cp && r.cpNickname != g.cpNickname ==> FindPlayer(r.players, r.cpNickname).Some?
  {
    var loser := g.players[k];
    if loser.nCards + 1 > g.maxCards then
      var players := g.players[k := loser.(nCards := 0)];
      if CountWithCards(players) == 1 then
        g.(players := players, status := Finished)
      else if Named(loser, cp) then
        assert Named(players[k], cp);
        var next := FindNextActivePlayer(players, cp);
        g.(players := players, cpNickname := Some(next.value.nickname))
      else
        g.(players := players, cpNickname := cp)
    else
      g.(players := g.players[k := loser.(nCards := loser.nCards + 1)], cpNickname := Some(loser.nickname))
  }

  /** The next round: round_number + 1, an empty history and a new deal, which may raise ValueError. */
  function NewRound(g: GameState, shuffled: seq<Card>): (r: Step)
    requires IsShuffledDeck(shuffled)
    ensures r.outcome.Pass? <==> Dealable(g.players)
    ensures r.outcome.Fail? ==> r.outcome.error == ValueError && r.saves == [] && r.state.hands == g.hands
    ensures r.outcome.Pass? ==> r.saves == [r.state] && |r.state.hands| == |g.players|
    ensures r.state.roundNumber == g.roundNumber + 1 && r.state.history == []
    ensures r.state.players == g.players && r.state.cpNickname == g.cpNickname && r.state.status == g.status
    ensures r.state.gameUuid == g.gameUuid && r.state.maxCards == g.maxCards
  {
    var g' := g.(roundNumber := g.roundNumber + 1, history := []);
    if Dealable(g.players) then
      TotalNonNegative(g.players);
      var dealt := g'.(hands := Deal(g.players, shuffled[..TotalCards(g.players)]));
      Step(dealt, [dealt], Pass)
    else
      Step(g', [], Fail(ValueError))
  }

  /**
   * handle_check. history[-2] raises IndexError on a history shorter than
   * 2, INDEXATION raises IndexError on a claim outside -88..87, and a loser
   * nobody is called raises TypeError; none of these changes the game. Then
   * the loss marker is written, cp is cleared and the record is saved
   * before the loser is scored and the next round is dealt.
   */
  function CheckStep(g: GameState, shuffled: seq<Card>): (r: Step)
    requires IsShuffledDeck(shuffled)
    ensures r.saves == [] <==> r.outcome.Fail? && r.state == g
    ensures r.saves == [] && r.outcome == Fail(IndexError)
            <==> |g.history| < 2 || SetExists(AllCards(g.hands), g.history[|g.history| - 2].actionId).None?
    ensures r.saves == [] ==> r.outcome.error != ValueError
    ensures r.saves != [] ==>
              && |r.saves[0].history| == |g.history| + 1 && r.saves[0].history[..|g.history|] == g.history
              && r.saves[0].history[|g.history|].actionId == LossMarker
              && FindPlayer(g.players, r.saves[0].history[|g.history|].player).Some?
              && r.saves[0].cpNickname == None
              && r.state.roundNumber == g.roundNumber + 1 && r.state.history == []
  {
    if |g.history| < 2 then Step(g, [], Fail(IndexError))
    else match SetExists(AllCards(g.hands), g.history[|g.history| - 2].actionId)
      case None => Step(g, [], Fail(IndexError))
      case Some(holds) =>
        match FindPlayer(g.players, LoserName(holds, g.history))
        case None => Step(g, [], Fail(TypeError))
        case Some(k) => SettleCheck(g, k, shuffled)
  }

  /**
   * The part of handle_check after the loser, at position k, is found: the
   * loss marker is written, cp is cleared and the record saved, then the
   * loser is scored against the checker and the next round is dealt.
   */
  function SettleCheck(g: GameState, k: nat, shuffled: seq<Card>): (r: Step)
    requires k < |g.players| && IsShuffledDeck(shuffled)
    ensures |r.saves| >= 1 && r.saves[0].players == g.players && r.saves[0].roundNumber == g.roundNumber
    ensures r.saves[0].history == g.history + [Move(Some(g.players[k].nickname), LossMarker)]
    ensures r.saves[0].cpNickname == None
    ensures r.state.roundNumber == g.roundNumber + 1 && r.state.history == []
    ensures |r.state.players| == |g.players| && r.state.players == g.players[k := r.state.players[k]]
    ensures r.state.players[k].nCards == if g.players[k].nCards + 1 > g.maxCards then 0 else g.players[k].nCards + 1
    ensures r.outcome.Pass? <==> Dealable(r.state.players)
    ensures r.outcome.Pass? ==> |r.saves| == 2 && r.saves[1] == r.state
  {
    var marked := g.(history := g.history + [Move(Some(g.players[k].nickname), LossMarker)], cpNickname := None);
    var next := NewRound(Score(marked, k, g.cpNickname), shuffled);
    Step(next.state, [marked] + next.saves, next.outcome)
  }

  /** Once the claim is judged and the loser found at position k, handle_check goes on to settle the check. */
  lemma LoserFoundStep(g: GameState, shuffled: seq<Card>, holds: bool, k: nat)
    requires IsShuffledDeck(shuffled) && |g.history| >= 2
    requires SetExists(AllCards(g.hands), g.history[|g.history| - 2].actionId) == Some(holds)
    requires FindPlayer(g.players, LoserName(holds, g.history)) == Some(k)
    ensures CheckStep(g, shuffled) == SettleCheck(g, k, shuffled)
  {
  }

  // ---------------------------------------------------------------------------
  // play

  /**
   * play. The move is appended first. A claim outside -88..87 raises
   * IndexError in INDEXATION (LookUp is None exactly there), and a current player nobody carries raises
   * IndexError in find_next_active_player; otherwise the turn passes on.
   * Check (88) is handled by handle_check.
   */
  function PlayStep(g: GameState, actionId: int, shuffled: seq<Card>): (r: Step)
    requires IsShuffledDeck(shuffled)
    ensures actionId != Check ==>
              && r.saves == [] && r.state.history == g.history + [Move(g.cpNickname, actionId)]
              && r.state.players == g.players && r.state.hands == g.hands && r.state.roundNumber == g.roundNumber
    ensures actionId != Check ==>
              (r.outcome.Pass? <==> -88 <= actionId < 88 && FindPlayer(g.players, g.cpNickname).Some?)
    ensures actionId != Check && r.outcome.Fail? ==> r.outcome.error == IndexError && r.state.cpNickname == g.cpNickname
    ensures actionId != Check && r.outcome.Pass? ==> FindPlayer(g.players, r.state.cpNickname).Some?
    ensures actionId == Check && r.saves != [] ==>
              |r.saves[0].history| == |g.history| + 2 && r.saves[0].history[|g.history|] == Move(g.cpNickname, Check)
  {
    var g1 := g.(history := g.history + [Move(g.cpNickname, actionId)]);
    if actionId != Check then
      if !(-88 <= actionId < 88) then Step(g1, [], Fail(IndexError))
      else match FindNextActivePlayer(g.players, g.cpNickname)
        case None => Step(g1, [], Fail(IndexError))
        case Some(next) => Step(g1.(cpNickname := Some(next.nickname)), [], Pass)
    else
      CheckStep(g1, shuffled)
  }

  // ---------------------------------------------------------------------------
  // The game record, updated in place

  class Game {
    var gameUuid: string
    var status: Status
    var roundNumber: int
    var maxCards: int
    var hands: seq<Hand>
    var players: seq<Player>
    var cpNickname: Option<string>
    var history: seq<Move>
    /** The files save() has written, by (game_uuid, round_number). */
    var saved: map<(string, int), GameState>

    function State(): GameState
      reads this
    {
      GameState(gameUuid, status, roundNumber, maxCards, hands, players, cpNickname, history)
    }

    constructor(g: GameState)
      ensures State() == g && saved == map[]
    {
      gameUuid, status, roundNumber, maxCards := g.gameUuid, g.status, g.roundNumber, g.maxCards;
      hands, players, cpNickname, history := g.hands, g.players, g.cpNickname, g.history;
      saved := map[];
    }

    /** save: the file named after the game and the round now holds the record. */
    method Save()
      modifies this
      ensures State() == old(State())
      ensures saved == old(saved)[(gameUuid, roundNumber) := State()]
    {
      saved := saved[(gameUuid, roundNumber) := State()];
    }

    /** The scoring half of handle_check: the loser at position k against the checker cp. */
    method ScoreLoser(k: nat, cp: Option<string>)
      requires k < |players|
      modifies this
      ensures State() == Score(old(State()), k, cp)
      ensures saved == old(saved)
    {
      var loser := players[k];
      var count := loser.nCards + 1;
      players := players[k := loser.(nCards := count)];
      if count > maxCards {
        players := players[k := loser.(nCards := 0)];
        assert players == old(players)[k := loser.(nCards := 0)];
        if CountWithCards(players) == 1 {
          status := Finished;
        } else if Named(loser, cp) {
          assert Named(players[k], cp);
          var next := FindNextActivePlayer(players, cp);
          cpNickname := Some(next.value.nickname);
        } else {
          cpNickname := cp;
        }
      } else {
        cpNickname := Some(loser.nickname);
      }
    }

    /** The closing half of handle_check: the next round is dealt and saved. */
    method StartRound(shuffled: seq<Card>) returns (outcome: Outcome<Error>)
      requires IsShuffledDeck(shuffled)
      modifies this
      ensures State() == NewRound(old(State()), shuffled).state
      ensures saved == Store(old(saved), NewRound(old(State()), shuffled).saves)
      ensures outcome == NewRound(old(State()), shuffled).outcome
    {
      roundNumber := roundNumber + 1;
      history := [];
      var dealt := DrawCards(players, shuffled);
      if dealt.Failure? {
        return Fail(dealt.error);
      }
      hands := dealt.value;
      Save();
      return Pass;
    }

    /** The part of handle_check after the loser is found, against the checker cp. */
    method Settle(k: nat, shuffled: seq<Card>) returns (outcome: Outcome<Error>)
      requires k < |players| && IsShuffledDeck(shuffled)
      modifies this
      ensures State() == SettleCheck(old(State()), k, shuffled).state
      ensures saved == Store(old(saved), SettleCheck(old(State()), k, shuffled).saves)
      ensures outcome == SettleCheck(old(State()), k, shuffled).outcome
    {
      ghost var before := saved;
      var cp := cpNickname;
      var loser := players[k];
      history := history + [Move(Some(loser.nickname), LossMarker)];
      cpNickname := None;
      Save();
      ghost var marked := State();
      ScoreLoser(k, cp);
      ghost var next := NewRound(State(), shuffled);
      StoreFirst(before, marked, next.saves);
      outcome := StartRound(shuffled);
    }

    method HandleCheck(shuffled: seq<Card>) returns (outcome: Outcome<Error>)
      requires IsShuffledDeck(shuffled)
      modifies this
      ensures State() == CheckStep(old(State()), shuffled).state
      ensures saved == Store(old(saved), CheckStep(old(State()), shuffled).saves)
      ensures outcome == CheckStep(old(State()), shuffled).outcome
    {
      ghost var g := State();
      var cards := AllCards(hands);
      assert Store(saved, []) == saved;
      if |history| < 2 {
        assert CheckStep(g, shuffled) == Step(g, [], Fail(IndexError));
        return Fail(IndexError);
      }
      var holds := SetExists(cards, history[|history| - 2].actionId);
      if holds.None? {
        assert CheckStep(g, shuffled) == Step(g, [], Fail(IndexError));
        return Fail(IndexError);
      }
      var k := FindPlayer(players, LoserName(holds.value, history));
      if k.None? {
        assert CheckStep(g, shuffled) == Step(g, [], Fail(TypeError));
        return Fail(TypeError);
      }
      LoserFoundStep(g, shuffled, holds.value, k.value);
      outcome := Settle(k.value, shuffled);
    }

    method Play(actionId: int, shuffled: seq<Card>) returns (outcome: Outcome<Error>)
      requires IsShuffledDeck(shuffled)
      modifies this
      ensures State() == PlayStep(old(State()), actionId, shuffled).state
      ensures saved == Store(old(saved), PlayStep(old(State()), actionId, shuffled).saves)
      ensures outcome == PlayStep(old(State()), actionId, shuffled).outcome
    {
      ghost var g := State();
      history := history + [Move(cpNickname, actionId)];
      if actionId != Check {
        if LookUp(actionId).None? {
          return Fail(IndexError);
        }
        var next := FindNextActivePlayer(players, cpNickname);
        if next.None? {
          return Fail(IndexError);
        }
        cpNickname := Some(next.value.nickname);
      }
      if actionId == Check {
        assert PlayStep(g, actionId, shuffled) == CheckStep(State(), shuffled);
        outcome := HandleCheck(shuffled);
      } else {
        outcome := Pass;
      }
    }
  }
}
