/**
 * create_game: n_agents players named "0", "1", ... with one card each,
 * the first of them to play.
 *
 * As written, max_cards is computed from a name that is never defined
 * (n_players) whenever there are more than two players, so only two-player
 * games can be created. CreateGameAsWritten models that; CreateGame is the
 * evidently intended version, which divides the deck by the number of
 * players, and is proved to start a consistent game.
 */
module GameCreation {
  import opened Wrappers
  import opened Sequences
  import opened Cards
  import opened Players
  import opened Dealing
  import opened LocalGame
  import opened GameRules

  function Digit(d: nat): char
    requires d < 10
  {
    (48 + d) as char
  }

  /** str(i) for a natural number: its decimal digits, most significant first. */
  function Decimal(i: nat): (s: string)
    ensures |s| >= 1
    ensures i >= 10 ==> |s| >= 2
  {
    if i < 10 then [Digit(i)] else Decimal(i / 10) + [Digit(i % 10)]
  }

  /** Different numbers have different decimal names. */
  lemma {:induction false} DecimalInjective(i: nat, j: nat)
    requires Decimal(i) == Decimal(j)
    ensures i == j
  {
    if i >= 10 && j >= 10 {
      var s := Decimal(i);
      assert s[|s| - 1] == Digit(i % 10) && s[|s| - 1] == Digit(j % 10);
      assert s[..|s| - 1] == Decimal(i / 10) && s[..|s| - 1] == Decimal(j / 10);
      DecimalInjective(i / 10, j / 10);
    } else if i < 10 && j < 10 {
      assert Decimal(i)[0] == Digit(i) && Decimal(j)[0] == Digit(j);
    }
  }

  /** The players of a new game: str(i) with one card, for i < n. */
  function StartingPlayers(n: nat): (players: seq<Player>)
    ensures |players| == n
  {
    seq(n, i requires 0 <= i < n => Player(Decimal(i), 1))
  }

  lemma StartingNamesUnique(n: nat)
    ensures UniqueNicknames(StartingPlayers(n))
  {
    var names := Nicknames(StartingPlayers(n));
    forall i, j | 0 <= i < j < n
      ensures names[i] != names[j]
    {
      if names[i] == names[j] {
        DecimalInjective(i, j);
      }
    }
  }

  /** Players holding one card each: as many cards, and as many players with cards, as players. */
  lemma {:induction false} OneCardEach(players: seq<Player>)
    requires forall i :: 0 <= i < |players| ==> players[i].nCards == 1
    ensures TotalCards(players) == |players| && CountWithCards(players) == |players|
  {
    if players != [] {
      OneCardEach(players[1..]);
    }
  }

  /** The new game once max_cards is known: round 1, a first deal, player "0" to play. */
  function NewGame(uuid: string, maxCards: int, players: seq<Player>, shuffled: seq<Card>): Result<GameState, Error>
    requires IsShuffledDeck(shuffled) && |players| > 0
  {
    if !Dealable(players) then Failure(ValueError)
    else
      TotalNonNegative(players);
      Success(GameState(uuid, Running, 1, maxCards, Deal(players, shuffled[..TotalCards(players)]),
                        players, Some(players[0].nickname), []))
  }

  /**
   * create_game as written: ValueError below two agents, and NameError on
   * the undefined n_players above two. game_uuid is a parameter.
   */
  function CreateGameAsWritten(nAgents: int, uuid: string, shuffled: seq<Card>): (r: Result<GameState, Error>)
    requires IsShuffledDeck(shuffled)
    ensures r.Success? <==> nAgents == 2
    ensures r.Failure? ==> (r.error == NameError <==> nAgents > 2) && (r.error == ValueError <==> nAgents < 2)
    ensures r.Success? ==> r.value.maxCards == 11 && |r.value.players| == 2 && r.value.roundNumber == 1
  {
    if nAgents < 2 then Failure(ValueError)
    else
      var players := StartingPlayers(nAgents);
      OneCardEach(players);
      if |players| > 2 then Failure(NameError)
      else NewGame(uuid, 11, players, shuffled)
  }

  /** The evidently intended create_game: max_cards is floor(24 / n) for more than two players. */
  function CreateGame(nAgents: int, uuid: string, shuffled: seq<Card>): (r: Result<GameState, Error>)
    requires IsShuffledDeck(shuffled)
    ensures r.Success? <==> 2 <= nAgents <= 24
    ensures r.Failure? ==> r.error == ValueError
    ensures r.Success? ==>
              && r.value.status == Running && r.value.roundNumber == 1 && r.value.history == []
              && |r.value.players| == nAgents && r.value.cpNickname == Some(r.value.players[0].nickname)
              && (forall i :: 0 <= i < nAgents ==> r.value.players[i].nCards == 1)
  {
    if nAgents < 2 then Failure(ValueError)
    else
      var players := StartingPlayers(nAgents);
      OneCardEach(players);
      NewGame(uuid, if |players| > 2 then 24 / |players| else 11, players, shuffled)
  }

  /** As written, every game of more than two agents fails with NameError, and two-agent games match the intended version. */
  lemma CreateGameAsWrittenFails(nAgents: int, uuid: string, shuffled: seq<Card>)
    requires IsShuffledDeck(shuffled)
    ensures nAgents > 2 ==> CreateGameAsWritten(nAgents, uuid, shuffled) == Failure(NameError)
    ensures nAgents <= 2 ==> CreateGameAsWritten(nAgents, uuid, shuffled) == CreateGame(nAgents, uuid, shuffled)
    ensures CreateGameAsWritten(3, uuid, shuffled).Failure?
  {
  }

  /**
   * The intended create_game raises ValueError below 2 agents and above
   * 24 (the deck cannot give everyone a card); otherwise it starts a
   * consistent running game in which every player holds one card and
   * every hand holds one card.
   */
  lemma CreatedGameIsConsistent(nAgents: int, uuid: string, shuffled: seq<Card>)
    requires IsShuffledDeck(shuffled)
    ensures CreateGame(nAgents, uuid, shuffled).Success? <==> 2 <= nAgents <= 24
    ensures CreateGame(nAgents, uuid, shuffled).Failure? ==> CreateGame(nAgents, uuid, shuffled).error == ValueError
    ensures CreateGame(nAgents, uuid, shuffled).Success? ==>
              var g := CreateGame(nAgents, uuid, shuffled).value;
              Consistent(g) && g.status == Running && g.roundNumber == 1 && g.history == []
              && |g.hands| == nAgents && (forall i :: 0 <= i < nAgents ==> |g.hands[i].hand| == 1)
  {
    if nAgents >= 2 {
      var players := StartingPlayers(nAgents);
      OneCardEach(players);
      if nAgents <= 24 {
        var max := if nAgents > 2 then 24 / nAgents else 11;
        assert nAgents * max <= 24 by {
          if nAgents > 2 {
            assert nAgents * (24 / nAgents) + 24 % nAgents == 24;
          }
        }
        assert max >= 1;
        StartingNamesUnique(nAgents);
        FindPlayerAt(players, 0);
      }
    }
  }
}
