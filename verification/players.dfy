/**
 * The players of a game and the two lookups the local game engine makes in
 * the list of players: get_player_by_nickname and find_next_active_player.
 */
module Players {
  import opened Wrappers
  import opened Sequences

  /** A seat at the table: its nickname and how many cards it is dealt (0 once out). */
  datatype Player = Player(nickname: string, nCards: int)

  function Nicknames(players: seq<Player>): (names: seq<string>)
    ensures |names| == |players|
    ensures forall i :: 0 <= i < |players| ==> names[i] == players[i].nickname
  {
    seq(|players|, i requires 0 <= i < |players| => players[i].nickname)
  }

  predicate UniqueNicknames(players: seq<Player>)
  {
    Distinct(Nicknames(players))
  }

  /** Whether a player carries the nickname; the engine compares with None too, which never matches. */
  predicate Named(p: Player, nickname: Option<string>)
  {
    nickname == Some(p.nickname)
  }

  /**
   * get_player_by_nickname: the position of the first player with the
   * nickname, None when nobody carries it.
   */
  function FindPlayer(players: seq<Player>, nickname: Option<string>): (r: Option<nat>)
    ensures r.None? <==> forall i :: 0 <= i < |players| ==> !Named(players[i], nickname)
    ensures r.Some? ==> r.value < |players| && Named(players[r.value], nickname)
    ensures r.Some? ==> forall j :: 0 <= j < r.value ==> !Named(players[j], nickname)
  {
    if players == [] then None
    else if Named(players[0], nickname) then Some(0)
    else match FindPlayer(players[1..], nickname)
      case None => None
      case Some(k) => Some(k + 1)
  }

  /** Under unique nicknames, a player is found at its own position. */
  lemma FindPlayerAt(players: seq<Player>, i: int)
    requires UniqueNicknames(players) && 0 <= i < |players|
    ensures FindPlayer(players, Some(players[i].nickname)) == Some(i)
  {
    var name := Some(players[i].nickname);
    var r := FindPlayer(players, name);
    assert Named(players[i], name);
    var k := r.value;
    var names := Nicknames(players);
    assert k <= i;
    assert names[k] == names[i];
    SameAtSamePosition(names, k, i);
  }

  /**
   * The players still in the game, and the current player whatever its
   * cards (active_players): exactly the players with cards or carrying the
   * current nickname, in order.
   */
  function Active(players: seq<Player>, cp: Option<string>): (r: seq<Player>)
    ensures |r| <= |players|
    ensures forall p :: p in r <==> p in players && (p.nCards != 0 || Named(p, cp))
  {
    if players == [] then []
    else
      assert players == [players[0]] + players[1..];
      if players[0].nCards != 0 || Named(players[0], cp) then [players[0]] + Active(players[1..], cp)
      else Active(players[1..], cp)
  }

  /**
   * find_next_active_player: the active player after the current one in the
   * list doubled over itself, so the search wraps round once; None is the
   * IndexError raised when no player carries the current nickname.
   */
  function FindNextActivePlayer(players: seq<Player>, cp: Option<string>): (r: Option<Player>)
    ensures r.Some? <==> FindPlayer(players, cp).Some?
    ensures r.Some? ==> r.value in players && (r.value.nCards != 0 || Named(r.value, cp))
  {
    var active := Active(players, cp);
    var k := FindPlayer(active, cp);
    if k.None? then
      None
    else
      assert (active + active)[k.value + 1] in active;
      Some((active + active)[k.value + 1])
  }

  // ---------------------------------------------------------------------------
  // A reference definition: the first player after the current one, going
  // round the table, who still holds cards.

  /** The players holding cards (n_cards != 0), in order. */
  function WithCards(s: seq<Player>): seq<Player>
  {
    if s == [] then [] else (if s[0].nCards != 0 then [s[0]] else []) + WithCards(s[1..])
  }

  function FirstWithCards(s: seq<Player>): Option<Player>
  {
    if s == [] then None else if s[0].nCards != 0 then Some(s[0]) else FirstWithCards(s[1..])
  }

  /** Going round from position i: the first later player with cards, else the player at i. */
  function NextInCycle(players: seq<Player>, i: int): Player
    requires 0 <= i < |players|
  {
    match FirstWithCards(players[i + 1..] + players[..i])
    case Some(p) => p
    case None => players[i]
  }

  lemma {:induction false} WithCardsAppend(a: seq<Player>, b: seq<Player>)
    ensures WithCards(a + b) == WithCards(a) + WithCards(b)
  {
    if a == [] {
      assert a + b == b;
    } else {
      assert (a + b)[1..] == a[1..] + b;
      WithCardsAppend(a[1..], b);
    }
  }

  lemma {:induction false} FirstWithCardsIsHead(s: seq<Player>)
    ensures FirstWithCards(s) == if WithCards(s) == [] then None else Some(WithCards(s)[0])
  {
    if s != [] {
      FirstWithCardsIsHead(s[1..]);
    }
  }

  lemma {:induction false} ActiveAppend(a: seq<Player>, b: seq<Player>, cp: Option<string>)
    ensures Active(a + b, cp) == Active(a, cp) + Active(b, cp)
  {
    if a == [] {
      assert a + b == b;
    } else {
      assert (a + b)[1..] == a[1..] + b;
      ActiveAppend(a[1..], b, cp);
    }
  }

  /** Where nobody carries the current nickname, the active players are the ones with cards. */
  lemma {:induction false} ActiveWithoutCurrent(s: seq<Player>, cp: Option<string>)
    requires forall x :: x in s ==> !Named(x, cp)
    ensures Active(s, cp) == WithCards(s)
  {
    if s != [] {
      assert s[0] in s;
      ActiveWithoutCurrent(s[1..], cp);
    }
  }

  lemma FindAfterPrefix(a: seq<Player>, p: Player, b: seq<Player>, cp: Option<string>)
    requires forall x :: x in a ==> !Named(x, cp)
    requires Named(p, cp)
    ensures FindPlayer(a + [p] + b, cp) == Some(|a|)
  {
    var s := a + [p] + b;
    assert s[|a|] == p;
    assert forall j :: 0 <= j < |a| ==> s[j] == a[j] && s[j] in a;
  }

  lemma OthersUnnamed(players: seq<Player>, i: int)
    requires UniqueNicknames(players) && 0 <= i < |players|
    ensures forall x :: x in players[..i] ==> !Named(x, Some(players[i].nickname))
    ensures forall x :: x in players[i + 1..] ==> !Named(x, Some(players[i].nickname))
  {
    var names := Nicknames(players);
    forall j | 0 <= j < |players| && j != i
      ensures !Named(players[j], Some(players[i].nickname))
    {
      assert names[j] != names[i];
    }
  }

  /** The current player is active whatever its cards; the lists either side are filtered on their own. */
  lemma ActiveSplit(before: seq<Player>, p: Player, after: seq<Player>, cp: Option<string>)
    requires Named(p, cp)
    ensures Active(before + [p] + after, cp) == Active(before, cp) + [p] + Active(after, cp)
  {
    ActiveAppend(before + [p], after, cp);
    ActiveAppend(before, [p], cp);
    assert Active([p], cp) == [p] + Active([], cp);
  }

  /** With the current player between two lists that do not name it: those before with cards, it, those after with cards. */
  lemma ActiveAroundCurrent(before: seq<Player>, p: Player, after: seq<Player>, cp: Option<string>)
    requires Named(p, cp)
    requires forall x :: x in before ==> !Named(x, cp)
    requires forall x :: x in after ==> !Named(x, cp)
    ensures Active(before + [p] + after, cp) == WithCards(before) + [p] + WithCards(after)
  {
    ActiveSplit(before, p, after, cp);
    ActiveWithoutCurrent(before, cp);
    ActiveWithoutCurrent(after, cp);
  }

  lemma {:induction false} WithCardsMembers(s: seq<Player>)
    ensures forall x :: x in WithCards(s) ==> x in s
  {
    if s != [] {
      WithCardsMembers(s[1..]);
    }
  }

  /**
   * With unique nicknames, find_next_active_player gives the first player
   * after the current one, going round the table, who still holds cards,
   * and the current player itself when nobody else does.
   */
  lemma NextActiveGoesRound(players: seq<Player>, i: int)
    requires UniqueNicknames(players) && 0 <= i < |players|
    ensures FindNextActivePlayer(players, Some(players[i].nickname)) == Some(NextInCycle(players, i))
  {
    var cp := Some(players[i].nickname);
    var before, p, after := players[..i], players[i], players[i + 1..];
    assert players == before + [p] + after;
    OthersUnnamed(players, i);
    ActiveAroundCurrent(before, p, after, cp);
    var a, b := WithCards(before), WithCards(after);
    WithCardsMembers(before);
    var active := Active(players, cp);
    FindAfterPrefix(a, p, b, cp);
    WithCardsAppend(after, before);
    FirstWithCardsIsHead(after + before);
    var doubled := active + active;
    if b != [] {
      assert doubled[|a| + 1] == b[0];
    } else if a != [] {
      assert doubled[|a| + 1] == active[0] == a[0];
    } else {
      assert doubled[|a| + 1] == active[0] == p;
    }
  }

  /** Players holding a positive number of cards (the engine's test for who is left). */
  function CountWithCards(players: seq<Player>): (n: nat)
    ensures n <= |players|
  {
    if players == [] then 0 else (if players[0].nCards > 0 then 1 else 0) + CountWithCards(players[1..])
  }
}
