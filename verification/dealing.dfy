/**
 * draw_cards: a sample of as many cards as the players hold in total, cut
 * into consecutive hands in seating order.
 *
 * random.sample(deck, k) is modelled as the first k cards of a shuffled
 * deck, which is a parameter.
 */
module Dealing {
  import opened Wrappers
  import opened Sequences
  import opened Cards
  import opened Players

  /** One player's hand, tagged with its nickname. */
  datatype Hand = Hand(nickname: string, hand: seq<Card>)

  /** sum(n_cards): the number of cards dealt; negative counts are summed as they are. */
  function TotalCards(players: seq<Player>): int
  {
    if players == [] then 0 else players[0].nCards + TotalCards(players[1..])
  }

  predicate NonNegativeCounts(players: seq<Player>)
  {
    forall i :: 0 <= i < |players| ==> players[i].nCards >= 0
  }

  /** The deal succeeds exactly when every count is a valid islice stop and the sample fits in the deck. */
  predicate Dealable(players: seq<Player>)
  {
    NonNegativeCounts(players) && TotalCards(players) <= 24
  }

  lemma {:induction false} TotalNonNegative(players: seq<Player>)
    requires NonNegativeCounts(players)
    ensures TotalCards(players) >= 0
  {
    if players != [] {
      TotalNonNegative(players[1..]);
    }
  }

  /**
   * The hands dealt from an iterator over cards: each player in turn takes
   * its count of cards from the front of what is left.
   */
  function Deal(players: seq<Player>, cards: seq<Card>): (hands: seq<Hand>)
    requires NonNegativeCounts(players) && TotalCards(players) <= |cards|
    ensures |hands| == |players|
    ensures forall i :: 0 <= i < |players| ==>
              hands[i].nickname == players[i].nickname && |hands[i].hand| == players[i].nCards
  {
    if players == [] then []
    else
      var n := players[0].nCards;
      TotalNonNegative(players[1..]);
      [Hand(players[0].nickname, cards[..n])] + Deal(players[1..], cards[n..])
  }

  /** Every card in the hands, hand after hand (the card list handle_check builds). */
  function AllCards(hands: seq<Hand>): seq<Card>
  {
    if hands == [] then [] else hands[0].hand + AllCards(hands[1..])
  }

  lemma {:induction false} InSomeHand(hands: seq<Hand>, j: int, c: Card)
    requires 0 <= j < |hands| && c in hands[j].hand
    ensures c in AllCards(hands)
  {
    if j > 0 {
      InSomeHand(hands[1..], j - 1, c);
    }
  }

  /** Dealt hands, put back together, are exactly the sampled cards, in order. */
  lemma {:induction false} DealUsesTheSample(players: seq<Player>, cards: seq<Card>)
    requires NonNegativeCounts(players) && TotalCards(players) <= |cards|
    ensures 0 <= TotalCards(players)
    ensures AllCards(Deal(players, cards)) == cards[..TotalCards(players)]
  {
    TotalNonNegative(players);
    if players != [] {
      var n := players[0].nCards;
      TotalNonNegative(players[1..]);
      DealUsesTheSample(players[1..], cards[n..]);
      assert cards[..n] + cards[n..][..TotalCards(players[1..])] == cards[..TotalCards(players)];
    }
  }

  /** From cards without repeats, no card is dealt to two different players. */
  lemma {:induction false} HandsDisjoint(players: seq<Player>, cards: seq<Card>)
    requires NonNegativeCounts(players) && TotalCards(players) <= |cards| && Distinct(cards)
    ensures forall i, j, c :: 0 <= i < j < |players| && c in Deal(players, cards)[i].hand ==>
              c !in Deal(players, cards)[j].hand
  {
    if players != [] {
      var n := players[0].nCards;
      var hands := Deal(players, cards);
      TotalNonNegative(players[1..]);
      var later := Deal(players[1..], cards[n..]);
      assert hands[1..] == later;
      HandsDisjoint(players[1..], cards[n..]);
      DealUsesTheSample(players[1..], cards[n..]);
      assert forall x :: x in AllCards(later) ==> x in cards[n..] by {
        PrefixMembers(cards[n..], TotalCards(players[1..]));
      }
      forall j, c | 0 < j < |players| && c in hands[0].hand
        ensures c !in hands[j].hand
      {
        FirstApartFromLater(cards, n, later, j - 1, c);
      }
    }
  }

  lemma PrefixMembers(s: seq<Card>, k: int)
    requires 0 <= k <= |s|
    ensures forall x :: x in s[..k] ==> x in s
  {
    forall x | x in s[..k]
      ensures x in s
    {
      var m :| 0 <= m < k && s[..k][m] == x;
      assert s[m] == x;
    }
  }

  /** A card from the first n of distinct cards is in no hand dealt from the cards after them. */
  lemma FirstApartFromLater(cards: seq<Card>, n: int, later: seq<Hand>, j: int, c: Card)
    requires Distinct(cards) && 0 <= n <= |cards| && c in cards[..n] && 0 <= j < |later|
    requires forall x :: x in AllCards(later) ==> x in cards[n..]
    ensures c !in later[j].hand
  {
    var a :| 0 <= a < n && cards[a] == c;
    forall x | x in later[j].hand
      ensures x != c
    {
      InSomeHand(later, j, x);
      var m :| 0 <= m < |cards| - n && cards[n..][m] == x;
      assert cards[n + m] == x;
    }
  }

  /** Dealing from a shuffled deck hands out distinct cards of the game, the sample in order. */
  lemma DealFromDeck(players: seq<Player>, shuffled: seq<Card>)
    requires Dealable(players) && IsShuffledDeck(shuffled)
    ensures Distinct(AllCards(Deal(players, shuffled)))
    ensures forall c :: c in AllCards(Deal(players, shuffled)) ==> InDeck(c)
  {
    DealUsesTheSample(players, shuffled);
    var sample := shuffled[..TotalCards(players)];
    assert forall k :: 0 <= k < |sample| ==> sample[k] == shuffled[k];
  }

  /** The loop state of draw_cards: the hands so far followed by the deal of the rest make the whole deal. */
  ghost predicate DealtSoFar(players: seq<Player>, sample: seq<Card>, i: int, hands: seq<Hand>, rest: seq<Card>)
  {
    Dealable(players) && TotalCards(players) == |sample| && 0 <= i <= |players| &&
    NonNegativeCounts(players[i..]) && TotalCards(players[i..]) == |rest| &&
    hands + Deal(players[i..], rest) == Deal(players, sample)
  }

  /** One turn of the deal: the next player takes its count from the front of what is left. */
  lemma DealtStep(players: seq<Player>, sample: seq<Card>, i: int, hands: seq<Hand>, rest: seq<Card>)
    requires DealtSoFar(players, sample, i, hands, rest) && i < |players|
    ensures 0 <= players[i].nCards <= |rest|
    ensures DealtSoFar(players, sample, i + 1, hands + [Hand(players[i].nickname, rest[..players[i].nCards])],
                       rest[players[i].nCards..])
  {
    var n := players[i].nCards;
    assert players[i..][0] == players[i];
    assert players[i..][1..] == players[i + 1..];
    TotalNonNegative(players[i + 1..]);
    var hand := Hand(players[i].nickname, rest[..n]);
    assert Deal(players[i..], rest) == [hand] + Deal(players[i + 1..], rest[n..]);
    assert hands + [hand] + Deal(players[i + 1..], rest[n..]) == hands + Deal(players[i..], rest);
  }

  lemma DealtAll(players: seq<Player>, sample: seq<Card>, hands: seq<Hand>, rest: seq<Card>)
    requires DealtSoFar(players, sample, |players|, hands, rest)
    ensures hands == Deal(players, sample)
  {
    assert players[|players|..] == [];
  }

  /**
   * draw_cards. The sample raises ValueError when the total is negative or
   * above 24, and islice raises ValueError on a negative count; otherwise
   * each player takes its count from what is left of the sample.
   */
  method DrawCards(players: seq<Player>, shuffled: seq<Card>) returns (r: Result<seq<Hand>, Error>)
    requires IsShuffledDeck(shuffled)
    ensures r.Success? <==> Dealable(players)
    ensures r.Success? ==> TotalCards(players) >= 0 && r.value == Deal(players, shuffled[..TotalCards(players)])
    ensures r.Failure? ==> r.error == ValueError
  {
    var total := TotalCards(players);
    if total < 0 || total > 24 {
      if NonNegativeCounts(players) {
        TotalNonNegative(players);
      }
      return Failure(ValueError);
    }
    var rest := shuffled[..total];
    var hands: seq<Hand> := [];
    var i := 0;
    ghost var dealable := Dealable(players);
    while i < |players|
      invariant 0 <= i <= |players|
      invariant forall j :: 0 <= j < i ==> players[j].nCards >= 0
      invariant dealable ==> DealtSoFar(players, shuffled[..total], i, hands, rest)
    {
      var n := players[i].nCards;
      if n < 0 {
        return Failure(ValueError);
      }
      var k := if n < |rest| then n else |rest|;
      if dealable {
        DealtStep(players, shuffled[..total], i, hands, rest);
      }
      hands := hands + [Hand(players[i].nickname, rest[..k])];
      rest := rest[k..];
      i := i + 1;
    }
    DealtAll(players, shuffled[..total], hands, rest);
    return Success(hands);
  }
}
