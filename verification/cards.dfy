/**
 * Cards of Blef: six values (9, 10, J, Q, K, A as 0..5) in four colours,
 * 24 cards in all.
 */
module Cards {
  import opened Sequences

  datatype Card = Card(value: int, colour: int)

  predicate InDeck(c: Card)
  {
    0 <= c.value < 6 && 0 <= c.colour < 4
  }

  /** product(range(6), range(4)): value-major order, colour varying fastest. */
  function Deck(): (d: seq<Card>)
    ensures |d| == 24
    ensures forall c :: c in d ==> InDeck(c)
  {
    seq(24, i requires 0 <= i < 24 => Card(i / 4, i % 4))
  }

  /** The deck lists every card of the game exactly once. */
  lemma DeckIsEveryCardOnce()
    ensures Distinct(Deck())
    ensures forall c :: c in Deck() <==> InDeck(c)
  {
    forall c | InDeck(c)
      ensures c in Deck()
    {
      assert Deck()[4 * c.value + c.colour] == c;
    }
  }

  /** A random permutation of the deck, the source of every deal. */
  predicate IsShuffledDeck(s: seq<Card>)
  {
    |s| == 24 && Distinct(s) && forall i :: 0 <= i < |s| ==> InDeck(s[i])
  }

  /** The values of a list of cards, in order (card_values). */
  function Values(cards: seq<Card>): (vs: seq<int>)
    ensures |vs| == |cards|
    ensures forall i :: 0 <= i < |cards| ==> vs[i] == cards[i].value
  {
    seq(|cards|, i requires 0 <= i < |cards| => cards[i].value)
  }

  /** The colours of a list of cards, in order (card_colours). */
  function Colours(cards: seq<Card>): (cs: seq<int>)
    ensures |cs| == |cards|
    ensures forall i :: 0 <= i < |cards| ==> cs[i] == cards[i].colour
  {
    seq(|cards|, i requires 0 <= i < |cards| => cards[i].colour)
  }

  /** The values of the cards of one colour, in order (relevant_values). */
  function ValuesOfColour(cards: seq<Card>, colour: int): (vs: seq<int>)
    ensures |vs| <= |cards|
  {
    if cards == [] then []
    else if cards[0].colour == colour then [cards[0].value] + ValuesOfColour(cards[1..], colour)
    else ValuesOfColour(cards[1..], colour)
  }

  /** list.count: the number of positions holding x. */
  function Count(xs: seq<int>, x: int): nat
  {
    if xs == [] then 0 else (if xs[0] == x then 1 else 0) + Count(xs[1..], x)
  }

  /** Pooling two lists of cards adds their counts. */
  lemma {:induction false} CountAppend(xs: seq<int>, ys: seq<int>, x: int)
    ensures Count(xs + ys, x) == Count(xs, x) + Count(ys, x)
  {
    if xs != [] {
      assert (xs + ys)[1..] == xs[1..] + ys;
      CountAppend(xs[1..], ys, x);
    } else {
      assert xs + ys == ys;
    }
  }

  lemma {:induction false} CountPositive(xs: seq<int>, x: int)
    ensures Count(xs, x) > 0 <==> x in xs
  {
    if xs != [] {
      CountPositive(xs[1..], x);
      assert xs == [xs[0]] + xs[1..];
    }
  }

  /** list.count is the multiplicity of the element in the list taken as a multiset. */
  lemma {:induction false} CountIsMultiplicity(xs: seq<int>, x: int)
    ensures Count(xs, x) == multiset(xs)[x]
  {
    if xs != [] {
      CountIsMultiplicity(xs[1..], x);
      assert xs == [xs[0]] + xs[1..];
    }
  }

  /** A value occurs at most once per position, and two different values share the positions. */
  lemma {:induction false} CountsWithinLength(xs: seq<int>, x: int, y: int)
    ensures Count(xs, x) <= |xs|
    ensures x != y ==> Count(xs, x) + Count(xs, y) <= |xs|
  {
    if xs != [] {
      CountsWithinLength(xs[1..], x, y);
    }
  }

  lemma ValuesAppend(a: seq<Card>, b: seq<Card>)
    ensures Values(a + b) == Values(a) + Values(b)
    ensures Colours(a + b) == Colours(a) + Colours(b)
  {
  }

  lemma {:induction false} ValuesOfColourAppend(a: seq<Card>, b: seq<Card>, colour: int)
    ensures ValuesOfColour(a + b, colour) == ValuesOfColour(a, colour) + ValuesOfColour(b, colour)
  {
    if a != [] {
      assert (a + b)[1..] == a[1..] + b;
      ValuesOfColourAppend(a[1..], b, colour);
    } else {
      assert a + b == b;
    }
  }

  /**
   * Cards drawn from among other cards (as multisets): their values, their
   * colours and their values of one colour are drawn from those of the others.
   */
  lemma ProjectionsWithin(a: seq<Card>, b: seq<Card>, colour: int)
    requires multiset(a) <= multiset(b)
    ensures multiset(Values(a)) <= multiset(Values(b))
    ensures multiset(Colours(a)) <= multiset(Colours(b))
    ensures multiset(ValuesOfColour(a, colour)) <= multiset(ValuesOfColour(b, colour))
  {
    ValuesWithin(a, b);
    ColoursWithin(a, b);
    ValuesOfColourWithin(a, b, colour);
  }

  /** b with the head of a taken out at position j, where b holds it. */
  lemma WithoutHead(a: seq<Card>, b: seq<Card>, j: int)
    requires a != [] && multiset(a) <= multiset(b) && 0 <= j < |b| && b[j] == a[0]
    ensures b == b[..j] + [a[0]] + b[j + 1..]
    ensures a == [a[0]] + a[1..]
    ensures multiset(a[1..]) <= multiset(b[..j] + b[j + 1..])
  {
    var before, after := b[..j], b[j + 1..];
    assert b == before + [a[0]] + after;
    assert a == [a[0]] + a[1..];
    assert multiset(b) == multiset(before + after) + multiset{a[0]};
    forall y
      ensures multiset(a[1..])[y] <= multiset(before + after)[y]
    {
      assert multiset(a)[y] <= multiset(b)[y];
    }
  }

  lemma {:induction false} ValuesWithin(a: seq<Card>, b: seq<Card>)
    requires multiset(a) <= multiset(b)
    ensures multiset(Values(a)) <= multiset(Values(b))
    decreases |a|
  {
    if a != [] {
      var x := a[0];
      assert x in multiset(b);
      var j :| 0 <= j < |b| && b[j] == x;
      WithoutHead(a, b, j);
      var before, after := b[..j], b[j + 1..];
      ValuesWithin(a[1..], before + after);
      ValuesAppend([x], a[1..]);
      ValuesAppend(before + [x], after);
      ValuesAppend(before, [x]);
      ValuesAppend(before, after);
    }
  }

  lemma {:induction false} ColoursWithin(a: seq<Card>, b: seq<Card>)
    requires multiset(a) <= multiset(b)
    ensures multiset(Colours(a)) <= multiset(Colours(b))
    decreases |a|
  {
    if a != [] {
      var x := a[0];
      assert x in multiset(b);
      var j :| 0 <= j < |b| && b[j] == x;
      WithoutHead(a, b, j);
      var before, after := b[..j], b[j + 1..];
      ColoursWithin(a[1..], before + after);
      ValuesAppend([x], a[1..]);
      ValuesAppend(before + [x], after);
      ValuesAppend(before, [x]);
      ValuesAppend(before, after);
    }
  }

  lemma {:induction false} ValuesOfColourWithin(a: seq<Card>, b: seq<Card>, colour: int)
    requires multiset(a) <= multiset(b)
    ensures multiset(ValuesOfColour(a, colour)) <= multiset(ValuesOfColour(b, colour))
    decreases |a|
  {
    if a != [] {
      var x := a[0];
      assert x in multiset(b);
      var j :| 0 <= j < |b| && b[j] == x;
      WithoutHead(a, b, j);
      var before, after := b[..j], b[j + 1..];
      ValuesOfColourWithin(a[1..], before + after, colour);
      ValuesOfColourAppend([x], a[1..], colour);
      ValuesOfColourAppend(before + [x], after, colour);
      ValuesOfColourAppend(before, [x], colour);
      ValuesOfColourAppend(before, after, colour);
    }
  }
}
