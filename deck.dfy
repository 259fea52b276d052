/**
 * The 52-card deck: an undealt pile `cards` (dealt from its end) and the
 * `dealtCards` already handed out, with a Fisher-Yates shuffle whose random
 * indices are passed in.
 */
module Decks {
  import opened Wrappers
  import opened Cards
  import opened Sequences

  const DECK_SIZE: nat := 52

  /** The faces of a freshly built deck: suit by suit, each suit in rank order. */
  function StandardFaces(): (fs: seq<Face>)
    ensures |fs| == DECK_SIZE
  {
    seq(52, k requires 0 <= k < 52 => FaceAt(k))
  }

  /** The suit block that position k of the standard deck falls in. */
  function SuitOf(k: nat): (si: nat)
    requires k < 52
    ensures si < 4 && 13 * si <= k < 13 * si + 13
  {
    if k < 13 then 0 else if k < 26 then 1 else if k < 39 then 2 else 3
  }

  function FaceAt(k: nat): Face
    requires k < 52
  {
    Face(SUITS[SuitOf(k)], RANKS[k - 13 * SuitOf(k)].value)
  }

  function SuitIndex(s: Suit): nat {
    match s
    case Hearts => 0
    case Diamonds => 1
    case Clubs => 2
    case Spades => 3
  }

  /** Where a face sits in the standard deck. */
  function FaceIndex(f: Face): (k: nat)
    ensures k < DECK_SIZE && StandardFaces()[k] == f
  {
    var k := SuitIndex(f.suit) * 13 + f.value - 2;
    assert SuitOf(k) == SuitIndex(f.suit);
    assert RANKS[f.value - 2].value == f.value;
    k
  }

  lemma StandardFaceAt(si: nat, ri: nat)
    requires si < 4 && ri < 13
    ensures StandardFaces()[13 * si + ri] == Face(SUITS[si], RANKS[ri].value)
  {
    assert SuitOf(13 * si + ri) == si;
  }

  /** Each (suit, rank) pair occurs in the standard deck exactly once. */
  lemma StandardFacesOnePerPair(f: Face, k: int)
    requires 0 <= k < DECK_SIZE
    ensures StandardFaces()[k] == f <==> k == FaceIndex(f)
  {
    var s := StandardFaces()[k];
    var si := SuitOf(k);
    assert RANKS[k - 13 * si].value == k - 13 * si + 2;
    assert SuitIndex(SUITS[si]) == si;
    assert FaceIndex(s) == k;
  }

  lemma StandardFacesDistinct()
    ensures Distinct(StandardFaces())
  {
    forall i, j | 0 <= i < j < DECK_SIZE
      ensures StandardFaces()[i] != StandardFaces()[j]
    {
      StandardFacesOnePerPair(StandardFaces()[i], i);
      StandardFacesOnePerPair(StandardFaces()[i], j);
    }
  }

  function Reversed<T>(s: seq<T>): (r: seq<T>)
    ensures |r| == |s|
  {
    seq(|s|, k requires 0 <= k < |s| => s[|s| - 1 - k])
  }

  lemma ReversedPermutes<T>(s: seq<T>)
    ensures multiset(Reversed(s)) == multiset(s)
    decreases |s|
  {
    if s != [] {
      var n := |s|;
      assert s == s[..n - 1] + [s[n - 1]];
      assert Reversed(s) == [s[n - 1]] + Reversed(s[..n - 1]);
      ReversedPermutes(s[..n - 1]);
    }
  }

  lemma ReversedCons<T>(x: T, s: seq<T>)
    ensures Reversed([x] + s) == Reversed(s) + [x]
  {
    var r := Reversed([x] + s);
    assert |r| == |Reversed(s) + [x]|;
    forall k | 0 <= k < |r| ensures r[k] == (Reversed(s) + [x])[k] { }
  }

  /** Dealing one more card from the end extends the reversed suffix by that card. */
  lemma ReversedSuffixStep<T>(s: seq<T>, i: nat)
    requires i < |s|
    ensures Reversed(s[|s| - (i + 1)..]) == Reversed(s[|s| - i..]) + [s[|s| - 1 - i]]
  {
    var n := |s|;
    assert s[n - (i + 1)..] == [s[n - 1 - i]] + s[n - i..];
    ReversedCons(s[n - 1 - i], s[n - i..]);
  }

  /** Swap positions i and j, as the destructuring assignment of the shuffle does. */
  function Swap<T>(s: seq<T>, i: nat, j: nat): (r: seq<T>)
    requires i < |s| && j < |s|
    ensures |r| == |s|
  {
    s[i := s[j]][j := s[i]]
  }

  lemma SwapPermutes<T>(s: seq<T>, i: nat, j: nat)
    requires i < |s| && j < |s|
    ensures multiset(Swap(s, i, j)) == multiset(s)
  {
  }

  /** Random draws fit for a shuffle of n cards: draws[i] lies in 0..i. */
  predicate ValidDraws(draws: seq<nat>, n: nat) {
    |draws| == n && forall i :: 0 <= i < |draws| ==> draws[i] <= i
  }

  /** The Fisher-Yates passes i, i-1, ..., 1 applied to s. */
  function FisherYatesFrom<T>(s: seq<T>, draws: seq<nat>, i: nat): (r: seq<T>)
    requires ValidDraws(draws, |s|) && (i < |s| || i == 0)
    ensures |r| == |s|
    decreases i
  {
    if i == 0 then s else FisherYatesFrom(Swap(s, i, draws[i]), draws, i - 1)
  }

  function Shuffled<T>(s: seq<T>, draws: seq<nat>): seq<T>
    requires ValidDraws(draws, |s|)
  {
    if |s| == 0 then s else FisherYatesFrom(s, draws, |s| - 1)
  }

  /** A shuffle only permutes. */
  lemma {:induction false} FisherYatesPermutes<T>(s: seq<T>, draws: seq<nat>, i: nat)
    requires ValidDraws(draws, |s|) && (i < |s| || i == 0)
    ensures multiset(FisherYatesFrom(s, draws, i)) == multiset(s)
    decreases i
  {
    if i > 0 {
      SwapPermutes(s, i, draws[i]);
      FisherYatesPermutes(Swap(s, i, draws[i]), draws, i - 1);
    }
  }

  lemma ShuffledPermutes<T>(s: seq<T>, draws: seq<nat>)
    requires ValidDraws(draws, |s|)
    ensures |Shuffled(s, draws)| == |s|
    ensures multiset(Shuffled(s, draws)) == multiset(s)
  {
    if |s| > 0 { FisherYatesPermutes(s, draws, |s| - 1); }
  }

  class Deck {
    var cards: seq<Card>
    var dealtCards: seq<Card>
    /** The 52 cards built by the last Initialize, in build order. */
    ghost var full: seq<Card>

    /** Every one of the 52 cards of the deck is in exactly one of the two piles. */
    ghost predicate Valid()
      reads this
    {
      |full| == DECK_SIZE && multiset(cards) + multiset(dealtCards) == multiset(full)
    }

    /**
     * The cards built by the last Initialize are distinct objects, one per
     * (suit, rank) pair; nothing but Initialize changes them.
     */
    ghost predicate Standard()
      reads this
    {
      Distinct(full) && Faces(full) == StandardFaces()
    }

    constructor ()
      ensures Valid() && Standard()
      ensures Faces(cards) == StandardFaces() && dealtCards == [] && full == cards
      ensures forall c | c in cards :: fresh(c) && !c.isRevealed
    {
      cards, dealtCards, full := [], [], [];
      new;
      Initialize();
    }

    /** Build 52 new face-down cards, suit by suit and rank by rank; nothing is dealt. */
    method Initialize()
      modifies this
      ensures Valid() && Standard()
      ensures Faces(cards) == StandardFaces() && dealtCards == [] && full == cards
      ensures forall c | c in cards :: fresh(c) && !c.isRevealed
    {
      cards := [];
      dealtCards := [];
      for si := 0 to 4
        invariant |cards| == 13 * si && dealtCards == []
        invariant forall k :: 0 <= k < |cards| ==> cards[k].GetFace() == StandardFaces()[k]
        invariant Distinct(cards)
        invariant forall c | c in cards :: fresh(c) && !c.isRevealed
      {
        for ri := 0 to 13
          invariant |cards| == 13 * si + ri && dealtCards == []
          invariant forall k :: 0 <= k < |cards| ==> cards[k].GetFace() == StandardFaces()[k]
          invariant Distinct(cards)
          invariant forall c | c in cards :: fresh(c) && !c.isRevealed
        {
          var c := new Card(SUITS[si], RANKS[ri]);
          StandardFaceAt(si, ri);
          cards := cards + [c];
        }
      }
      full := cards;
    }

    /** Fisher-Yates: for i from the last index down to 1, swap cards[i] with cards[draws[i]]. */
    method Shuffle(draws: seq<nat>)
      requires Valid() && ValidDraws(draws, |cards|)
      modifies this
      ensures Valid()
      ensures cards == Shuffled(old(cards), draws)
      ensures multiset(cards) == multiset(old(cards))
      ensures dealtCards == old(dealtCards) && full == old(full)
    {
      ghost var n := |cards|;
      var i := |cards| - 1;
      while i > 0
        invariant -1 <= i < n && |cards| == n && (n == 0 <==> i == -1)
        invariant dealtCards == old(dealtCards) && full == old(full)
        invariant multiset(cards) == multiset(old(cards))
        invariant Shuffled(old(cards), draws) == FisherYatesFrom(cards, draws, if i < 0 then 0 else i)
      {
        var j := draws[i];
        cards := Swap(cards, i, j);
        i := i - 1;
      }
    }

    /** Take the top (last) undealt card and record it as dealt; None on an empty deck. */
    method DealCard() returns (r: Option<Card>)
      requires Valid()
      modifies this
      ensures Valid() && full == old(full)
      ensures r.None? <==> old(cards) == []
      ensures r.None? ==> cards == old(cards) && dealtCards == old(dealtCards)
      ensures r.Some? ==>
        && r.value == old(cards)[|old(cards)| - 1]
        && cards == old(cards)[..|old(cards)| - 1]
        && dealtCards == old(dealtCards) + [r.value]
    {
      if |cards| == 0 {
        return None;
      }
      var card := cards[|cards| - 1];
      assert cards == cards[..|cards| - 1] + [card];
      cards := cards[..|cards| - 1];
      dealtCards := dealtCards + [card];
      r := Some(card);
    }

    /**
     * Deal `count` cards one by one: the last `count` undealt cards, top first.
     * When fewer remain, every remaining card is moved and the result is None.
     */
    method DealCards(count: nat) returns (r: Option<seq<Card>>)
      requires Valid()
      modifies this
      ensures Valid() && full == old(full)
      ensures r.Some? <==> count <= |old(cards)|
      ensures r.Some? ==>
        && r.value == Reversed(old(cards)[|old(cards)| - count..])
        && cards == old(cards)[..|old(cards)| - count]
        && dealtCards == old(dealtCards) + r.value
      ensures r.None? ==>
        && cards == []
        && dealtCards == old(dealtCards) + Reversed(old(cards))
    {
      ghost var c0, d0 := cards, dealtCards;
      ghost var n := |cards|;
      var dealt: seq<Card> := [];
      for i := 0 to count
        invariant Valid() && full == old(full)
        invariant i <= n && |dealt| == i
        invariant dealt == Reversed(c0[n - i..])
        invariant cards == c0[..n - i]
        invariant dealtCards == d0 + dealt
      {
        var c := DealCard();
        if c.None? {
          assert c0[n - i..] == c0;
          return None;
        }
        ReversedSuffixStep(c0, i);
        dealt := dealt + [c.value];
      }
      r := Some(dealt);
    }

    /** Rebuild the 52 cards and shuffle them. */
    method Reset(draws: seq<nat>)
      requires ValidDraws(draws, DECK_SIZE)
      modifies this
      ensures Valid() && Standard() && dealtCards == [] && |cards| == DECK_SIZE
      ensures cards == Shuffled(full, draws)
      ensures multiset(Faces(cards)) == multiset(StandardFaces())
      ensures forall i | 0 <= i < |cards| :: fresh(cards[i]) && !cards[i].isRevealed
    {
      Initialize();
      ghost var built := cards;
      Shuffle(draws);
      FacesOfFisherYates(built, draws, |built| - 1);
      ShuffledPermutes(Faces(built), draws);
      ShuffledPermutes(built, draws);
      forall i | 0 <= i < |cards| ensures cards[i] in built {
        assert cards[i] in multiset(cards);
      }
    }

    function GetCardsRemaining(): (n: nat)
      requires Valid()
      reads this
      ensures n == |cards| && n + |dealtCards| == DECK_SIZE
    {
      PoolSize();
      |cards|
    }

    lemma PoolSize()
      requires Valid()
      ensures |cards| + |dealtCards| == DECK_SIZE
    {
      assert |multiset(cards) + multiset(dealtCards)| == |multiset(full)|;
    }

    /** Put a dealt card back on top of the undealt pile; a card not dealt is ignored. */
    method ReturnCard(card: Card)
      requires Valid()
      modifies this
      ensures Valid() && full == old(full)
      ensures card !in old(dealtCards) ==> cards == old(cards) && dealtCards == old(dealtCards)
      ensures card in old(dealtCards) ==>
        var k := IndexOf(old(dealtCards), card);
        && dealtCards == old(dealtCards)[..k] + old(dealtCards)[k + 1..]
        && cards == old(cards) + [card]
    {
      var index := IndexOf(dealtCards, card);
      if index > -1 {
        assert dealtCards == dealtCards[..index] + [card] + dealtCards[index + 1..];
        dealtCards := dealtCards[..index] + dealtCards[index + 1..];
        cards := cards + [card];
      }
    }

    /** Move every dealt card back, the most recently dealt first. */
    method ReturnAllCards()
      requires Valid()
      modifies this
      ensures Valid() && full == old(full)
      ensures dealtCards == []
      ensures cards == old(cards) + Reversed(old(dealtCards))
    {
      ghost var d := dealtCards;
      while |dealtCards| > 0
        invariant Valid() && full == old(full)
        invariant dealtCards == d[..|dealtCards|]
        invariant cards == old(cards) + Reversed(d[|dealtCards|..])
      {
        var m := |dealtCards|;
        var c := dealtCards[m - 1];
        assert dealtCards == dealtCards[..m - 1] + [c];
        assert d[m - 1..] == [c] + d[m..];
        ReversedCons(c, d[m..]);
        assert multiset(cards + [c]) + multiset(dealtCards[..m - 1]) == multiset(cards) + multiset(dealtCards);
        dealtCards := dealtCards[..m - 1];
        cards := cards + [c];
      }
      assert d[0..] == d;
    }

    /** No card is both undealt and dealt. */
    lemma NoCardInBothPiles(c: Card)
      requires Valid() && Standard()
      ensures !(c in cards && c in dealtCards)
    {
      DistinctOnce(full, c);
    }

    /** The undealt and the dealt pile share no card. */
    lemma PilesDisjoint()
      requires Valid() && Standard()
      ensures forall c | c in cards :: c !in dealtCards
    {
      forall c | c in cards ensures c !in dealtCards {
        NoCardInBothPiles(c);
      }
    }

    /** Within a valid deck, Equals coincides with object identity. */
    lemma EqualsIsIdentity(a: Card, b: Card)
      requires Valid() && Standard()
      requires a in full && b in full
      ensures a.Equals(b) <==> a == b
    {
      StandardFacesDistinct();
      var i :| 0 <= i < |full| && full[i] == a;
      var j :| 0 <= j < |full| && full[j] == b;
      assert Faces(full)[i] == a.GetFace() && Faces(full)[j] == b.GetFace();
    }
  }

  /** Shuffling cards and then reading their faces is shuffling the faces. */
  lemma {:induction false} FacesOfFisherYates(s: seq<Card>, draws: seq<nat>, i: nat)
    requires ValidDraws(draws, |s|) && (i < |s| || i == 0)
    ensures Faces(FisherYatesFrom(s, draws, i)) == FisherYatesFrom(Faces(s), draws, i)
    decreases i
  {
    if i > 0 {
      FacesOfSwap(s, i, draws[i]);
      FacesOfFisherYates(Swap(s, i, draws[i]), draws, i - 1);
    }
  }

  lemma FacesOfSwap(s: seq<Card>, i: nat, j: nat)
    requires i < |s| && j < |s|
    ensures Faces(Swap(s, i, j)) == Swap(Faces(s), i, j)
  {
    var a, b := Faces(Swap(s, i, j)), Swap(Faces(s), i, j);
    forall k | 0 <= k < |a| ensures a[k] == b[k] { }
  }

}
