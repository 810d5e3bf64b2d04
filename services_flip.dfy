/**
 * The service cards of components/services-flip.tsx: the ids of the flipped cards are kept in a
 * list that `toggleCard` replaces, removing the id when it is present and appending it otherwise.
 */
module ServicesFlip {
  import opened Seqs

  /** The `filter` callback `(id) => id !== cardId`. */
  function Keep(cardId: int): int -> bool
  {
    (id: int) => id != cardId
  }

  /** The list `toggleCard` computes from the previous one. */
  function Toggle(flipped: seq<int>, cardId: int): (r: seq<int>)
    ensures cardId !in flipped ==> r == flipped + [cardId]
    ensures cardId in flipped ==> cardId !in r && IsSubsequence(r, flipped)
    ensures cardId in r <==> cardId !in flipped
    ensures forall id :: id != cardId ==> (id in r <==> id in flipped)
  {
    if cardId in flipped then Filter(flipped, Keep(cardId)) else flipped + [cardId]
  }

  /** Removing keeps the other ids with their multiplicities, in their order. */
  lemma ToggleRemovesOnlyThatId(flipped: seq<int>, cardId: int)
    requires cardId in flipped
    ensures forall id :: id != cardId ==> multiset(Toggle(flipped, cardId))[id] == multiset(flipped)[id]
    ensures multiset(Toggle(flipped, cardId))[cardId] == 0
  {
    FilterCounts(flipped, Keep(cardId));
  }

  /** Toggling the same card twice gives every id its old membership back. */
  lemma ToggleTwiceMembership(flipped: seq<int>, cardId: int)
    ensures forall id :: id in Toggle(Toggle(flipped, cardId), cardId) <==> id in flipped
  {
  }

  /** Flipping a card that is not flipped and flipping it back restores the list exactly. */
  lemma ToggleTwiceRestores(flipped: seq<int>, cardId: int)
    requires cardId !in flipped
    ensures Toggle(Toggle(flipped, cardId), cardId) == flipped
  {
    FilterAppend(flipped, cardId, Keep(cardId));
    FilterAllPass(flipped, Keep(cardId));
  }

  /** A toggle never introduces a repeated id. */
  lemma ToggleKeepsNoDuplicates(flipped: seq<int>, cardId: int)
    requires NoDuplicates(flipped)
    ensures NoDuplicates(Toggle(flipped, cardId))
  {
    var r := Toggle(flipped, cardId);
    if cardId in flipped {
      FilterCounts(flipped, Keep(cardId));
      forall i, j | 0 <= i < j < |r|
        ensures r[i] != r[j]
      {
        if r[i] == r[j] {
          TwoPositionsCountTwice(r, i, j);
          var a, b := CountTwiceTwoPositions(flipped, r[i]);
        }
      }
    }
  }

  /** `toggleCard` applied to each id in turn. */
  function ToggleAll(flipped: seq<int>, ids: seq<int>): seq<int>
    decreases |ids|
  {
    if ids == [] then flipped else ToggleAll(Toggle(flipped, ids[0]), ids[1..])
  }

  /** Starting from no flipped card, any sequence of clicks leaves a list without repeats. */
  lemma {:induction false} TogglesFromEmptyNoDuplicates(flipped: seq<int>, ids: seq<int>)
    requires NoDuplicates(flipped)
    ensures NoDuplicates(ToggleAll(flipped, ids))
    decreases |ids|
  {
    if ids != [] {
      ToggleKeepsNoDuplicates(flipped, ids[0]);
      TogglesFromEmptyNoDuplicates(Toggle(flipped, ids[0]), ids[1..]);
    }
  }

  /** The `flippedCards` state of the component. */
  class FlipState {
    var flippedCards: seq<int>

    /** No card id appears twice. */
    predicate Valid()
      reads this
    {
      NoDuplicates(flippedCards)
    }

    /** `isFlipped`: the card shows its back (`flipped` class, `aria-pressed`). */
    predicate IsFlipped(cardId: int)
      reads this
    {
      cardId in flippedCards
    }

    /** `useState<number[]>([])`. */
    constructor ()
      ensures flippedCards == [] && Valid()
    {
      flippedCards := [];
    }

    /** `toggleCard(cardId)`, from a click on the card. */
    method ToggleCard(cardId: int)
      modifies this
      ensures flippedCards == Toggle(old(flippedCards), cardId)
      ensures IsFlipped(cardId) <==> !old(IsFlipped(cardId))
      ensures forall id :: id != cardId ==> (IsFlipped(id) <==> old(IsFlipped(id)))
      ensures old(Valid()) ==> Valid()
    {
      if old(Valid()) {
        ToggleKeepsNoDuplicates(flippedCards, cardId);
      }
      flippedCards := Toggle(flippedCards, cardId);
    }

    /** The card's `onKeyDown`: Enter and space toggle it, every other key is ignored. */
    method HandleCardKey(cardId: int, key: string)
      modifies this
      ensures key == "Enter" || key == " " ==> flippedCards == Toggle(old(flippedCards), cardId)
      ensures key != "Enter" && key != " " ==> flippedCards == old(flippedCards)
      ensures old(Valid()) ==> Valid()
    {
      if key == "Enter" || key == " " {
        ToggleCard(cardId);
      }
    }
  }
}
