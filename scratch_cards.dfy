/** The customer's scratch-card page: the saved cards and claiming one of them. */
module ScratchCardPage {
  import opened Wrappers

  /** A saved card; `claimed` is absent (None) until the card is claimed here. */
  datatype Card = Card(
    name: string,
    sku: string,
    category: string,
    startingPrice: real,
    totalOrdered: int,
    preparationTime: int,
    imageUrl: string,
    variations: seq<(string, real)>,
    claimed: Option<bool>)

  /** Every card with this SKU gets `claimed: true`; the others are kept as they are. */
  function Claimed(cards: seq<Card>, sku: string): (r: seq<Card>)
    ensures |r| == |cards|
    ensures forall k :: 0 <= k < |r| && cards[k].sku == sku ==> r[k] == cards[k].(claimed := Some(true))
    ensures forall k :: 0 <= k < |r| && cards[k].sku != sku ==> r[k] == cards[k]
  {
    seq(|cards|, k requires 0 <= k < |cards| => if cards[k].sku == sku then cards[k].(claimed := Some(true)) else cards[k])
  }

  /** After a claim every card with that SKU is marked claimed, and the SKUs stay in place. */
  lemma ClaimMarks(cards: seq<Card>, sku: string)
    ensures forall c :: c in Claimed(cards, sku) && c.sku == sku ==> c.claimed == Some(true)
    ensures forall k :: 0 <= k < |cards| ==> Claimed(cards, sku)[k].sku == cards[k].sku
  {
    var r := Claimed(cards, sku);
    forall c | c in r && c.sku == sku ensures c.claimed == Some(true) {
      var k :| 0 <= k < |r| && r[k] == c;
      assert cards[k].sku == sku;
    }
  }

  /** Claiming the same card twice gives the same list as claiming it once. */
  lemma ClaimIdempotent(cards: seq<Card>, sku: string)
    ensures Claimed(Claimed(cards, sku), sku) == Claimed(cards, sku)
  {
    var once := Claimed(cards, sku);
    var twice := Claimed(once, sku);
    forall k | 0 <= k < |cards| ensures twice[k] == once[k] {
      if cards[k].sku == sku {
        assert once[k].sku == sku;
      }
    }
  }

  /** Claims of two cards can be made in either order. */
  lemma ClaimsCommute(cards: seq<Card>, a: string, b: string)
    ensures Claimed(Claimed(cards, a), b) == Claimed(Claimed(cards, b), a)
  {
    var ab := Claimed(Claimed(cards, a), b);
    var ba := Claimed(Claimed(cards, b), a);
    forall k | 0 <= k < |cards| ensures ab[k] == ba[k] {
      assert Claimed(cards, a)[k].sku == cards[k].sku;
      assert Claimed(cards, b)[k].sku == cards[k].sku;
    }
  }

  class ScratchCards {
    /** The cards shown. */
    var claimedScratchCards: seq<Card>
    /** The "scratchCards" storage entry; None when it was never written. */
    var stored: Option<seq<Card>>

    constructor(stored: Option<seq<Card>>)
      ensures claimedScratchCards == [] && this.stored == stored
    {
      claimedScratchCards := [];
      this.stored := stored;
    }

    /** The saved cards, or none when nothing was saved. */
    method LoadClaimedScratchCards()
      modifies this`claimedScratchCards
      ensures claimedScratchCards == stored.GetOr([])
      ensures stored.None? ==> claimedScratchCards == []
    {
      claimedScratchCards := if stored.Some? then stored.value else [];
    }

    /** Claims the card and writes the same list back to storage. */
    method HandleClaimScratchCard(card: Card)
      modifies this
      ensures claimedScratchCards == Claimed(old(claimedScratchCards), card.sku)
      ensures stored == Some(claimedScratchCards)
    {
      var updated := Claimed(claimedScratchCards, card.sku);
      stored := Some(updated);
      claimedScratchCards := updated;
    }
  }
}
