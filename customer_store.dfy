/**
 * The customer page's session store: the cart, the order history and its
 * persisted copy, the loyalty-points balance, and the scratch-card records
 * kept in local storage; plus the pure order summary and the menu filter.
 */
module CustomerStore {
  import opened Wrappers
  import Text

  /** A menu entry as the customer menu lists it. */
  datatype MenuEntry = MenuEntry(id: int, name: string, description: string, category: string, price: real)

  /** A cart line: the menu entry spread out, with the chosen quantity and (optional) variant. */
  datatype CartLine = CartLine(item: MenuEntry, quantity: int, variant: Option<string>)

  datatype OrderSummary = OrderSummary(subtotal: real, discount: real, total: real, points: int)

  datatype ScratchCard = ScratchCard(
    id: string, kind: string, value: int, description: string,
    category: string, minimumOrder: int, expiresIn: int)

  /** A scratch card as stored: the card spread out with its claimed flag. */
  datatype StoredCard = StoredCard(card: ScratchCard, claimed: bool)

  // ---------------------------------------------------------------------
  // Cart operations

  predicate SameKey(line: CartLine, id: int, variant: Option<string>) {
    line.item.id == id && line.variant == variant
  }

  predicate HasKey(cart: seq<CartLine>, id: int, variant: Option<string>) {
    exists k :: 0 <= k < |cart| && SameKey(cart[k], id, variant)
  }

  /** No two lines share an (id, variant) pair. */
  predicate UniqueKeys(cart: seq<CartLine>) {
    forall j, k :: 0 <= j < k < |cart| ==>
      !SameKey(cart[k], cart[j].item.id, cart[j].variant)
  }

  /**
   * Add `quantity` of `item` in `variant`: a line with the same (id, variant)
   * grows by `quantity`; otherwise one new line is appended.
   */
  function AddToCart(cart: seq<CartLine>, item: MenuEntry, quantity: int, variant: Option<string>): (r: seq<CartLine>)
    ensures HasKey(cart, item.id, variant) ==> |r| == |cart|
    ensures HasKey(cart, item.id, variant) ==> forall k :: 0 <= k < |r| ==>
      r[k] == if SameKey(cart[k], item.id, variant) then cart[k].(quantity := cart[k].quantity + quantity) else cart[k]
    ensures !HasKey(cart, item.id, variant) ==> r == cart + [CartLine(item, quantity, variant)]
    ensures UniqueKeys(cart) ==> UniqueKeys(r)
  {
    if HasKey(cart, item.id, variant) then
      seq(|cart|, k requires 0 <= k < |cart| =>
        if SameKey(cart[k], item.id, variant) then cart[k].(quantity := cart[k].quantity + quantity) else cart[k])
    else cart + [CartLine(item, quantity, variant)]
  }

  /** Two additions of the same (id, variant) merge into one addition of the summed quantity. */
  lemma AddToCartMerges(cart: seq<CartLine>, item: MenuEntry, q1: int, q2: int, variant: Option<string>)
    ensures AddToCart(AddToCart(cart, item, q1, variant), item, q2, variant) == AddToCart(cart, item, q1 + q2, variant)
  {
    var once := AddToCart(cart, item, q1, variant);
    if !HasKey(cart, item.id, variant) {
      assert SameKey(once[|once| - 1], item.id, variant);
    }
    var twice := AddToCart(once, item, q2, variant);
    var merged := AddToCart(cart, item, q1 + q2, variant);
    assert |twice| == |merged|;
    forall k | 0 <= k < |twice|
      ensures twice[k] == merged[k]
    {
    }
  }

  /**
   * Set the quantity of every line with `id`, whatever its variant; a
   * quantity below 1 is ignored.
   */
  function UpdateQuantity(cart: seq<CartLine>, id: int, newQuantity: int): (r: seq<CartLine>)
    ensures newQuantity < 1 ==> r == cart
    ensures |r| == |cart|
    ensures newQuantity >= 1 ==> forall k :: 0 <= k < |r| ==>
      r[k] == if cart[k].item.id == id then cart[k].(quantity := newQuantity) else cart[k]
    ensures UniqueKeys(cart) ==> UniqueKeys(r)
  {
    if newQuantity < 1 then cart
    else
      seq(|cart|, k requires 0 <= k < |cart| =>
        if cart[k].item.id == id then cart[k].(quantity := newQuantity) else cart[k])
  }

  /** Drop every line with `id`, whatever its variant. */
  function RemoveFromCart(cart: seq<CartLine>, id: int): (r: seq<CartLine>)
    ensures forall l :: l in r <==> l in cart && l.item.id != id
    ensures |r| <= |cart|
  {
    if |cart| == 0 then []
    else if cart[0].item.id == id then RemoveFromCart(cart[1..], id)
    else [cart[0]] + RemoveFromCart(cart[1..], id)
  }

  /** Removal keeps the surviving lines in order and keys unique. */
  lemma {:induction false} RemoveFromCartConcat(a: seq<CartLine>, b: seq<CartLine>, id: int)
    ensures RemoveFromCart(a + b, id) == RemoveFromCart(a, id) + RemoveFromCart(b, id)
  {
    if |a| == 0 {
      assert a + b == b;
    } else {
      assert (a + b)[1..] == a[1..] + b;
      RemoveFromCartConcat(a[1..], b, id);
    }
  }

  lemma {:induction false} RemoveFromCartUnique(cart: seq<CartLine>, id: int)
    requires UniqueKeys(cart)
    ensures UniqueKeys(RemoveFromCart(cart, id))
  {
    if |cart| > 0 {
      assert UniqueKeys(cart[1..]);
      RemoveFromCartUnique(cart[1..], id);
      if cart[0].item.id != id {
        var r := [cart[0]] + RemoveFromCart(cart[1..], id);
        forall k | 1 <= k < |r|
          ensures !SameKey(r[k], cart[0].item.id, cart[0].variant)
        {
          assert r[k] in cart[1..];
        }
      }
    }
  }

  // ---------------------------------------------------------------------
  // Order summary

  function LineAmount(l: CartLine): real {
    l.item.price * l.quantity as real
  }

  /** Σ price × quantity over the lines. */
  function Subtotal(cart: seq<CartLine>): real {
    if |cart| == 0 then 0.0 else LineAmount(cart[0]) + Subtotal(cart[1..])
  }

  /** The subtotal of two carts together is the sum of their subtotals. */
  lemma {:induction false} SubtotalAdditive(a: seq<CartLine>, b: seq<CartLine>)
    ensures Subtotal(a + b) == Subtotal(a) + Subtotal(b)
  {
    if |a| == 0 {
      assert a + b == b;
    } else {
      assert (a + b)[1..] == a[1..] + b;
      SubtotalAdditive(a[1..], b);
    }
  }

  /** One point per full 10 spent: ⌊amount / 10⌋. */
  function PointsFor(amount: real): (p: int)
    ensures p as real * 10.0 <= amount < (p as real + 1.0) * 10.0
  {
    (amount / 10.0).Floor
  }

  /**
   * The cart summary: subtotal Σ price × quantity, no discount, total equal to
   * the subtotal (no tax or packaging) and ⌊subtotal / 10⌋ points.
   */
  function Summary(cart: seq<CartLine>): (r: OrderSummary)
    ensures r.subtotal == Subtotal(cart)
    ensures r.discount == 0.0 && r.total == r.subtotal
    ensures r.points as real * 10.0 <= r.subtotal < (r.points as real + 1.0) * 10.0
    ensures cart == [] ==> r == OrderSummary(0.0, 0.0, 0.0, 0)
  {
    var s := Subtotal(cart);
    OrderSummary(s, 0.0, s, PointsFor(s))
  }

  /** Removing a product leaves a subtotal reduced by exactly that product's amounts. */
  lemma {:induction false} SubtotalAfterRemove(cart: seq<CartLine>, id: int)
    ensures Subtotal(cart) == Subtotal(RemoveFromCart(cart, id)) + Subtotal(OnlyProduct(cart, id))
  {
    if |cart| > 0 {
      SubtotalAfterRemove(cart[1..], id);
    }
  }

  /** The lines of product `id`. */
  function OnlyProduct(cart: seq<CartLine>, id: int): seq<CartLine> {
    if |cart| == 0 then []
    else if cart[0].item.id == id then [cart[0]] + OnlyProduct(cart[1..], id)
    else OnlyProduct(cart[1..], id)
  }

  // ---------------------------------------------------------------------
  // Menu filter

  predicate MatchesSearch(item: MenuEntry, query: string, category: string) {
    && (Text.Contains(Text.Lower(item.name), Text.Lower(query))
        || Text.Contains(Text.Lower(item.description), Text.Lower(query)))
    && (category == "all" || item.category == category)
  }

  /**
   * The entries whose name or description contains the query (ignoring
   * case) and whose category is the selected one, or any when "all".
   */
  function FilteredItems(items: seq<MenuEntry>, query: string, category: string): (r: seq<MenuEntry>)
    ensures forall x :: x in r <==> x in items && MatchesSearch(x, query, category)
    ensures |r| <= |items|
  {
    if |items| == 0 then []
    else if MatchesSearch(items[0], query, category) then [items[0]] + FilteredItems(items[1..], query, category)
    else FilteredItems(items[1..], query, category)
  }

  /** Filtering works entry by entry, so it keeps the menu's order and repeats. */
  lemma {:induction false} FilteredItemsConcat(a: seq<MenuEntry>, b: seq<MenuEntry>, query: string, category: string)
    ensures FilteredItems(a + b, query, category) == FilteredItems(a, query, category) + FilteredItems(b, query, category)
  {
    if |a| > 0 {
      assert (a + b)[0] == a[0] && (a + b)[1..] == a[1..] + b;
      FilteredItemsConcat(a[1..], b, query, category);
    } else {
      assert a + b == b;
    }
  }

  /** An empty query with category "all" shows the whole menu, in order. */
  lemma {:induction false} EmptyQueryShowsAll(items: seq<MenuEntry>)
    ensures FilteredItems(items, "", "all") == items
  {
    if |items| > 0 {
      Text.ContainsEmpty(Text.Lower(items[0].name));
      EmptyQueryShowsAll(items[1..]);
    }
  }

  // ---------------------------------------------------------------------
  // Scratch-card records

  /**
   * The storage list after saving `card` with flag `claimed`: the first entry
   * with the card's id is replaced, or the new entry is appended.
   */
  function Upsert(cards: seq<StoredCard>, card: ScratchCard, claimed: bool): (r: seq<StoredCard>)
    ensures StoredCard(card, claimed) in r
    ensures |cards| <= |r| <= |cards| + 1
    ensures (exists k :: 0 <= k < |cards| && cards[k].card.id == card.id) <==> |r| == |cards|
    ensures forall c :: c in cards && c.card.id != card.id ==> c in r
  {
    if |cards| == 0 then [StoredCard(card, claimed)]
    else if cards[0].card.id == card.id then [StoredCard(card, claimed)] + cards[1..]
    else [cards[0]] + Upsert(cards[1..], card, claimed)
  }

  /** The first position holding a card with `id`, or -1 (Array.prototype.findIndex). */
  method FindCardIndex(cards: seq<StoredCard>, id: string) returns (idx: int)
    ensures -1 <= idx < |cards|
    ensures idx == -1 <==> forall j :: 0 <= j < |cards| ==> cards[j].card.id != id
    ensures idx >= 0 ==> cards[idx].card.id == id && forall j :: 0 <= j < idx ==> cards[j].card.id != id
  {
    var i := 0;
    while i < |cards|
      invariant 0 <= i <= |cards|
      invariant forall j :: 0 <= j < i ==> cards[j].card.id != id
    {
      if cards[i].card.id == id {
        return i;
      }
      i := i + 1;
    }
    return -1;
  }

  /** Upsert replaces the first matching entry in place, or appends when there is none. */
  lemma {:induction false} UpsertAt(cards: seq<StoredCard>, card: ScratchCard, claimed: bool, idx: int)
    requires -1 <= idx < |cards|
    requires idx == -1 <==> forall j :: 0 <= j < |cards| ==> cards[j].card.id != card.id
    requires idx >= 0 ==> cards[idx].card.id == card.id && forall j :: 0 <= j < idx ==> cards[j].card.id != card.id
    ensures Upsert(cards, card, claimed) ==
            if idx == -1 then cards + [StoredCard(card, claimed)] else cards[idx := StoredCard(card, claimed)]
  {
    if |cards| > 0 && idx != 0 {
      UpsertAt(cards[1..], card, claimed, if idx == -1 then -1 else idx - 1);
      if idx == -1 {
        assert cards == [cards[0]] + cards[1..];
      } else {
        assert cards[idx := StoredCard(card, claimed)] == [cards[0]] + cards[1..][idx - 1 := StoredCard(card, claimed)];
      }
    }
  }

  // ---------------------------------------------------------------------
  // The page state

  class Session {
    var cart: seq<CartLine>
    var orders: seq<seq<CartLine>>
    var storedOrders: seq<seq<CartLine>>
    var points: int
    var claimedCards: seq<StoredCard>
    var storedCards: seq<StoredCard>
    var showScratchCard: bool
    var currentScratchCard: Option<ScratchCard>

    ghost predicate Valid()
      reads this
    {
      UniqueKeys(cart)
    }

    /** A fresh page over the given local storage contents (missing keys read as empty lists). */
    constructor (savedOrders: seq<seq<CartLine>>, savedCards: seq<StoredCard>)
      ensures Valid()
      ensures cart == [] && points == 0 && orders == [] && claimedCards == []
      ensures storedOrders == savedOrders && storedCards == savedCards
      ensures !showScratchCard && currentScratchCard == None
    {
      cart := [];
      orders := [];
      storedOrders := savedOrders;
      points := 0;
      claimedCards := [];
      storedCards := savedCards;
      showScratchCard := false;
      currentScratchCard := None;
    }

    /** The mount step: the history and the card list are read back from storage. */
    method LoadFromStorage()
      requires Valid()
      modifies this`orders, this`claimedCards
      ensures Valid()
      ensures orders == storedOrders && claimedCards == storedCards
    {
      orders := storedOrders;
      claimedCards := storedCards;
    }

    method HandleAddToCart(item: MenuEntry, quantity: int, variant: Option<string>)
      requires Valid()
      modifies this`cart
      ensures Valid()
      ensures cart == AddToCart(old(cart), item, quantity, variant)
    {
      cart := AddToCart(cart, item, quantity, variant);
    }

    method HandleUpdateQuantity(id: int, newQuantity: int)
      requires Valid()
      modifies this`cart
      ensures Valid()
      ensures cart == UpdateQuantity(old(cart), id, newQuantity)
    {
      cart := UpdateQuantity(cart, id, newQuantity);
    }

    method HandleRemoveFromCart(id: int)
      requires Valid()
      modifies this`cart
      ensures Valid()
      ensures cart == RemoveFromCart(old(cart), id)
    {
      RemoveFromCartUnique(cart, id);
      cart := RemoveFromCart(cart, id);
    }

    /** Redeem a reward: only when the balance covers its cost, so the balance stays non-negative. */
    method HandleRedeemReward(pointsCost: int) returns (redeemed: bool)
      requires Valid()
      modifies this`points
      ensures Valid()
      ensures redeemed == (old(points) >= pointsCost)
      ensures points == if redeemed then old(points) - pointsCost else old(points)
      ensures redeemed ==> points >= 0
    {
      redeemed := points >= pointsCost;
      if redeemed {
        points := points - pointsCost;
      }
    }

    /** Append an order to the history and persist the whole history. */
    method SaveOrder(newOrder: seq<CartLine>)
      modifies this`orders, this`storedOrders
      ensures orders == old(orders) + [newOrder]
      ensures storedOrders == orders
    {
      orders := orders + [newOrder];
      storedOrders := orders;
    }

    /**
     * Checkout: with an empty cart nothing changes (the page shows a notice);
     * otherwise the cart is saved as an order, ⌊subtotal / 10⌋ points are
     * added and the cart is emptied.
     */
    method HandleCheckout() returns (placed: bool)
      requires Valid()
      modifies this`cart, this`orders, this`storedOrders, this`points
      ensures Valid()
      ensures placed == (old(cart) != [])
      ensures !placed ==> cart == old(cart) && orders == old(orders) && storedOrders == old(storedOrders) && points == old(points)
      ensures placed ==> && orders == old(orders) + [old(cart)]
                         && storedOrders == orders
                         && points == old(points) + Summary(old(cart)).points
                         && cart == []
    {
      if |cart| == 0 {
        return false;
      }
      SaveOrder(cart);
      var earned := PointsFor(Subtotal(cart));
      points := points + earned;
      cart := [];
      placed := true;
    }

    /** Store `card` with flag `isClaimed`: update the entry with its id in place, or append one. */
    method SaveScratchCard(card: ScratchCard, isClaimed: bool)
      modifies this`storedCards
      ensures storedCards == Upsert(old(storedCards), card, isClaimed)
    {
      var saved := storedCards;
      var existingIndex := FindCardIndex(saved, card.id);
      UpsertAt(saved, card, isClaimed, existingIndex);
      if existingIndex != -1 {
        saved := saved[existingIndex := StoredCard(card, isClaimed)];
      } else {
        saved := saved + [StoredCard(card, isClaimed)];
      }
      storedCards := saved;
    }

    /** Claim the offered card: persisted as claimed, appended to the in-memory list, dialog closed. */
    method HandleClaimScratchCard(card: ScratchCard)
      requires Valid()
      modifies this`storedCards, this`claimedCards, this`showScratchCard, this`currentScratchCard
      ensures Valid()
      ensures storedCards == Upsert(old(storedCards), card, true)
      ensures claimedCards == old(claimedCards) + [StoredCard(card, true)]
      ensures !showScratchCard && currentScratchCard == None
    {
      SaveScratchCard(card, true);
      claimedCards := claimedCards + [StoredCard(card, true)];
      showScratchCard := false;
      currentScratchCard := None;
    }

    /** Close the offered card unclaimed: persisted as unclaimed, appended in memory, dialog closed. */
    method HandleCloseScratchCard(card: ScratchCard)
      requires Valid()
      modifies this`storedCards, this`claimedCards, this`showScratchCard, this`currentScratchCard
      ensures Valid()
      ensures storedCards == Upsert(old(storedCards), card, false)
      ensures claimedCards == old(claimedCards) + [StoredCard(card, false)]
      ensures !showScratchCard && currentScratchCard == None
    {
      SaveScratchCard(card, false);
      claimedCards := claimedCards + [StoredCard(card, false)];
      showScratchCard := false;
      currentScratchCard := None;
    }
  }
}
