/**
 * The customer's menu card: a quantity stepper, a size selector over the
 * item's variations and the "Add to Cart" button with its price label.
 */
module MenuCardView {
  import opened Wrappers
  import opened Text

  /**
   * A menu item as the card receives it. Tax and packaging arrive as text and
   * are read with parseFloat; they are held here as the parsed number, None
   * standing for NaN. Variations are the object's own entries in
   * enumeration order (Json.OwnEntries), so each key occurs once
   * (DistinctKeys).
   */
  datatype MenuItem = MenuItem(
    name: string,
    subCategory: string,
    taxPercentage: Option<real>,
    packagingCharge: Option<real>,
    sku: string,
    variations: seq<(string, real)>,
    description: Option<string>,
    preparationTime: nat)

  function Keys(variations: seq<(string, real)>): (r: seq<string>)
    ensures |r| == |variations|
    ensures forall k :: 0 <= k < |r| ==> r[k] == variations[k].0
  {
    if |variations| == 0 then [] else [variations[0].0] + Keys(variations[1..])
  }

  /** An object's keys: no key occurs twice. */
  predicate DistinctKeys(variations: seq<(string, real)>) {
    forall i, j :: 0 <= i < j < |variations| ==> variations[i].0 != variations[j].0
  }

  /** `item.variations[key]`: the price of that size, None (undefined) for a key the object lacks. */
  function PriceOf(variations: seq<(string, real)>, key: string): (r: Option<real>)
    ensures r.Some? <==> key in Keys(variations)
    ensures r.Some? ==> (key, r.value) in variations
  {
    if |variations| == 0 then None
    else if variations[0].0 == key then Some(variations[0].1)
    else PriceOf(variations[1..], key)
  }

  /** `Object.keys(item.variations)[0]`: undefined (None) when there are no variations. */
  function FirstKey(variations: seq<(string, real)>): (r: Option<string>)
    ensures r.Some? <==> |variations| > 0
    ensures r.Some? ==> r.value in Keys(variations) && r.value == Keys(variations)[0]
  {
    if |variations| == 0 then None else Some(variations[0].0)
  }

  /**
   * The price of one unit with tax and packaging: price plus tax percent of
   * the price plus the packaging charge. NaN (None) when any part is missing.
   */
  function UnitTotal(price: Option<real>, taxPercentage: Option<real>, packaging: Option<real>): (r: Option<real>)
    ensures r.Some? <==> price.Some? && taxPercentage.Some? && packaging.Some?
    ensures r.Some? ==> r.value == price.value * (100.0 + taxPercentage.value) / 100.0 + packaging.value
    ensures r.Some? && taxPercentage.value >= 0.0 && packaging.value >= 0.0 && price.value >= 0.0 ==>
      r.value >= price.value
  {
    if price.Some? && taxPercentage.Some? && packaging.Some? then
      Some(price.value + price.value * taxPercentage.value / 100.0 + packaging.value)
    else None
  }

  /** The minus button: one less, never below one. */
  function Decremented(quantity: int): (r: int)
    ensures r >= 1
    ensures quantity > 1 ==> r == quantity - 1
    ensures quantity <= 1 ==> r == 1
  {
    if quantity - 1 > 1 then quantity - 1 else 1
  }

  /** Pressing plus and then minus leaves a valid quantity as it was. */
  lemma PlusThenMinus(quantity: int)
    requires quantity >= 1
    ensures Decremented(quantity + 1) == quantity
  {
  }

  /** With distinct keys, the size a key names has exactly one price. */
  lemma {:induction false} PriceOfDistinct(variations: seq<(string, real)>, key: string, price: real)
    requires DistinctKeys(variations)
    requires (key, price) in variations
    ensures PriceOf(variations, key) == Some(price)
  {
    if variations[0] != (key, price) {
      assert (key, price) in variations[1..];
      PriceOfDistinct(variations[1..], key, price);
    }
  }

  /**
   * The size selector is shown only when there is a choice to make: when it
   * is hidden, the initially selected size is the only one there is.
   */
  function ShowsVariantSelector(item: MenuItem): (r: bool)
    ensures r <==> |Keys(item.variations)| > 1
    ensures !r ==> forall key :: key in Keys(item.variations) ==> FirstKey(item.variations) == Some(key)
  {
    |item.variations| > 1
  }

  /** The tax note is shown only for a positive tax percentage; an unparsable one (NaN) hides it. */
  function ShowsTaxNote(item: MenuItem): (r: bool)
    ensures item.taxPercentage.None? ==> !r
    ensures item.taxPercentage.Some? ==> (r <==> item.taxPercentage.value > 0.0)
  {
    item.taxPercentage.Some? && item.taxPercentage.value > 0.0
  }

  /** The caption: the description, or "<sub category> - Ready in <n> mins" when it is null or empty. */
  function Caption(item: MenuItem): (r: string)
    ensures item.description.Some? && item.description.value != "" ==> r == item.description.value
    ensures item.description.None? || item.description.value == "" ==>
      var n := |item.subCategory|;
      && |r| >= n + 18
      && r[..n] == item.subCategory
      && r[n..n + 12] == " - Ready in "
      && r[n + 12..|r| - 5] == NatToString(item.preparationTime)
      && DigitsValue(r[n + 12..|r| - 5]) == item.preparationTime
      && r[|r| - 5..] == " mins"
  {
    if item.description.Some? && item.description.value != "" then item.description.value
    else
      var minutes := NatToString(item.preparationTime);
      NatToStringRoundTrip(item.preparationTime);
      var r := item.subCategory + " - Ready in " + minutes + " mins";
      var n := |item.subCategory|;
      assert r[n + 12..|r| - 5] == minutes;
      r
  }

  /** One card on screen. */
  class MenuCard {
    const item: MenuItem
    var quantity: int
    var selectedVariant: Option<string>

    /** The stepper never shows less than one, and the selected size is one the item offers. */
    predicate Valid()
      reads this
    {
      && quantity >= 1
      && DistinctKeys(item.variations)
      && (selectedVariant.Some? ==> selectedVariant.value in Keys(item.variations))
      && (selectedVariant.None? ==> |item.variations| == 0)
    }

    constructor(item: MenuItem)
      requires DistinctKeys(item.variations)
      ensures Valid()
      ensures this.item == item && quantity == 1 && selectedVariant == FirstKey(item.variations)
    {
      this.item := item;
      quantity := 1;
      selectedVariant := FirstKey(item.variations);
    }

    /** `item.variations[selectedVariant]`; defined whenever the item has any variation. */
    function CurrentPrice(): (r: Option<real>)
      reads this
      requires Valid()
      ensures r.Some? <==> |item.variations| > 0
      ensures r.Some? ==> (selectedVariant.value, r.value) in item.variations
    {
      if selectedVariant.Some? then PriceOf(item.variations, selectedVariant.value) else None
    }

    method Minus()
      requires Valid()
      modifies this`quantity
      ensures Valid()
      ensures quantity == Decremented(old(quantity))
    {
      quantity := if quantity - 1 > 1 then quantity - 1 else 1;
    }

    method Plus()
      requires Valid()
      modifies this`quantity
      ensures Valid()
      ensures quantity == old(quantity) + 1
    {
      quantity := quantity + 1;
    }

    /** The selector lists exactly the item's keys, so only those can be picked. */
    method SelectVariant(variant: string)
      requires Valid()
      requires variant in Keys(item.variations)
      modifies this`selectedVariant
      ensures Valid()
      ensures selectedVariant == Some(variant)
    {
      selectedVariant := Some(variant);
    }

    /**
     * The "Add to Cart" button: hands the quantity and size to the cart and
     * shows the amount for that many units.
     */
    method AddToCart() returns (count: int, variant: Option<string>, amount: Option<real>)
      requires Valid()
      ensures count == quantity && count >= 1
      ensures variant == selectedVariant
      ensures variant.Some? ==> variant.value in Keys(item.variations)
      ensures amount.Some? <==> |item.variations| > 0 && item.taxPercentage.Some? && item.packagingCharge.Some?
      ensures amount.Some? ==> amount.value == UnitTotal(CurrentPrice(), item.taxPercentage, item.packagingCharge).value * count as real
    {
      count := quantity;
      variant := selectedVariant;
      var total := UnitTotal(CurrentPrice(), item.taxPercentage, item.packagingCharge);
      amount := if total.Some? then Some(total.value * quantity as real) else None;
    }
  }
}
