/**
 * The admin menu page: the fetched rows mapped by position onto menu items,
 * a buffer of pending cell edits keyed by SKU, saving and deleting, and the
 * search box.
 */
module MenuAdmin {
  import opened Wrappers
  import opened Json
  import Text

  /**
   * A menu item after the positional mapping. The cells are kept as the JSON
   * values the server sent; tax and packaging are numbers (None is NaN).
   */
  datatype AdminItem = AdminItem(
    id: Json,
    name: Json,
    category: Json,
    subCategory: Json,
    tax: Option<real>,
    packagingCharge: Option<real>,
    sku: Json,
    variations: seq<(string, Json)>,
    createdAt: Json,
    description: Json,
    image: Json)

  /** `row[k]`; a position past the end reads as undefined, held here as null. */
  function Cell(row: seq<Json>, k: nat): (r: Json)
    ensures k < |row| ==> r == row[k]
    ensures k >= |row| ==> r == JNull
  {
    if k < |row| then row[k] else JNull
  }

  /** `parseFloat` of a cell that already holds a number; any other cell gives NaN. */
  function NumberOf(j: Json): (r: Option<real>)
    ensures r.Some? <==> j.JNum?
    ensures j.JNum? ==> r == Some(j.n)
  {
    if j.JNum? then Some(j.n) else None
  }

  /**
   * `Object.entries(cell || {})`: an object's own entries in enumeration
   * order (see Json.OwnEntries), the indexed elements of an array or the
   * indexed characters of a non-empty string; nothing for null, false, 0, ""
   * and for other numbers and true.
   */
  function Entries(j: Json): (r: seq<(string, Json)>)
    ensures j.JObj? ==> r == OwnEntries(j.members)
    ensures j.JArr? ==> |r| == |j.elems| && forall k :: 0 <= k < |r| ==> r[k] == (Text.NatToString(k), j.elems[k])
    ensures j.JStr? ==> |r| == |j.s| && forall k :: 0 <= k < |r| ==> r[k] == (Text.NatToString(k), JStr([j.s[k]]))
    ensures !j.JObj? && !j.JArr? && !j.JStr? ==> r == []
  {
    match j
    case JObj(ms) => OwnEntries(ms)
    case JArr(es) => seq(|es|, k requires 0 <= k < |es| => (Text.NatToString(k), es[k]))
    case JStr(s) => seq(|s|, k requires 0 <= k < |s| => (Text.NatToString(k), JStr([s[k]])))
    case _ => []
  }

  /** One row of the admin menu query, mapped by fixed positions 0 to 10. */
  function FormatRow(row: seq<Json>): (r: AdminItem)
    ensures r.id == Cell(row, 0) && r.name == Cell(row, 1) && r.category == Cell(row, 2)
    ensures r.subCategory == Cell(row, 3) && r.sku == Cell(row, 6) && r.createdAt == Cell(row, 8)
    ensures r.description == Cell(row, 9) && r.image == Cell(row, 10)
    ensures r.tax == NumberOf(Cell(row, 4)) && r.packagingCharge == NumberOf(Cell(row, 5))
    ensures Cell(row, 7).JObj? ==> r.variations == OwnEntries(Cell(row, 7).members)
    ensures Cell(row, 7) == JNull ==> r.variations == []
  {
    AdminItem(Cell(row, 0), Cell(row, 1), Cell(row, 2), Cell(row, 3),
              NumberOf(Cell(row, 4)), NumberOf(Cell(row, 5)), Cell(row, 6),
              Entries(Cell(row, 7)), Cell(row, 8), Cell(row, 9), Cell(row, 10))
  }

  /** The whole response mapped row by row; a failed request yields the empty menu. */
  function Fetched(response: Option<seq<seq<Json>>>): (r: seq<AdminItem>)
    ensures response.None? ==> r == []
    ensures response.Some? ==> |r| == |response.value| && forall k :: 0 <= k < |r| ==> r[k] == FormatRow(response.value[k])
  {
    match response
    case None => []
    case Some(rows) => seq(|rows|, k requires 0 <= k < |rows| => FormatRow(rows[k]))
  }

  // ---------------------------------------------------------------------
  // Pending edits: SKU -> field -> value

  type Pending = map<string, map<string, Json>>

  /** The buffer after typing `value` into `field` of `sku`'s row. */
  function EditChanged(pending: Pending, sku: string, field: string, value: Json): (r: Pending)
    ensures r.Keys == pending.Keys + {sku}
    ensures sku in r && field in r[sku] && r[sku][field] == value
    ensures sku in pending ==> r[sku].Keys == pending[sku].Keys + {field}
    ensures sku in pending ==> forall f :: f in pending[sku] && f != field ==> r[sku][f] == pending[sku][f]
    ensures sku !in pending ==> r[sku] == map[field := value]
    ensures forall s :: s in pending && s != sku ==> r[s] == pending[s]
  {
    var record := if sku in pending then pending[sku] else map[];
    pending[sku := record[field := value]]
  }

  /** The shown cell: the pending edit unless it is absent or null (`??`), else the stored value. */
  function ShownValue(pending: Pending, sku: string, field: string, stored: Json): (r: Json)
    ensures sku in pending && field in pending[sku] && pending[sku][field] != JNull ==> r == pending[sku][field]
    ensures sku !in pending || field !in pending[sku] || pending[sku][field] == JNull ==> r == stored
  {
    if sku in pending && field in pending[sku] && pending[sku][field] != JNull then pending[sku][field] else stored
  }

  /** Typing into a cell shows what was typed (unless it is null). */
  lemma ShownAfterEdit(pending: Pending, sku: string, field: string, value: Json, stored: Json)
    requires value != JNull
    ensures ShownValue(EditChanged(pending, sku, field, value), sku, field, stored) == value
  {
  }

  /** `x?.price`: the "price" member of an object, undefined (None) for anything else. */
  function PriceField(x: Option<Json>): (r: Option<Json>)
    ensures r.Some? ==> x.Some? && x.value.JObj? && Member(x.value.members, "price") == r
  {
    if x.Some? && x.value.JObj? then Member(x.value.members, "price") else None
  }

  /** `v?.[0]`: element 0 of an array, member "0" of an object, undefined otherwise. */
  function FirstElement(v: Json): (r: Option<Json>)
    ensures v.JArr? && |v.elems| > 0 ==> r == Some(v.elems[0])
    ensures v.JObj? ==> r == Member(v.members, "0")
    ensures !v.JArr? && !v.JObj? ==> r == None
  {
    match v
    case JArr(es) => if |es| > 0 then Some(es[0]) else None
    case JObj(ms) => Member(ms, "0")
    case _ => None
  }

  /** What typing `price` into the price cell stores under "variations". */
  function PriceEdit(price: real): Json {
    JArr([JObj([("name", JStr("default")), ("price", JNum(price))])])
  }

  /**
   * The price cell: `editingItem[sku]?.variations?.[0]?.price`, unless that
   * is null or undefined, else `item.variations[0]?.price`; None is undefined.
   */
  function ShownPrice(pending: Pending, sku: string, item: AdminItem): (r: Option<Json>)
    ensures var edited := if sku in pending && "variations" in pending[sku]
                          then PriceField(FirstElement(pending[sku]["variations"])) else None;
      && (edited.Some? && edited.value != JNull ==> r == edited)
      && (edited.None? || edited == Some(JNull) ==>
            r == if |item.variations| > 0 then Some(item.variations[0].1) else None)
  {
    var edited := if sku in pending && "variations" in pending[sku]
                  then PriceField(FirstElement(pending[sku]["variations"])) else None;
    if edited.Some? && edited.value != JNull then edited
    else if |item.variations| > 0 then Some(item.variations[0].1)
    else None
  }

  /** Typing a price into the cell shows that price, whatever the row held before. */
  lemma ShownPriceAfterEdit(pending: Pending, sku: string, item: AdminItem, price: real)
    ensures ShownPrice(EditChanged(pending, sku, "variations", PriceEdit(price)), sku, item) == Some(JNum(price))
  {
    var entry := [("name", JStr("default")), ("price", JNum(price))];
    assert entry[..1] == [("name", JStr("default"))];
    assert Member(entry, "price") == Some(JNum(price));
  }

  /** `{ sku, ...updatedFields }`: the pending fields override the "sku" member if they hold one. */
  function SaveBody(sku: string, fields: map<string, Json>): (r: map<string, Json>)
    ensures r.Keys == fields.Keys + {"sku"}
    ensures "sku" !in fields ==> r["sku"] == JStr(sku)
    ensures forall f :: f in fields ==> r[f] == fields[f]
  {
    map["sku" := JStr(sku)] + fields
  }

  // ---------------------------------------------------------------------
  // Deleting and searching

  /** `menuItems.filter(item => item.SKU !== sku)`. */
  function WithoutSku(items: seq<AdminItem>, sku: string): (r: seq<AdminItem>)
    ensures forall x :: x in r <==> x in items && x.sku != JStr(sku)
    ensures |r| <= |items|
  {
    if |items| == 0 then []
    else if items[0].sku != JStr(sku) then [items[0]] + WithoutSku(items[1..], sku)
    else WithoutSku(items[1..], sku)
  }

  /** Deleting works piecewise, so the kept items stay in their order. */
  lemma {:induction false} WithoutSkuConcat(a: seq<AdminItem>, b: seq<AdminItem>, sku: string)
    ensures WithoutSku(a + b, sku) == WithoutSku(a, sku) + WithoutSku(b, sku)
  {
    if |a| == 0 {
      assert a + b == b;
    } else {
      assert (a + b)[1..] == a[1..] + b;
      WithoutSkuConcat(a[1..], b, sku);
    }
  }

  /** Deleting an SKU the menu does not hold changes nothing. */
  lemma {:induction false} WithoutAbsentSku(items: seq<AdminItem>, sku: string)
    requires forall x :: x in items ==> x.sku != JStr(sku)
    ensures WithoutSku(items, sku) == items
  {
    if |items| > 0 {
      assert items[0] in items;
      assert forall x :: x in items[1..] ==> x in items;
      WithoutAbsentSku(items[1..], sku);
    }
  }

  predicate NamedItems(items: seq<AdminItem>) {
    forall k :: 0 <= k < |items| ==> items[k].name.JStr?
  }

  predicate NameMatches(item: AdminItem, query: string)
    requires item.name.JStr?
  {
    Text.Contains(Text.Lower(item.name.s), Text.Lower(query))
  }

  /**
   * The search box: the items whose name contains the query, ignoring case.
   * Every name must be a string (`toLowerCase` is called on it).
   */
  function Searched(items: seq<AdminItem>, query: string): (r: seq<AdminItem>)
    requires NamedItems(items)
    ensures NamedItems(r)
    ensures forall x :: x in r <==> x in items && NameMatches(x, query)
    ensures |r| <= |items|
  {
    if |items| == 0 then []
    else
      assert NamedItems(items[1..]);
      if NameMatches(items[0], query) then [items[0]] + Searched(items[1..], query)
      else Searched(items[1..], query)
  }

  /** An empty search keeps the whole menu in order. */
  lemma {:induction false} EmptySearchKeepsAll(items: seq<AdminItem>)
    requires NamedItems(items)
    ensures Searched(items, "") == items
  {
    if |items| > 0 {
      Text.ContainsEmpty(Text.Lower(items[0].name.s));
      assert NamedItems(items[1..]);
      EmptySearchKeepsAll(items[1..]);
    }
  }

  /** The search filters piecewise, so matches keep their order. */
  lemma {:induction false} SearchedConcat(a: seq<AdminItem>, b: seq<AdminItem>, query: string)
    requires NamedItems(a) && NamedItems(b)
    ensures NamedItems(a + b)
    ensures Searched(a + b, query) == Searched(a, query) + Searched(b, query)
  {
    if |a| == 0 {
      assert a + b == b;
    } else {
      assert (a + b)[1..] == a[1..] + b;
      assert NamedItems(a[1..]);
      SearchedConcat(a[1..], b, query);
    }
  }

  // ---------------------------------------------------------------------
  // The page state

  class MenuPage {
    var menuItems: seq<AdminItem>
    var editingItem: Pending

    constructor()
      ensures menuItems == [] && editingItem == map[]
    {
      menuItems := [];
      editingItem := map[];
    }

    /** `fetchMenuItems`: the mapped rows, or the empty list when the request fails. */
    method FetchMenuItems(response: Option<seq<seq<Json>>>)
      modifies this`menuItems
      ensures menuItems == Fetched(response)
    {
      match response {
        case None =>
          menuItems := [];
        case Some(rows) =>
          menuItems := seq(|rows|, k requires 0 <= k < |rows| => FormatRow(rows[k]));
      }
    }

    method HandleEditChange(sku: string, field: string, value: Json)
      modifies this`editingItem
      ensures editingItem == EditChanged(old(editingItem), sku, field, value)
    {
      var record := if sku in editingItem then editingItem[sku] else map[];
      editingItem := editingItem[sku := record[field := value]];
    }

    /**
     * `handleEditSave`: without pending fields for `sku` nothing is sent.
     * Otherwise the request body is returned; when the request succeeds the
     * `sku`'s record is dropped (the menu refresh it starts is a separate
     * FetchMenuItems), and when it fails the buffer is kept.
     */
    method HandleEditSave(sku: string, putFails: bool) returns (request: Option<map<string, Json>>)
      modifies this`editingItem
      ensures request.None? <==> sku !in old(editingItem) || |old(editingItem)[sku]| == 0
      ensures request.Some? ==> request.value == SaveBody(sku, old(editingItem)[sku])
      ensures request.Some? && !putFails ==> editingItem == old(editingItem) - {sku}
      ensures request.None? || putFails ==> editingItem == old(editingItem)
    {
      if sku !in editingItem || |editingItem[sku]| == 0 {
        return None;
      }
      request := Some(map["sku" := JStr(sku)] + editingItem[sku]);
      if !putFails {
        editingItem := editingItem - {sku};
      }
    }

    /** `handleDelete`: on success the rows with that SKU go; on failure nothing changes. */
    method HandleDelete(sku: string, deleteFails: bool)
      modifies this`menuItems
      ensures !deleteFails ==> menuItems == WithoutSku(old(menuItems), sku)
      ensures deleteFails ==> menuItems == old(menuItems)
    {
      if !deleteFails {
        menuItems := WithoutSku(menuItems, sku);
      }
    }
  }
}
