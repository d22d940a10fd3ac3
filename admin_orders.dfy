/**
 * The admin order queue: orders fetched from the order-management service,
 * per-item fulfilment statuses, the derived ("rolled up") order status, and
 * batch completion of a group of orders proposed by the grouping service.
 */
module AdminOrders {
  import opened Wrappers
  import Text

  const Pending: string := "Pending"
  const Ready: string := "Ready"

  datatype Item = Item(name: string, price: real, quantity: int, status: string)

  datatype Order = Order(
    orderId: int,
    channelType: string,
    assignedTable: string,
    totalPrice: real,
    preparingTime: nat,
    items: seq<Item>,
    status: string)

  /** A batch of orders sharing SKUs, as the grouping service returns it. */
  datatype Group = Group(groupId: int, orderIds: seq<int>, skus: seq<string>, skuNames: seq<string>)

  /** One record of the order-management response. */
  datatype RawItem = RawItem(name: string, price: real, quantity: int)
  datatype RawOrder = RawOrder(
    orderId: int,
    channelType: string,
    assignedTables: seq<string>,
    price: real,
    items: seq<RawItem>,
    createdAtMs: int)

  // ---------------------------------------------------------------------
  // Status rollup

  /** The distinct statuses present among the items. */
  function StatusSet(items: seq<Item>): set<string> {
    set i | i in items :: i.status
  }

  predicate AllHaveStatus(items: seq<Item>, s: string) {
    forall k :: 0 <= k < |items| ==> items[k].status == s
  }

  /**
   * The overall status of an order: the one status when exactly one
   * distinct status is present, otherwise Pending (also for no items).
   */
  function OverallStatus(items: seq<Item>): (r: string)
    ensures |StatusSet(items)| == 1 ==> StatusSet(items) == {r}
    ensures |StatusSet(items)| != 1 ==> r == Pending
  {
    StatusSetShape(items);
    if |items| > 0 && AllHaveStatus(items, items[0].status) then items[0].status else Pending
  }

  lemma StatusSetShape(items: seq<Item>)
    ensures |items| == 0 ==> StatusSet(items) == {}
    ensures |items| > 0 && AllHaveStatus(items, items[0].status) ==> StatusSet(items) == {items[0].status}
    ensures |items| > 0 && !AllHaveStatus(items, items[0].status) ==> |StatusSet(items)| >= 2
  {
    if |items| > 0 && !AllHaveStatus(items, items[0].status) {
      var k :| 0 <= k < |items| && items[k].status != items[0].status;
      assert items[0] in items && items[k] in items;
      var two := {items[0].status, items[k].status};
      assert two <= StatusSet(items);
      assert |two| == 2;
      var rest := StatusSet(items) - two;
      assert StatusSet(items) == two + rest && two !! rest;
    }
  }

  /**
   * The rollup after setting every item named `name` to `st`: when at least
   * one item carries that name, the order becomes `st` exactly when every
   * other item already has status `st`, and Pending otherwise.
   */
  lemma RollupAfterSetting(items: seq<Item>, name: string, st: string)
    requires exists k :: 0 <= k < |items| && items[k].name == name
    ensures OverallStatus(WithItemStatus(items, name, st)) ==
            if forall k :: 0 <= k < |items| && items[k].name != name ==> items[k].status == st then st else Pending
  {
    var r := WithItemStatus(items, name, st);
    var k :| 0 <= k < |items| && items[k].name == name;
    if forall j :: 0 <= j < |items| && items[j].name != name ==> items[j].status == st {
      assert AllHaveStatus(r, st);
    } else {
      var j :| 0 <= j < |items| && items[j].name != name && items[j].status != st;
      assert r[k].status != r[j].status;
    }
  }

  // ---------------------------------------------------------------------
  // Item updates

  /** Every item named `name` gets status `st`; the other items are left as they were. */
  function WithItemStatus(items: seq<Item>, name: string, st: string): (r: seq<Item>)
    ensures |r| == |items|
    ensures forall k :: 0 <= k < |r| ==> r[k].name == items[k].name && r[k].price == items[k].price && r[k].quantity == items[k].quantity
    ensures forall k :: 0 <= k < |r| ==> r[k].status == (if items[k].name == name then st else items[k].status)
  {
    seq(|items|, k requires 0 <= k < |items| =>
      if items[k].name == name then items[k].(status := st) else items[k])
  }

  /** Every item whose name is listed in `names` becomes Ready; the others are left as they were. */
  function MarkReady(items: seq<Item>, names: seq<string>): (r: seq<Item>)
    ensures |r| == |items|
    ensures forall k :: 0 <= k < |r| ==> r[k].name == items[k].name && r[k].price == items[k].price && r[k].quantity == items[k].quantity
    ensures forall k :: 0 <= k < |r| ==> r[k].status == (if items[k].name in names then Ready else items[k].status)
  {
    seq(|items|, k requires 0 <= k < |items| =>
      if items[k].name in names then items[k].(status := Ready) else items[k])
  }

  /** Orders whose status is the rollup of their items. */
  ghost predicate RollupConsistent(orders: seq<Order>) {
    forall i :: 0 <= i < |orders| ==> orders[i].status == OverallStatus(orders[i].items)
  }

  /**
   * The order list after one item-status change: in the orders with id
   * `orderId` the items named `name` take status `st` and the order status is
   * recomputed from the updated items; every other order is unchanged.
   */
  function UpdateItemStatus(orders: seq<Order>, orderId: int, name: string, st: string): (r: seq<Order>)
    ensures |r| == |orders|
    ensures forall i :: 0 <= i < |r| && orders[i].orderId != orderId ==> r[i] == orders[i]
    ensures forall i :: 0 <= i < |r| && orders[i].orderId == orderId ==>
      r[i] == orders[i].(items := WithItemStatus(orders[i].items, name, st),
                         status := OverallStatus(WithItemStatus(orders[i].items, name, st)))
    ensures RollupConsistent(orders) ==> RollupConsistent(r)
  {
    seq(|orders|, i requires 0 <= i < |orders| =>
      if orders[i].orderId == orderId then
        var updated := WithItemStatus(orders[i].items, name, st);
        orders[i].(items := updated, status := OverallStatus(updated))
      else orders[i])
  }

  /**
   * Batch completion applied to the order list: in the orders listed in
   * `orderIds` the items named in `skuNames` become Ready and the order
   * status is recomputed; unlisted orders keep everything, status included.
   */
  function CompleteOrders(orders: seq<Order>, orderIds: seq<int>, skuNames: seq<string>): (r: seq<Order>)
    ensures |r| == |orders|
    ensures forall i :: 0 <= i < |r| && orders[i].orderId !in orderIds ==> r[i] == orders[i]
    ensures forall i :: 0 <= i < |r| && orders[i].orderId in orderIds ==>
      r[i] == orders[i].(items := MarkReady(orders[i].items, skuNames),
                         status := OverallStatus(MarkReady(orders[i].items, skuNames)))
    ensures RollupConsistent(orders) ==> RollupConsistent(r)
  {
    seq(|orders|, i requires 0 <= i < |orders| =>
      if orders[i].orderId !in orderIds then orders[i]
      else
        var updated := MarkReady(orders[i].items, skuNames);
        orders[i].(items := updated, status := OverallStatus(updated)))
  }

  /** Completing the same batch twice gives the same order list as completing it once. */
  lemma CompleteOrdersIdempotent(orders: seq<Order>, orderIds: seq<int>, skuNames: seq<string>)
    ensures CompleteOrders(CompleteOrders(orders, orderIds, skuNames), orderIds, skuNames)
         == CompleteOrders(orders, orderIds, skuNames)
  {
    var once := CompleteOrders(orders, orderIds, skuNames);
    var twice := CompleteOrders(once, orderIds, skuNames);
    forall i | 0 <= i < |orders|
      ensures twice[i] == once[i]
    {
      if orders[i].orderId in orderIds {
        var m := MarkReady(orders[i].items, skuNames);
        assert MarkReady(m, skuNames) == m;
      }
    }
  }

  /**
   * The rollup of an order touched by a batch (at least one of its items is
   * named in the batch): Ready when every item outside the batch is already
   * Ready, Pending otherwise.
   */
  lemma CompletedOrderStatus(items: seq<Item>, skuNames: seq<string>)
    requires exists k :: 0 <= k < |items| && items[k].name in skuNames
    ensures OverallStatus(MarkReady(items, skuNames)) ==
            if forall k :: 0 <= k < |items| && items[k].name !in skuNames ==> items[k].status == Ready
            then Ready else Pending
  {
    var r := MarkReady(items, skuNames);
    var k :| 0 <= k < |items| && items[k].name in skuNames;
    if forall j :: 0 <= j < |items| && items[j].name !in skuNames ==> items[j].status == Ready {
      assert AllHaveStatus(r, Ready);
    } else {
      var j :| 0 <= j < |items| && items[j].name !in skuNames && items[j].status != Ready;
      assert r[k].status != r[j].status;
    }
  }

  /** The group list without the completed group; absent ids leave it unchanged. */
  function RemoveGroup(groups: seq<Group>, groupId: int): (r: seq<Group>)
    ensures forall g :: g in r <==> g in groups && g.groupId != groupId
    ensures (forall g :: g in groups ==> g.groupId != groupId) ==> r == groups
    ensures |r| <= |groups|
  {
    if |groups| == 0 then []
    else if groups[0].groupId == groupId then RemoveGroup(groups[1..], groupId)
    else [groups[0]] + RemoveGroup(groups[1..], groupId)
  }

  /** Removal works piecewise on a concatenation, so the survivors keep their relative order. */
  lemma {:induction false} RemoveGroupConcat(a: seq<Group>, b: seq<Group>, groupId: int)
    ensures RemoveGroup(a + b, groupId) == RemoveGroup(a, groupId) + RemoveGroup(b, groupId)
  {
    if |a| == 0 {
      assert a + b == b;
    } else {
      assert (a + b)[1..] == a[1..] + b;
      RemoveGroupConcat(a[1..], b, groupId);
    }
  }

  // ---------------------------------------------------------------------
  // Shaping the fetched orders

  /** Whole minutes between creation and `nowMs`: |floor((created - now) / 60000)|. */
  function ElapsedMinutes(createdAtMs: int, nowMs: int): (m: nat)
    ensures createdAtMs <= nowMs ==> m * 60000 >= nowMs - createdAtMs > (m - 1) * 60000
  {
    var q := (createdAtMs - nowMs) / 60000;
    if q < 0 then -q else q
  }

  function TransformItem(it: RawItem): Item {
    Item(it.name, it.price, it.quantity, Pending)
  }

  function TransformOrder(o: RawOrder, nowMs: int): Order {
    Order(
      o.orderId,
      o.channelType,
      if |o.assignedTables| > 0 then Text.Join(o.assignedTables, ", ") else "N/A",
      o.price,
      ElapsedMinutes(o.createdAtMs, nowMs),
      seq(|o.items|, k requires 0 <= k < |o.items| => TransformItem(o.items[k])),
      Pending)
  }

  /**
   * The fetched orders as the queue shows them: every item and every order
   * starts Pending, tables are joined with ", " or shown as "N/A", and the
   * result is rollup-consistent.
   */
  function TransformOrders(data: seq<RawOrder>, nowMs: int): (r: seq<Order>)
    ensures |r| == |data|
    ensures forall i :: 0 <= i < |r| ==>
      && r[i].orderId == data[i].orderId
      && r[i].channelType == data[i].channelType
      && r[i].totalPrice == data[i].price
      && r[i].preparingTime == ElapsedMinutes(data[i].createdAtMs, nowMs)
      && r[i].status == Pending
      && |r[i].items| == |data[i].items|
      && (forall k :: 0 <= k < |r[i].items| ==>
            r[i].items[k] == Item(data[i].items[k].name, data[i].items[k].price, data[i].items[k].quantity, Pending))
      && r[i].assignedTable == (if data[i].assignedTables == [] then "N/A" else Text.Join(data[i].assignedTables, ", "))
    ensures RollupConsistent(r)
  {
    var r := seq(|data|, i requires 0 <= i < |data| => TransformOrder(data[i], nowMs));
    assert forall i :: 0 <= i < |r| ==> AllHaveStatus(r[i].items, Pending);
    r
  }

  // ---------------------------------------------------------------------
  // The page state

  /** The queue's two state lists, replaced wholesale by every handler. */
  class OrderBoard {
    var orders: seq<Order>
    var groups: seq<Group>

    ghost predicate Valid()
      reads this
    {
      RollupConsistent(orders)
    }

    constructor ()
      ensures Valid() && orders == [] && groups == []
    {
      orders := [];
      groups := [];
    }

    /** Fetch of the orders: a failed fetch (None) leaves the list as it was. */
    method LoadOrders(response: Option<seq<RawOrder>>, nowMs: int)
      requires Valid()
      modifies this
      ensures Valid() && groups == old(groups)
      ensures orders == if response.Some? then TransformOrders(response.value, nowMs) else old(orders)
    {
      if response.Some? {
        orders := TransformOrders(response.value, nowMs);
      }
    }

    /** Fetch of the groups: a failed fetch (None) leaves the list as it was. */
    method LoadGroups(response: Option<seq<Group>>)
      requires Valid()
      modifies this
      ensures Valid() && orders == old(orders)
      ensures groups == if response.Some? then response.value else old(groups)
    {
      if response.Some? {
        groups := response.value;
      }
    }

    /** One item's status chosen in the table. */
    method UpdateItemStatusFrontend(orderId: int, itemName: string, newStatus: string)
      requires Valid()
      modifies this
      ensures Valid() && groups == old(groups)
      ensures orders == UpdateItemStatus(old(orders), orderId, itemName, newStatus)
    {
      orders := UpdateItemStatus(orders, orderId, itemName, newStatus);
    }

    /** The "Complete" button of a group: drop the group, mark its items Ready. */
    method HandleCompleteGroup(groupId: int, orderIds: seq<int>, skuNames: seq<string>)
      requires Valid()
      modifies this
      ensures Valid()
      ensures groups == RemoveGroup(old(groups), groupId)
      ensures orders == CompleteOrders(old(orders), orderIds, skuNames)
    {
      groups := RemoveGroup(groups, groupId);
      orders := CompleteOrders(orders, orderIds, skuNames);
    }
  }
}
