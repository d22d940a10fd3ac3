/** The staff order board: four seeded orders whose status can be changed from a selector. */
module StaffOrders {

  datatype StaffOrder = StaffOrder(
    id: string,
    assignedTables: string,
    items: seq<string>,
    price: real,
    status: string,
    time: string)

  /** The orders the board starts with. */
  function InitialOrders(): seq<StaffOrder> {
    [
      StaffOrder("#101", "Table 1, Table 2", ["Latte", "Croissant"], 8.99, "Pending", "2 mins ago"),
      StaffOrder("#102", "Table 1, Table 2", ["Burger", "Fries", "Coke"], 15.99, "Preparing", "5 mins ago"),
      StaffOrder("#103", "Table 1, Table 2", ["Pizza", "Garlic Bread"], 18.99, "Ready", "8 mins ago"),
      StaffOrder("#104", "Table 1, Table 2", ["Caesar Salad", "Iced Tea"], 12.99, "Delivered", "15 mins ago")
    ]
  }

  /** The orders with `orderId` take `newStatus`; everything else stays. */
  function WithStatus(orders: seq<StaffOrder>, orderId: string, newStatus: string): (r: seq<StaffOrder>)
    ensures |r| == |orders|
    ensures forall k :: 0 <= k < |r| && orders[k].id == orderId ==> r[k] == orders[k].(status := newStatus)
    ensures forall k :: 0 <= k < |r| && orders[k].id != orderId ==> r[k] == orders[k]
  {
    seq(|orders|, k requires 0 <= k < |orders| => if orders[k].id == orderId then orders[k].(status := newStatus) else orders[k])
  }

  /** An id that is not on the board changes nothing. */
  lemma UnknownIdUnchanged(orders: seq<StaffOrder>, orderId: string, newStatus: string)
    requires forall k :: 0 <= k < |orders| ==> orders[k].id != orderId
    ensures WithStatus(orders, orderId, newStatus) == orders
  {
    var r := WithStatus(orders, orderId, newStatus);
    assert forall k :: 0 <= k < |orders| ==> r[k] == orders[k];
  }

  /** Setting a status twice is the same as setting it once; the later of two settings wins. */
  lemma LastStatusWins(orders: seq<StaffOrder>, orderId: string, s1: string, s2: string)
    ensures WithStatus(WithStatus(orders, orderId, s1), orderId, s2) == WithStatus(orders, orderId, s2)
  {
    var once := WithStatus(orders, orderId, s1);
    var twice := WithStatus(once, orderId, s2);
    var direct := WithStatus(orders, orderId, s2);
    forall k | 0 <= k < |orders| ensures twice[k] == direct[k] {
      assert once[k].id == orders[k].id;
    }
  }

  /** The seeded ids are distinct, so a status change on the seed touches one order. */
  lemma SeedIdsDistinct()
    ensures forall i, j :: 0 <= i < j < |InitialOrders()| ==> InitialOrders()[i].id != InitialOrders()[j].id
  {
    var o := InitialOrders();
    assert o[0].id[3] == '1' && o[1].id[3] == '2' && o[2].id[3] == '3' && o[3].id[3] == '4';
  }

  class OrdersPage {
    var orders: seq<StaffOrder>

    constructor()
      ensures orders == InitialOrders()
    {
      orders := InitialOrders();
    }

    method HandleUpdateStatus(orderId: string, newStatus: string)
      modifies this
      ensures orders == WithStatus(old(orders), orderId, newStatus)
    {
      orders := WithStatus(orders, orderId, newStatus);
    }
  }
}
