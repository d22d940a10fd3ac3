/**
 * Preparation of the kitchen-grouping request and validation of its reply:
 * pending order rows are gathered per order (first-seen order of orders,
 * row order within an order), and the grouping reply is checked against the
 * OrderGroup schema. The language-model call in between is not modelled.
 */
module OrderClubbing {
  import opened Wrappers
  import opened Json

  /** One row of the pending-orders query. The description may be missing (None). */
  datatype PendingRow = PendingRow(orderId: int, sku: string, skuName: string, skuDescription: Option<string>)

  /** One entry of the grouping request. */
  datatype OrderData = OrderData(orderId: int, skus: seq<string>, skuDescriptions: seq<Option<string>>)

  /** A validated group of the reply; exactly the schema's four fields. */
  datatype OrderGroup = OrderGroup(groupId: int, orderIds: seq<int>, skus: seq<string>, skuNames: seq<string>)

  // ---------------------------------------------------------------------
  // Specification of the grouping loop

  function OrderIds(rows: seq<PendingRow>): seq<int> {
    seq(|rows|, k requires 0 <= k < |rows| => rows[k].orderId)
  }

  /** The distinct ids in order of first occurrence. */
  function FirstSeen(ids: seq<int>): (r: seq<int>)
    ensures forall x :: x in r <==> x in ids
    ensures Distinct(r)
  {
    if |ids| == 0 then []
    else
      var prev := FirstSeen(ids[..|ids| - 1]);
      var x := ids[|ids| - 1];
      assert forall y :: y in ids <==> y in ids[..|ids| - 1] || y == x;
      if x in prev then prev else prev + [x]
  }

  predicate Distinct(s: seq<int>) {
    forall i, j :: 0 <= i < j < |s| ==> s[i] != s[j]
  }

  /** The SKUs of the rows of one order, in row order. */
  function SkusOf(rows: seq<PendingRow>, id: int): seq<string> {
    if |rows| == 0 then []
    else SkusOf(rows[..|rows| - 1], id) + (if rows[|rows| - 1].orderId == id then [rows[|rows| - 1].sku] else [])
  }

  /** The descriptions of the rows of one order, in row order. */
  function DescriptionsOf(rows: seq<PendingRow>, id: int): seq<Option<string>> {
    if |rows| == 0 then []
    else
      var last := rows[|rows| - 1];
      DescriptionsOf(rows[..|rows| - 1], id) + (if last.orderId == id then [last.skuDescription] else [])
  }

  /** The rows of one order, in row order. */
  function RowsOf(rows: seq<PendingRow>, id: int): (r: seq<PendingRow>)
    ensures |r| == |SkusOf(rows, id)| == |DescriptionsOf(rows, id)|
    ensures forall k :: 0 <= k < |r| ==>
      r[k].orderId == id && SkusOf(rows, id)[k] == r[k].sku && DescriptionsOf(rows, id)[k] == r[k].skuDescription
  {
    if |rows| == 0 then []
    else RowsOf(rows[..|rows| - 1], id) + (if rows[|rows| - 1].orderId == id then [rows[|rows| - 1]] else [])
  }

  /** The request the grouping loop builds: one entry per order, first-seen order. */
  function GroupRows(rows: seq<PendingRow>): (r: seq<OrderData>)
    ensures |r| == |FirstSeen(OrderIds(rows))|
    ensures forall k :: 0 <= k < |r| ==>
      r[k] == OrderData(FirstSeen(OrderIds(rows))[k], SkusOf(rows, r[k].orderId), DescriptionsOf(rows, r[k].orderId))
  {
    var ids := FirstSeen(OrderIds(rows));
    seq(|ids|, k requires 0 <= k < |ids| => OrderData(ids[k], SkusOf(rows, ids[k]), DescriptionsOf(rows, ids[k])))
  }

  // ---------------------------------------------------------------------
  // The loop of `main`

  /** Per order, the lists being filled in. */
  datatype Details = Details(skus: seq<string>, skuDescriptions: seq<Option<string>>)

  /** What one more row changes in the specification of the prefix read so far. */
  lemma PrefixStep(prefix: seq<PendingRow>, x: PendingRow)
    ensures var prev := FirstSeen(OrderIds(prefix));
      FirstSeen(OrderIds(prefix + [x])) == if x.orderId in prev then prev else prev + [x.orderId]
    ensures forall id :: SkusOf(prefix + [x], id) == SkusOf(prefix, id) + (if x.orderId == id then [x.sku] else [])
    ensures forall id ::
      DescriptionsOf(prefix + [x], id) == DescriptionsOf(prefix, id) + (if x.orderId == id then [x.skuDescription] else [])
  {
    assert (prefix + [x])[..|prefix|] == prefix;
    assert OrderIds(prefix + [x])[..|prefix|] == OrderIds(prefix);
  }

  /** Per order id, the SKUs and descriptions of the rows read, in row order. */
  ghost predicate Gathered(rows: seq<PendingRow>, orderDict: map<int, Details>, keys: seq<int>) {
    && keys == FirstSeen(OrderIds(rows))
    && (forall id :: id in orderDict <==> id in keys)
    && (forall id :: id in orderDict ==> orderDict[id] == Details(SkusOf(rows, id), DescriptionsOf(rows, id)))
  }

  /** The dictionary after one more row: its order's entry is created if new, then extended. */
  function Extended(orderDict: map<int, Details>, item: PendingRow): map<int, Details> {
    var d := if item.orderId in orderDict then orderDict[item.orderId] else Details([], []);
    orderDict[item.orderId := Details(d.skus + [item.sku], d.skuDescriptions + [item.skuDescription])]
  }

  /** One iteration of the loop keeps the dictionary in step with the rows read. */
  lemma GatherStep(prefix: seq<PendingRow>, x: PendingRow, orderDict: map<int, Details>, keys: seq<int>)
    requires Gathered(prefix, orderDict, keys)
    ensures Gathered(prefix + [x], Extended(orderDict, x), if x.orderId in orderDict then keys else keys + [x.orderId])
  {
    PrefixStep(prefix, x);
    if x.orderId !in orderDict {
      SkusOfAbsent(prefix, x.orderId);
    }
  }

  /**
   * The body of the loop of `main`: the order's entry is created (and its id
   * recorded as the next key) when new, then the row's SKU and description
   * are appended to it.
   */
  method AddRow(orderDict: map<int, Details>, keys: seq<int>, item: PendingRow)
    returns (newDict: map<int, Details>, newKeys: seq<int>)
    ensures newDict == Extended(orderDict, item)
    ensures newKeys == if item.orderId in orderDict then keys else keys + [item.orderId]
  {
    newDict, newKeys := orderDict, keys;
    if item.orderId !in newDict {
      newDict := newDict[item.orderId := Details([], [])];
      newKeys := newKeys + [item.orderId];
    }
    var d := newDict[item.orderId];
    newDict := newDict[item.orderId := Details(d.skus + [item.sku], d.skuDescriptions + [item.skuDescription])];
  }

  /**
   * The loop of `main`: a dictionary keyed by order id, filled row by row;
   * `keys` records its insertion order, which Python's dict keeps.
   */
  method GatherRows(rows: seq<PendingRow>) returns (orderDict: map<int, Details>, keys: seq<int>)
    ensures Gathered(rows, orderDict, keys)
  {
    orderDict := map[];
    keys := [];
    var i := 0;
    while i < |rows|
      invariant 0 <= i <= |rows|
      invariant Gathered(rows[..i], orderDict, keys)
    {
      var item := rows[i];
      assert rows[..i + 1] == rows[..i] + [item];
      GatherStep(rows[..i], item, orderDict, keys);
      orderDict, keys := AddRow(orderDict, keys, item);
      i := i + 1;
    }
    assert rows[..i] == rows;
  }

  /** The transformation step of `main`: the dictionary listed in insertion order. */
  method BuildOrderData(rows: seq<PendingRow>) returns (orderData: seq<OrderData>)
    ensures orderData == GroupRows(rows)
  {
    var orderDict, keys := GatherRows(rows);
    forall k | 0 <= k < |keys| ensures keys[k] in orderDict {
      assert keys[k] in keys;
    }
    orderData := seq(|keys|, k requires 0 <= k < |keys| && keys[k] in orderDict =>
      OrderData(keys[k], orderDict[keys[k]].skus, orderDict[keys[k]].skuDescriptions));
  }

  // ---------------------------------------------------------------------
  // Properties of the request

  /** Each order's SKUs and descriptions are aligned: position k of both comes from the same row. */
  lemma SkusAlignWithDescriptions(rows: seq<PendingRow>, k: int, j: int)
    requires 0 <= k < |GroupRows(rows)|
    requires 0 <= j < |GroupRows(rows)[k].skus|
    ensures |GroupRows(rows)[k].skus| == |GroupRows(rows)[k].skuDescriptions|
    ensures exists row ::
      row in rows && (row.orderId, row.sku, row.skuDescription) == (GroupRows(rows)[k].orderId, GroupRows(rows)[k].skus[j], GroupRows(rows)[k].skuDescriptions[j])
  {
    var id := GroupRows(rows)[k].orderId;
    RowsOfIn(rows, id);
    var r := RowsOf(rows, id);
    assert r[j] in rows;
  }

  lemma {:induction false} RowsOfIn(rows: seq<PendingRow>, id: int)
    ensures forall x :: x in RowsOf(rows, id) ==> x in rows
  {
    if |rows| > 0 {
      RowsOfIn(rows[..|rows| - 1], id);
    }
  }

  /** Σ over the listed ids of the number of rows of each. */
  function SkuTotal(rows: seq<PendingRow>, ids: seq<int>): nat {
    if |ids| == 0 then 0 else |SkusOf(rows, ids[0])| + SkuTotal(rows, ids[1..])
  }

  /** Appending a row adds one SKU to its order's list and none to the others'. */
  lemma {:induction false} SkuTotalStep(rows: seq<PendingRow>, x: PendingRow, ids: seq<int>)
    requires Distinct(ids)
    ensures SkuTotal(rows + [x], ids) == SkuTotal(rows, ids) + (if x.orderId in ids then 1 else 0)
  {
    assert (rows + [x])[..|rows + [x]| - 1] == rows;
    if |ids| > 0 {
      assert Distinct(ids[1..]);
      SkuTotalStep(rows, x, ids[1..]);
      assert x.orderId in ids <==> x.orderId == ids[0] || x.orderId in ids[1..];
      if x.orderId == ids[0] {
        assert x.orderId !in ids[1..];
      }
    }
  }

  lemma {:induction false} SkuTotalNewId(rows: seq<PendingRow>, ids: seq<int>, y: int)
    ensures SkuTotal(rows, ids + [y]) == SkuTotal(rows, ids) + |SkusOf(rows, y)|
  {
    if |ids| == 0 {
      assert ids + [y] == [y];
    } else {
      assert (ids + [y])[1..] == ids[1..] + [y];
      SkuTotalNewId(rows, ids[1..], y);
    }
  }

  lemma {:induction false} SkusOfAbsent(rows: seq<PendingRow>, y: int)
    requires y !in OrderIds(rows)
    ensures SkusOf(rows, y) == [] && DescriptionsOf(rows, y) == []
  {
    if |rows| > 0 {
      assert OrderIds(rows[..|rows| - 1]) == OrderIds(rows)[..|rows| - 1];
      assert OrderIds(rows)[|rows| - 1] == rows[|rows| - 1].orderId;
      SkusOfAbsent(rows[..|rows| - 1], y);
    }
  }

  /** One more row adds exactly one SKU to the request. */
  lemma SkuCountStep(init: seq<PendingRow>, x: PendingRow)
    ensures SkuTotal(init + [x], FirstSeen(OrderIds(init + [x]))) == SkuTotal(init, FirstSeen(OrderIds(init))) + 1
  {
    var prev := FirstSeen(OrderIds(init));
    PrefixStep(init, x);
    SkuTotalStep(init, x, prev);
    if x.orderId !in prev {
      SkuTotalNewId(init + [x], prev, x.orderId);
      SkusOfAbsent(init, x.orderId);
      assert SkusOf(init + [x], x.orderId) == [x.sku];
    }
  }

  /** Every pending row contributes exactly one SKU to the request. */
  lemma {:induction false} SkuCountMatchesRows(rows: seq<PendingRow>)
    ensures SkuTotal(rows, FirstSeen(OrderIds(rows))) == |rows|
  {
    if |rows| > 0 {
      var init := rows[..|rows| - 1];
      assert rows == init + [rows[|rows| - 1]];
      SkuCountMatchesRows(init);
      SkuCountStep(init, rows[|rows| - 1]);
    }
  }

  // ---------------------------------------------------------------------
  // The grouping reply

  function StrList(j: Json): Option<seq<string>> {
    if !j.JArr? then None
    else if forall k :: 0 <= k < |j.elems| ==> j.elems[k].JStr? then
      Some(seq(|j.elems|, k requires 0 <= k < |j.elems| && j.elems[k].JStr? => j.elems[k].s))
    else None
  }

  function IntList(j: Json): Option<seq<int>> {
    if !j.JArr? then None
    else if forall k :: 0 <= k < |j.elems| ==> IsInt(j.elems[k]) then
      Some(seq(|j.elems|, k requires 0 <= k < |j.elems| && IsInt(j.elems[k]) => j.elems[k].n.Floor))
    else None
  }

  predicate IsInt(j: Json) {
    j.JNum? && j.n == j.n.Floor as real
  }

  /** `OrderGroup(**group)`: the four fields must be present with their types; other members are ignored. */
  function ParseGroup(j: Json): (r: Option<OrderGroup>)
    ensures r.Some? ==> j.JObj?
  {
    if !j.JObj? then None
    else
      var gid := Member(j.members, "group_id");
      var oids := Member(j.members, "order_ids");
      var skus := Member(j.members, "skus");
      var names := Member(j.members, "sku_names");
      if gid.None? || oids.None? || skus.None? || names.None? then None
      else if !IsInt(gid.value) then None
      else match (IntList(oids.value), StrList(skus.value), StrList(names.value))
        case (Some(o), Some(s), Some(n)) => Some(OrderGroup(gid.value.n.Floor, o, s, n))
        case _ => None
  }

  /** `[OrderGroup(**group) for group in ...]`: every element must validate. */
  function ParseGroups(elems: seq<Json>): (r: Option<seq<OrderGroup>>)
    ensures r.Some? <==> forall k :: 0 <= k < |elems| ==> ParseGroup(elems[k]).Some?
    ensures r.Some? ==> |r.value| == |elems|
    ensures r.Some? ==> forall k :: 0 <= k < |elems| ==> ParseGroup(elems[k]) == Some(r.value[k])
  {
    if forall k :: 0 <= k < |elems| ==> ParseGroup(elems[k]).Some? then
      Some(seq(|elems|, k requires 0 <= k < |elems| && ParseGroup(elems[k]).Some? => ParseGroup(elems[k]).value))
    else None
  }

  /** `model_dump` of a group, as the reply member it came from would be written. */
  function GroupToJson(g: OrderGroup): Json {
    JObj([
      ("group_id", JNum(g.groupId as real)),
      ("order_ids", IntArray(g.orderIds)),
      ("skus", StrArray(g.skus)),
      ("sku_names", StrArray(g.skuNames))
    ])
  }

  function IntArray(xs: seq<int>): Json {
    JArr(seq(|xs|, k requires 0 <= k < |xs| => JNum(xs[k] as real)))
  }

  function StrArray(xs: seq<string>): Json {
    JArr(seq(|xs|, k requires 0 <= k < |xs| => JStr(xs[k])))
  }

  lemma MemberSnoc(ms: seq<(string, Json)>, m: (string, Json), key: string)
    ensures Member(ms + [m], key) == if m.0 == key then Some(m.1) else Member(ms, key)
  {
    assert (ms + [m])[..|ms|] == ms;
  }

  lemma MemberOfFour(a: (string, Json), b: (string, Json), c: (string, Json), d: (string, Json), key: string)
    ensures Member([a, b, c, d], key) ==
      if d.0 == key then Some(d.1) else if c.0 == key then Some(c.1)
      else if b.0 == key then Some(b.1) else if a.0 == key then Some(a.1) else None
  {
    MemberSnoc([], a, key);
    assert [] + [a] == [a];
    MemberSnoc([a], b, key);
    assert [a] + [b] == [a, b];
    MemberSnoc([a, b], c, key);
    assert [a, b] + [c] == [a, b, c];
    MemberSnoc([a, b, c], d, key);
    assert [a, b, c] + [d] == [a, b, c, d];
  }

  lemma StrListOf(xs: seq<string>)
    ensures StrList(StrArray(xs)) == Some(xs)
  {
    var e := StrArray(xs).elems;
    assert forall k :: 0 <= k < |e| ==> e[k].JStr? && e[k].s == xs[k];
    var r := seq(|e|, k requires 0 <= k < |e| && e[k].JStr? => e[k].s);
    assert r == xs;
  }

  lemma IntListOf(xs: seq<int>)
    ensures IntList(IntArray(xs)) == Some(xs)
  {
    var e := IntArray(xs).elems;
    assert forall k :: 0 <= k < |e| ==> IsInt(e[k]) && e[k].n.Floor == xs[k];
    var r := seq(|e|, k requires 0 <= k < |e| && IsInt(e[k]) => e[k].n.Floor);
    assert r == xs;
  }

  lemma FieldNamesDiffer()
    ensures "group_id" != "order_ids" && "group_id" != "skus" && "group_id" != "sku_names"
    ensures "order_ids" != "skus" && "order_ids" != "sku_names" && "skus" != "sku_names"
  {
    assert "group_id"[0] == 'g' && "order_ids"[0] == 'o' && "skus"[0] == 's' && "sku_names"[0] == 's';
    assert |"skus"| != |"sku_names"|;
  }

  /** A dumped group validates back to itself. */
  lemma GroupRoundTrip(g: OrderGroup)
    ensures ParseGroup(GroupToJson(g)) == Some(g)
  {
    var a := ("group_id", JNum(g.groupId as real));
    var b := ("order_ids", IntArray(g.orderIds));
    var c := ("skus", StrArray(g.skus));
    var d := ("sku_names", StrArray(g.skuNames));
    assert GroupToJson(g) == JObj([a, b, c, d]);
    FieldNamesDiffer();
    MemberOfFour(a, b, c, d, "group_id");
    MemberOfFour(a, b, c, d, "order_ids");
    MemberOfFour(a, b, c, d, "skus");
    MemberOfFour(a, b, c, d, "sku_names");
    StrListOf(g.skus);
    StrListOf(g.skuNames);
    IntListOf(g.orderIds);
    assert IsInt(a.1) && a.1.n.Floor == g.groupId;
  }

  /** The reply's "groups" member holds an array. */
  predicate GroupsArray(reply: Json)
    requires reply.JObj?
  {
    Member(reply.members, "groups").Some? && Member(reply.members, "groups").value.JArr?
  }

  function GroupsOf(reply: Json): Json
    requires reply.JObj? && GroupsArray(reply)
  {
    Member(reply.members, "groups").value
  }

  /**
   * The post-processing of `club_orders`: a reply that is not an object is an
   * error; without "groups" the result is empty; an empty string or object
   * iterates as nothing; an array is validated element by element (one bad
   * element fails the call); any other value cannot be iterated.
   */
  function ClubOrdersReply(reply: Json): (r: Result<seq<OrderGroup>, string>)
    ensures reply.JObj? && Member(reply.members, "groups").None? ==> r == Success([])
    ensures !reply.JObj? ==> r.Failure?
    ensures reply.JObj? && GroupsArray(reply) ==>
      (r.Success? <==> forall k :: 0 <= k < |GroupsOf(reply).elems| ==> ParseGroup(GroupsOf(reply).elems[k]).Some?)
    ensures reply.JObj? && GroupsArray(reply) && r.Success? ==>
      |r.value| == |GroupsOf(reply).elems|
      && forall k :: 0 <= k < |r.value| ==> ParseGroup(GroupsOf(reply).elems[k]) == Some(r.value[k])
  {
    if !reply.JObj? then Failure("reply is not a JSON object")
    else match Member(reply.members, "groups")
      case None => Success([])
      case Some(JArr(elems)) =>
        (match ParseGroups(elems)
         case Some(gs) => Success(gs)
         case None =>
           assert GroupsOf(reply).elems == elems;
           Failure("validation error"))
      case Some(JStr(s)) => if s == "" then Success([]) else Failure("validation error")
      case Some(JObj(ms)) => if ms == [] then Success([]) else Failure("validation error")
      case Some(_) => Failure("not iterable")
  }

  /** Dumping groups into a reply and post-processing it gives back the same groups. */
  lemma ClubOrdersRoundTrip(groups: seq<OrderGroup>)
    ensures ClubOrdersReply(JObj([("groups", JArr(seq(|groups|, k requires 0 <= k < |groups| => GroupToJson(groups[k]))))]))
         == Success(groups)
  {
    var elems := seq(|groups|, k requires 0 <= k < |groups| => GroupToJson(groups[k]));
    forall k | 0 <= k < |groups| ensures ParseGroup(elems[k]) == Some(groups[k]) {
      GroupRoundTrip(groups[k]);
    }
    var parsed := ParseGroups(elems);
    assert parsed.Some? && parsed.value == groups;
  }
}
