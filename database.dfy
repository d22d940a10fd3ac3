/**
 * The backend's database helpers, with the database itself abstracted:
 * tables are sequences of rows, a failing query is a boolean parameter,
 * and bcrypt's password check is a function parameter.
 */

/** Menu rows: SKU generation, insertion and partial updates. */
module MenuDatabase {
  import opened Wrappers
  import Text

  datatype MenuRow = MenuRow(
    name: string,
    category: string,
    subCategory: string,
    sku: string,
    taxPercentage: real,
    packagingCharge: real,
    description: string,
    variations: seq<(string, real)>,
    imageUrl: string)

  /** A bound parameter of an UPDATE: a text, a number, or a variant→price mapping. */
  datatype SqlValue = SqlText(s: string) | SqlNumber(n: real) | SqlPrices(entries: seq<(string, real)>)

  /** What `edit_menu_item` does with its arguments. */
  datatype EditPlan =
    | NoUpdates
    | NoValidFields
    | Update(query: string, params: seq<SqlValue>)

  const NoUpdatesMessage: string := "⚠️ No updates provided"
  const NoValidFieldsMessage: string := "⚠️ No valid fields to update"

  // ---------------------------------------------------------------------
  // SKU generation

  /** The first (up to) three characters of the sub-category, upper-cased. */
  function SkuPrefix(subCategory: string): (p: string)
    ensures |p| == if |subCategory| < 3 then |subCategory| else 3
    ensures forall i :: 0 <= i < |p| ==> p[i] == Text.UpperChar(subCategory[i])
  {
    Text.Upper(if |subCategory| < 3 then subCategory else subCategory[..3])
  }

  /** How many rows already carry this sub-category (the COUNT(*) query). */
  function CountInSubCategory(table: seq<MenuRow>, subCategory: string): nat {
    if |table| == 0 then 0
    else (if table[0].subCategory == subCategory then 1 else 0) + CountInSubCategory(table[1..], subCategory)
  }

  /**
   * `generate_sku`: the prefix followed by the row count plus one, zero-padded
   * to width 3 and never truncated; None when the count query fails.
   * The numeric part reads back as exactly `count + 1`.
   */
  function GenerateSku(table: seq<MenuRow>, subCategory: string, queryFails: bool): (r: Option<string>)
    ensures queryFails <==> r.None?
    ensures r.Some? ==>
      var p := SkuPrefix(subCategory);
      && |r.value| >= |p| + 3
      && r.value[..|p|] == p
      && Text.AllDigits(r.value[|p|..])
      && Text.DigitsValue(r.value[|p|..]) == CountInSubCategory(table, subCategory) + 1
    ensures r.Some? && |r.value| > |SkuPrefix(subCategory)| + 3 ==> r.value[|SkuPrefix(subCategory)|] != '0'
  {
    if queryFails then None
    else
      var count := CountInSubCategory(table, subCategory) + 1;
      var digits := Text.ZFill(Text.NatToString(count), 3);
      Text.NatToStringRoundTrip(count);
      Text.ZFillValue(Text.NatToString(count), 3);
      var sku := SkuPrefix(subCategory) + digits;
      assert sku[..|SkuPrefix(subCategory)|] == SkuPrefix(subCategory);
      assert sku[|SkuPrefix(subCategory)|..] == digits;
      Some(sku)
  }

  /**
   * Within one sub-category, tables of different row counts get different
   * SKUs. (Sub-categories sharing their first three letters share a prefix,
   * so their SKUs are not kept apart: see SharedPrefixCollides.)
   */
  lemma GeneratedSkusDiffer(t1: seq<MenuRow>, t2: seq<MenuRow>, subCategory: string)
    requires CountInSubCategory(t1, subCategory) != CountInSubCategory(t2, subCategory)
    ensures GenerateSku(t1, subCategory, false) != GenerateSku(t2, subCategory, false)
  {
    var p := SkuPrefix(subCategory);
    var s1 := GenerateSku(t1, subCategory, false).value;
    var s2 := GenerateSku(t2, subCategory, false).value;
    assert s1[|p|..] != s2[|p|..];
  }

  /** The first SKU of a sub-category is its prefix followed by "001". */
  lemma FirstSku(subCategory: string)
    ensures GenerateSku([], subCategory, false) == Some(SkuPrefix(subCategory) + "001")
  {
    assert Text.NatToString(1) == "1";
    assert Text.Zeros(2) == "00";
    assert Text.ZFill("1", 3) == "001";
  }

  /**
   * SKUs tell sub-categories apart only by their prefix: two sub-categories
   * with the same upper-cased first three characters and the same row count
   * get the same SKU.
   */
  lemma SharedPrefixCollides(t1: seq<MenuRow>, t2: seq<MenuRow>, a: string, b: string)
    requires SkuPrefix(a) == SkuPrefix(b)
    requires CountInSubCategory(t1, a) == CountInSubCategory(t2, b)
    ensures GenerateSku(t1, a, false) == GenerateSku(t2, b, false)
  {
    var digits := Text.ZFill(Text.NatToString(CountInSubCategory(t1, a) + 1), 3);
    assert GenerateSku(t1, a, false) == Some(SkuPrefix(a) + digits);
    assert GenerateSku(t2, b, false) == Some(SkuPrefix(b) + digits);
  }

  /** "Cold Coffee" and "Cold Drinks" share the prefix "COL", so both start at the same SKU. */
  lemma ColdCoffeeMeetsColdDrinks()
    ensures GenerateSku([], "Cold Coffee", false) == GenerateSku([], "Cold Drinks", false)
  {
    var coffee, drinks := "Cold Coffee", "Cold Drinks";
    assert coffee[..3] == drinks[..3];
    assert SkuPrefix(coffee) == SkuPrefix(drinks);
    SharedPrefixCollides([], [], coffee, drinks);
  }

  // ---------------------------------------------------------------------
  // Insertion

  /**
   * `add_menu_item` against the menu table: the message it returns and the
   * table afterwards. A failed SKU query or a failed insert leaves the table
   * as it was.
   */
  function AddMenuItem(
    table: seq<MenuRow>, name: string, category: string, subCategory: string,
    taxPercentage: real, packagingCharge: real, description: string,
    variations: seq<(string, real)>, imageUrl: string,
    countFails: bool, insertFails: bool): (r: (string, seq<MenuRow>))
    ensures countFails ==> r == ("Error generating SKU", table)
    ensures !countFails && insertFails ==> r == ("Error adding menu item", table)
    ensures !countFails && !insertFails ==>
      var sku := GenerateSku(table, subCategory, false).value;
      && r.1 == table + [MenuRow(name, category, subCategory, sku, taxPercentage, packagingCharge, description, variations, imageUrl)]
      && r.0 == "Menu item '" + name + "' added with SKU: " + sku
  {
    match GenerateSku(table, subCategory, countFails)
    case None => ("Error generating SKU", table)
    case Some(sku) =>
      if insertFails then ("Error adding menu item", table)
      else
        var row := MenuRow(name, category, subCategory, sku, taxPercentage, packagingCharge, description, variations, imageUrl);
        ("Menu item '" + name + "' added with SKU: " + sku, table + [row])
  }

  // ---------------------------------------------------------------------
  // Partial updates

  /** The `col = %s` fragments for the fields that are not None, in input order. */
  function SetClauses(updates: seq<(string, Option<SqlValue>)>): seq<string> {
    if |updates| == 0 then []
    else
      var last := updates[|updates| - 1];
      SetClauses(updates[..|updates| - 1]) + (if last.1.Some? then [last.0 + " = %s"] else [])
  }

  /** The values of the fields that are not None, in input order. */
  function BoundValues(updates: seq<(string, Option<SqlValue>)>): seq<SqlValue> {
    if |updates| == 0 then []
    else
      var last := updates[|updates| - 1];
      BoundValues(updates[..|updates| - 1]) + (if last.1.Some? then [last.1.value] else [])
  }

  lemma {:induction false} ClausesMatchValues(updates: seq<(string, Option<SqlValue>)>)
    ensures |SetClauses(updates)| == |BoundValues(updates)|
    ensures SetClauses(updates) == [] <==> forall k :: 0 <= k < |updates| ==> updates[k].1.None?
  {
    if |updates| > 0 {
      ClausesMatchValues(updates[..|updates| - 1]);
    }
  }

  /** The statement text `UPDATE menu SET <clauses> WHERE sku = %s`. */
  function UpdateQuery(clauses: seq<string>): string {
    "UPDATE menu SET " + Text.Join(clauses, ", ") + " WHERE sku = %s"
  }

  /**
   * `edit_menu_item` up to executing the statement: nothing to do for no
   * arguments, nothing valid when every value is None, otherwise one
   * `col = %s` per non-None field in input order, the values in the same
   * order, and the SKU bound last for the WHERE clause.
   */
  method PlanEdit(sku: string, updates: seq<(string, Option<SqlValue>)>) returns (plan: EditPlan)
    ensures updates == [] <==> plan == NoUpdates
    ensures plan == NoValidFields <==> updates != [] && forall k :: 0 <= k < |updates| ==> updates[k].1.None?
    ensures plan.Update? ==>
      && plan.query == UpdateQuery(SetClauses(updates))
      && plan.params == BoundValues(updates) + [SqlText(sku)]
      && |SetClauses(updates)| + 1 == |plan.params|
  {
    if |updates| == 0 {
      return NoUpdates;
    }
    var setClause: seq<string> := [];
    var values: seq<SqlValue> := [];
    var i := 0;
    while i < |updates|
      invariant 0 <= i <= |updates|
      invariant setClause == SetClauses(updates[..i])
      invariant values == BoundValues(updates[..i])
    {
      var (column, value) := updates[i];
      assert updates[..i + 1][..i] == updates[..i];
      if value.Some? {
        setClause := setClause + [column + " = %s"];
        values := values + [value.value];
      }
      i := i + 1;
    }
    assert updates[..i] == updates;
    ClausesMatchValues(updates);
    if |setClause| == 0 {
      return NoValidFields;
    }
    var query := UpdateQuery(setClause);
    values := values + [SqlText(sku)];
    plan := Update(query, values);
  }

  /**
   * `edit_menu_item` as a whole: the plan, then the message it returns,
   * given whether executing the statement fails.
   */
  method EditMenuItem(sku: string, updates: seq<(string, Option<SqlValue>)>, executeFails: bool)
    returns (message: string)
    ensures updates == [] ==> message == NoUpdatesMessage
    ensures updates != [] && (forall k :: 0 <= k < |updates| ==> updates[k].1.None?) ==> message == NoValidFieldsMessage
    ensures (exists k :: 0 <= k < |updates| && updates[k].1.Some?) ==>
      message == if executeFails then "Error updating menu item"
                 else "✅ Menu item with SKU " + sku + " updated successfully"
  {
    var plan := PlanEdit(sku, updates);
    match plan
    case NoUpdates => message := NoUpdatesMessage;
    case NoValidFields => message := NoValidFieldsMessage;
    case Update(_, _) =>
      if executeFails {
        message := "Error updating menu item";
      } else {
        message := "✅ Menu item with SKU " + sku + " updated successfully";
      }
  }

  // Placeholders in the statement text

  /** Number of `%s` placeholders in a statement text. */
  function Placeholders(s: string): nat {
    if |s| < 2 then 0
    else (if s[0] == '%' && s[1] == 's' then 1 else 0) + Placeholders(s[1..])
  }

  lemma {:induction false} NoPercentNoPlaceholder(s: string)
    requires '%' !in s
    ensures Placeholders(s) == 0
  {
    if |s| >= 2 {
      assert s[0] in s;
      assert forall c :: c in s[1..] ==> c in s;
      NoPercentNoPlaceholder(s[1..]);
    }
  }

  /** A placeholder cannot straddle the boundary when the left part does not end in `%`. */
  lemma {:induction false} PlaceholdersConcat(a: string, b: string)
    requires |a| == 0 || a[|a| - 1] != '%'
    ensures Placeholders(a + b) == Placeholders(a) + Placeholders(b)
  {
    if |a| == 0 {
      assert a + b == b;
    } else if |a| == 1 {
      if |b| >= 1 {
        assert (a + b)[1..] == b;
      }
    } else {
      assert (a + b)[1..] == a[1..] + b;
      PlaceholdersConcat(a[1..], b);
    }
  }

  lemma ClausePlaceholder(column: string)
    requires '%' !in column
    ensures Placeholders(column + " = %s") == 1
  {
    NoPercentNoPlaceholder(column);
    PlaceholdersConcat(column, " = %s");
  }

  predicate ClauseShaped(clauses: seq<string>) {
    forall k :: 0 <= k < |clauses| ==>
      |clauses[k]| > 0 && clauses[k][|clauses[k]| - 1] == 's' && Placeholders(clauses[k]) == 1
  }

  lemma {:induction false} JoinPlaceholders(clauses: seq<string>)
    requires |clauses| > 0 && ClauseShaped(clauses)
    ensures Placeholders(Text.Join(clauses, ", ")) == |clauses|
    ensures var j := Text.Join(clauses, ", "); |j| > 0 && j[|j| - 1] == 's'
  {
    if |clauses| > 1 {
      JoinPlaceholders(clauses[1..]);
      var rest := Text.Join(clauses[1..], ", ");
      PlaceholdersConcat(clauses[0], ", ");
      NoPercentNoPlaceholder(", ");
      PlaceholdersConcat(clauses[0] + ", ", rest);
      assert Text.Join(clauses, ", ") == clauses[0] + ", " + rest;
    }
  }

  lemma {:induction false} SetClausesShaped(updates: seq<(string, Option<SqlValue>)>)
    requires forall k :: 0 <= k < |updates| ==> '%' !in updates[k].0
    ensures ClauseShaped(SetClauses(updates))
  {
    if |updates| > 0 {
      SetClausesShaped(updates[..|updates| - 1]);
      ClausePlaceholder(updates[|updates| - 1].0);
    }
  }

  /**
   * When no column name contains `%` (the model's field names do not), the
   * statement has exactly one placeholder per bound value.
   */
  lemma PlaceholdersMatchParams(sku: string, updates: seq<(string, Option<SqlValue>)>)
    requires forall k :: 0 <= k < |updates| ==> '%' !in updates[k].0
    requires exists k :: 0 <= k < |updates| && updates[k].1.Some?
    ensures Placeholders(UpdateQuery(SetClauses(updates))) == |BoundValues(updates) + [SqlText(sku)]|
  {
    ClausesMatchValues(updates);
    SetClausesShaped(updates);
    QueryPlaceholders(SetClauses(updates));
  }

  lemma QueryPlaceholders(clauses: seq<string>)
    requires |clauses| > 0 && ClauseShaped(clauses)
    ensures Placeholders(UpdateQuery(clauses)) == |clauses| + 1
  {
    JoinPlaceholders(clauses);
    var j := Text.Join(clauses, ", ");
    SetPlaceholderFree();
    WherePlaceholder();
    ThreePieces("UPDATE menu SET ", j, " WHERE sku = %s");
  }

  lemma ThreePieces(pre: string, mid: string, post: string)
    requires |pre| > 0 && pre[|pre| - 1] != '%'
    requires |mid| > 0 && mid[|mid| - 1] != '%'
    ensures Placeholders(pre + mid + post) == Placeholders(pre) + Placeholders(mid) + Placeholders(post)
  {
    PlaceholdersConcat(pre, mid);
    assert (pre + mid)[|pre + mid| - 1] == mid[|mid| - 1];
    PlaceholdersConcat(pre + mid, post);
  }

  lemma WherePlaceholder()
    ensures Placeholders(" WHERE sku = %s") == 1
  {
  }

  lemma SetPlaceholderFree()
    ensures Placeholders("UPDATE menu SET ") == 0 && "UPDATE menu SET "[|"UPDATE menu SET "| - 1] != '%'
  {
    NoPercentNoPlaceholder("UPDATE menu SET ");
  }
}

/** Order pricing and order creation. */
module OrderDatabase {
  import opened Wrappers

  /** One requested order line: its SKU, quantity and unit price. */
  datatype OrderLine = OrderLine(sku: string, quantity: int, price: real)

  /** The menu's per-SKU charges. */
  datatype Charges = Charges(taxPercentage: real, packagingCharge: real)

  /** What one line adds: base × (1 + tax / 100) + packaging once; nothing without a menu row. */
  function LinePrice(line: OrderLine, menu: map<string, Charges>): real {
    if line.sku in menu then
      var base := line.price * line.quantity as real;
      base + menu[line.sku].taxPercentage / 100.0 * base + menu[line.sku].packagingCharge
    else 0.0
  }

  /** The order total before rounding: the line prices summed in order. */
  function OrderPrice(items: seq<OrderLine>, menu: map<string, Charges>): real {
    if |items| == 0 then 0.0
    else OrderPrice(items[..|items| - 1], menu) + LinePrice(items[|items| - 1], menu)
  }

  /** `calculate_order_price`: accumulate each line's contribution. */
  method CalculateOrderPrice(items: seq<OrderLine>, menu: map<string, Charges>) returns (total: real)
    ensures total == OrderPrice(items, menu)
    ensures items == [] ==> total == 0.0
  {
    total := 0.0;
    var i := 0;
    while i < |items|
      invariant 0 <= i <= |items|
      invariant total == OrderPrice(items[..i], menu)
    {
      assert items[..i + 1][..i] == items[..i];
      var item := items[i];
      if item.sku in menu {
        var basePrice := item.price * item.quantity as real;
        var tax := menu[item.sku].taxPercentage / 100.0 * basePrice;
        total := total + basePrice + tax + menu[item.sku].packagingCharge;
      }
      i := i + 1;
    }
    assert items[..i] == items;
  }

  lemma {:induction false} OrderPriceAdditive(a: seq<OrderLine>, b: seq<OrderLine>, menu: map<string, Charges>)
    ensures OrderPrice(a + b, menu) == OrderPrice(a, menu) + OrderPrice(b, menu)
  {
    if |b| == 0 {
      assert a + b == a;
    } else {
      assert (a + b)[..|a + b| - 1] == a + b[..|b| - 1];
      OrderPriceAdditive(a, b[..|b| - 1], menu);
    }
  }

  /** Taxed goods: Σ price × quantity × (1 + tax / 100) over lines the menu knows. */
  function TaxedGoods(items: seq<OrderLine>, menu: map<string, Charges>): real {
    if |items| == 0 then 0.0
    else
      var l := items[|items| - 1];
      TaxedGoods(items[..|items| - 1], menu)
        + (if l.sku in menu then l.price * l.quantity as real * (1.0 + menu[l.sku].taxPercentage / 100.0) else 0.0)
  }

  /** Packaging: one packaging charge per known line, whatever its quantity. */
  function PackagingPerLine(items: seq<OrderLine>, menu: map<string, Charges>): real {
    if |items| == 0 then 0.0
    else
      var l := items[|items| - 1];
      PackagingPerLine(items[..|items| - 1], menu) + (if l.sku in menu then menu[l.sku].packagingCharge else 0.0)
  }

  /** The total splits into taxed goods plus packaging counted once per line (not per unit). */
  lemma {:induction false} OrderPriceDecomposes(items: seq<OrderLine>, menu: map<string, Charges>)
    ensures OrderPrice(items, menu) == TaxedGoods(items, menu) + PackagingPerLine(items, menu)
  {
    if |items| > 0 {
      OrderPriceDecomposes(items[..|items| - 1], menu);
      var l := items[|items| - 1];
      if l.sku in menu {
        var base := l.price * l.quantity as real;
        var t := menu[l.sku].taxPercentage;
        assert base + t / 100.0 * base == base * (1.0 + t / 100.0);
      }
    }
  }

  datatype OrderRecord = OrderRecord(
    id: int, createdAt: int, channelType: string, tables: seq<string>,
    items: seq<OrderLine>, price: real, settlementMode: string, waiterId: string)

  datatype Allocation = Allocation(tables: seq<string>, waiterId: string)

  /** The two tables `create_order` writes. */
  datatype Tables = Tables(orders: seq<OrderRecord>, allocations: seq<Allocation>)

  /** The successful response of `create_order`. */
  datatype Placed = Placed(orderId: int, waiterId: string, totalPrice: real)

  /**
   * `create_order` given the least-loaded waiter (None when there is none),
   * the id the insert returns and the clock: without a waiter the error is
   * returned and nothing is written; otherwise the order and one allocation
   * are appended.
   */
  function CreateOrder(
    db: Tables, menu: map<string, Charges>, waiter: Option<string>, newOrderId: int, now: int,
    channelType: string, tableNumbers: seq<string>, items: seq<OrderLine>, settlementMode: string)
    : (r: (Result<Placed, string>, Tables))
    ensures (waiter == None || waiter == Some("")) <==> r.0.Failure?
    ensures r.0.Failure? ==> r.0.error == "No available waiters" && r.1 == db
    ensures r.0.Success? ==>
      && r.0.value == Placed(newOrderId, waiter.value, OrderPrice(items, menu))
      && r.1.orders == db.orders + [OrderRecord(newOrderId, now, channelType, tableNumbers, items,
                                                OrderPrice(items, menu), settlementMode, waiter.value)]
      && r.1.allocations == db.allocations + [Allocation(tableNumbers, waiter.value)]
  {
    // `if not waiter_id`: None and the empty string are both falsy.
    if waiter == None || waiter == Some("") then (Failure("No available waiters"), db)
    else
      var total := OrderPrice(items, menu);
      var record := OrderRecord(newOrderId, now, channelType, tableNumbers, items, total, settlementMode, waiter.value);
      (Success(Placed(newOrderId, waiter.value, total)),
       Tables(db.orders + [record], db.allocations + [Allocation(tableNumbers, waiter.value)]))
  }
}

/** Employee login. */
module UserDatabase {
  import opened Wrappers

  datatype Employee = Employee(id: string, name: string, email: string, passwordHash: string, role: string, createdAt: string)

  /** What a successful login returns: every column but the password. */
  datatype PublicUser = PublicUser(id: string, name: string, email: string, role: string, createdAt: string)

  /** `get_user_by_email`: a row with that email (the query has no ORDER BY). */
  function FindByEmail(employees: seq<Employee>, email: string): (r: Option<Employee>)
    ensures r.None? <==> forall k :: 0 <= k < |employees| ==> employees[k].email != email
    ensures r.Some? ==> r.value in employees && r.value.email == email
  {
    if |employees| == 0 then None
    else if employees[0].email == email then Some(employees[0])
    else FindByEmail(employees[1..], email)
  }

  /**
   * `login_user`: the user's public fields when the email is known and the
   * password matches its hash (`checkpw` stands for bcrypt), otherwise None.
   */
  function LoginUser(employees: seq<Employee>, email: string, password: string, checkpw: (string, string) -> bool)
    : (r: Option<PublicUser>)
    ensures r.Some? <==> FindByEmail(employees, email).Some? && checkpw(password, FindByEmail(employees, email).value.passwordHash)
    ensures r.Some? ==>
      var u := FindByEmail(employees, email).value;
      r.value == PublicUser(u.id, u.name, u.email, u.role, u.createdAt)
    ensures r.Some? ==> exists k :: 0 <= k < |employees| && employees[k].email == email && employees[k].id == r.value.id
  {
    match FindByEmail(employees, email)
    case None => None
    case Some(u) =>
      if checkpw(password, u.passwordHash) then Some(PublicUser(u.id, u.name, u.email, u.role, u.createdAt))
      else None
  }
}
