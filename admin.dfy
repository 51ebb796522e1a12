/**
 * The administration site's rules: the stock messages shown after a product is saved, cloning products,
 * the bulk update of selected products, recomputing an order's total, the order status actions, and the
 * line total shown beside each order line. Tables are maps from primary key to row; a selection is a set
 * of keys.
 */
module Admin {
  import opened Wrappers
  import opened Text
  import opened Money
  import opened Models
  import Serializers

  datatype Level = Info | Warning | Error

  /** A message shown to the administrator. */
  datatype Message = Message(level: Level, text: string)

  /** The number a message states between `prefix` and `suffix`, when the text between them is a numeral. */
  function CountBetween(text: string, prefix: string, suffix: string): Option<nat> {
    if |prefix| < |text| - |suffix| && text[..|prefix|] == prefix && text[|text| - |suffix|..] == suffix
       && AllDigits(text[|prefix|..|text| - |suffix|])
    then Some(ParseNat(text[|prefix|..|text| - |suffix|]))
    else None
  }

  /** A count written between two texts reads back from the message. */
  lemma CountReadsBack(prefix: string, n: nat, suffix: string)
    ensures CountBetween(prefix + NatToString(n) + suffix, prefix, suffix) == Some(n)
  {
    var t := prefix + NatToString(n) + suffix;
    assert t[..|prefix|] == prefix;
    assert t[|t| - |suffix|..] == suffix;
    assert t[|prefix|..|t| - |suffix|] == NatToString(n);
    ParseNatToString(n);
  }

  /** The admin actions' reports: a verb, the number of rows and what they were, such as
    * "Cloned 3 product(s)"; the count reads back from between the verb and the noun. */
  function CountText(verb: string, n: nat, noun: string): (r: string)
    ensures CountBetween(r, verb + " ", " " + noun) == Some(n)
  {
    CountReadsBack(verb + " ", n, " " + noun);
    assert verb + " " + NatToString(n) + " " + noun == (verb + " ") + NatToString(n) + (" " + noun);
    verb + " " + NatToString(n) + " " + noun
  }

  // ---------------------------------------------------------------------------------------------
  // Stock messages after saving a product

  /** Stock is watched: notification on, product in stock, quantity known. */
  predicate StockWatched(p: ProductRow) {
    p.notifyOnLowStock && p.inStock && p.stockQty.Some?
  }

  /** `max(0, int(low_stock_threshold or 0))`. */
  function Threshold(p: ProductRow): nat {
    match p.lowStockThreshold
    case None => 0
    case Some(t) => if t > 0 then t else 0
  }

  const OutOfStockText: string := "Out of stock: quantity is 0"

  /** The warning names the quantity left and the threshold, each reading back from the text. */
  function LowStockText(qty: int, threshold: nat): (r: string)
    ensures qty >= 0 ==> CountBetween(r, "Low stock: ", " remaining (threshold " + NatToString(threshold) + ")") == Some(qty)
    ensures CountBetween(r, "Low stock: " + IntToString(qty) + " remaining (threshold ", ")") == Some(threshold)
  {
    var head := "Low stock: ";
    var mid := " remaining (threshold ";
    CountReadsBack(head + IntToString(qty) + mid, threshold, ")");
    if qty >= 0 then
      CountReadsBack(head, qty, mid + NatToString(threshold) + ")");
      assert head + IntToString(qty) + mid + NatToString(threshold) + ")"
          == head + NatToString(qty) + (mid + NatToString(threshold) + ")");
      head + IntToString(qty) + mid + NatToString(threshold) + ")"
    else
      head + IntToString(qty) + mid + NatToString(threshold) + ")"
  }

  /** `ProductAdmin.save_model`: the warning test and then the error test, each adding its message. */
  function StockMessages(p: ProductRow): (r: seq<Message>)
    ensures |r| <= 1
    ensures !StockWatched(p) ==> r == []
    ensures StockWatched(p) && 0 < p.stockQty.value <= Threshold(p) ==>
      r == [Message(Warning, LowStockText(p.stockQty.value, Threshold(p)))]
    ensures StockWatched(p) && p.stockQty.value == 0 ==> r == [Message(Error, OutOfStockText)]
    ensures StockWatched(p) && (p.stockQty.value < 0 || p.stockQty.value > Threshold(p)) ==> r == []
  {
    if !StockWatched(p) then []
    else
      var qty := p.stockQty.value;
      var thr := Threshold(p);
      (if 0 < qty <= thr then [Message(Warning, LowStockText(qty, thr))] else []) +
      (if qty == 0 then [Message(Error, OutOfStockText)] else [])
  }

  /**
   * The administrator is warned exactly when the product is watched and the storefront flags it as low
   * on stock, and told it is out of stock exactly when it is watched and the storefront shows it as
   * unavailable for a zero quantity.
   */
  lemma StockMessagesAgreeWithFlags(p: ProductRow)
    ensures (exists m :: m in StockMessages(p) && m.level == Warning) <==>
      p.notifyOnLowStock && p.inStock && Serializers.IsLowStock(p)
    ensures (exists m :: m in StockMessages(p) && m.level == Error) <==>
      p.notifyOnLowStock && p.stockQty == Some(0) && p.inStock && !Serializers.IsAvailable(p)
  {
    var r := StockMessages(p);
    if r != [] {
      assert r[0] in r;
    }
  }

  // ---------------------------------------------------------------------------------------------
  // Cloning products

  /**
   * The new product `clone_products` builds: the name with " (Copy)" appended; description, price, image
   * URL, image, category and `in_stock` copied; every other field at its default (stock 0, threshold 5,
   * notification on, popularity and trend 0, no style template).
   */
  function CloneOf(p: ProductRow, id: nat): (r: ProductRow)
    ensures r.name == p.name + " (Copy)"
    ensures r.price == p.price && r.category == p.category && r.categoryFk == p.categoryFk && r.inStock == p.inStock
    ensures r.description == p.description && r.imageUrl == p.imageUrl && r.image == p.image
    ensures r.stockQty == Some(0) && r.lowStockThreshold == Some(5) && r.notifyOnLowStock
    ensures r.popularity == 0 && r.trendScore == 0 && r.showBadges.None?
  {
    ProductRow(id, p.name + " (Copy)", p.description, p.price, p.imageUrl, p.image, p.category, p.categoryFk,
               p.inStock, 0, 0, Some(0), Some(5), true, None)
  }

  /** A clone starts with no stock, so the storefront shows it as unavailable whatever the original's stock. */
  lemma CloneIsUnavailable(p: ProductRow, id: nat)
    ensures !Serializers.IsAvailable(CloneOf(p, id))
    ensures !Serializers.IsLowStock(CloneOf(p, id))
  {
  }

  /** `clone_products`: one clone per selected product, in order, with keys `newIds`, and the count message. */
  method CloneProducts(selected: seq<ProductRow>, newIds: seq<nat>) returns (created: seq<ProductRow>, message: Message)
    requires |newIds| == |selected|
    ensures |created| == |selected|
    ensures forall i :: 0 <= i < |selected| ==> created[i] == CloneOf(selected[i], newIds[i])
    ensures message == Message(Info, CountText("Cloned", |selected|, "product(s)"))
  {
    created := [];
    var i := 0;
    while i < |selected|
      invariant 0 <= i <= |selected|
      invariant |created| == i
      invariant forall k :: 0 <= k < i ==> created[k] == CloneOf(selected[k], newIds[k])
    {
      created := created + [CloneOf(selected[i], newIds[i])];
      i := i + 1;
    }
    message := Message(Info, CountText("Cloned", |created|, "product(s)"));
  }

  // ---------------------------------------------------------------------------------------------
  // Bulk update

  /** The `updates` dictionary: each field is present only when the form asks for it. */
  datatype Updates = Updates(category: Option<nat>, inStock: Option<bool>, price: Option<string>)

  predicate NoUpdates(u: Updates) {
    u.category.None? && u.inStock.None? && u.price.None?
  }

  /**
   * The dictionary `bulk_update` builds from the posted values: the category when the key names an
   * existing category, `in_stock` only for exactly "true" or "false", the price text when non-empty.
   */
  function BulkUpdates(categoryId: Option<string>, inStock: Option<string>, price: Option<string>, categories: set<nat>): (u: Updates)
    ensures u.category.Some? <==> (categoryId.Some? && categoryId.value != [] && AllDigits(categoryId.value) && ParseNat(categoryId.value) in categories)
    ensures u.category.Some? ==> u.category.value == ParseNat(categoryId.value) && u.category.value in categories
    ensures u.inStock == (if inStock == Some("true") then Some(true) else if inStock == Some("false") then Some(false) else None)
    ensures u.price.Some? <==> (price.Some? && price.value != [])
    ensures u.price.Some? ==> u.price == price
  {
    Updates(
      if categoryId.Some? && categoryId.value != [] && AllDigits(categoryId.value) && ParseNat(categoryId.value) in categories
      then Some(ParseNat(categoryId.value)) else None,
      if inStock == Some("true") then Some(true) else if inStock == Some("false") then Some(false) else None,
      if price.Some? && price.value != [] then price else None)
  }

  /** `bulk_update` filling the `updates` dictionary one posted field at a time. */
  method BuildUpdates(categoryId: Option<string>, inStock: Option<string>, price: Option<string>, categories: set<nat>)
    returns (u: Updates)
    ensures u == BulkUpdates(categoryId, inStock, price, categories)
    ensures NoUpdates(u) <==> u == Updates(None, None, None)
  {
    u := Updates(None, None, None);
    if categoryId.Some? && categoryId.value != [] {
      if AllDigits(categoryId.value) && ParseNat(categoryId.value) in categories {
        u := u.(category := Some(ParseNat(categoryId.value)));
      }
    }
    if inStock == Some("true") || inStock == Some("false") {
      u := u.(inStock := Some(inStock == Some("true")));
    }
    if price.Some? && price.value != [] {
      u := u.(price := price);
    }
  }

  /** A price text as a two-decimal column stores it: a decimal of at most two places, in cents. */
  function PriceCents(text: string): (r: Option<int>)
    ensures r.Some? ==> ParseDecimal(text).Some? && Represents(ParseDecimal(text).value, r.value)
  {
    match ParseDecimal(text)
    case Some(d) => if d.scale <= 2 then Some(ScaledToCents(d.units, d.scale)) else None
    case None => None
  }

  /** A decimal of at most two places, in cents: `units` shifted left by the places it lacks. */
  function ScaledToCents(units: int, scale: nat): (r: int)
    requires scale <= 2
    ensures Represents(Decimal(units, scale), r)
  {
    if scale == 0 then
      assert Pow10(0) == 1;
      units * 100
    else if scale == 1 then
      assert Pow10(1) == 10;
      units * 10
    else
      assert Pow10(2) == 100;
      units
  }

  /** One product after the update, the price already converted. */
  function Updated(p: ProductRow, u: Updates, priceCents: Option<int>): ProductRow {
    p.(categoryFk := if u.category.Some? then u.category else p.categoryFk,
       inStock := u.inStock.GetOr(p.inStock),
       price := priceCents.GetOr(p.price))
  }

  const NoChangesText: string := "No changes applied"

  /**
   * `bulk_update`: with no updates the table is left alone and a warning shown; otherwise every
   * selected row takes the updates and the number of rows is reported. A price the column cannot
   * store makes the update fail.
   */
  function BulkUpdate(table: map<nat, ProductRow>, selected: set<nat>, u: Updates): (r: Result<(map<nat, ProductRow>, Message), string>)
    ensures NoUpdates(u) ==> r == Ok((table, Message(Warning, NoChangesText)))
    ensures r.Err? <==> !NoUpdates(u) && u.price.Some? && PriceCents(u.price.value).None?
    ensures r.Ok? && !NoUpdates(u) ==>
      r.value.0.Keys == table.Keys &&
      r.value.1 == Message(Info, CountText("Updated", |selected * table.Keys|, "product(s)")) &&
      forall id :: id in table ==>
        r.value.0[id] == (if id in selected then Updated(table[id], u, if u.price.Some? then PriceCents(u.price.value) else None) else table[id])
  {
    if NoUpdates(u) then Ok((table, Message(Warning, NoChangesText)))
    else if u.price.Some? && PriceCents(u.price.value).None? then Err("invalid price")
    else
      var cents := if u.price.Some? then PriceCents(u.price.value) else None;
      var updated := map id | id in table :: if id in selected then Updated(table[id], u, cents) else table[id];
      Ok((updated, Message(Info, CountText("Updated", |selected * table.Keys|, "product(s)"))))
  }

  /** Rows outside the selection are untouched, and selected rows change only in the updated fields. */
  lemma BulkUpdateFrame(table: map<nat, ProductRow>, selected: set<nat>, u: Updates, id: nat)
    requires BulkUpdate(table, selected, u).Ok? && id in table
    ensures var row := BulkUpdate(table, selected, u).value.0[id];
      row.id == table[id].id && row.name == table[id].name && row.stockQty == table[id].stockQty &&
      (id !in selected ==> row == table[id]) &&
      (u.inStock.None? ==> row.inStock == table[id].inStock) &&
      (u.category.None? ==> row.categoryFk == table[id].categoryFk) &&
      (u.price.None? ==> row.price == table[id].price)
  {
  }

  // ---------------------------------------------------------------------------------------------
  // Orders

  /**
   * `OrderAdmin.recalc_total`: the total becomes the sum of the lines, missing values counting as 0, and
   * the order is saved, which numbers it if it has no number yet.
   */
  method RecalcTotal(order: OrderRecord, items: seq<OrderItemRow>, site: SiteSetting, existing: set<string>)
    modifies order, site
    ensures order.total == ItemsTotal(items)
    ensures order.pk == old(order.pk) && order.status == old(order.status) && order.customerName == old(order.customerName)
    ensures site.orderPrefix == old(site.orderPrefix)
    ensures old(order.orderNumber).Some? && old(order.orderNumber).value != [] ==>
      (order.orderNumber == old(order.orderNumber) && site.orderCounter == old(site.orderCounter))
    ensures (old(order.orderNumber).None? || old(order.orderNumber).value == []) ==>
      (order.orderNumber.Some? && order.orderNumber.value !in existing
       && site.orderCounter > old(site.orderCounter)
       && order.orderNumber.value == OrderNumberFor(site.orderPrefix, site.orderCounter)
       && forall n :: old(site.orderCounter) < n < site.orderCounter ==> OrderNumberFor(site.orderPrefix, n) in existing)
  {
    var total := 0;
    var i := 0;
    while i < |items|
      invariant 0 <= i <= |items|
      invariant total == ItemsTotal(items[..i])
    {
      total := total + LineTotal(items[i]);
      assert items[..i + 1][..i] == items[..i];
      i := i + 1;
    }
    assert items[..i] == items;
    order.total := total;
    order.Save(site, existing);
  }

  /** `queryset.update(status=...)` on the selected orders, with the number of rows it touched. */
  function MarkOrders(table: map<nat, OrderRow>, selected: set<nat>, status: string): (r: (map<nat, OrderRow>, nat))
    ensures r.0.Keys == table.Keys
    ensures r.1 == |selected * table.Keys|
    ensures forall id :: id in table ==> r.0[id] == (if id in selected then table[id].(status := status) else table[id])
  {
    (map id | id in table :: if id in selected then table[id].(status := status) else table[id], |selected * table.Keys|)
  }

  /** `mark_paid`, `mark_shipped`, `mark_canceled`: the status action and its message. */
  function MarkAction(table: map<nat, OrderRow>, selected: set<nat>, status: string): (r: (map<nat, OrderRow>, Message))
    requires status in {"paid", "shipped", "canceled"}
    ensures r.0 == MarkOrders(table, selected, status).0
    ensures r.1 == Message(Info, CountText("Marked", |selected * table.Keys|, "order(s) as " + status))
  {
    var (updated, n) := MarkOrders(table, selected, status);
    (updated, Message(Info, CountText("Marked", n, "order(s) as " + status)))
  }

  /** Marking twice with the same status is marking once; every other column is kept. */
  lemma MarkOrdersIdempotent(table: map<nat, OrderRow>, selected: set<nat>, status: string)
    ensures MarkOrders(MarkOrders(table, selected, status).0, selected, status).0 == MarkOrders(table, selected, status).0
    ensures forall id :: id in table ==>
      var o := MarkOrders(table, selected, status).0[id];
      o.id == table[id].id && o.total == table[id].total && o.customerEmail == table[id].customerEmail &&
      o.orderNumber == table[id].orderNumber && (id in selected ==> o.status == status)
  {
    var once := MarkOrders(table, selected, status).0;
    var twice := MarkOrders(once, selected, status).0;
    assert twice.Keys == once.Keys;
    forall id | id in twice ensures twice[id] == once[id] {
    }
  }

  /** `line_total_display`: the line total with a dollar sign and two decimals. */
  function LineTotalDisplay(item: OrderItemRow): (r: string)
    ensures |r| >= 1 && r[0] == '$'
  {
    "$" + Fixed2(LineTotal(item))
  }

  /** The text after the dollar sign reads back as the line total. */
  lemma LineTotalDisplayReadsBack(item: OrderItemRow)
    ensures ParseNumber(LineTotalDisplay(item)[1..]) == Cents(LineTotal(item))
  {
    assert LineTotalDisplay(item)[1..] == Fixed2(LineTotal(item));
    ParseFixed2(LineTotal(item));
  }
}
