/**
 * The shop's stored records as the server-side rules see them. Money is held in integer cents (every
 * money column has two decimal places). The order-numbering rule of `Order.save` is a method over the
 * site settings row and the finite set of numbers already in use.
 */
module Models {
  import opened Wrappers
  import opened Text
  import opened Sorting

  /**
   * A product row; the uploaded image is its public URL when there is one, and `showBadges` is the
   * `show_badges` flag of the linked style template, absent when there is no template.
   */
  datatype ProductRow = ProductRow(
    id: nat,
    name: string,
    description: string,
    price: int,
    imageUrl: string,
    image: Option<string>,
    category: string,
    categoryFk: Option<nat>,
    inStock: bool,
    popularity: nat,
    trendScore: nat,
    stockQty: Option<int>,
    lowStockThreshold: Option<int>,
    notifyOnLowStock: bool,
    showBadges: Option<bool>)

  // The product orderings the queries use; the second part of each key breaks ties on the id.

  /** `order_by('-id')`. */
  function NewestFirst(p: ProductRow): Key { Key(-(p.id as int), 0) }

  /** `order_by('id')`. */
  function OldestFirst(p: ProductRow): Key { Key(p.id, 0) }

  /** `order_by('-popularity', '-id')`. */
  function PopularFirst(p: ProductRow): Key { Key(-(p.popularity as int), -(p.id as int)) }

  /** `order_by('-trend_score', '-id')`. */
  function TrendFirst(p: ProductRow): Key { Key(-(p.trendScore as int), -(p.id as int)) }

  /** `order_by('price', 'id')`. */
  function CheapestFirst(p: ProductRow): Key { Key(p.price, p.id) }

  /** `order_by('-price', '-id')`. */
  function DearestFirst(p: ProductRow): Key { Key(-p.price, -(p.id as int)) }

  /** An order row as the list queries and the admin actions see it. */
  datatype OrderRow = OrderRow(id: nat, orderNumber: Option<string>, status: string, customerName: string, customerEmail: string, total: int)

  /** `order_by('-id')` on orders. */
  function NewestOrderFirst(o: OrderRow): Key { Key(-(o.id as int), 0) }

  /** An order line; quantity and price may be missing before the row is saved. */
  datatype OrderItemRow = OrderItemRow(product: nat, quantity: Option<int>, price: Option<int>)

  /** `OrderItem.line_total`: price times quantity, a missing value counting as 0. */
  function LineTotal(item: OrderItemRow): (r: int)
    ensures item.price.Some? && item.quantity.Some? ==> r == item.price.value * item.quantity.value
    ensures item.price.None? || item.quantity.None? ==> r == 0
  {
    item.price.GetOr(0) * item.quantity.GetOr(0)
  }

  /** The sum of the line totals, the value both order-total computations arrive at. */
  function ItemsTotal(items: seq<OrderItemRow>): (r: int)
    ensures (forall i :: 0 <= i < |items| ==> LineTotal(items[i]) >= 0) ==> r >= 0
    ensures (forall i :: 0 <= i < |items| ==> LineTotal(items[i]) == 0) ==> r == 0
  {
    if items == [] then 0 else ItemsTotal(items[..|items| - 1]) + LineTotal(items[|items| - 1])
  }

  lemma {:induction false} ItemsTotalAppend(a: seq<OrderItemRow>, b: seq<OrderItemRow>)
    ensures ItemsTotal(a + b) == ItemsTotal(a) + ItemsTotal(b)
    decreases |b|
  {
    if b == [] {
      assert a + b == a;
    } else {
      assert (a + b)[..|a + b| - 1] == a + b[..|b| - 1];
      ItemsTotalAppend(a, b[..|b| - 1]);
    }
  }

  lemma ItemsTotalSnoc(a: seq<OrderItemRow>, x: OrderItemRow)
    ensures ItemsTotal(a + [x]) == ItemsTotal(a) + LineTotal(x)
  {
    assert (a + [x])[..|a|] == a;
  }

  /** Lines that are all present and non-negative give a non-negative total. */
  lemma {:induction false} ItemsTotalNonNegative(items: seq<OrderItemRow>)
    requires forall i :: 0 <= i < |items| ==> items[i].price.GetOr(0) >= 0 && items[i].quantity.GetOr(0) >= 0
    ensures ItemsTotal(items) >= 0
  {
    if items != [] {
      ItemsTotalNonNegative(items[..|items| - 1]);
    }
  }

  // ---------------------------------------------------------------------------------------------
  // Order numbers

  /** `f"{prefix}{counter:06d}"`. */
  function OrderNumberFor(prefix: string, counter: nat): (r: string)
    ensures StartsWith(r, prefix) && |r| >= |prefix| + 6
    ensures AllDigits(r[|prefix|..])
  {
    assert (prefix + Pad6(counter))[|prefix|..] == Pad6(counter);
    prefix + Pad6(counter)
  }

  /** The digits after the prefix read back as the counter. */
  lemma OrderNumberSuffix(prefix: string, counter: nat)
    ensures ParseNat(OrderNumberFor(prefix, counter)[|prefix|..]) == counter
  {
    assert OrderNumberFor(prefix, counter)[|prefix|..] == Pad6(counter);
    ParsePad6(counter);
  }

  /** Different counters give different numbers under the same prefix. */
  lemma OrderNumberInjective(prefix: string, a: nat, b: nat)
    requires OrderNumberFor(prefix, a) == OrderNumberFor(prefix, b)
    ensures a == b
  {
    OrderNumberSuffix(prefix, a);
    OrderNumberSuffix(prefix, b);
  }

  /** The counters that numbers in `existing` could have been made from. */
  ghost function UsedCounters(existing: set<string>, prefix: string): set<nat> {
    set s | s in existing && |s| >= |prefix| :: ParseNat(s[|prefix|..])
  }

  ghost function SetMax(s: set<nat>): (r: nat)
    ensures forall x :: x in s ==> x <= r
    decreases |s|
  {
    if s == {} then 0
    else
      var x :| x in s;
      var m := SetMax(s - {x});
      assert forall y :: y in s ==> y == x || y in s - {x};
      if x > m then x else m
  }

  /** A taken number bounds its counter, so the search for a free number ends. */
  lemma TakenCounterBounded(existing: set<string>, prefix: string, counter: nat)
    requires OrderNumberFor(prefix, counter) in existing
    ensures counter <= SetMax(UsedCounters(existing, prefix))
  {
    OrderNumberSuffix(prefix, counter);
    assert counter in UsedCounters(existing, prefix);
  }

  /** The search in `Order.save`: the first counter after `start` whose number is not taken yet. */
  method NextFreeCounter(prefix: string, start: nat, existing: set<string>) returns (counter: nat)
    ensures counter > start && OrderNumberFor(prefix, counter) !in existing
    ensures forall n :: start < n < counter ==> OrderNumberFor(prefix, n) in existing
  {
    counter := start + 1;
    var candidate := OrderNumberFor(prefix, counter);
    ghost var bound := SetMax(UsedCounters(existing, prefix));
    while candidate in existing
      invariant counter > start
      invariant candidate == OrderNumberFor(prefix, counter)
      invariant forall n :: start < n < counter ==> OrderNumberFor(prefix, n) in existing
      decreases bound + 1 - counter
    {
      TakenCounterBounded(existing, prefix, counter);
      assert forall n :: start < n <= counter ==> OrderNumberFor(prefix, n) in existing;
      counter := counter + 1;
      candidate := OrderNumberFor(prefix, counter);
    }
  }

  /** The site settings row, of which only the numbering fields matter here. */
  class SiteSetting {
    var orderPrefix: string
    var orderCounter: nat

    /** The row created on demand: prefix "ORD-", counter 0. */
    constructor ()
      ensures orderPrefix == "ORD-" && orderCounter == 0
    {
      orderPrefix := "ORD-";
      orderCounter := 0;
    }
  }

  class OrderRecord {
    var pk: Option<nat>
    var orderNumber: Option<string>
    var customerName: string
    var status: string
    var total: int

    /** A new, unsaved order: no key, no number, status "pending", total 0. */
    constructor (customerName: string)
      ensures pk.None? && orderNumber.None? && this.customerName == customerName
      ensures status == "pending" && total == 0
    {
      pk := None;
      orderNumber := None;
      this.customerName := customerName;
      status := "pending";
      total := 0;
    }

    /** `__str__`: the order number, or `#` and the key, followed by the customer's name. */
    function Label(): (r: string)
      reads this
      ensures orderNumber.Some? && orderNumber.value != [] ==> r == "Order " + orderNumber.value + " - " + customerName
      ensures orderNumber.None? || orderNumber.value == [] ==>
        r == "Order #" + (if pk.Some? then NatToString(pk.value) else "None") + " - " + customerName
    {
      var num := if orderNumber.Some? && orderNumber.value != [] then orderNumber.value
                 else "#" + (if pk.Some? then NatToString(pk.value) else "None");
      "Order " + num + " - " + customerName
    }

    /**
     * `save`: an order without a number takes the next counter value, skipping values whose number is
     * already in use, and the counter is stored; an order with a number keeps it.
     */
    method Save(site: SiteSetting, existing: set<string>)
      modifies this, site
      ensures old(orderNumber).Some? && old(orderNumber).value != [] ==>
        (orderNumber == old(orderNumber) && site.orderCounter == old(site.orderCounter))
      ensures (old(orderNumber).None? || old(orderNumber).value == []) ==>
        (orderNumber.Some? && orderNumber.value !in existing
         && site.orderCounter > old(site.orderCounter)
         && orderNumber.value == OrderNumberFor(site.orderPrefix, site.orderCounter)
         && ParseNat(orderNumber.value[|site.orderPrefix|..]) == site.orderCounter
         && forall n :: old(site.orderCounter) < n < site.orderCounter ==> OrderNumberFor(site.orderPrefix, n) in existing)
      ensures site.orderPrefix == old(site.orderPrefix)
      ensures pk == old(pk) && customerName == old(customerName) && status == old(status) && total == old(total)
    {
      if orderNumber.Some? && orderNumber.value != [] {
        return;
      }
      var counter := NextFreeCounter(site.orderPrefix, site.orderCounter, existing);
      OrderNumberSuffix(site.orderPrefix, counter);
      site.orderCounter := counter;
      orderNumber := Some(OrderNumberFor(site.orderPrefix, counter));
    }
  }
}
