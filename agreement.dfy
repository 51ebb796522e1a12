/**
 * Where the storefront and the server meet: the flags the client works out when the server leaves them
 * out, the price a product is listed at, the total of a checkout against the total the server stores,
 * the order id carried to the payment page, and the price bounds carried by the listing query.
 */
module Agreement {
  import opened Wrappers
  import opened Text
  import opened Money
  import opened Models
  import Api
  import ProductCard
  import CheckoutPage
  import PaymentPage
  import CartPage
  import Serializers
  import Views

  // ---------------------------------------------------------------------------------------------
  // Product flags and prices

  /** The client's fallback flags are the server's flags, and a serialized product carries the server's own. */
  lemma ClientFlagsAgree(p: ProductRow, placeholder: string)
    ensures ProductCard.FallbackAvailable(p.inStock, p.stockQty) == Serializers.IsAvailable(p)
    ensures ProductCard.FallbackLowStock(p.stockQty, p.lowStockThreshold) == Serializers.IsLowStock(p)
    ensures ProductCard.IsAvailable(Api.NormalizeProduct(Serializers.ProductJson(p, placeholder))) == Serializers.IsAvailable(p)
    ensures ProductCard.IsLowStock(Api.NormalizeProduct(Serializers.ProductJson(p, placeholder))) == Serializers.IsLowStock(p)
  {
  }

  /** A product reaches the client at the price the server stores, to the cent. */
  lemma ListedPriceReachesClient(p: ProductRow, placeholder: string)
    ensures Api.NormalizeProduct(Serializers.ProductJson(p, placeholder)).price == Cents(p.price)
  {
    Api.NormalizeRenderedPrice(Serializers.ProductJson(p, placeholder), p.price);
  }

  // ---------------------------------------------------------------------------------------------
  // The checkout total

  /**
   * How the server validates one payload line: the product it names, the quantity, and the price. The
   * item's `price` is a required decimal that may not be null, and a `NaN` travels as `null`, so a line
   * with a `NaN` price fails validation.
   */
  function ReceivedItem(line: CheckoutPage.LineInput, row: ProductRow): (r: Option<Serializers.ItemInput>)
    requires line.quantity >= 0
    ensures r.Some? <==> line.price.Cents?
    ensures r.Some? ==> r.value.product == row && r.value.quantity == Some(line.quantity as nat)
    ensures r.Some? ==> r.value.price == Some(line.price.cents)
  {
    if line.price.Cents? then Some(Serializers.ItemInput(row, Some(line.quantity as nat), Some(line.price.cents)))
    else None
  }

  /** The validated lines of a payload; one refused line refuses the whole order (a 400 reply, nothing created). */
  function Received(lines: seq<CheckoutPage.LineInput>, rows: seq<ProductRow>): (r: Option<seq<Serializers.ItemInput>>)
    requires |lines| == |rows|
    requires forall i :: 0 <= i < |lines| ==> lines[i].quantity >= 0
    ensures r.Some? <==> forall i :: 0 <= i < |lines| ==> lines[i].price.Cents?
    ensures r.Some? ==> |r.value| == |lines| && forall i :: 0 <= i < |lines| ==> Some(r.value[i]) == ReceivedItem(lines[i], rows[i])
  {
    if lines == [] then Some([])
    else
      var n := |lines| - 1;
      match Received(lines[..n], rows[..n])
      case None => None
      case Some(front) =>
        match ReceivedItem(lines[n], rows[n])
        case None => None
        case Some(last) => Some(front + [last])
  }

  lemma {:induction false} SentTotalIsCartTotal(items: seq<Api.Product<Num>>, rows: seq<ProductRow>)
    requires |rows| == |items|
    requires forall i :: 0 <= i < |items| ==> items[i].price.Cents?
    ensures Received(CheckoutPage.Lines(items), rows).Some?
    ensures Serializers.SentTotal(Received(CheckoutPage.Lines(items), rows).value) == CartPage.Total(items)
  {
    if items != [] {
      var n := |items| - 1;
      var sent := Received(CheckoutPage.Lines(items), rows).value;
      ReceivedPrefix(items, rows);
      ReceivedLast(items, rows);
      SentTotalLast(sent, items[n].price.cents);
      SentTotalIsCartTotal(items[..n], rows[..n]);
    }
  }

  /** The last line the server receives is the last cart item, once, at its price. */
  lemma ReceivedLast(items: seq<Api.Product<Num>>, rows: seq<ProductRow>)
    requires |rows| == |items| > 0 && forall i :: 0 <= i < |items| ==> items[i].price.Cents?
    ensures Received(CheckoutPage.Lines(items), rows).Some?
    ensures var sent := Received(CheckoutPage.Lines(items), rows).value;
      sent[|items| - 1].price == Some(items[|items| - 1].price.cents) && sent[|items| - 1].quantity == Some(1)
  {
    var lines := CheckoutPage.Lines(items);
    var n := |items| - 1;
    assert Some(Received(lines, rows).value[n]) == ReceivedItem(lines[n], rows[n]);
  }

  lemma SentTotalLast(sent: seq<Serializers.ItemInput>, c: int)
    requires sent != [] && sent[|sent| - 1].price == Some(c) && sent[|sent| - 1].quantity == Some(1)
    ensures Serializers.SentTotal(sent) == Serializers.SentTotal(sent[..|sent| - 1]) + c
  {
  }

  lemma ReceivedPrefix(items: seq<Api.Product<Num>>, rows: seq<ProductRow>)
    requires |rows| == |items| > 0 && forall i :: 0 <= i < |items| ==> items[i].price.Cents?
    ensures Received(CheckoutPage.Lines(items), rows).Some?
    ensures Received(CheckoutPage.Lines(items), rows).value[..|items| - 1] ==
      Received(CheckoutPage.Lines(items[..|items| - 1]), rows[..|items| - 1]).value
  {
    var n := |items| - 1;
    var whole := CheckoutPage.Lines(items);
    var front := CheckoutPage.Lines(items[..n]);
    assert front == whole[..n];
    assert Received(whole, rows).value == Received(whole[..n], rows[..n]).value + [ReceivedItem(whole[n], rows[n]).value];
  }

  /**
   * When every price in the cart is a number, the server accepts the checkout payload, and the total it
   * stores for the order it creates is the total the checkout page showed.
   */
  lemma CheckoutTotalAgrees(form: CheckoutPage.ContactForm, items: seq<Api.Product<Num>>, rows: seq<ProductRow>)
    requires |rows| == |items|
    requires forall i :: 0 <= i < |items| ==> rows[i].id == items[i].id && items[i].price.Cents?
    ensures |CheckoutPage.BuildPayload(form, items).items| == |rows|
    ensures forall i :: 0 <= i < |items| ==> CheckoutPage.BuildPayload(form, items).items[i].quantity >= 0
    ensures Received(CheckoutPage.BuildPayload(form, items).items, rows).Some?
    ensures ItemsTotal(Serializers.CreatedItems(Received(CheckoutPage.BuildPayload(form, items).items, rows).value)) ==
      CheckoutPage.CheckoutTotal(items)
  {
    SentTotalIsCartTotal(items, rows);
    var sent := Received(CheckoutPage.BuildPayload(form, items).items, rows).value;
    Serializers.CreatedTotal(sent);
  }

  /**
   * A cart holding a product whose price is `NaN` sends a `null` price, so the server refuses the whole
   * order: no order is created, whatever the other lines hold.
   */
  lemma NaNPriceCreatesNoOrder(form: CheckoutPage.ContactForm, items: seq<Api.Product<Num>>, rows: seq<ProductRow>, k: nat)
    requires |rows| == |items| && k < |items| && items[k].price.NaN?
    ensures |CheckoutPage.BuildPayload(form, items).items| == |rows|
    ensures forall i :: 0 <= i < |items| ==> CheckoutPage.BuildPayload(form, items).items[i].quantity >= 0
    ensures Received(CheckoutPage.BuildPayload(form, items).items, rows).None?
  {
    assert !CheckoutPage.BuildPayload(form, items).items[k].price.Cents?;
  }

  /**
   * The refusal's body holds the field errors under `items` and no `detail`, so with a readable CSRF
   * cookie the checkout page shows "Failed to create order".
   */
  lemma RefusedOrderMessage(cookie: string, server: CheckoutPage.OrderPayload -> Api.Response<Api.WireOrder>,
                            payload: CheckoutPage.OrderPayload)
    requires !server(payload).ok && server(payload).detail.None?
    requires !Api.CsrfToken(cookie).MalformedToken?
    ensures CheckoutPage.OrderOutcome(cookie, server, payload) == Err(Api.CreateOrderFailed)
    ensures Api.OrElse(Some(CheckoutPage.OrderOutcome(cookie, server, payload).error), CheckoutPage.OrderFallbackError)
      == Api.CreateOrderFailed
  {
  }

  // ---------------------------------------------------------------------------------------------
  // The order id on the way to the payment page

  const PaymentPrefix: string := "/payment?order="

  /** The checkout page's link carries the order id, and the payment page reads the same id back from it. */
  lemma OrderIdReachesPayment(id: nat)
    ensures |CheckoutPage.PaymentUrl(id)| > |PaymentPrefix|
    ensures CheckoutPage.PaymentUrl(id)[..|PaymentPrefix|] == PaymentPrefix
    ensures PaymentPage.ParseOrderParam(Some(CheckoutPage.PaymentUrl(id)[|PaymentPrefix|..])) == Some(id)
  {
    assert CheckoutPage.PaymentUrl(id)[|PaymentPrefix|..] == IntToString(id);
    PaymentPage.OrderParamRoundTrip(id);
  }

  // ---------------------------------------------------------------------------------------------
  // The listing query

  lemma {:induction false} KeysIndex(q: Api.Query, k: string)
    ensures k in Api.Keys(q) <==> exists i :: 0 <= i < |q| && q[i].0 == k
  {
    if q != [] {
      KeysIndex(q[1..], k);
      if k in Api.Keys(q[1..]) {
        var i :| 0 <= i < |q[1..]| && q[1..][i].0 == k;
        assert q[i + 1].0 == k;
      }
      if exists i :: 0 <= i < |q| && q[i].0 == k {
        var i :| 0 <= i < |q| && q[i].0 == k;
        if i > 0 {
          assert q[1..][i - 1].0 == k;
        }
      }
    }
  }

  lemma UniqueCons(x: (string, string), r: Api.Query)
    requires Views.UniqueKeys(r) && x.0 !in Api.Keys(r)
    ensures Views.UniqueKeys([x] + r)
  {
    KeysIndex(r, x.0);
    var q := [x] + r;
    forall i, j | 0 <= i < j < |q| ensures q[i].0 != q[j].0 {
      if i > 0 {
        assert q[i] == r[i - 1] && q[j] == r[j - 1];
      } else {
        assert q[j] == r[j - 1];
      }
    }
  }

  lemma UniqueTail(x: (string, string), r: Api.Query)
    requires Views.UniqueKeys([x] + r)
    ensures Views.UniqueKeys(r) && x.0 !in Api.Keys(r)
  {
    var q := [x] + r;
    forall i, j | 0 <= i < j < |r| ensures r[i].0 != r[j].0 {
      assert r[i] == q[i + 1] && r[j] == q[j + 1];
    }
    forall i | 0 <= i < |r| ensures r[i].0 != x.0 {
      assert q[0] == x && q[i + 1] == r[i];
    }
    KeysIndex(r, x.0);
  }

  lemma {:induction false} DropKeyUnique(q: Api.Query, k: string)
    requires Views.UniqueKeys(q)
    ensures Views.UniqueKeys(Api.DropKey(q, k))
  {
    if q != [] {
      assert q == [q[0]] + q[1..];
      UniqueTail(q[0], q[1..]);
      DropKeyUnique(q[1..], k);
      if q[0].0 != k {
        UniqueCons(q[0], Api.DropKey(q[1..], k));
      }
    }
  }

  lemma {:induction false} SetParamUnique(q: Api.Query, k: string, v: string)
    requires Views.UniqueKeys(q)
    ensures Views.UniqueKeys(Api.SetParam(q, k, v))
  {
    if q == [] {
    } else {
      assert q == [q[0]] + q[1..];
      UniqueTail(q[0], q[1..]);
      if q[0].0 == k {
        DropKeyUnique(q[1..], k);
        UniqueCons((k, v), Api.DropKey(q[1..], k));
      } else {
        SetParamUnique(q[1..], k, v);
        UniqueCons(q[0], Api.SetParam(q[1..], k, v));
      }
    }
  }

  lemma SetOptUnique(q: Api.Query, k: string, v: Option<string>)
    requires Views.UniqueKeys(q)
    ensures Views.UniqueKeys(Api.SetOpt(q, k, v))
  {
    if v.Some? {
      SetParamUnique(q, k, v.value);
    }
  }

  lemma {:induction false} SetAllUnique(q: Api.Query, pairs: seq<(string, Option<string>)>)
    requires Views.UniqueKeys(q)
    ensures Views.UniqueKeys(Api.SetAll(q, pairs))
    decreases |pairs|
  {
    if pairs != [] {
      SetOptUnique(q, pairs[0].0, pairs[0].1);
      SetAllUnique(Api.SetOpt(q, pairs[0].0, pairs[0].1), pairs[1..]);
    }
  }

  /** The listing query never names a key twice, so the server's last value is the client's first. */
  lemma ProductQueryUnique(params: Api.ProductParams)
    ensures Views.UniqueKeys(Api.ProductQuery(params))
    ensures forall k :: Views.Param(Api.ProductQuery(params), k) == Api.Lookup(Api.ProductQuery(params), k)
  {
    var query := Api.ProductQuery(params);
    var c := if params.categoryId.Some? then Some(IntToString(params.categoryId.value)) else None;
    var lo := if params.minPrice.Some? then Some(JsString(params.minPrice.value)) else None;
    var hi := if params.maxPrice.Some? then Some(JsString(params.maxPrice.value)) else None;
    var pairs := [("q", Api.NonEmptyText(params.q)), ("category_id", c), ("min_price", lo), ("max_price", hi),
                  ("ordering", Api.NonEmptyText(params.ordering))];
    assert query == Api.SetAll([], pairs);
    SetAllUnique([], pairs);
    forall k ensures Views.Param(query, k) == Api.Lookup(query, k) {
      Views.ParamIsLookup(query, k);
    }
  }

  /** `String(x)` of a bound, read by the server as a decimal, is exactly the bound. */
  lemma BoundTextIsExact(c: int)
    ensures JsString(Cents(c)) != []
    ensures ParseDecimal(JsString(Cents(c))).Some? && Represents(ParseDecimal(JsString(Cents(c))).value, c)
  {
    ParseJsString(c);
    DecimalAgreesWithNumber(JsString(Cents(c)), c);
  }

  /**
   * A price bound the storefront asks for is the bound the server applies: a product passes the minimum
   * exactly when its price is at least the bound, and the maximum exactly when it is at most the bound.
   */
  lemma PriceBoundsSurviveQuery(params: Api.ProductParams, p: ProductRow)
    ensures params.minPrice.Some? && params.minPrice.value.Cents? ==>
      (Views.MatchesMin(p, Views.Param(Api.ProductQuery(params), "min_price")) <==> p.price >= params.minPrice.value.cents)
    ensures params.maxPrice.Some? && params.maxPrice.value.Cents? ==>
      (Views.MatchesMax(p, Views.Param(Api.ProductQuery(params), "max_price")) <==> p.price <= params.maxPrice.value.cents)
    ensures params.minPrice.None? ==> Views.MatchesMin(p, Views.Param(Api.ProductQuery(params), "min_price"))
    ensures params.maxPrice.None? ==> Views.MatchesMax(p, Views.Param(Api.ProductQuery(params), "max_price"))
  {
    var query := Api.ProductQuery(params);
    ProductQueryUnique(params);
    Api.ProductQueryPrices(params);
    ParamsAreLookups(query);
    if params.minPrice.Some? && params.minPrice.value.Cents? {
      BoundMatches(params.minPrice.value.cents, p);
    }
    if params.maxPrice.Some? && params.maxPrice.value.Cents? {
      BoundMatches(params.maxPrice.value.cents, p);
    }
  }

  /** In a query without repeated keys both bounds read on the server as the client's lookup reads them. */
  lemma ParamsAreLookups(query: Api.Query)
    requires Views.UniqueKeys(query)
    ensures Views.Param(query, "min_price") == Api.Lookup(query, "min_price")
    ensures Views.Param(query, "max_price") == Api.Lookup(query, "max_price")
  {
    Views.ParamIsLookup(query, "min_price");
    Views.ParamIsLookup(query, "max_price");
  }

  /** The text `String(c / 100)` used as either bound compares exactly against `c` cents. */
  lemma BoundMatches(c: int, p: ProductRow)
    ensures Views.MatchesMin(p, Some(JsString(Cents(c)))) <==> p.price >= c
    ensures Views.MatchesMax(p, Some(JsString(Cents(c)))) <==> p.price <= c
  {
    BoundTextIsExact(c);
    BoundsAgainstExact(ParseDecimal(JsString(Cents(c))).value, c, p.price);
  }
}
