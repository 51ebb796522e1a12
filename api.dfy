/**
 * The client's API layer: the shapes of the JSON it receives, the normalisation of money fields that arrive
 * as decimal strings, the product-listing query, the CSRF cookie lookup, and the error message each
 * request reports. A response is an input (`ok` flag, the body's `detail`, the parsed body).
 */
module Api {
  import opened Wrappers
  import opened Text
  import opened Money
  import opened IdSets
  import opened Uri

  /** The part of a product's style template that changes behaviour. */
  datatype StyleTemplate = StyleTemplate(showBadges: Option<bool>)

  /** Every product field other than `id` and `price`; normalisation never touches these. */
  datatype ProductFields = ProductFields(
    name: string,
    description: string,
    imageUrl: Option<string>,
    category: string,
    inStock: bool,
    stockQty: Option<int>,
    lowStockThreshold: Option<int>,
    notifyOnLowStock: bool,
    isAvailable: Option<bool>,
    isLowStock: Option<bool>,
    template: Option<StyleTemplate>)

  /** A product whose price is a decimal string on the wire (`P = string`) and a number on the client (`P = Num`). */
  datatype Product<P> = Product(id: Id, price: P, fields: ProductFields)

  /** A home-page product section; `PS` is the type of its product list. */
  datatype Section<PS> = Section(id: int, title: string, kind: string, order: Option<int>, columns: Option<int>, products: PS)

  datatype Slide = Slide(id: int, title: string, imageUrl: string, linkUrl: string, order: int)

  datatype Carousel = Carousel(
    id: int,
    title: string,
    animation: Option<string>,
    speedMs: Option<int>,
    singleSlider: Option<bool>,
    order: Option<int>,
    slides: Option<seq<Slide>>)

  datatype CarouselSection = CarouselSection(id: int, order: Option<int>, carousel: Carousel)

  /** The home configuration; `SS` is the type of its section list. */
  datatype HomeConfig<SS> = HomeConfig(
    homeProductLimit: Option<int>,
    homeColumns: Option<int>,
    homeOrder: Option<int>,
    floatingCartPosition: Option<string>,
    sections: SS,
    carouselSections: Option<seq<CarouselSection>>)

  type WireSection = Section<Option<seq<Product<string>>>>
  type ClientSection = Section<seq<Product<Num>>>
  type WireHome = HomeConfig<Option<seq<WireSection>>>
  type ClientHome = HomeConfig<seq<ClientSection>>

  datatype OrderItem<M> = OrderItem(id: int, product: Id, quantity: int, price: M)

  /** An order; `M` is the money type and `IS` the type of its item list. */
  datatype Order<M, IS> = Order(
    id: int,
    status: string,
    customerName: string,
    customerEmail: string,
    total: M,
    items: IS)

  type WireOrder = Order<string, Option<seq<OrderItem<string>>>>
  type ClientOrder = Order<Num, seq<OrderItem<Num>>>

  /** Payment settings; the two fee fields are decimal strings (or null) on the wire. */
  datatype PaymentSetting<M> = PaymentSetting(
    buttonLabel: Option<string>,
    successMessage: Option<string>,
    requireLogin: bool,
    fixedFee: M,
    feePercent: M)

  datatype PaymentGateway = PaymentGateway(id: int, code: string, buttonLabel: Option<string>, order: int)

  datatype User = User(id: int, username: string, email: string, firstName: Option<string>, lastName: Option<string>)

  /** A response as the client sees it: the `ok` flag, the body's `detail` field, and the body. */
  datatype Response<T> = Response(ok: bool, detail: Option<string>, body: T)

  const FetchProductsFailed: string := "Failed to fetch products"
  const ProductNotFound: string := "Product not found"
  const FetchCategoriesFailed: string := "Failed to fetch categories"
  const FetchHomeFailed: string := "Failed to fetch home config"
  const Unauthorized: string := "Unauthorized"
  const CreateOrderFailed: string := "Failed to create order"
  const OrderNotFound: string := "Order not found"
  const FetchOrdersFailed: string := "Failed to fetch orders"
  const UpdateOrderFailed: string := "Failed to update order"
  const PaymentSettingsFailed: string := "Failed to load payment settings"
  const PaymentGatewaysFailed: string := "Failed to load payment gateways"
  const RequestFailed: string := "Request failed"

  /** `x || fallback` for an optional string: absent and empty both give the fallback. */
  function OrElse(x: Option<string>, fallback: string): (r: string)
    ensures x.Some? && x.value != [] ==> r == x.value
    ensures x.None? || x.value == [] ==> r == fallback
  {
    if x.Some? && x.value != [] then x.value else fallback
  }

  /** A GET whose failure message is fixed: a non-ok response fails with `message`, whatever its body says. */
  function Checked<T>(res: Response<T>, message: string): (r: Result<T, string>)
    ensures r.Ok? <==> res.ok
    ensures r.Ok? ==> r.value == res.body
    ensures r.Err? ==> r.error == message
  {
    if res.ok then Ok(res.body) else Err(message)
  }

  /** A request whose failure message is the body's `detail`, or `message` when there is none. */
  function CheckedDetail<T>(res: Response<T>, message: string): (r: Result<T, string>)
    ensures r.Ok? <==> res.ok
    ensures r.Ok? ==> r.value == res.body
    ensures r.Err? ==> r.error == OrElse(res.detail, message)
  {
    if res.ok then Ok(res.body) else Err(OrElse(res.detail, message))
  }

  /** `{ ...p, price: Number(p.price) }`. */
  function NormalizeProduct(p: Product<string>): (r: Product<Num>)
    ensures r.id == p.id && r.fields == p.fields
    ensures r.price == ParseNumber(p.price)
  {
    Product(p.id, ParseNumber(p.price), p.fields)
  }

  function NormalizeProducts(ps: seq<Product<string>>): (r: seq<Product<Num>>)
    ensures |r| == |ps|
    ensures forall i :: 0 <= i < |ps| ==> r[i] == NormalizeProduct(ps[i])
  {
    if ps == [] then [] else [NormalizeProduct(ps[0])] + NormalizeProducts(ps[1..])
  }

  /** A price the server rendered with two decimals reaches the client as the same amount. */
  lemma NormalizeRenderedPrice(p: Product<string>, cents: int)
    requires p.price == Fixed2(cents)
    ensures NormalizeProduct(p).price == Cents(cents)
    ensures NormalizeProduct(p).id == p.id && NormalizeProduct(p).fields == p.fields
  {
    ParseFixed2(cents);
  }

  /** `fetchProducts` after the request: the listing with every price converted. */
  function FetchProducts(res: Response<seq<Product<string>>>): (r: Result<seq<Product<Num>>, string>)
    ensures !res.ok ==> r == Err(FetchProductsFailed)
    ensures res.ok ==> r == Ok(NormalizeProducts(res.body))
  {
    match Checked(res, FetchProductsFailed)
    case Err(e) => Err(e)
    case Ok(ps) => Ok(NormalizeProducts(ps))
  }

  function FetchProduct(res: Response<Product<string>>): (r: Result<Product<Num>, string>)
    ensures !res.ok ==> r == Err(ProductNotFound)
    ensures res.ok ==> r == Ok(NormalizeProduct(res.body))
  {
    match Checked(res, ProductNotFound)
    case Err(e) => Err(e)
    case Ok(p) => Ok(NormalizeProduct(p))
  }

  /** `{ ...s, products: (s.products || []).map(...) }`. */
  function NormalizeSection(s: WireSection): (r: ClientSection)
    ensures r.id == s.id && r.title == s.title && r.kind == s.kind && r.order == s.order && r.columns == s.columns
    ensures r.products == NormalizeProducts(s.products.GetOr([]))
  {
    Section(s.id, s.title, s.kind, s.order, s.columns, NormalizeProducts(s.products.GetOr([])))
  }

  function NormalizeSections(ss: seq<WireSection>): (r: seq<ClientSection>)
    ensures |r| == |ss|
    ensures forall i :: 0 <= i < |ss| ==> r[i] == NormalizeSection(ss[i])
  {
    if ss == [] then [] else [NormalizeSection(ss[0])] + NormalizeSections(ss[1..])
  }

  /** `fetchHome`: missing sections and missing product lists become empty, every price is converted. */
  function FetchHome(res: Response<WireHome>): (r: Result<ClientHome, string>)
    ensures !res.ok ==> r == Err(FetchHomeFailed)
    ensures res.ok ==> r.Ok? && r.value.sections == NormalizeSections(res.body.sections.GetOr([]))
    ensures res.ok ==> (r.value.homeProductLimit == res.body.homeProductLimit
      && r.value.homeColumns == res.body.homeColumns && r.value.homeOrder == res.body.homeOrder
      && r.value.floatingCartPosition == res.body.floatingCartPosition
      && r.value.carouselSections == res.body.carouselSections)
  {
    match Checked(res, FetchHomeFailed)
    case Err(e) => Err(e)
    case Ok(h) =>
      Ok(HomeConfig(h.homeProductLimit, h.homeColumns, h.homeOrder, h.floatingCartPosition,
                    NormalizeSections(h.sections.GetOr([])), h.carouselSections))
  }

  function NormalizeItems(items: seq<OrderItem<string>>): (r: seq<OrderItem<Num>>)
    ensures |r| == |items|
    ensures forall i :: 0 <= i < |items| ==>
      r[i] == OrderItem(items[i].id, items[i].product, items[i].quantity, ParseNumber(items[i].price))
  {
    if items == [] then []
    else [OrderItem(items[0].id, items[0].product, items[0].quantity, ParseNumber(items[0].price))]
         + NormalizeItems(items[1..])
  }

  /** `data.total = Number(data.total)` and `data.items = (data.items || []).map(...)`. */
  function NormalizeOrder(o: WireOrder): (r: ClientOrder)
    ensures r.id == o.id && r.status == o.status && r.customerName == o.customerName
      && r.customerEmail == o.customerEmail
    ensures r.total == ParseNumber(o.total)
    ensures r.items == NormalizeItems(o.items.GetOr([]))
  {
    Order(o.id, o.status, o.customerName, o.customerEmail, ParseNumber(o.total), NormalizeItems(o.items.GetOr([])))
  }

  function NormalizeOrders(os: seq<WireOrder>): (r: seq<ClientOrder>)
    ensures |r| == |os|
    ensures forall i :: 0 <= i < |os| ==> r[i] == NormalizeOrder(os[i])
  {
    if os == [] then [] else [NormalizeOrder(os[0])] + NormalizeOrders(os[1..])
  }

  function CreateOrder(res: Response<WireOrder>): (r: Result<ClientOrder, string>)
    ensures !res.ok ==> r == Err(OrElse(res.detail, CreateOrderFailed))
    ensures res.ok ==> r == Ok(NormalizeOrder(res.body))
  {
    match CheckedDetail(res, CreateOrderFailed)
    case Err(e) => Err(e)
    case Ok(o) => Ok(NormalizeOrder(o))
  }

  function GetOrder(res: Response<WireOrder>): (r: Result<ClientOrder, string>)
    ensures !res.ok ==> r == Err(OrElse(res.detail, OrderNotFound))
    ensures res.ok ==> r == Ok(NormalizeOrder(res.body))
  {
    match CheckedDetail(res, OrderNotFound)
    case Err(e) => Err(e)
    case Ok(o) => Ok(NormalizeOrder(o))
  }

  function ListOrdersByEmail(res: Response<seq<WireOrder>>): (r: Result<seq<ClientOrder>, string>)
    ensures !res.ok ==> r == Err(OrElse(res.detail, FetchOrdersFailed))
    ensures res.ok ==> r == Ok(NormalizeOrders(res.body))
  {
    match CheckedDetail(res, FetchOrdersFailed)
    case Err(e) => Err(e)
    case Ok(os) => Ok(NormalizeOrders(os))
  }

  function UpdateOrder(res: Response<WireOrder>): (r: Result<ClientOrder, string>)
    ensures !res.ok ==> r == Err(OrElse(res.detail, UpdateOrderFailed))
    ensures res.ok ==> r == Ok(NormalizeOrder(res.body))
  {
    match CheckedDetail(res, UpdateOrderFailed)
    case Err(e) => Err(e)
    case Ok(o) => Ok(NormalizeOrder(o))
  }

  function ApiMe(res: Response<User>): (r: Result<User, string>)
    ensures !res.ok ==> r == Err(Unauthorized)
    ensures res.ok ==> r == Ok(res.body)
  {
    Checked(res, Unauthorized)
  }

  /** `Number(x || 0)` for a fee: null and the empty string count as 0. */
  function FeeNumber(x: Option<string>): (r: Num)
    ensures x.None? || x.value == [] ==> r == Cents(0)
    ensures x.Some? && x.value != [] ==> r == ParseNumber(x.value)
  {
    if x.Some? && x.value != [] then ParseNumber(x.value) else Cents(0)
  }

  function FetchPaymentSetting(res: Response<PaymentSetting<Option<string>>>): (r: Result<PaymentSetting<Num>, string>)
    ensures !res.ok ==> r == Err(PaymentSettingsFailed)
    ensures res.ok ==> (r.Ok? && r.value.fixedFee == FeeNumber(res.body.fixedFee)
      && r.value.feePercent == FeeNumber(res.body.feePercent)
      && r.value.buttonLabel == res.body.buttonLabel && r.value.successMessage == res.body.successMessage
      && r.value.requireLogin == res.body.requireLogin)
  {
    match Checked(res, PaymentSettingsFailed)
    case Err(e) => Err(e)
    case Ok(s) => Ok(PaymentSetting(s.buttonLabel, s.successMessage, s.requireLogin, FeeNumber(s.fixedFee), FeeNumber(s.feePercent)))
  }

  function FetchPaymentGateways(res: Response<seq<PaymentGateway>>): (r: Result<seq<PaymentGateway>, string>)
    ensures !res.ok ==> r == Err(PaymentGatewaysFailed)
    ensures res.ok ==> r == Ok(res.body)
  {
    Checked(res, PaymentGatewaysFailed)
  }

  /** The tree of categories passes through unchanged. */
  datatype Category = Category(id: int, name: string, parent: Option<int>)

  function FetchCategoryTree(res: Response<seq<Category>>): (r: Result<seq<Category>, string>)
    ensures !res.ok ==> r == Err(FetchCategoriesFailed)
    ensures res.ok ==> r == Ok(res.body)
  {
    Checked(res, FetchCategoriesFailed)
  }

  // ---------------------------------------------------------------------------------------------
  // The product-listing query

  /** `FetchProductsParams`; every field may be absent. */
  datatype ProductParams = ProductParams(
    q: Option<string>,
    categoryId: Option<int>,
    minPrice: Option<Num>,
    maxPrice: Option<Num>,
    ordering: Option<string>)

  type Query = seq<(string, string)>

  /** `searchParams.get(key)`: the value of the first pair with that key. */
  function Lookup(query: Query, key: string): Option<string> {
    if query == [] then None
    else if query[0].0 == key then Some(query[0].1)
    else Lookup(query[1..], key)
  }

  /** The keys that occur in a query. */
  function Keys(query: Query): set<string> {
    if query == [] then {} else {query[0].0} + Keys(query[1..])
  }

  /** `searchParams.set(key, value)`: the first pair with the key takes the value and later ones are dropped; else appended. */
  function SetParam(query: Query, key: string, value: string): (r: Query)
    ensures Lookup(r, key) == Some(value)
    ensures forall k :: k != key ==> Lookup(r, k) == Lookup(query, k)
    ensures Keys(r) == Keys(query) + {key}
  {
    if query == [] then [(key, value)]
    else if query[0].0 == key then [(key, value)] + DropKey(query[1..], key)
    else [query[0]] + SetParam(query[1..], key, value)
  }

  function DropKey(query: Query, key: string): (r: Query)
    ensures Lookup(r, key).None?
    ensures forall k :: k != key ==> Lookup(r, k) == Lookup(query, k)
    ensures Keys(r) == Keys(query) - {key}
  {
    if query == [] then []
    else if query[0].0 == key then DropKey(query[1..], key)
    else [query[0]] + DropKey(query[1..], key)
  }

  predicate IsListingKey(key: string) {
    key == "q" || key == "category_id" || key == "min_price" || key == "max_price" || key == "ordering"
  }

  predicate NonEmpty(s: Option<string>) {
    s.Some? && s.value != []
  }

  /** `searchParams.set(key, value)` when there is a value, nothing otherwise. */
  function SetOpt(query: Query, key: string, value: Option<string>): (r: Query)
    ensures Lookup(r, key) == if value.Some? then value else Lookup(query, key)
    ensures forall k :: k != key ==> Lookup(r, k) == Lookup(query, k)
    ensures Keys(r) <= Keys(query) + {key}
  {
    if value.Some? then SetParam(query, key, value.value) else query
  }

  /** One `SetOpt` per pair, in order. */
  function SetAll(query: Query, pairs: seq<(string, Option<string>)>): Query
    decreases |pairs|
  {
    if pairs == [] then query else SetAll(SetOpt(query, pairs[0].0, pairs[0].1), pairs[1..])
  }

  predicate DistinctNames(pairs: seq<(string, Option<string>)>) {
    forall i, j :: 0 <= i < j < |pairs| ==> pairs[i].0 != pairs[j].0
  }

  /** Setting pairs with different names: each name reads back its own value (or what it was), other names are untouched. */
  lemma {:induction false} SetAllLookups(query: Query, pairs: seq<(string, Option<string>)>)
    requires DistinctNames(pairs)
    ensures forall i :: 0 <= i < |pairs| ==>
      Lookup(SetAll(query, pairs), pairs[i].0) == if pairs[i].1.Some? then pairs[i].1 else Lookup(query, pairs[i].0)
    ensures forall k :: (forall i :: 0 <= i < |pairs| ==> pairs[i].0 != k) ==> Lookup(SetAll(query, pairs), k) == Lookup(query, k)
    ensures forall k :: k in Keys(SetAll(query, pairs)) ==> k in Keys(query) || exists i :: 0 <= i < |pairs| && pairs[i].0 == k
    decreases |pairs|
  {
    if pairs != [] {
      var first := SetOpt(query, pairs[0].0, pairs[0].1);
      var rest := pairs[1..];
      var r := SetAll(query, pairs);
      assert r == SetAll(first, rest);
      SetAllLookups(first, rest);
      forall i | 0 <= i < |pairs|
        ensures Lookup(r, pairs[i].0) == if pairs[i].1.Some? then pairs[i].1 else Lookup(query, pairs[i].0)
      {
        if i == 0 {
          assert forall j :: 0 <= j < |rest| ==> rest[j].0 == pairs[j + 1].0;
        } else {
          assert rest[i - 1] == pairs[i];
        }
      }
      forall k | k in Keys(r) ensures k in Keys(query) || exists i :: 0 <= i < |pairs| && pairs[i].0 == k {
        if k !in Keys(query) && k != pairs[0].0 {
          var j :| 0 <= j < |rest| && rest[j].0 == k;
          assert pairs[j + 1].0 == k;
        }
      }
      forall k | forall i :: 0 <= i < |pairs| ==> pairs[i].0 != k
        ensures Lookup(r, k) == Lookup(query, k)
      {
        assert pairs[0].0 != k;
        assert forall j :: 0 <= j < |rest| ==> rest[j] == pairs[j + 1];
      }
    }
  }

  /** The query of the five listing parameters, already rendered as text, set in the order `fetchProducts` sets them. */
  function QueryOf(q: Option<string>, c: Option<string>, lo: Option<string>, hi: Option<string>, o: Option<string>): Query {
    SetAll([], [("q", q), ("category_id", c), ("min_price", lo), ("max_price", hi), ("ordering", o)])
  }

  /** Each listing key reads back the text it was set to, and no other key occurs. */
  lemma QueryOfLookups(q: Option<string>, c: Option<string>, lo: Option<string>, hi: Option<string>, o: Option<string>)
    ensures Lookup(QueryOf(q, c, lo, hi, o), "q") == q
    ensures Lookup(QueryOf(q, c, lo, hi, o), "category_id") == c
    ensures Lookup(QueryOf(q, c, lo, hi, o), "min_price") == lo
    ensures Lookup(QueryOf(q, c, lo, hi, o), "max_price") == hi
    ensures Lookup(QueryOf(q, c, lo, hi, o), "ordering") == o
    ensures forall k :: k in Keys(QueryOf(q, c, lo, hi, o)) ==> IsListingKey(k)
  {
    var pairs := [("q", q), ("category_id", c), ("min_price", lo), ("max_price", hi), ("ordering", o)];
    ListingKeysDistinct();
    assert DistinctNames(pairs);
    SetAllLookups([], pairs);
    assert pairs[0].0 == "q" && pairs[1].0 == "category_id" && pairs[2].0 == "min_price";
    assert pairs[3].0 == "max_price" && pairs[4].0 == "ordering";
  }

  /** The text of an optional parameter or label, used only when non-empty (`x || null`). */
  function NonEmptyText(s: Option<string>): (r: Option<string>)
    ensures r.Some? <==> NonEmpty(s)
    ensures r.Some? ==> r == s
  {
    if NonEmpty(s) then s else None
  }

  /** `x || undefined` on a text field of a request body: an empty text is left out, any other is sent. */
  function OrUndefined(s: string): (r: Option<string>)
    ensures r.None? <==> s == []
    ensures r.Some? ==> r.value == s
  {
    if s == [] then None else Some(s)
  }

  /** The query string `fetchProducts` builds, one `searchParams.set` after another. */
  function ProductQuery(params: ProductParams): Query {
    QueryOf(
      NonEmptyText(params.q),
      if params.categoryId.Some? then Some(IntToString(params.categoryId.value)) else None,
      if params.minPrice.Some? then Some(JsString(params.minPrice.value)) else None,
      if params.maxPrice.Some? then Some(JsString(params.maxPrice.value)) else None,
      NonEmptyText(params.ordering))
  }

  /** `fetchProducts` filling `url.searchParams` before the request. */
  method BuildProductQuery(params: ProductParams) returns (query: Query)
    ensures query == ProductQuery(params)
  {
    query := [];
    if params.q.Some? && params.q.value != [] {
      query := SetParam(query, "q", params.q.value);
    }
    ghost var a := SetOpt([], "q", NonEmptyText(params.q));
    assert query == a;
    if params.categoryId.Some? {
      query := SetParam(query, "category_id", IntToString(params.categoryId.value));
    }
    ghost var c := if params.categoryId.Some? then Some(IntToString(params.categoryId.value)) else None;
    ghost var b := SetOpt(a, "category_id", c);
    assert query == b;
    if params.minPrice.Some? {
      query := SetParam(query, "min_price", JsString(params.minPrice.value));
    }
    ghost var lo := if params.minPrice.Some? then Some(JsString(params.minPrice.value)) else None;
    ghost var d := SetOpt(b, "min_price", lo);
    assert query == d;
    if params.maxPrice.Some? {
      query := SetParam(query, "max_price", JsString(params.maxPrice.value));
    }
    ghost var hi := if params.maxPrice.Some? then Some(JsString(params.maxPrice.value)) else None;
    ghost var e := SetOpt(d, "max_price", hi);
    assert query == e;
    if params.ordering.Some? && params.ordering.value != [] {
      query := SetParam(query, "ordering", params.ordering.value);
    }
    assert query == SetOpt(e, "ordering", NonEmptyText(params.ordering));
    QueryOfSteps(NonEmptyText(params.q), c, lo, hi, NonEmptyText(params.ordering));
  }

  /** `QueryOf` is the five `set` calls one after another. */
  lemma QueryOfSteps(q: Option<string>, c: Option<string>, lo: Option<string>, hi: Option<string>, o: Option<string>)
    ensures QueryOf(q, c, lo, hi, o) ==
      SetOpt(SetOpt(SetOpt(SetOpt(SetOpt([], "q", q), "category_id", c), "min_price", lo), "max_price", hi), "ordering", o)
  {
    var a := SetOpt([], "q", q);
    var b := SetOpt(a, "category_id", c);
    var d := SetOpt(b, "min_price", lo);
    var e := SetOpt(d, "max_price", hi);
    var p1, p2, p3, p4, p5 := ("q", q), ("category_id", c), ("min_price", lo), ("max_price", hi), ("ordering", o);
    DisplayCons(p1, p2, p3, p4, p5);
    SetAllCons([], p1, [p2, p3, p4, p5]);
    SetAllCons(a, p2, [p3, p4, p5]);
    SetAllCons(b, p3, [p4, p5]);
    SetAllCons(d, p4, [p5]);
    SetAllCons(e, p5, []);
  }

  lemma DisplayCons<T>(p1: T, p2: T, p3: T, p4: T, p5: T)
    ensures [p1, p2, p3, p4, p5] == [p1] + [p2, p3, p4, p5]
    ensures [p2, p3, p4, p5] == [p2] + [p3, p4, p5]
    ensures [p3, p4, p5] == [p3] + [p4, p5]
    ensures [p4, p5] == [p4] + [p5]
    ensures [p5] == [p5] + []
  {
  }

  lemma SetAllCons(query: Query, first: (string, Option<string>), rest: seq<(string, Option<string>)>)
    ensures SetAll(query, [first] + rest) == SetAll(SetOpt(query, first.0, first.1), rest)
  {
    assert ([first] + rest)[1..] == rest;
  }


  /** The five listing keys are pairwise different. */
  lemma ListingKeysDistinct()
    ensures "q" != "category_id" && "q" != "min_price" && "q" != "max_price" && "q" != "ordering"
    ensures "category_id" != "min_price" && "category_id" != "max_price" && "category_id" != "ordering"
    ensures "min_price" != "max_price" && "min_price" != "ordering" && "max_price" != "ordering"
  {
    assert "min_price"[1] != "max_price"[1];
  }

  /** `q` and `ordering` are sent only when non-empty. */
  lemma ProductQueryText(params: ProductParams)
    ensures Lookup(ProductQuery(params), "q") == (if NonEmpty(params.q) then params.q else None)
    ensures Lookup(ProductQuery(params), "ordering") == (if NonEmpty(params.ordering) then params.ordering else None)
  {
    ProductQueryLookups(params);
  }

  /** `category_id` is sent whenever it is given, 0 included. */
  lemma ProductQueryCategory(params: ProductParams)
    ensures Lookup(ProductQuery(params), "category_id") ==
      (if params.categoryId.Some? then Some(IntToString(params.categoryId.value)) else None)
  {
    ProductQueryLookups(params);
  }

  /** The price bounds are sent whenever they are given, 0 included, as `String(x)`. */
  lemma ProductQueryPrices(params: ProductParams)
    ensures Lookup(ProductQuery(params), "min_price") ==
      (if params.minPrice.Some? then Some(JsString(params.minPrice.value)) else None)
    ensures Lookup(ProductQuery(params), "max_price") ==
      (if params.maxPrice.Some? then Some(JsString(params.maxPrice.value)) else None)
  {
    ProductQueryLookups(params);
  }

  /** No key other than the five listing keys is ever added. */
  lemma ProductQueryKeys(params: ProductParams)
    ensures forall k :: k in Keys(ProductQuery(params)) ==> IsListingKey(k)
  {
    ProductQueryLookups(params);
  }

  lemma ProductQueryLookups(params: ProductParams)
    ensures var query := ProductQuery(params);
      Lookup(query, "q") == NonEmptyText(params.q) && Lookup(query, "ordering") == NonEmptyText(params.ordering)
      && Lookup(query, "category_id") == (if params.categoryId.Some? then Some(IntToString(params.categoryId.value)) else None)
      && Lookup(query, "min_price") == (if params.minPrice.Some? then Some(JsString(params.minPrice.value)) else None)
      && Lookup(query, "max_price") == (if params.maxPrice.Some? then Some(JsString(params.maxPrice.value)) else None)
      && forall k :: k in Keys(query) ==> IsListingKey(k)
  {
    QueryOfLookups(
      NonEmptyText(params.q),
      if params.categoryId.Some? then Some(IntToString(params.categoryId.value)) else None,
      if params.minPrice.Some? then Some(JsString(params.minPrice.value)) else None,
      if params.maxPrice.Some? then Some(JsString(params.maxPrice.value)) else None,
      NonEmptyText(params.ordering));
  }

  // ---------------------------------------------------------------------------------------------
  // The CSRF cookie

  const TokenName: string := "csrftoken="

  /**
   * `(?:^|; )csrftoken=([^;]+)` matches with its value starting at `p + 10`: `p` is the start of the cookie
   * string or follows "; ", the name is exactly `csrftoken`, and at least one character other than ';' follows.
   */
  predicate MatchesAt(cookie: string, p: nat) {
    (p == 0 || (2 <= p <= |cookie| && cookie[p - 2..p] == "; "))
    && p + |TokenName| < |cookie|
    && cookie[p..p + |TokenName|] == TokenName
    && cookie[p + |TokenName|] != ';'
  }

  /** The first position from `from` onward where the pattern matches. */
  function FindMatch(cookie: string, from: nat): (r: Option<nat>)
    ensures r.Some? ==> from <= r.value && MatchesAt(cookie, r.value)
    ensures r.Some? ==> forall q :: from <= q < r.value ==> !MatchesAt(cookie, q)
    ensures r.None? ==> forall q :: from <= q ==> !MatchesAt(cookie, q)
    decreases |cookie| - from
  {
    if from >= |cookie| then None
    else if MatchesAt(cookie, from) then Some(from)
    else FindMatch(cookie, from + 1)
  }

  /** The longest prefix of `s` without ';' (the `[^;]+` group). */
  function UpTo(s: string, stop: char): (r: string)
    ensures stop !in r
    ensures |r| <= |s| && r == s[..|r|]
    ensures |r| < |s| ==> s[|r|] == stop
  {
    if s == [] || s[0] == stop then [] else [s[0]] + UpTo(s[1..], stop)
  }

  datatype TokenLookup = NoToken | Token(value: string) | MalformedToken

  /**
   * `getCsrfToken()`: no match gives null; a match gives its value through `decodeURIComponent`, whose
   * URIError on a malformed escape propagates (`MalformedToken`).
   */
  function CsrfToken(cookie: string): (r: TokenLookup)
    ensures r.NoToken? <==> forall q :: !MatchesAt(cookie, q)
  {
    match FindMatch(cookie, 0)
    case None => NoToken
    case Some(p) =>
      match DecodeURIComponent(UpTo(cookie[p + |TokenName|..], ';'))
      case None => MalformedToken
      case Some(v) => Token(v)
  }

  /** The raw value the pattern captures at the first match. */
  lemma CsrfTokenValue(cookie: string, p: nat)
    requires MatchesAt(cookie, p)
    requires forall q: nat :: q < p ==> !MatchesAt(cookie, q)
    ensures FindMatch(cookie, 0) == Some(p)
    ensures CsrfToken(cookie) ==
      match DecodeURIComponent(UpTo(cookie[p + |TokenName|..], ';'))
      case None => MalformedToken
      case Some(v) => Token(v)
  {
    var r := FindMatch(cookie, 0);
    assert r.Some?;
    assert r.value == p;
  }

  /** A cookie string that starts with the token pair yields that pair's value. */
  lemma TokenFirst(value: string, rest: string)
    requires value != [] && ';' !in value && '%' !in value
    requires rest == [] || rest[0] == ';'
    ensures CsrfToken(TokenName + value + rest) == Token(value)
  {
    var cookie := TokenName + value + rest;
    assert cookie[..|TokenName|] == TokenName;
    assert cookie[|TokenName|..] == value + rest;
    assert value[0] == cookie[|TokenName|];
    CsrfTokenValue(cookie, 0);
    UpToPrefix(value, rest);
    DecodePlain(value);
  }

  lemma {:induction false} UpToPrefix(value: string, rest: string)
    requires ';' !in value
    requires rest == [] || rest[0] == ';'
    ensures UpTo(value + rest, ';') == value
  {
    if value == [] {
      assert value + rest == rest;
    } else {
      assert (value + rest)[1..] == value[1..] + rest;
      UpToPrefix(value[1..], rest);
    }
  }

  /** A cookie string without ';' that does not start with `csrftoken=` has no token. */
  lemma NoSeparatorNoMatch(cookie: string)
    requires ';' !in cookie
    requires |cookie| < |TokenName| || cookie[..|TokenName|] != TokenName
    ensures CsrfToken(cookie) == NoToken
  {
    forall q: nat ensures !MatchesAt(cookie, q) {
      if 2 <= q <= |cookie| {
        assert cookie[q - 2..q][0] == cookie[q - 2];
      }
    }
  }

  /** A cookie whose name merely ends in `csrftoken` does not match: "xcsrftoken=abc" reads as no token. */
  lemma LongerNameDoesNotMatch()
    ensures CsrfToken("xcsrftoken=abc") == NoToken
  {
    var cookie := "xcsrftoken=abc";
    assert cookie[..|TokenName|][0] == 'x' != TokenName[0];
    NoSeparatorNoMatch(cookie);
  }

  /**
   * RFC 6265 section 5.4 cookie strings: after a first `name=value` pair whose name is not `csrftoken`,
   * a following `; csrftoken=value` pair is found.
   */
  lemma TokenAfterOtherPair(name: string, other: string, value: string)
    requires name != "csrftoken" && '=' !in name && ';' !in name && ';' !in other
    requires value != [] && ';' !in value && '%' !in value
    ensures CsrfToken(name + "=" + other + "; " + TokenName + value) == Token(value)
  {
    var head := name + "=" + other;
    var tail := "; " + TokenName + value;
    var cookie := head + "; " + TokenName + value;
    assert cookie == head + tail;
    var p := |head| + 2;
    assert cookie[p - 2..p] == "; ";
    assert cookie[p..p + |TokenName|] == TokenName;
    assert cookie[p + |TokenName|..] == value;
    assert cookie[p + |TokenName|] == value[0];
    HeadBlocksMatch(name, other, tail);
    CsrfTokenValue(cookie, p);
    UpToPrefix(value, []);
    assert value + [] == value;
    DecodePlain(value);
  }

  /** No match starts inside a first pair whose name is not `csrftoken`, nor in the separator after it. */
  lemma HeadBlocksMatch(name: string, other: string, tail: string)
    requires name != "csrftoken" && '=' !in name && ';' !in name && ';' !in other
    ensures forall q: nat :: q < |name + "=" + other| + 2 ==> !MatchesAt(name + "=" + other + tail, q)
  {
    var head := name + "=" + other;
    var cookie := head + tail;
    assert ';' !in head;
    forall q: nat | q < |head| + 2 ensures !MatchesAt(cookie, q) {
      if q == 0 {
        NameBlocksMatch(name, other + tail);
        assert cookie == name + "=" + (other + tail);
      } else if 2 <= q <= |cookie| {
        assert cookie[q - 2..q][0] == head[q - 2];
      }
    }
  }

  lemma NameBlocksMatch(name: string, tail: string)
    requires name != "csrftoken" && '=' !in name
    ensures !(|TokenName| <= |name + "=" + tail| && (name + "=" + tail)[..|TokenName|] == TokenName)
  {
    var s := name + "=" + tail;
    if |TokenName| <= |s| {
      if |name| < 9 {
        assert s[..|TokenName|][|name|] == '=' != TokenName[|name|];
      } else if |name| == 9 {
        assert s[..9] == name;
        assert TokenName[..9] == "csrftoken";
      } else {
        assert name[9] in name;
        assert s[..|TokenName|][9] == name[9] != TokenName[9];
      }
    }
  }

  // ---------------------------------------------------------------------------------------------
  // postJson

  /** A JSON object with string members: the request body, or the parsed response. */
  datatype JsonObject = JsonObject(members: map<string, string>)

  datatype Request = Request(headers: seq<(string, string)>, body: JsonObject)

  const UriMalformed: string := "URI malformed"

  /**
   * The request `postJson` sends: a JSON content type, the `X-CSRFToken` header exactly when a non-empty
   * token was found, and `{}` in place of a null body. A malformed token aborts before sending.
   */
  function PostRequest(cookie: string, body: Option<JsonObject>): (r: Result<Request, string>)
    ensures r.Err? <==> CsrfToken(cookie).MalformedToken?
    ensures r.Err? ==> r.error == UriMalformed
    ensures r.Ok? ==> r.value.body == body.GetOr(JsonObject(map[]))
    ensures r.Ok? ==> |r.value.headers| >= 1 && r.value.headers[0] == ("Content-Type", "application/json")
    ensures r.Ok? ==> (HeaderValue(r.value.headers, "X-CSRFToken").Some? <==>
      CsrfToken(cookie).Token? && CsrfToken(cookie).value != [])
    ensures r.Ok? && CsrfToken(cookie).Token? && CsrfToken(cookie).value != [] ==>
      HeaderValue(r.value.headers, "X-CSRFToken") == Some(CsrfToken(cookie).value)
  {
    match CsrfToken(cookie)
    case MalformedToken => Err(UriMalformed)
    case NoToken => Ok(Request([("Content-Type", "application/json")], body.GetOr(JsonObject(map[]))))
    case Token(v) =>
      var headers := [("Content-Type", "application/json")] + (if v != [] then [("X-CSRFToken", v)] else []);
      Ok(Request(headers, body.GetOr(JsonObject(map[]))))
  }

  function HeaderValue(headers: seq<(string, string)>, name: string): Option<string> {
    if headers == [] then None
    else if headers[0].0 == name then Some(headers[0].1)
    else HeaderValue(headers[1..], name)
  }

  function Detail(o: JsonObject): Option<string> {
    if "detail" in o.members then Some(o.members["detail"]) else None
  }

  /**
   * What `postJson` returns for a response: an unparsable body reads as `{}`; a non-ok status fails with
   * the body's `detail`, or "Request failed".
   */
  function PostResult(ok: bool, body: Option<JsonObject>): (r: Result<JsonObject, string>)
    ensures ok ==> r == Ok(body.GetOr(JsonObject(map[])))
    ensures !ok && body.Some? && "detail" in body.value.members && body.value.members["detail"] != [] ==>
      r == Err(body.value.members["detail"])
    ensures !ok && (body.None? || "detail" !in body.value.members || body.value.members["detail"] == []) ==>
      r == Err(RequestFailed)
  {
    var data := body.GetOr(JsonObject(map[]));
    if ok then Ok(data) else Err(OrElse(Detail(data), RequestFailed))
  }
}
