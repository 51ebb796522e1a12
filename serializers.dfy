/**
 * The server's serializers: the derived product fields (availability, low stock, effective image), the
 * products a home section lists, the slides a carousel shows, the carousels of the home configuration in
 * section order, and the creation of an order with its lines and total. Query sets are sequences of rows
 * in primary-key order; `order_by` is a stable sort and a slice is `Take`.
 */
module Serializers {
  import opened Wrappers
  import opened Text
  import opened Money
  import opened Sorting
  import opened Models
  import Api

  // ---------------------------------------------------------------------------------------------
  // Product fields

  /** `get_is_available`: in stock, and the quantity either unknown or positive. */
  predicate IsAvailable(p: ProductRow) {
    p.inStock && (p.stockQty.None? || p.stockQty.value > 0)
  }

  /**
   * `get_is_low_stock`: a known, positive quantity at or below the threshold floored at 0. A missing
   * threshold makes `int(None)` raise, and the handler answers false.
   */
  predicate IsLowStock(p: ProductRow) {
    match p.stockQty
    case None => false
    case Some(q) =>
      match p.lowStockThreshold
      case None => false
      case Some(t) => q <= (if t > 0 then t else 0) && q > 0
  }

  /** Low stock never holds for an empty or unknown stock. */
  lemma LowStockHasStock(p: ProductRow)
    ensures IsLowStock(p) ==> p.stockQty.Some? && 0 < p.stockQty.value
    ensures IsLowStock(p) ==> p.lowStockThreshold.Some? && p.stockQty.value <= p.lowStockThreshold.value
    ensures IsLowStock(p) && p.inStock ==> IsAvailable(p)
  {
  }

  /** The `PLACEHOLDER_IMAGE_URL` setting when the environment does not override it. */
  const DefaultPlaceholder: string := "https://via.placeholder.com/800x800?text=No+Image"

  /** `get_image_url`: the uploaded image, else a non-empty `image_url`, else the placeholder. */
  function ImageUrl(p: ProductRow, placeholder: string): (r: string)
    ensures p.image.Some? ==> r == p.image.value
    ensures p.image.None? && p.imageUrl != [] ==> r == p.imageUrl
    ensures p.image.None? && p.imageUrl == [] ==> r == placeholder
    ensures r == p.imageUrl || r == placeholder || (p.image.Some? && r == p.image.value)
  {
    if p.image.Some? then p.image.value
    else if p.imageUrl != [] then p.imageUrl
    else placeholder
  }

  /** With a non-empty placeholder and no empty upload URL, every product has an image to show. */
  lemma ImageUrlNonEmpty(p: ProductRow, placeholder: string)
    requires placeholder != []
    requires p.image.Some? ==> p.image.value != []
    ensures ImageUrl(p, placeholder) != []
  {
  }

  /** `ProductSerializer(p).data`, the price rendered with two decimals. */
  function ProductJson(p: ProductRow, placeholder: string): (r: Api.Product<string>)
    ensures r.id == p.id && r.price == Fixed2(p.price)
    ensures r.fields.isAvailable == Some(IsAvailable(p)) && r.fields.isLowStock == Some(IsLowStock(p))
    ensures r.fields.imageUrl == Some(ImageUrl(p, placeholder))
    ensures r.fields.template.Some? <==> p.showBadges.Some?
  {
    Api.Product(p.id, Fixed2(p.price), Api.ProductFields(
      p.name, p.description, Some(ImageUrl(p, placeholder)), p.category, p.inStock,
      p.stockQty, p.lowStockThreshold, p.notifyOnLowStock,
      Some(IsAvailable(p)), Some(IsLowStock(p)),
      if p.showBadges.Some? then Some(Api.StyleTemplate(p.showBadges)) else None))
  }

  // ---------------------------------------------------------------------------------------------
  // Home sections

  /** A `HomeSection` row. */
  datatype SectionRow = SectionRow(id: nat, title: string, kind: string, category: Option<nat>, limit: nat, columns: nat, order: nat)

  /** `obj.kind == 'category' and obj.category_id`: a category section with a category set. */
  predicate FiltersByCategory(s: SectionRow) {
    s.kind == "category" && s.category.Some? && s.category.value != 0
  }

  /** The ordering of a section's products: popularity, trend score, or newest first. */
  function SectionOrder(kind: string): ProductRow -> Key {
    if kind == "popular" then PopularFirst
    else if kind == "trend" then TrendFirst
    else NewestFirst
  }

  /** The products a section draws from. */
  function SectionCandidates(s: SectionRow, products: seq<ProductRow>): (r: seq<ProductRow>)
    ensures forall p :: p in r <==> p in products && (FiltersByCategory(s) ==> p.categoryFk == s.category)
  {
    KeepMembers(products, (p: ProductRow) => p.categoryFk == s.category);
    if FiltersByCategory(s) then Keep(products, (p: ProductRow) => p.categoryFk == s.category) else products
  }

  /** `HomeSectionSerializer.get_products`: the first `limit` candidates in the section's ordering. */
  function SectionProducts(s: SectionRow, products: seq<ProductRow>): (r: seq<ProductRow>)
    ensures |r| <= s.limit
    ensures |r| == if s.limit <= |SectionCandidates(s, products)| then s.limit else |SectionCandidates(s, products)|
    ensures forall p :: p in r ==> p in products && (FiltersByCategory(s) ==> p.categoryFk == s.category)
    ensures SortedBy(r, SectionOrder(s.kind))
  {
    var sorted := SortBy(SectionCandidates(s, products), SectionOrder(s.kind));
    SortBySorted(SectionCandidates(s, products), SectionOrder(s.kind));
    assert forall p :: p in sorted ==> p in multiset(SectionCandidates(s, products));
    Take(sorted, s.limit)
  }

  /** A candidate the section leaves out ranks after every product it shows. */
  lemma SectionProductsAreTheTop(s: SectionRow, products: seq<ProductRow>, shown: ProductRow, omitted: ProductRow)
    requires shown in SectionProducts(s, products)
    requires omitted in SectionCandidates(s, products) && omitted !in SectionProducts(s, products)
    ensures KeyLe(SectionOrder(s.kind)(shown), SectionOrder(s.kind)(omitted))
  {
    TakeSortedRanksFirst(SectionCandidates(s, products), SectionOrder(s.kind), s.limit, shown, omitted);
  }

  // ---------------------------------------------------------------------------------------------
  // Carousel slides

  /** A `CarouselCategorySource` row. */
  datatype SourceRow = SourceRow(id: nat, category: nat, ordering: string, limit: nat, order: nat)

  /** `order_by('order', 'id')` on slides. */
  function SlideOrder(s: Api.Slide): Key { Key(s.order, s.id) }

  /** `order_by('order', 'id')` on sources. */
  function SourceOrder(s: SourceRow): Key { Key(s.order, s.id) }

  /** The ordering a source names: popular, trend, price ascending or descending, otherwise newest. */
  function SourceProductOrder(ordering: string): ProductRow -> Key {
    if ordering == "popular" then PopularFirst
    else if ordering == "trend" then TrendFirst
    else if ordering == "price_asc" then CheapestFirst
    else if ordering == "price_desc" then DearestFirst
    else NewestFirst
  }

  /** The products of a source's category (`Product.objects.filter(category_fk=src.category)`). */
  function SourceCandidates(src: SourceRow, products: seq<ProductRow>): (r: seq<ProductRow>)
    ensures forall p :: p in r <==> p in products && p.categoryFk == Some(src.category)
  {
    KeepMembers(products, (p: ProductRow) => p.categoryFk == Some(src.category));
    Keep(products, (p: ProductRow) => p.categoryFk == Some(src.category))
  }

  /** The products a source contributes: the first `limit` of its category in its ordering. */
  function SourceProducts(src: SourceRow, products: seq<ProductRow>): (r: seq<ProductRow>)
    ensures |r| == if src.limit <= |SourceCandidates(src, products)| then src.limit else |SourceCandidates(src, products)|
    ensures forall p :: p in r ==> p in products && p.categoryFk == Some(src.category)
    ensures SortedBy(r, SourceProductOrder(src.ordering))
  {
    var inCategory := SourceCandidates(src, products);
    var sorted := SortBy(inCategory, SourceProductOrder(src.ordering));
    SortBySorted(inCategory, SourceProductOrder(src.ordering));
    SortByMembers(inCategory, SourceProductOrder(src.ordering));
    TakeSorted(sorted, SourceProductOrder(src.ordering), src.limit);
    assert |sorted| == |multiset(sorted)| == |inCategory|;
    Take(sorted, src.limit)
  }

  /** A product of the source's category that it leaves out ranks after every product it contributes. */
  lemma SourceProductsAreTheTop(src: SourceRow, products: seq<ProductRow>, shown: ProductRow, omitted: ProductRow)
    requires shown in SourceProducts(src, products)
    requires omitted in products && omitted.categoryFk == Some(src.category)
    requires omitted !in SourceProducts(src, products)
    ensures KeyLe(SourceProductOrder(src.ordering)(shown), SourceProductOrder(src.ordering)(omitted))
  {
    TakeSortedRanksFirst(SourceCandidates(src, products), SourceProductOrder(src.ordering), src.limit, shown, omitted);
  }

  /** The route of a product page. */
  function ProductLink(id: nat): string {
    "/product/" + NatToString(id)
  }

  /** A product link names its product: the text after "/product/" reads back as the id. */
  lemma ProductLinkNamesProduct(id: nat)
    ensures StartsWith(ProductLink(id), "/product/")
    ensures ParseNat(ProductLink(id)[9..]) == id
  {
    assert ProductLink(id)[9..] == NatToString(id);
    ParseNatToString(id);
  }

  /** The slide generated for a product: its image (or `image_url`), its name, a link to it, and order 0. */
  function ProductSlide(p: ProductRow): (r: Api.Slide)
    ensures r.id == p.id && r.title == p.name && r.order == 0
    ensures r.linkUrl == ProductLink(p.id)
    ensures r.imageUrl == if p.image.Some? then p.image.value else p.imageUrl
  {
    Api.Slide(p.id, p.name, if p.image.Some? then p.image.value else p.imageUrl, ProductLink(p.id), 0)
  }

  function SlidesOf(ps: seq<ProductRow>): (r: seq<Api.Slide>)
    ensures |r| == |ps|
    ensures forall i :: 0 <= i < |ps| ==> r[i] == ProductSlide(ps[i])
  {
    if ps == [] then [] else SlidesOf(ps[..|ps| - 1]) + [ProductSlide(ps[|ps| - 1])]
  }

  /** The generated slides of the sources, one source after another. */
  function GeneratedSlides(srcs: seq<SourceRow>, products: seq<ProductRow>): (r: seq<Api.Slide>)
    ensures forall x :: x in r ==> exists p :: p in products && x == ProductSlide(p)
  {
    if srcs == [] then []
    else GeneratedSlides(srcs[..|srcs| - 1], products) + SlidesOf(SourceProducts(srcs[|srcs| - 1], products))
  }

  /** `get_slides`: the manual slides in (order, id) order, then the generated slides of the sources in (order, id) order. */
  function CarouselSlides(slides: seq<Api.Slide>, sources: seq<SourceRow>, products: seq<ProductRow>): seq<Api.Slide> {
    SortBy(slides, SlideOrder) + GeneratedSlides(SortBy(sources, SourceOrder), products)
  }

  /** Appends the slides of `qs` to `gen`, one product at a time. */
  method AppendSlides(gen: seq<Api.Slide>, qs: seq<ProductRow>) returns (r: seq<Api.Slide>)
    ensures r == gen + SlidesOf(qs)
  {
    r := gen;
    var j := 0;
    while j < |qs|
      invariant 0 <= j <= |qs|
      invariant r == gen + SlidesOf(qs[..j])
    {
      r := r + [ProductSlide(qs[j])];
      assert qs[..j + 1][..j] == qs[..j];
      j := j + 1;
    }
    assert qs[..j] == qs;
  }

  lemma GeneratedSlidesStep(srcs: seq<SourceRow>, i: nat, products: seq<ProductRow>)
    requires i < |srcs|
    ensures GeneratedSlides(srcs[..i + 1], products) ==
      GeneratedSlides(srcs[..i], products) + SlidesOf(SourceProducts(srcs[i], products))
  {
    assert srcs[..i + 1][..i] == srcs[..i];
  }

  /** `get_slides` as written: the list of generated slides grows source by source. */
  method GetSlides(slides: seq<Api.Slide>, sources: seq<SourceRow>, products: seq<ProductRow>) returns (r: seq<Api.Slide>)
    ensures r == CarouselSlides(slides, sources, products)
  {
    var manual := SortBy(slides, SlideOrder);
    var srcs := SortBy(sources, SourceOrder);
    var gen: seq<Api.Slide> := [];
    var i := 0;
    while i < |srcs|
      invariant 0 <= i <= |srcs|
      invariant gen == GeneratedSlides(srcs[..i], products)
    {
      gen := AppendSlides(gen, SourceProducts(srcs[i], products));
      GeneratedSlidesStep(srcs, i, products);
      i := i + 1;
    }
    assert srcs[..i] == srcs;
    r := manual + gen;
  }

  /** The sum of the sources' limits. */
  function LimitSum(srcs: seq<SourceRow>): nat {
    if srcs == [] then 0 else LimitSum(srcs[..|srcs| - 1]) + srcs[|srcs| - 1].limit
  }

  /**
   * Every generated slide shows a product of the catalogue, links to it and has order 0, and each source
   * contributes at most its limit.
   */
  lemma {:induction false} GeneratedSlidesShape(srcs: seq<SourceRow>, products: seq<ProductRow>)
    ensures |GeneratedSlides(srcs, products)| <= LimitSum(srcs)
    ensures forall s :: s in GeneratedSlides(srcs, products) ==>
      s.order == 0 && exists p :: p in products && s == ProductSlide(p) && s.linkUrl == ProductLink(p.id)
  {
    if srcs != [] {
      var init := srcs[..|srcs| - 1];
      var qs := SourceProducts(srcs[|srcs| - 1], products);
      GeneratedSlidesShape(init, products);
      forall s | s in SlidesOf(qs)
        ensures s.order == 0 && exists p :: p in products && s == ProductSlide(p) && s.linkUrl == ProductLink(p.id)
      {
        var k :| 0 <= k < |SlidesOf(qs)| && SlidesOf(qs)[k] == s;
        assert qs[k] in qs;
      }
    }
  }

  /** The manual slides come first, all of them, in (order, id) order. */
  lemma ManualSlidesFirst(slides: seq<Api.Slide>, sources: seq<SourceRow>, products: seq<ProductRow>)
    ensures |slides| <= |CarouselSlides(slides, sources, products)|
    ensures SortedBy(CarouselSlides(slides, sources, products)[..|slides|], SlideOrder)
    ensures multiset(CarouselSlides(slides, sources, products)[..|slides|]) == multiset(slides)
  {
    var manual := SortBy(slides, SlideOrder);
    SortBySorted(slides, SlideOrder);
    assert |manual| == |multiset(manual)| == |slides|;
    assert CarouselSlides(slides, sources, products)[..|slides|] == manual;
  }

  // ---------------------------------------------------------------------------------------------
  // Carousels of the home configuration

  /** A `HomeCarouselSection` row. */
  datatype CarouselSectionRow = CarouselSectionRow(id: nat, order: nat, carousel: nat)

  function SectionRowOrder(s: CarouselSectionRow): Key { Key(s.order, s.id) }

  function CarouselIds(sections: seq<CarouselSectionRow>): (r: seq<nat>)
    ensures |r| == |sections|
    ensures forall i :: 0 <= i < |sections| ==> r[i] == sections[i].carousel
  {
    if sections == [] then [] else [sections[0].carousel] + CarouselIds(sections[1..])
  }

  /** The ids listed are exactly the carousels of the sections. */
  lemma CarouselIdsMembers(sections: seq<CarouselSectionRow>)
    ensures forall id :: id in CarouselIds(sections) <==> exists s :: s in sections && s.carousel == id
  {
    var ids := CarouselIds(sections);
    forall id | id in ids ensures exists s :: s in sections && s.carousel == id {
      var i :| 0 <= i < |ids| && ids[i] == id;
      assert sections[i] in sections;
    }
    forall s | s in sections ensures s.carousel in ids {
      var i :| 0 <= i < |sections| && sections[i] == s;
      assert ids[i] == s.carousel;
    }
  }

  /** `[by_id[cid] for cid in carousel_ids if cid in by_id]`. */
  function FoundCarousels(ids: seq<nat>, byId: map<nat, Api.Carousel>): (r: seq<Api.Carousel>)
    ensures |r| <= |ids|
    ensures forall c :: c in r ==> exists id :: id in ids && id in byId && byId[id] == c
  {
    if ids == [] then []
    else
      assert forall id :: id in ids[1..] ==> id in ids;
      (if ids[0] in byId then [byId[ids[0]]] else []) + FoundCarousels(ids[1..], byId)
  }

  /** `get_carousels`: the carousels of the home sections, in (order, id) order of the sections. */
  function GetCarousels(sections: seq<CarouselSectionRow>, byId: map<nat, Api.Carousel>): (r: seq<Api.Carousel>)
    ensures |r| <= |sections|
    ensures forall c :: c in r ==> exists s :: s in sections && s.carousel in byId && byId[s.carousel] == c
    ensures forall s :: s in sections && s.carousel in byId ==> byId[s.carousel] in r
    ensures (forall s :: s in sections ==> s.carousel in byId) ==>
      |r| == |sections| &&
      forall k :: 0 <= k < |r| ==>
        SortBy(sections, SectionRowOrder)[k].carousel in byId && r[k] == byId[SortBy(sections, SectionRowOrder)[k].carousel]
  {
    var sorted := SortBy(sections, SectionRowOrder);
    SortByMembers(sections, SectionRowOrder);
    assert |sorted| == |multiset(sorted)| == |sections|;
    CarouselIdsMembers(sorted);
    FoundCarouselsComplete(CarouselIds(sorted), byId);
    FoundCarousels(CarouselIds(SortBy(sections, SectionRowOrder)), byId)
  }

  /** The list comprehension keeps the order of the ids: it distributes over concatenation. */
  lemma {:induction false} FoundCarouselsAppend(a: seq<nat>, b: seq<nat>, byId: map<nat, Api.Carousel>)
    ensures FoundCarousels(a + b, byId) == FoundCarousels(a, byId) + FoundCarousels(b, byId)
  {
    if a == [] {
      assert a + b == b;
    } else {
      assert (a + b)[0] == a[0];
      assert (a + b)[1..] == a[1..] + b;
      FoundCarouselsAppend(a[1..], b, byId);
    }
  }

  /** The carousels follow the sections sorted by (order, id): the result is the comprehension over
    * the carousel ids of an arrangement of the sections that is in (order, id) order. */
  lemma GetCarouselsInSectionOrder(sections: seq<CarouselSectionRow>, byId: map<nat, Api.Carousel>)
    ensures exists sorted ::
      multiset(sorted) == multiset(sections) && SortedBy(sorted, SectionRowOrder) &&
      GetCarousels(sections, byId) == FoundCarousels(CarouselIds(sorted), byId)
  {
    var sorted := SortBy(sections, SectionRowOrder);
    SortBySorted(sections, SectionRowOrder);
  }

  /** No carousel that exists is dropped, and when all exist the list follows the ids one for one. */
  lemma {:induction false} FoundCarouselsComplete(ids: seq<nat>, byId: map<nat, Api.Carousel>)
    ensures forall id :: id in ids && id in byId ==> byId[id] in FoundCarousels(ids, byId)
    ensures (forall id :: id in ids ==> id in byId) ==>
      |FoundCarousels(ids, byId)| == |ids| &&
      forall k :: 0 <= k < |ids| ==> FoundCarousels(ids, byId)[k] == byId[ids[k]]
  {
    if ids != [] {
      FoundCarouselsComplete(ids[1..], byId);
      assert forall id :: id in ids ==> id == ids[0] || id in ids[1..];
    }
  }

  /** A section whose carousel exists has its carousel in the configuration. */
  lemma GetCarouselsComplete(sections: seq<CarouselSectionRow>, byId: map<nat, Api.Carousel>, s: CarouselSectionRow)
    requires s in sections && s.carousel in byId
    ensures byId[s.carousel] in GetCarousels(sections, byId)
  {
    var sorted := SortBy(sections, SectionRowOrder);
    assert s in multiset(sorted);
    var k :| 0 <= k < |sorted| && sorted[k] == s;
    assert CarouselIds(sorted)[k] == s.carousel;
    FoundCarouselsComplete(CarouselIds(sorted), byId);
  }

  // ---------------------------------------------------------------------------------------------
  // Creating an order

  /** One validated order line: the product, and the quantity and price when they were sent. */
  datatype ItemInput = ItemInput(product: ProductRow, quantity: Option<nat>, price: Option<int>)

  /** `int(it.get('quantity') or 1)`: an absent or zero quantity becomes 1. */
  function CreatedQuantity(q: Option<nat>): (r: nat)
    ensures r >= 1
    ensures q.Some? && q.value != 0 ==> r == q.value
  {
    if q.None? || q.value == 0 then 1 else q.value
  }

  /** The saved line: the quantity as above, the price as sent or else the product's price. */
  function CreatedItem(it: ItemInput): (r: OrderItemRow)
    ensures r.product == it.product.id
    ensures r.quantity == Some(CreatedQuantity(it.quantity))
    ensures r.price == Some(if it.price.Some? then it.price.value else it.product.price)
  {
    OrderItemRow(it.product.id, Some(CreatedQuantity(it.quantity)), Some(it.price.GetOr(it.product.price)))
  }

  function CreatedItems(items: seq<ItemInput>): (r: seq<OrderItemRow>)
    ensures |r| == |items|
    ensures forall i :: 0 <= i < |items| ==> r[i] == CreatedItem(items[i])
  {
    if items == [] then [] else CreatedItems(items[..|items| - 1]) + [CreatedItem(items[|items| - 1])]
  }

  /**
   * The check `unique=True` puts on a supplied order number before `create` runs: an absent or empty
   * number passes, a non-empty one must not be in use.
   */
  predicate OrderNumberAccepted(orderNumber: Option<string>, existing: set<string>) {
    orderNumber.None? || orderNumber.value == [] || orderNumber.value !in existing
  }

  /**
   * `OrderSerializer.create`: the order is created with status and total taken from the model's
   * defaults, since both are read-only on input. A non-empty order number sent by the client is kept
   * and the counter is untouched; otherwise the order is numbered from the counter. Each line is saved,
   * and the total is the sum of the saved lines.
   */
  method Create(customerName: string, orderNumber: Option<string>, items: seq<ItemInput>,
                site: SiteSetting, existing: set<string>)
    returns (order: OrderRecord, lines: seq<OrderItemRow>)
    modifies site
    ensures fresh(order)
    ensures lines == CreatedItems(items)
    ensures order.total == ItemsTotal(lines)
    ensures order.status == "pending" && order.customerName == customerName
    ensures orderNumber.Some? && orderNumber.value != [] ==>
      order.orderNumber == orderNumber && site.orderCounter == old(site.orderCounter)
    ensures orderNumber.None? || orderNumber.value == [] ==> site.orderCounter > old(site.orderCounter)
    ensures order.orderNumber.Some? && order.orderNumber.value != []
    ensures OrderNumberAccepted(orderNumber, existing) ==> order.orderNumber.value !in existing
    ensures site.orderPrefix == old(site.orderPrefix)
  {
    order := new OrderRecord(customerName);
    order.orderNumber := orderNumber;
    order.Save(site, existing);
    var total;
    lines, total := SaveLines(items);
    order.total := total;
  }

  /** The loop over the validated lines: each line is saved and its price times quantity added up. */
  method SaveLines(items: seq<ItemInput>) returns (lines: seq<OrderItemRow>, total: int)
    ensures lines == CreatedItems(items)
    ensures total == ItemsTotal(lines)
  {
    total := 0;
    lines := [];
    var i := 0;
    while i < |items|
      invariant 0 <= i <= |items|
      invariant lines == CreatedItems(items[..i])
      invariant total == ItemsTotal(lines)
    {
      var oi := CreatedItem(items[i]);
      CreatedItemsStep(items, i);
      ItemsTotalSnoc(lines, oi);
      lines := lines + [oi];
      total := total + oi.price.GetOr(0) * oi.quantity.GetOr(0);
      i := i + 1;
    }
    assert items[..i] == items;
  }

  lemma CreatedItemsStep(items: seq<ItemInput>, i: nat)
    requires i < |items|
    ensures CreatedItems(items[..i + 1]) == CreatedItems(items[..i]) + [CreatedItem(items[i])]
  {
    assert items[..i + 1][..i] == items[..i];
  }

  /** The created total is the sum over the lines of price times quantity, as the lines were sent. */
  lemma {:induction false} CreatedTotal(items: seq<ItemInput>)
    ensures ItemsTotal(CreatedItems(items)) == SentTotal(items)
  {
    if items != [] {
      assert CreatedItems(items)[..|items| - 1] == CreatedItems(items[..|items| - 1]);
      CreatedTotal(items[..|items| - 1]);
    }
  }

  /** Σ price × quantity over the lines with the defaults applied, written over the input. */
  function SentTotal(items: seq<ItemInput>): int {
    if items == [] then 0
    else
      var it := items[|items| - 1];
      SentTotal(items[..|items| - 1]) + it.price.GetOr(it.product.price) * CreatedQuantity(it.quantity)
  }
}
