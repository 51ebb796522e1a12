/**
 * The home page: the product-listing query built from the filters, the carousels' paging, and the
 * ordering of the home blocks (product sections, carousel sections and the main grid).
 */
module Home {
  import opened Wrappers
  import opened Text
  import opened Money
  import opened Sorting
  import opened Api

  // ---------------------------------------------------------------------------------------------
  // The listing filters

  /** The filter state: search text, chosen category, the two price inputs as typed, and the ordering. */
  datatype Filters = Filters(q: string, category: Option<int>, minPrice: string, maxPrice: string, ordering: string)

  /** The parameters the listing effect passes to `fetchProducts`: empty inputs are left out. */
  function ListingParams(f: Filters): (r: ProductParams)
    ensures r.q.Some? <==> f.q != []
    ensures r.q.Some? ==> r.q.value == f.q
    ensures r.categoryId == f.category
    ensures r.minPrice == (if f.minPrice != [] then Some(ParseNumber(f.minPrice)) else None)
    ensures r.maxPrice == (if f.maxPrice != [] then Some(ParseNumber(f.maxPrice)) else None)
    ensures r.ordering == Some(f.ordering)
  {
    ProductParams(
      if f.q != [] then Some(f.q) else None,
      f.category,
      if f.minPrice != [] then Some(ParseNumber(f.minPrice)) else None,
      if f.maxPrice != [] then Some(ParseNumber(f.maxPrice)) else None,
      Some(f.ordering))
  }

  /** A price typed with at most two decimals reaches the server as the same amount. */
  lemma ListingMinPrice(f: Filters, c: int)
    requires f.minPrice == Fixed2(c)
    ensures Lookup(ProductQuery(ListingParams(f)), "min_price").Some?
    ensures ParseNumber(Lookup(ProductQuery(ListingParams(f)), "min_price").value) == Cents(c)
  {
    ParseFixed2(c);
    ProductQueryPrices(ListingParams(f));
    ParseJsString(c);
  }

  /** The chosen ordering is always sent; the search text only when non-empty. */
  lemma ListingOrdering(f: Filters)
    requires f.ordering != []
    ensures Lookup(ProductQuery(ListingParams(f)), "ordering") == Some(f.ordering)
    ensures Lookup(ProductQuery(ListingParams(f)), "q") == (if f.q != [] then Some(f.q) else None)
  {
    ProductQueryText(ListingParams(f));
  }

  // ---------------------------------------------------------------------------------------------
  // Carousel paging

  /** `Math.max(1, Math.ceil(n / perView))`. */
  function PageCount(n: nat, perView: nat): (r: nat)
    requires perView >= 1
    ensures r >= 1
    ensures n <= perView ==> r == 1
    ensures n > perView ==> (r - 1) * perView < n <= r * perView
  {
    CeilDivBounds(n, perView);
    var c := (n + perView - 1) / perView;
    if c >= 1 then c else 1
  }

  /** The quotient of `n + p - 1` by `p` is the least `c` with `n <= c * p`. */
  lemma CeilDivBounds(n: nat, p: nat)
    requires p >= 1
    ensures var c := (n + p - 1) / p;
      c >= 0 && (c - 1) * p < n <= c * p && (n <= p ==> c <= 1)
  {
    var c, r := (n + p - 1) / p, (n + p - 1) % p;
    assert n + p - 1 == c * p + r && 0 <= r < p;
    assert (c - 1) * p == c * p - p;
    if n <= p && c > 1 {
      MulAwayFromZero(c - 1, p);
    }
  }

  /** JavaScript's `a % b`: the remainder takes the sign of `a`. */
  function JsRem(a: int, b: int): (r: int)
    requires b > 0
    ensures a >= 0 ==> r == a % b
    ensures a < 0 ==> r == -((-a) % b)
    ensures -b < r < b
  {
    if a >= 0 then a % b else -((-a) % b)
  }

  /** `goTo`'s `((i % pages) + pages) % pages`. */
  function WrapPage(i: int, pages: nat): (r: int)
    requires pages >= 1
    ensures 0 <= r < pages
    ensures 0 <= i < pages ==> r == i
  {
    var x := JsRem(i, pages) + pages;
    assert 0 <= x;
    if 0 <= i < pages then
      ModUnique(i, pages, 0, i);
      ModUnique(x, pages, 1, i);
      JsRem(x, pages)
    else
      JsRem(x, pages)
  }

  /** `d * p` is 0 or at least `p` away from it. */
  lemma MulAwayFromZero(d: int, p: int)
    requires p > 0
    ensures d == 0 || d * p >= p || d * p <= -p
    decreases if d >= 0 then d else 1 - d
  {
    if d > 0 {
      assert d * p == (d - 1) * p + p;
      if d > 1 {
        MulAwayFromZero(d - 1, p);
      }
    } else if d < 0 {
      MulAwayFromZero(-d, p);
      assert d * p == -((-d) * p);
    }
  }

  /** A remainder in `[0, p)` of any division of `a` by `p` is `a % p`. */
  lemma ModUnique(a: int, p: int, q: int, r: int)
    requires p > 0 && a == q * p + r && 0 <= r < p
    ensures a % p == r
  {
    var q0, r0 := a / p, a % p;
    assert a == q0 * p + r0;
    assert (q - q0) * p == q * p - q0 * p;
    MulAwayFromZero(q - q0, p);
  }

  /** For every index, negative ones included, `goTo` lands on the mathematical residue, a valid page. */
  lemma WrapPageIsMod(i: int, pages: nat)
    requires pages >= 1
    ensures WrapPage(i, pages) == i % pages
    ensures 0 <= WrapPage(i, pages) < pages
  {
    var x := JsRem(i, pages);
    if i < 0 {
      var m, q := (-i) % pages, (-i) / pages;
      assert -i == q * pages + m;
      assert x + pages == pages - m;
      if m == 0 {
        ModUnique(i, pages, -q, 0);
        ModUnique(pages, pages, 1, 0);
      } else {
        assert i == (-q - 1) * pages + (pages - m);
        ModUnique(i, pages, -q - 1, pages - m);
        ModUnique(pages - m, pages, 0, pages - m);
      }
    } else {
      var m, q := i % pages, i / pages;
      assert i == q * pages + m;
      ModUnique(x + pages, pages, 1, m);
    }
  }

  /** `next` from the last page goes to the first; `prev` from the first goes to the last. */
  lemma WrapEnds(pages: nat)
    requires pages >= 1
    ensures WrapPage(pages, pages) == 0
    ensures WrapPage(-1, pages) == pages - 1
  {
    WrapPageIsMod(pages, pages);
    ModUnique(pages, pages, 1, 0);
    WrapPageIsMod(-1, pages);
    ModUnique(-1, pages, -1, pages - 1);
  }

  /** The responsive number of slides per view. */
  function PerViewFor(singleSlider: bool, width: int): (r: nat)
    ensures 1 <= r <= 3
    ensures singleSlider ==> r == 1
    ensures !singleSlider ==> r == (if width >= 1024 then 3 else if width >= 640 then 2 else 1)
  {
    if singleSlider then 1 else if width >= 1024 then 3 else if width >= 640 then 2 else 1
  }

  /** `carousel.animation || 'slide'`. */
  function Animation(c: Carousel): string {
    OrElse(c.animation, "slide")
  }

  function SlideCount(c: Carousel): nat {
    |c.slides.GetOr([])|
  }

  /** A carousel is drawn only when it has slides. */
  predicate Renders(c: Carousel) {
    c.slides.Some? && |c.slides.value| > 0
  }

  /** The autoplay timer exists only with more than one slide and an animation other than "none". */
  predicate AutoplayRuns(c: Carousel) {
    c.slides.Some? && |c.slides.value| > 1 && Animation(c) != "none"
  }

  /** The timer runs only for a carousel that is drawn, and one with a second slide to move to. */
  lemma AutoplayOnlyWhenRendered(c: Carousel)
    ensures AutoplayRuns(c) ==> Renders(c) && SlideCount(c) >= 2
  {
  }

  /** `Math.max(1000, carousel.speed_ms || 3000)`: a missing or zero speed means 3 s, and never below 1 s. */
  function AutoplayInterval(c: Carousel): (r: int)
    ensures r >= 1000
    ensures c.speedMs.None? || c.speedMs.value == 0 ==> r == 3000
    ensures c.speedMs.Some? && c.speedMs.value != 0 ==> r == (if c.speedMs.value >= 1000 then c.speedMs.value else 1000)
  {
    var speed := if c.speedMs.Some? && c.speedMs.value != 0 then c.speedMs.value else 3000;
    if speed >= 1000 then speed else 1000
  }

  /** Slide `i` is highlighted when it lies in the window of the current page, from the raw page index. */
  predicate IsActive(i: int, pageIdx: int, perView: int) {
    pageIdx * perView <= i < pageIdx * perView + perView
  }

  /** The number of active slides among the first `n`. */
  function ActiveCount(n: nat, pageIdx: int, perView: int): nat {
    if n == 0 then 0 else ActiveCount(n - 1, pageIdx, perView) + (if IsActive(n - 1, pageIdx, perView) then 1 else 0)
  }

  /** The active slides are exactly the overlap of the page's window with the slides, so never more than `perView`. */
  lemma {:induction false} ActiveCountWindow(n: nat, pageIdx: nat, perView: nat)
    requires perView >= 1
    ensures var start := pageIdx * perView;
      ActiveCount(n, pageIdx, perView) ==
        (if n <= start then 0 else if n <= start + perView then n - start else perView)
    ensures ActiveCount(n, pageIdx, perView) <= perView
  {
    if n > 0 {
      ActiveCountWindow(n - 1, pageIdx, perView);
    }
  }

  /**
   * The page index is not clamped when the view widens: four slides one per view on page 3, then three
   * per view, leave no slide active.
   */
  lemma ResizeCanLeaveNoneActive()
    ensures ActiveCount(4, 3, 1) == 1
    ensures ActiveCount(4, 3, 3) == 0
  {
    ActiveCountWindow(4, 3, 1);
    ActiveCountWindow(4, 3, 3);
  }

  /** One carousel's view state: the page index and the slides per view. */
  class CarouselView {
    const carousel: Carousel
    var pageIdx: nat
    var perView: nat

    predicate Valid()
      reads this
    {
      1 <= perView <= 3
    }

    function Pages(): (r: nat)
      reads this
      requires Valid()
      ensures r >= 1
    {
      PageCount(SlideCount(carousel), perView)
    }

    /** The first page, and the view for the given width. */
    constructor (carousel: Carousel, width: int)
      ensures Valid()
      ensures this.carousel == carousel && pageIdx == 0
      ensures perView == PerViewFor(if carousel.singleSlider.Some? then carousel.singleSlider.value else false, width)
    {
      this.carousel := carousel;
      pageIdx := 0;
      perView := PerViewFor(if carousel.singleSlider.Some? then carousel.singleSlider.value else false, width);
    }

    /** `goTo(i)`: the page `i` modulo the page count. */
    method GoTo(i: int)
      requires Valid()
      modifies this
      ensures Valid() && perView == old(perView)
      ensures pageIdx == i % Pages() && pageIdx < Pages()
    {
      var pages := Pages();
      var next := WrapPage(i, pages);
      WrapPageIsMod(i, pages);
      pageIdx := next;
    }

    method Prev()
      requires Valid()
      modifies this
      ensures Valid() && perView == old(perView)
      ensures pageIdx == (old(pageIdx) - 1) % Pages()
      ensures old(pageIdx) == 0 ==> pageIdx == Pages() - 1
    {
      GoTo(pageIdx - 1);
    }

    method Next()
      requires Valid()
      modifies this
      ensures Valid() && perView == old(perView)
      ensures pageIdx == (old(pageIdx) + 1) % Pages()
      ensures old(pageIdx) == Pages() - 1 ==> pageIdx == 0
    {
      GoTo(pageIdx + 1);
    }

    /** One autoplay step: the next page, wrapping to the first. */
    method Tick()
      requires Valid() && AutoplayRuns(carousel)
      modifies this
      ensures Valid() && perView == old(perView)
      ensures pageIdx == (old(pageIdx) + 1) % Pages()
    {
      pageIdx := JsRem(pageIdx + 1, Pages());
    }

    /** A resize recomputes the slides per view and leaves the page index as it is. */
    method Resize(width: int)
      requires Valid()
      modifies this
      ensures Valid() && pageIdx == old(pageIdx)
      ensures perView == PerViewFor(if carousel.singleSlider.Some? then carousel.singleSlider.value else false, width)
    {
      perView := PerViewFor(if carousel.singleSlider.Some? then carousel.singleSlider.value else false, width);
    }
  }

  // ---------------------------------------------------------------------------------------------
  // The home blocks

  /** One block of the home page. */
  datatype Block = SectionBlock(section: ClientSection) | CarouselBlock(carousel: Carousel, order: Option<int>) | MainBlock(mainOrder: Option<int>)

  /** `order ?? 9999`: only a missing order takes the sentinel; 0 stays 0. */
  function BlockOrder(b: Block): (r: int)
    ensures b.SectionBlock? ==> r == b.section.order.GetOr(9999)
    ensures b.CarouselBlock? ==> r == b.order.GetOr(9999)
    ensures b.MainBlock? ==> r == b.mainOrder.GetOr(9999)
  {
    match b
    case SectionBlock(s) => s.order.GetOr(9999)
    case CarouselBlock(_, o) => o.GetOr(9999)
    case MainBlock(o) => o.GetOr(9999)
  }

  function BlockKey(b: Block): Key {
    Key(BlockOrder(b), 0)
  }

  function SectionBlocks(ss: seq<ClientSection>): (r: seq<Block>)
    ensures |r| == |ss| && forall i :: 0 <= i < |ss| ==> r[i] == SectionBlock(ss[i])
    ensures forall b :: b in r ==> b.SectionBlock?
  {
    if ss == [] then [] else [SectionBlock(ss[0])] + SectionBlocks(ss[1..])
  }

  function CarouselBlocks(cs: seq<CarouselSection>): (r: seq<Block>)
    ensures |r| == |cs| && forall i :: 0 <= i < |cs| ==> r[i] == CarouselBlock(cs[i].carousel, cs[i].order)
    ensures forall b :: b in r ==> b.CarouselBlock?
  {
    if cs == [] then [] else [CarouselBlock(cs[0].carousel, cs[0].order)] + CarouselBlocks(cs[1..])
  }

  /** The blocks before sorting: sections, then carousel sections (none when absent), then the main grid. */
  function Blocks(home: ClientHome): seq<Block> {
    SectionBlocks(home.sections) + CarouselBlocks(home.carouselSections.GetOr([])) + [MainBlock(home.homeOrder)]
  }

  /** The blocks in the order the page renders them. */
  function OrderedBlocks(home: ClientHome): (r: seq<Block>)
    ensures multiset(r) == multiset(Blocks(home))
  {
    SortBy(Blocks(home), BlockKey)
  }

  /** The rendered blocks are sorted by order, a missing order counting as 9999. */
  lemma OrderedBlocksSorted(home: ClientHome)
    ensures forall i, j :: 0 <= i < j < |OrderedBlocks(home)| ==>
      BlockOrder(OrderedBlocks(home)[i]) <= BlockOrder(OrderedBlocks(home)[j])
  {
    SortBySorted(Blocks(home), BlockKey);
  }

  /** Blocks with equal order keep their source order: sections, then carousels, then the main grid. */
  lemma OrderedBlocksStable(home: ClientHome, order: int)
    ensures WithKey(OrderedBlocks(home), BlockKey, Key(order, 0)) == WithKey(Blocks(home), BlockKey, Key(order, 0))
  {
    SortByStable(Blocks(home), BlockKey, Key(order, 0));
  }

  /** Every product section is rendered. */
  lemma SectionRendered(home: ClientHome, i: nat)
    requires i < |home.sections|
    ensures SectionBlock(home.sections[i]) in OrderedBlocks(home)
  {
    var b := SectionBlock(home.sections[i]);
    assert SectionBlocks(home.sections)[i] == b;
    assert Blocks(home)[i] == b;
    assert b in multiset(Blocks(home));
  }

  /** Every carousel section is rendered. */
  lemma CarouselRendered(home: ClientHome, i: nat)
    requires i < |home.carouselSections.GetOr([])|
    ensures var cs := home.carouselSections.GetOr([])[i];
      CarouselBlock(cs.carousel, cs.order) in OrderedBlocks(home)
  {
    var cs := home.carouselSections.GetOr([])[i];
    var b := CarouselBlock(cs.carousel, cs.order);
    var n := |home.sections|;
    assert CarouselBlocks(home.carouselSections.GetOr([]))[i] == b;
    assert Blocks(home)[n + i] == b;
    assert b in multiset(Blocks(home));
  }

  /** Before sorting, the main grid is the last block and the only main block. */
  lemma OneMainBlock(home: ClientHome)
    ensures multiset(Blocks(home))[MainBlock(home.homeOrder)] == 1
    ensures forall b :: b in Blocks(home) && b.MainBlock? ==> b == MainBlock(home.homeOrder)
  {
    var a := SectionBlocks(home.sections);
    var c := CarouselBlocks(home.carouselSections.GetOr([]));
    var m := MainBlock(home.homeOrder);
    var whole := Blocks(home);
    assert whole == (a + c) + [m];
    assert m !in a + c;
    assert multiset(whole) == multiset(a + c) + multiset{m};
    assert multiset(a + c)[m] == 0;
    forall b | b in whole && b.MainBlock? ensures b == m {
      assert b !in a + c;
    }
  }

  /** The main grid is rendered exactly once, no other main block appears, and nothing else is added. */
  lemma MainRenderedOnce(home: ClientHome)
    ensures multiset(OrderedBlocks(home))[MainBlock(home.homeOrder)] == 1
    ensures forall b :: b in OrderedBlocks(home) && b.MainBlock? ==> b == MainBlock(home.homeOrder)
    ensures |OrderedBlocks(home)| == |home.sections| + |home.carouselSections.GetOr([])| + 1
  {
    var r := OrderedBlocks(home);
    OneMainBlock(home);
    forall b | b in r && b.MainBlock? ensures b == MainBlock(home.homeOrder) {
      assert b in multiset(r);
      assert b in Blocks(home);
    }
    assert |r| == |multiset(r)| == |multiset(Blocks(home))|;
  }

  /** `products.slice(0, limit || products.length)`: a missing or zero limit shows every product. */
  function MainGridProducts<T>(products: seq<T>, limit: Option<int>): (r: seq<T>)
    ensures limit.None? || limit.value == 0 ==> r == products
    ensures limit.Some? && limit.value > 0 ==> r == products[..if limit.value < |products| then limit.value else |products|]
    ensures limit.Some? && limit.value < 0 ==>
      r == products[..if |products| + limit.value > 0 then |products| + limit.value else 0]
  {
    if limit.None? || limit.value == 0 then products
    else if limit.value > 0 then products[..if limit.value < |products| then limit.value else |products|]
    else products[..if |products| + limit.value > 0 then |products| + limit.value else 0]
  }

  /** `Math.max(1, columns || 1)`: at least one column. */
  function Columns(columns: Option<int>): (r: int)
    ensures r >= 1
    ensures columns.Some? && columns.value >= 1 ==> r == columns.value
    ensures columns.None? || columns.value < 1 ==> r == 1
  {
    if columns.Some? && columns.value >= 1 then columns.value else 1
  }
}
