/**
 * The product card: the `useLocalSet` hook behind its cart and favourite buttons, and the stock flags,
 * badge and image rules it renders.
 */
module ProductCard {
  import opened Wrappers
  import opened Text
  import opened IdSets
  import opened Storage
  import opened Money
  import opened Api

  /**
   * `useLocalSet(key)`: a set of ids held in component state and mirrored to one storage key. The state is
   * read once when the hook starts; each change writes the new array to storage and then replaces the state.
   */
  class LocalSet {
    const store: Store
    const key: string
    var members: seq<Id>

    predicate Valid()
      reads this
    {
      Distinct(members)
    }

    /** `useState(read)`: a missing key or unparsable text starts as the empty set. */
    constructor (store: Store, key: string)
      ensures this.store == store && this.key == key
      ensures members == ReadIds(store.entries, key)
      ensures Valid()
    {
      this.store := store;
      this.key := key;
      members := ReadIds(store.entries, key);
    }

    function Has(id: Id): (r: bool)
      reads this
      ensures r <==> id in members
    {
      id in members
    }

    /** `add(id)`: when absent, the id joins the set and the new array is persisted; when present, nothing happens. */
    method Add(id: Id)
      requires Valid()
      modifies this, store
      ensures Valid()
      ensures old(id in members) ==> members == old(members) && store.entries == old(store.entries)
      ensures old(id !in members) ==> members == old(members) + [id]
      ensures old(id !in members) ==> store.entries == old(store.entries)[key := Some(members)]
      ensures forall x :: x in members <==> x == id || x in old(members)
      ensures store.customer == old(store.customer)
    {
      if id !in members {
        var next := IdSets.Add(members, id);
        store.SetIds(key, next);
        members := next;
      }
    }

    /** `remove(id)`: when present, the id leaves the set and the new array is persisted; when absent, nothing happens. */
    method Remove(id: Id)
      requires Valid()
      modifies this, store
      ensures Valid()
      ensures old(id !in members) ==> members == old(members) && store.entries == old(store.entries)
      ensures old(id in members) ==> members == Without(old(members), id)
      ensures old(id in members) ==> store.entries == old(store.entries)[key := Some(members)]
      ensures forall x :: x in members <==> x != id && x in old(members)
      ensures store.customer == old(store.customer)
    {
      if id in members {
        var next := Without(members, id);
        WithoutDistinct(members, id);
        store.SetIds(key, next);
        members := next;
      }
    }

    /** The favourite button: `isFav ? favs.remove(id) : favs.add(id)` flips membership of `id` alone. */
    method Toggle(id: Id)
      requires Valid()
      modifies this, store
      ensures Valid()
      ensures members == Toggled(old(members), id)
      ensures store.entries == old(store.entries)[key := Some(members)]
      ensures id in members <==> old(id !in members)
      ensures forall x :: x != id ==> (x in members <==> x in old(members))
      ensures store.customer == old(store.customer)
    {
      if Has(id) {
        Remove(id);
      } else {
        Add(id);
      }
    }
  }

  /** The product as the client holds it, its price already a number. */
  type CardProduct = Product<Num>

  /** `in_stock && (stock_qty == null || stock_qty > 0)`: the availability worked out on the client. */
  predicate FallbackAvailable(inStock: bool, stockQty: Option<int>) {
    inStock && (stockQty.None? || stockQty.value > 0)
  }

  /** `threshold || 0`, floored at 0 by `Math.max(0, ...)`. */
  function ThresholdOrZero(threshold: Option<int>): (r: nat)
    ensures threshold.Some? && threshold.value > 0 ==> r == threshold.value
    ensures threshold.None? || threshold.value <= 0 ==> r == 0
  {
    match threshold
    case Some(t) => if t > 0 then t else 0
    case None => 0
  }

  /** `stock_qty != null && stock_qty > 0 && stock_qty <= Math.max(0, low_stock_threshold || 0)`. */
  predicate FallbackLowStock(stockQty: Option<int>, threshold: Option<int>) {
    stockQty.Some? && 0 < stockQty.value <= ThresholdOrZero(threshold)
  }

  /** `is_available ?? fallback`: the server's flag wins whenever it was sent. */
  function IsAvailable(p: CardProduct): (r: bool)
    ensures p.fields.isAvailable.Some? ==> r == p.fields.isAvailable.value
    ensures p.fields.isAvailable.None? ==> (r <==> p.fields.inStock && (p.fields.stockQty.None? || p.fields.stockQty.value > 0))
  {
    match p.fields.isAvailable
    case Some(b) => b
    case None => FallbackAvailable(p.fields.inStock, p.fields.stockQty)
  }

  /** `is_low_stock ?? fallback`. */
  function IsLowStock(p: CardProduct): (r: bool)
    ensures p.fields.isLowStock.Some? ==> r == p.fields.isLowStock.value
    ensures p.fields.isLowStock.None? && r ==> p.fields.stockQty.Some? && p.fields.stockQty.value > 0
    ensures p.fields.isLowStock.None? && p.fields.stockQty.Some? && p.fields.stockQty.value > 0 ==>
      (r <==> p.fields.lowStockThreshold.Some? && p.fields.stockQty.value <= p.fields.lowStockThreshold.value)
  {
    match p.fields.isLowStock
    case Some(b) => b
    case None => FallbackLowStock(p.fields.stockQty, p.fields.lowStockThreshold)
  }

  /** `tpl?.show_badges !== false`: badges show unless the template turns them off explicitly. */
  predicate ShowBadges(template: Option<StyleTemplate>) {
    !(template.Some? && template.value.showBadges == Some(false))
  }

  datatype Badge = OutOfStock | LowStock(shownQty: Option<int>) | InStock(qty: int)

  /** The badges rendered in the card's meta line. */
  function Badges(p: CardProduct): (r: seq<Badge>)
    ensures |r| <= 1
    ensures r == [OutOfStock] <==> ShowBadges(p.fields.template) && !IsAvailable(p)
    ensures r == [LowStock(p.fields.stockQty)] <==> ShowBadges(p.fields.template) && IsAvailable(p) && IsLowStock(p)
    ensures (p.fields.stockQty.Some? && r == [InStock(p.fields.stockQty.value)]) <==>
      ShowBadges(p.fields.template) && IsAvailable(p) && !IsLowStock(p) && p.fields.stockQty.Some?
    ensures r == [] <==> !ShowBadges(p.fields.template) || (IsAvailable(p) && !IsLowStock(p) && p.fields.stockQty.None?)
  {
    if !ShowBadges(p.fields.template) then []
    else if !IsAvailable(p) then [OutOfStock]
    else if IsLowStock(p) then [LowStock(p.fields.stockQty)]
    else if p.fields.stockQty.Some? then [InStock(p.fields.stockQty.value)]
    else []
  }

  /** `disabled={inCart || !isAvailable}` on the add-to-cart button. */
  predicate CartButtonDisabled(inCart: bool, p: CardProduct) {
    inCart || !IsAvailable(p)
  }

  /** Clicking the add-to-cart button: it adds the product to the cart set exactly when the button is enabled. */
  method ClickAddToCart(cart: LocalSet, p: CardProduct)
    requires cart.Valid()
    modifies cart, cart.store
    ensures cart.Valid()
    ensures CartButtonDisabled(old(p.id in cart.members), p) ==>
      cart.members == old(cart.members) && cart.store.entries == old(cart.store.entries)
    ensures !CartButtonDisabled(old(p.id in cart.members), p) ==>
      cart.members == old(cart.members) + [p.id] &&
      cart.store.entries == old(cart.store.entries)[cart.key := Some(cart.members)]
    ensures cart.store.customer == old(cart.store.customer)
  {
    if !CartButtonDisabled(cart.Has(p.id), p) {
      cart.Add(p.id);
    }
  }

  const PlaceholderImage: string := "https://via.placeholder.com/600x600?text=No+Image"

  /** `image_url && image_url.trim().length > 0 ? image_url : placeholder`. */
  function CardImageSrc(imageUrl: Option<string>): (r: string)
    ensures r != []
    ensures imageUrl.Some? && Trim(imageUrl.value) != [] ==> r == imageUrl.value
    ensures imageUrl.None? || Trim(imageUrl.value) == [] ==> r == PlaceholderImage
  {
    if imageUrl.Some? && |Trim(imageUrl.value)| > 0 then imageUrl.value else PlaceholderImage
  }
}
