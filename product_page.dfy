/**
 * The product page: the product it shows and three flags kept beside it, whether the product is a
 * favourite, whether it is in the cart, and the count shown on the corner cart link. Every handler reads
 * the stored set afresh; when the stored text cannot be parsed the handler changes nothing.
 */
module ProductPage {
  import opened Wrappers
  import opened IdSets
  import opened Storage
  import opened Money
  import opened Api

  /** What the page renders instead of, or as, the product. */
  datatype Screen = LoadingScreen | ErrorScreen(message: string) | NotFoundScreen | ProductScreen(product: Product<Num>)

  /**
   * The page's early returns in order: "Loading..." while loading, then a non-empty error message,
   * then "Not found" when there is no product, else the product.
   */
  function ScreenOf(loading: bool, error: Option<string>, product: Option<Product<Num>>): (r: Screen)
    ensures r.LoadingScreen? <==> loading
    ensures r.ErrorScreen? <==> !loading && error.Some? && error.value != []
    ensures r.ErrorScreen? ==> r.message == error.value
    ensures r.NotFoundScreen? <==> !loading && (error.None? || error.value == []) && product.None?
    ensures r.ProductScreen? ==> product == Some(r.product)
  {
    if loading then LoadingScreen
    else if error.Some? && error.value != [] then ErrorScreen(error.value)
    else if product.None? then NotFoundScreen
    else ProductScreen(product.value)
  }

  class ProductView {
    const store: Store
    var product: Option<Product<Num>>
    var error: Option<string>
    var isFav: bool
    var inCart: bool
    var cartCount: nat
    var loading: bool

    constructor (store: Store)
      ensures this.store == store && product.None? && error.None? && loading
      ensures !isFav && !inCart && cartCount == 0
    {
      this.store := store;
      product := None;
      error := None;
      isFav := false;
      inCart := false;
      cartCount := 0;
      loading := true;
    }

    /** The product request: the product, or the request's error message; either way loading ends. */
    method Load(res: Response<Product<string>>)
      modifies this
      ensures FetchProduct(res).Ok? ==> product == Some(FetchProduct(res).value) && error == old(error)
      ensures FetchProduct(res).Err? ==> product == old(product) && error == Some(FetchProduct(res).error)
      ensures !loading
      ensures isFav == old(isFav) && inCart == old(inCart) && cartCount == old(cartCount)
    {
      match FetchProduct(res) {
        case Ok(p) => product := Some(p);
        case Err(e) => error := Some(e);
      }
      loading := false;
    }

    /**
     * The effect run when the product arrives: the favourite flag from `favorites`, then the cart flag and
     * count from `cart`, each from its own read, each skipped when its text cannot be parsed.
     */
    method InitFlags()
      modifies this
      ensures product.None? ==> isFav == old(isFav) && inCart == old(inCart) && cartCount == old(cartCount)
      ensures product.Some? && ParseIds(store.entries, FavoritesKey).Some? ==>
        isFav == (product.value.id in ParseIds(store.entries, FavoritesKey).value)
      ensures product.None? || ParseIds(store.entries, FavoritesKey).None? ==> isFav == old(isFav)
      ensures product.Some? && ParseIds(store.entries, CartKey).Some? ==>
        (inCart == (product.value.id in ParseIds(store.entries, CartKey).value)
         && cartCount == |ParseIds(store.entries, CartKey).value|)
      ensures product.None? || ParseIds(store.entries, CartKey).None? ==>
        (inCart == old(inCart) && cartCount == old(cartCount))
      ensures product == old(product) && error == old(error) && loading == old(loading)
    {
      if product.None? {
        return;
      }
      var id := product.value.id;
      var favs := ParseIds(store.entries, FavoritesKey);
      if favs.Some? {
        isFav := id in favs.value;
      }
      var cart := ParseIds(store.entries, CartKey);
      if cart.Some? {
        inCart := id in cart.value;
        cartCount := |cart.value|;
      }
    }

    /** One polling tick: the cart count always, the cart flag only when a product is shown. */
    method PollTick()
      modifies this
      ensures ParseIds(store.entries, CartKey).Some? ==> cartCount == |ParseIds(store.entries, CartKey).value|
      ensures ParseIds(store.entries, CartKey).Some? && product.Some? ==>
        inCart == (product.value.id in ParseIds(store.entries, CartKey).value)
      ensures ParseIds(store.entries, CartKey).None? ==> cartCount == old(cartCount) && inCart == old(inCart)
      ensures product.None? ==> inCart == old(inCart)
      ensures product == old(product) && error == old(error) && isFav == old(isFav) && loading == old(loading)
    {
      var cart := ParseIds(store.entries, CartKey);
      if cart.Some? {
        cartCount := |cart.value|;
        if product.Some? {
          inCart := product.value.id in cart.value;
        }
      }
    }

    /**
     * `toggleFav`: the product's id flips in the stored favourites and every other id stays. The count on
     * the cart link is then set to the size of the favourites set, as the page does.
     */
    method ToggleFav()
      modifies this, store
      ensures product.None? || ParseIds(old(store.entries), FavoritesKey).None? ==>
        (store.entries == old(store.entries) && isFav == old(isFav) && cartCount == old(cartCount))
      ensures product.Some? && ParseIds(old(store.entries), FavoritesKey).Some? ==>
        var favs := Toggled(ParseIds(old(store.entries), FavoritesKey).value, product.value.id);
        store.entries == old(store.entries)[FavoritesKey := Some(favs)]
        && isFav == (product.value.id !in ParseIds(old(store.entries), FavoritesKey).value)
        && cartCount == |favs|
        && ReadIds(store.entries, FavoritesKey) == favs
      ensures store.customer == old(store.customer)
      ensures product == old(product) && error == old(error) && inCart == old(inCart) && loading == old(loading)
    {
      if product.None? {
        return;
      }
      var id := product.value.id;
      var favs := ParseIds(store.entries, FavoritesKey);
      if favs.Some? {
        var next := Toggled(favs.value, id);
        ToggledDistinct(favs.value, id);
        store.SetIds(FavoritesKey, next);
        ReadAfterWrite(old(store.entries), FavoritesKey, next);
        isFav := id in next;
        cartCount := |next|;
      }
    }

    /** `addToCart`: an absent id joins the stored cart and the cart flag is set; a present id changes nothing. */
    method AddToCart()
      modifies this, store
      ensures (product.None? || ParseIds(old(store.entries), CartKey).None?
               || product.value.id in ParseIds(old(store.entries), CartKey).value) ==>
        (store.entries == old(store.entries) && inCart == old(inCart))
      ensures (product.Some? && ParseIds(old(store.entries), CartKey).Some?
               && product.value.id !in ParseIds(old(store.entries), CartKey).value) ==>
        (store.entries == old(store.entries)[CartKey := Some(ParseIds(old(store.entries), CartKey).value + [product.value.id])]
         && inCart)
      ensures store.customer == old(store.customer)
      ensures product == old(product) && error == old(error) && isFav == old(isFav) && cartCount == old(cartCount)
      ensures loading == old(loading)
    {
      if product.None? {
        return;
      }
      var id := product.value.id;
      var cart := ParseIds(store.entries, CartKey);
      if cart.Some? && id !in cart.value {
        store.SetIds(CartKey, IdSets.Add(cart.value, id));
        inCart := true;
      }
    }
  }

  /** After adding, the cart holds the product and stays free of duplicates. */
  lemma AddedCartReadsBack(entries: Entries, id: Id)
    requires ParseIds(entries, CartKey).Some? && id !in ParseIds(entries, CartKey).value
    ensures var next := ParseIds(entries, CartKey).value + [id];
      Distinct(next) && ReadIds(entries[CartKey := Some(next)], CartKey) == next && id in next
  {
    var s := ParseIds(entries, CartKey).value;
    AddDistinct(s, id);
    assert IdSets.Add(s, id) == s + [id];
    ReadAfterWrite(entries, CartKey, s + [id]);
  }
}
