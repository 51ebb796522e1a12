/**
 * The floating cart button: a count of the distinct ids in the stored cart, refreshed on every route
 * change and by a poll, hidden when the count is 0, and placed bottom-left or bottom-right by the home
 * configuration.
 */
module FloatingCart {
  import opened Wrappers
  import opened Text
  import opened IdSets
  import opened Storage
  import opened Api

  /** `readCartCount`: the number of distinct stored ids; 0 when the key is missing or unparsable. */
  function ReadCartCount(entries: Entries): (r: nat)
    ensures CartKey !in entries || entries[CartKey].None? ==> r == 0
    ensures r == |ReadIds(entries, CartKey)|
  {
    |ReadIds(entries, CartKey)|
  }

  /** The count is the number of different ids in the stored array, however often each is repeated. */
  lemma ReadCartCountDistinct(entries: Entries)
    requires CartKey in entries && entries[CartKey].Some?
    ensures ReadCartCount(entries) == |set x | x in entries[CartKey].value|
  {
    DedupSize(entries[CartKey].value);
  }

  /** Nothing is rendered while the count is not positive. */
  predicate Hidden(count: int) {
    count <= 0
  }

  /** The button is hidden exactly when the stored cart reads as empty, a missing or unparsable one included. */
  lemma HiddenWhenCartEmpty(entries: Entries)
    ensures Hidden(ReadCartCount(entries)) <==> ReadIds(entries, CartKey) == []
    ensures ParseIds(entries, CartKey).None? ==> Hidden(ReadCartCount(entries))
  {
  }

  /** `cfg?.floating_cart_position === 'bl'`: left only for exactly "bl", right otherwise (also without a config). */
  function PlacedLeft(cfg: Option<ClientHome>): (r: bool)
    ensures r <==> cfg.Some? && cfg.value.floatingCartPosition == Some("bl")
  {
    match cfg
    case None => false
    case Some(h) => h.floatingCartPosition == Some("bl")
  }

  /** The link's accessible label, plural for more than one item. */
  function AriaLabel(count: nat): (r: string)
    ensures count > 1 ==> r == "Open cart with " + NatToString(count) + " items"
    ensures count <= 1 ==> r == "Open cart with " + NatToString(count) + " item"
  {
    "Open cart with " + NatToString(count) + " item" + (if count > 1 then "s" else "")
  }

  /** The plural ending appears exactly when the count is above 1. */
  lemma AriaLabelPlural(count: nat)
    ensures AriaLabel(count)[|AriaLabel(count)| - 1] == 's' <==> count > 1
  {
    var s := AriaLabel(count);
    if count <= 1 {
      assert s == ("Open cart with " + NatToString(count) + " ite") + "m";
    }
  }

  class FloatingCartView {
    const store: Store
    var count: nat
    var cfg: Option<ClientHome>

    constructor (store: Store)
      ensures this.store == store && count == ReadCartCount(store.entries) && cfg.None?
    {
      this.store := store;
      count := ReadCartCount(store.entries);
      cfg := None;
    }

    /** The effect run on every route change. */
    method RouteChanged()
      modifies this
      ensures count == ReadCartCount(store.entries) && cfg == old(cfg)
    {
      count := ReadCartCount(store.entries);
    }

    /** One poll: the state keeps the old value only when it equals the new reading. */
    method Poll()
      modifies this
      ensures count == ReadCartCount(store.entries) && cfg == old(cfg)
      ensures old(count) == ReadCartCount(store.entries) ==> count == old(count)
    {
      var next := ReadCartCount(store.entries);
      count := if next != count then next else count;
    }

    /** The styling request: the configuration, or none when it fails. */
    method LoadConfig(res: Response<WireHome>)
      modifies this
      ensures cfg == (match FetchHome(res) case Ok(h) => Some(h) case Err(_) => None)
      ensures count == old(count)
    {
      match FetchHome(res) {
        case Ok(h) => cfg := Some(h);
        case Err(_) => cfg := None;
      }
    }
  }
}
