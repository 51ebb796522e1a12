/**
 * The cart page: the ids in the `cart` key, the products loaded for them, their total, and the remove and
 * clear buttons, each of which updates the page state and rewrites the key.
 */
module CartPage {
  import opened Wrappers
  import opened IdSets
  import opened Storage
  import opened Money
  import opened Api

  /** `writeCartIds(ids)`: the key always receives the ids without repetition. */
  method WriteCartIds(store: Store, ids: seq<Id>)
    modifies store
    ensures store.entries == old(store.entries)[CartKey := Some(Dedup(ids))]
    ensures store.customer == old(store.customer)
  {
    store.SetIds(CartKey, Dedup(ids));
  }

  /**
   * `Promise.all(ids.map(fetchProduct))`: every product, in id order, when every request succeeds;
   * `None` as soon as one fails.
   */
  function FetchAll(ids: seq<Id>, server: Id -> Response<Product<string>>): (r: Option<seq<Product<Num>>>)
    ensures r.Some? <==> forall i :: 0 <= i < |ids| ==> FetchProduct(server(ids[i])).Ok?
    ensures r.Some? ==> |r.value| == |ids|
    ensures r.Some? ==> forall i :: 0 <= i < |ids| ==> r.value[i] == FetchProduct(server(ids[i])).value
  {
    if ids == [] then Some([])
    else match FetchProduct(server(ids[0]))
      case Err(_) => None
      case Ok(p) =>
        match FetchAll(ids[1..], server)
        case None => None
        case Some(rest) => Some([p] + rest)
  }

  /** `items.reduce((sum, p) => sum + (Number(p.price) || 0), 0)`, in cents. */
  function Total(items: seq<Product<Num>>): (r: int)
    ensures (forall i :: 0 <= i < |items| ==> OrZero(items[i].price) >= 0) ==> r >= 0
    ensures (forall i :: 0 <= i < |items| ==> items[i].price.NaN?) ==> r == 0
  {
    if items == [] then 0 else Total(items[..|items| - 1]) + OrZero(items[|items| - 1].price)
  }

  /** The total of a list is the total of its parts. */
  lemma {:induction false} TotalAppend(a: seq<Product<Num>>, b: seq<Product<Num>>)
    ensures Total(a + b) == Total(a) + Total(b)
    decreases |b|
  {
    if b == [] {
      assert a + b == a;
    } else {
      TotalAppend(a, b[..|b| - 1]);
      assert (a + b)[..|a + b| - 1] == a + b[..|b| - 1];
    }
  }

  /** A product whose price is not a number adds nothing, every other one adds its price. */
  lemma TotalSingle(p: Product<Num>)
    ensures Total([p]) == (if p.price.Cents? then p.price.cents else 0)
  {
    assert [p][..0] == [];
  }

  class CartView {
    const store: Store
    var ids: seq<Id>
    var items: seq<Product<Num>>

    predicate Valid()
      reads this
    {
      Distinct(ids)
    }

    /** `useState(readCartIds())`: the ids stored under `cart`, without repetition; no items yet. */
    constructor (store: Store)
      ensures this.store == store
      ensures ids == ReadIds(store.entries, CartKey) && items == []
      ensures Valid()
    {
      this.store := store;
      ids := ReadIds(store.entries, CartKey);
      items := [];
    }

    /** The effect that runs when `ids` changes: all products, or none when any request fails. */
    method LoadItems(server: Id -> Response<Product<string>>)
      modifies this
      ensures ids == old(ids)
      ensures items == FetchAll(Dedup(ids), server).GetOr([])
      ensures (forall i :: 0 <= i < |Dedup(ids)| ==> FetchProduct(server(Dedup(ids)[i])).Ok?) ==>
        |items| == |Dedup(ids)|
      ensures (exists i :: 0 <= i < |Dedup(ids)| && FetchProduct(server(Dedup(ids)[i])).Err?) ==> items == []
    {
      var unique := Dedup(ids);
      var loaded := FetchAll(unique, server);
      items := loaded.GetOr([]);
    }

    /** `remove(id)`: every other id stays, in order, and the key is rewritten with exactly the new state. */
    method Remove(id: Id)
      requires Valid()
      modifies this, store
      ensures Valid()
      ensures ids == Without(old(ids), id)
      ensures items == old(items)
      ensures store.entries == old(store.entries)[CartKey := Some(ids)]
      ensures ReadIds(store.entries, CartKey) == ids
      ensures store.customer == old(store.customer)
    {
      var next := Without(ids, id);
      WithoutDistinct(ids, id);
      ids := next;
      DedupOfDistinct(next);
      WriteCartIds(store, next);
      ReadAfterWrite(old(store.entries), CartKey, next);
    }

    /** `clear()`: both the state and the stored cart become empty. */
    method Clear()
      modifies this, store
      ensures Valid()
      ensures ids == [] && items == old(items)
      ensures store.entries == old(store.entries)[CartKey := Some([])]
      ensures ReadIds(store.entries, CartKey) == []
      ensures store.customer == old(store.customer)
    {
      ids := [];
      WriteCartIds(store, []);
    }
  }
}
