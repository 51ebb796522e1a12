/**
 * The browser's `localStorage` as the client uses it. The keys `cart` and `favorites` hold JSON arrays of
 * product ids; the key `customer` holds the signed-in customer. Parsing is abstracted: a stored id array is
 * `Some(ids)`, text that `JSON.parse` rejects is `None`, and a key holding the empty string is absent.
 */
module Storage {
  import opened Wrappers
  import opened IdSets

  const CartKey: string := "cart"
  const FavoritesKey: string := "favorites"

  type Entries = map<string, Option<seq<Id>>>

  /**
   * `new Set(raw ? JSON.parse(raw) : [])`: a missing key is the empty set, unparsable text is a failure
   * (`None`), a stored array is its set of ids in first-occurrence order.
   */
  function ParseIds(entries: Entries, key: string): (r: Option<seq<Id>>)
    ensures key !in entries ==> r == Some([])
    ensures key in entries && entries[key].None? ==> r.None?
    ensures key in entries && entries[key].Some? ==>
      r.Some? && Distinct(r.value) && forall x :: x in r.value <==> x in entries[key].value
  {
    if key !in entries then Some([])
    else match entries[key]
      case None => None
      case Some(arr) => Some(Dedup(arr))
  }

  /** The read used by the cart pages and the product card: any failure reads as the empty set. */
  function ReadIds(entries: Entries, key: string): (r: seq<Id>)
    ensures Distinct(r)
    ensures key !in entries || entries[key].None? ==> r == []
    ensures key in entries && entries[key].Some? ==> forall x :: x in r <==> x in entries[key].value
  {
    ParseIds(entries, key).GetOr([])
  }

  /** Writing a duplicate-free array and reading it back gives the same ids in the same order. */
  lemma ReadAfterWrite(entries: Entries, key: string, ids: seq<Id>)
    requires Distinct(ids)
    ensures ReadIds(entries[key := Some(ids)], key) == ids
    ensures ParseIds(entries[key := Some(ids)], key) == Some(ids)
  {
    DedupOfDistinct(ids);
  }

  /** Writing one key does not change what another key reads. */
  lemma ReadOtherKey(entries: Entries, key: string, other: string, ids: seq<Id>)
    requires other != key
    ensures ParseIds(entries[key := Some(ids)], other) == ParseIds(entries, other)
  {
  }

  /** The `customer` record kept after sign-in or registration. */
  datatype Customer = Customer(email: string, name: Option<string>)

  /** The `customer` key: absent, present but unparsable, or a parsed record. */
  datatype CustomerSlot = NoCustomer | UnreadableCustomer | StoredCustomer(customer: Customer)

  /** The `JSON.parse(raw)` of the `customer` key inside try/catch: a record or null. */
  function ReadCustomer(slot: CustomerSlot): (r: Option<Customer>)
    ensures r.Some? <==> slot.StoredCustomer?
    ensures slot.StoredCustomer? ==> r == Some(slot.customer)
  {
    if slot.StoredCustomer? then Some(slot.customer) else None
  }

  /** The whole of the client's local storage. */
  class Store {
    var entries: Entries
    var customer: CustomerSlot

    constructor (entries: Entries, customer: CustomerSlot)
      ensures this.entries == entries && this.customer == customer
    {
      this.entries := entries;
      this.customer := customer;
    }

    /** `localStorage.setItem(key, JSON.stringify(ids))`. */
    method SetIds(key: string, ids: seq<Id>)
      modifies this
      ensures entries == old(entries)[key := Some(ids)]
      ensures customer == old(customer)
    {
      entries := entries[key := Some(ids)];
    }

    /** `localStorage.setItem('customer', JSON.stringify(c))`. */
    method SetCustomer(c: Customer)
      modifies this
      ensures customer == StoredCustomer(c)
      ensures entries == old(entries)
    {
      customer := StoredCustomer(c);
    }
  }
}
