/**
 * The checkout page: the cart it loads, the contact form (prefilled from the stored customer), the totals,
 * and `placeOrder`, which sends one line per product and moves on to payment.
 */
module CheckoutPage {
  import opened Wrappers
  import opened Text
  import opened IdSets
  import opened Storage
  import opened Money
  import opened Api
  import CartPage

  /** The contact form's text fields. */
  datatype ContactForm = ContactForm(name: string, email: string, phone: string, address: string, city: string, postal: string)

  const EmptyForm: ContactForm := ContactForm("", "", "", "", "", "")

  /** One order line as the client sends it. */
  datatype LineInput = LineInput(product: Id, quantity: int, price: Num)

  /** The body of `createOrder`; an absent optional field is not sent at all. */
  datatype OrderPayload = OrderPayload(
    customerName: string,
    customerEmail: string,
    customerPhone: Option<string>,
    address: Option<string>,
    city: Option<string>,
    postalCode: Option<string>,
    items: seq<LineInput>)

  /** `items.map(p => ({ product: p.id, quantity: 1, price: Number(p.price) }))`. */
  function Lines(items: seq<Product<Num>>): (r: seq<LineInput>)
    ensures |r| == |items|
    ensures forall i :: 0 <= i < |items| ==> r[i] == LineInput(items[i].id, 1, items[i].price)
  {
    if items == [] then [] else [LineInput(items[0].id, 1, items[0].price)] + Lines(items[1..])
  }

  /** The payload `placeOrder` sends: the name falls back to the email, empty optional fields are left out. */
  function BuildPayload(form: ContactForm, items: seq<Product<Num>>): (r: OrderPayload)
    ensures r.customerName == (if form.name != [] then form.name else form.email)
    ensures r.customerEmail == form.email
    ensures r.customerPhone == OrUndefined(form.phone) && r.address == OrUndefined(form.address)
    ensures r.city == OrUndefined(form.city) && r.postalCode == OrUndefined(form.postal)
    ensures r.items == Lines(items)
  {
    OrderPayload(
      if form.name != [] then form.name else form.email,
      form.email,
      OrUndefined(form.phone), OrUndefined(form.address), OrUndefined(form.city), OrUndefined(form.postal),
      Lines(items))
  }

  /** Shipping is always 0, whatever the cart holds. */
  function Shipping(items: seq<Product<Num>>): (r: int)
    ensures r == 0
  {
    if |items| > 0 then 0 else 0
  }

  /** `subtotal + shipping`: the order total is the sum of the item prices. */
  function CheckoutTotal(items: seq<Product<Num>>): (r: int)
    ensures r == CartPage.Total(items)
  {
    CartPage.Total(items) + Shipping(items)
  }

  /** The stored customer's email and name fill the form (`|| ''`); without one the form is unchanged. */
  function Prefill(form: ContactForm, customer: Option<Customer>): (r: ContactForm)
    ensures customer.None? ==> r == form
    ensures customer.Some? ==> r.email == customer.value.email && r.name == customer.value.name.GetOr([])
    ensures r.phone == form.phone && r.address == form.address && r.city == form.city && r.postal == form.postal
  {
    match customer
    case None => form
    case Some(c) => form.(email := c.email, name := c.name.GetOr([]))
  }

  const OrderFallbackError: string := "Failed to create order. Please try again."

  /** The page `placeOrder` moves to: `/payment?order=<id>`. */
  function PaymentUrl(orderId: int): string {
    "/payment?order=" + IntToString(orderId)
  }

  class CheckoutView {
    const store: Store
    var ids: seq<Id>
    var items: seq<Product<Num>>
    var customer: Option<Customer>
    var form: ContactForm
    var submitting: bool
    var orderError: Option<string>

    constructor (store: Store)
      ensures this.store == store
      ensures ids == ReadIds(store.entries, CartKey) && items == []
      ensures customer == ReadCustomer(store.customer)
      ensures form == EmptyForm && !submitting && orderError.None?
    {
      this.store := store;
      ids := ReadIds(store.entries, CartKey);
      items := [];
      customer := ReadCustomer(store.customer);
      form := EmptyForm;
      submitting := false;
      orderError := None;
    }

    /** The item-loading effect, all or nothing as on the cart page. */
    method LoadItems(server: Id -> Response<Product<string>>)
      modifies this
      ensures items == CartPage.FetchAll(Dedup(ids), server).GetOr([])
      ensures ids == old(ids) && customer == old(customer) && form == old(form)
      ensures submitting == old(submitting) && orderError == old(orderError)
    {
      items := CartPage.FetchAll(Dedup(ids), server).GetOr([]);
    }

    /** The effect that runs when the customer is known. */
    method ApplyPrefill()
      modifies this
      ensures form == Prefill(old(form), customer)
      ensures ids == old(ids) && items == old(items) && customer == old(customer)
      ensures submitting == old(submitting) && orderError == old(orderError)
    {
      form := Prefill(form, customer);
    }

    /**
     * `placeOrder`: with no items nothing is sent and nothing changes. Otherwise the payload is sent; on
     * success the page moves to payment for the new order, on failure `orderError` holds the message or
     * the fallback. Either way `submitting` ends false.
     */
    method PlaceOrder(cookie: string, server: OrderPayload -> Response<WireOrder>)
      returns (sent: Option<OrderPayload>, navigateTo: Option<string>)
      modifies this
      ensures items == [] ==>
        (sent.None? && navigateTo.None? && orderError == old(orderError) && submitting == old(submitting))
      ensures items != [] ==> sent == Some(BuildPayload(form, items)) && !submitting
      ensures items != [] && OrderOutcome(cookie, server, BuildPayload(form, items)).Ok? ==>
        (navigateTo == Some(PaymentUrl(OrderOutcome(cookie, server, BuildPayload(form, items)).value.id))
         && orderError.None?)
      ensures items != [] && OrderOutcome(cookie, server, BuildPayload(form, items)).Err? ==>
        (navigateTo.None?
         && orderError == Some(OrElse(Some(OrderOutcome(cookie, server, BuildPayload(form, items)).error), OrderFallbackError)))
      ensures ids == old(ids) && items == old(items) && customer == old(customer) && form == old(form)
    {
      sent := None;
      navigateTo := None;
      if |items| == 0 {
        return;
      }
      submitting := true;
      orderError := None;
      var payload := BuildPayload(form, items);
      sent := Some(payload);
      match OrderOutcome(cookie, server, payload) {
        case Ok(order) =>
          navigateTo := Some(PaymentUrl(order.id));
        case Err(message) =>
          orderError := Some(OrElse(Some(message), OrderFallbackError));
      }
      submitting := false;
    }
  }

  /** What `createOrder` yields: a malformed CSRF cookie throws before sending, else the response decides. */
  function OrderOutcome(cookie: string, server: OrderPayload -> Response<WireOrder>, payload: OrderPayload): (r: Result<ClientOrder, string>)
    ensures CsrfToken(cookie).MalformedToken? ==> r == Err(UriMalformed)
    ensures !CsrfToken(cookie).MalformedToken? ==> r == CreateOrder(server(payload))
  {
    if CsrfToken(cookie).MalformedToken? then Err(UriMalformed) else CreateOrder(server(payload))
  }
}
