/**
 * The payment page: it pays an existing order named by the `order` query parameter, or else the cart;
 * it may send a guest to the login page first, and on success empties the cart.
 */
module PaymentPage {
  import opened Wrappers
  import opened Text
  import opened IdSets
  import opened Storage
  import opened Money
  import opened Uri
  import opened Api
  import CartPage

  /** The `order` parameter is used only when it matches `^\d+$`; its digits are the order id. */
  function ParseOrderParam(idStr: Option<string>): (r: Option<nat>)
    ensures r.Some? <==> idStr.Some? && idStr.value != [] && AllDigits(idStr.value)
    ensures r.Some? ==> r.value == ParseNat(idStr.value)
  {
    if idStr.Some? && idStr.value != [] && AllDigits(idStr.value) then Some(ParseNat(idStr.value)) else None
  }

  /** The id a page writes into the `order` parameter is the id this page reads from it. */
  lemma OrderParamRoundTrip(id: nat)
    ensures ParseOrderParam(Some(IntToString(id))) == Some(id)
  {
    ParseNatToString(id);
  }

  /** A parameter with a sign, a point or nothing at all is not an order id. */
  lemma OrderParamRejects()
    ensures ParseOrderParam(Some("-3")) == None
    ensures ParseOrderParam(Some("3.0")) == None
    ensures ParseOrderParam(Some("")) == None
    ensures ParseOrderParam(None) == None
  {
    assert !IsDigit("-3"[0]);
    assert !IsDigit("3.0"[1]);
  }

  /** The amount shown: the order's total once it is known, else the sum of the cart's prices. */
  function PaymentTotal(orderTotal: Option<Num>, items: seq<Product<Num>>): (r: Num)
    ensures orderTotal.Some? ==> r == orderTotal.value
    ensures orderTotal.None? ==> r == Cents(CartPage.Total(items))
  {
    if orderTotal.Some? then orderTotal.value else Cents(CartPage.Total(items))
  }

  /** `total.toFixed(2)`. */
  function AmountText(n: Num): (r: string)
    ensures n.NaN? ==> r == "NaN"
    ensures n.Cents? ==> ParseNumber(r) == n
  {
    match n
    case NaN => "NaN"
    case Cents(c) => ParseFixed2(c); Fixed2(c)
  }

  /** No gateway before position `i` has code `code`. */
  predicate FirstCode(gateways: seq<PaymentGateway>, code: string, i: nat)
    requires i <= |gateways|
  {
    forall j :: 0 <= j < i ==> gateways[j].code != code
  }

  /** The first gateway whose code is `code`; a null selection matches none. */
  function FindGateway(gateways: seq<PaymentGateway>, code: Option<string>): (r: Option<PaymentGateway>)
    ensures r.Some? <==> code.Some? && exists i :: 0 <= i < |gateways| && gateways[i].code == code.value
    ensures r.Some? ==> r.value in gateways && r.value.code == code.value
    ensures r.Some? ==> exists i :: 0 <= i < |gateways| && gateways[i] == r.value && FirstCode(gateways, code.value, i)
  {
    if code.None? || gateways == [] then None
    else if gateways[0].code == code.value then Some(gateways[0])
    else
      var rest := FindGateway(gateways[1..], code);
      if rest.Some? then
        var i :| 0 <= i < |gateways[1..]| && gateways[1..][i] == rest.value && FirstCode(gateways[1..], code.value, i);
        assert gateways[i + 1] == rest.value && FirstCode(gateways, code.value, i + 1);
        rest
      else
        assert forall i :: 1 <= i < |gateways| ==> gateways[i] == gateways[1..][i - 1];
        rest
  }

  /**
   * The pay button's label: the selected gateway's label, else the settings' label, else "Pay"; each
   * fallback also applies when the earlier label is empty.
   */
  function PayLabel(gateways: seq<PaymentGateway>, code: Option<string>, settings: Option<PaymentSetting<Num>>): (r: string)
    ensures r != []
    ensures FindGateway(gateways, code).Some? && NonEmptyText(FindGateway(gateways, code).value.buttonLabel).Some? ==>
      r == FindGateway(gateways, code).value.buttonLabel.value
    ensures (FindGateway(gateways, code).None? || NonEmptyText(FindGateway(gateways, code).value.buttonLabel).None?) ==>
      (if settings.Some? && NonEmptyText(settings.value.buttonLabel).Some? then r == settings.value.buttonLabel.value
       else r == "Pay")
  {
    var gw := FindGateway(gateways, code);
    if gw.Some? && NonEmptyText(gw.value.buttonLabel).Some? then gw.value.buttonLabel.value
    else if settings.Some? && NonEmptyText(settings.value.buttonLabel).Some? then settings.value.buttonLabel.value
    else "Pay"
  }

  /** The submit button's text: "Processing…" while paying, else the label and the amount. */
  function PayButtonText(submitting: bool, caption: string, total: Num): (r: string)
    ensures submitting ==> r == "Processing…"
    ensures !submitting ==> r == caption + " $" + AmountText(total)
  {
    if submitting then "Processing…" else caption + " $" + AmountText(total)
  }

  /** The pay button is disabled while paying and while the amount is still loading. */
  predicate PayEnabled(submitting: bool, loading: bool)
  {
    !(submitting || loading)
  }

  /** The heading's note: "Calculating…" until loading ends, then the amount. */
  function TotalCaption(loading: bool, total: Num): (r: string)
    ensures loading <==> r == "Calculating…"
    ensures !loading ==> r == "Total $" + AmountText(total)
  {
    if loading then "Calculating…"
    else
      var r := "Total $" + AmountText(total);
      assert r[0] != "Calculating…"[0];
      r
  }

  const PaymentSuccess: string := "Payment successful! Thank you for your order."

  /** The alert after paying: the configured success message, else the default one. */
  function SuccessMessage(settings: Option<PaymentSetting<Num>>): (r: string)
    ensures r != []
    ensures settings.Some? && NonEmptyText(settings.value.successMessage).Some? ==> r == settings.value.successMessage.value
    ensures settings.None? || NonEmptyText(settings.value.successMessage).None? ==> r == PaymentSuccess
  {
    if settings.Some? && NonEmptyText(settings.value.successMessage).Some? then settings.value.successMessage.value
    else PaymentSuccess
  }

  /** The login gate: when the settings require login and no customer is stored, go to the login page. */
  function LoginRedirect(settings: Option<PaymentSetting<Num>>, customer: Option<Customer>, pathname: string, search: string): (r: Option<string>)
    ensures r.Some? <==> settings.Some? && settings.value.requireLogin && customer.None?
    ensures r.Some? ==> r.value == "/login?redirect=" + EncodeURIComponent(pathname + search)
  {
    if settings.Some? && settings.value.requireLogin && customer.None? then
      Some("/login?redirect=" + EncodeURIComponent(pathname + search))
    else None
  }

  /** The login page decodes the `redirect` parameter back to exactly the page that was left. */
  lemma LoginRedirectRoundTrip(settings: Option<PaymentSetting<Num>>, pathname: string, search: string)
    requires settings.Some? && settings.value.requireLogin
    ensures LoginRedirect(settings, None, pathname, search).Some?
    ensures DecodeURIComponent(LoginRedirect(settings, None, pathname, search).value[|"/login?redirect="|..])
      == Some(pathname + search)
  {
    var url := LoginRedirect(settings, None, pathname, search).value;
    assert url[|"/login?redirect="|..] == EncodeURIComponent(pathname + search);
    DecodeEncode(pathname + search);
  }

  /** What `updateOrder` yields: a malformed CSRF cookie throws before sending, else the response decides. */
  function UpdateOutcome(cookie: string, res: Response<WireOrder>): (r: Result<ClientOrder, string>)
    ensures CsrfToken(cookie).MalformedToken? ==> r == Err(UriMalformed)
    ensures !CsrfToken(cookie).MalformedToken? ==> r == UpdateOrder(res)
  {
    if CsrfToken(cookie).MalformedToken? then Err(UriMalformed) else UpdateOrder(res)
  }

  class PaymentView {
    const store: Store
    const ids: seq<Id>
    var items: seq<Product<Num>>
    var orderId: Option<nat>
    var orderTotal: Option<Num>
    var settings: Option<PaymentSetting<Num>>
    var gateways: seq<PaymentGateway>
    var gwCode: Option<string>
    var customer: Option<Customer>
    var submitting: bool
    var loading: bool

    constructor (store: Store)
      ensures this.store == store && ids == ReadIds(store.entries, CartKey)
      ensures items == [] && orderId.None? && orderTotal.None? && settings.None?
      ensures gateways == [] && gwCode.None? && customer.None? && !submitting && loading
    {
      this.store := store;
      ids := ReadIds(store.entries, CartKey);
      items := [];
      orderId := None;
      orderTotal := None;
      settings := None;
      gateways := [];
      gwCode := None;
      customer := None;
      submitting := false;
      loading := true;
    }

    /** The settings request: its result, or null when it fails. */
    method LoadSettings(res: Response<PaymentSetting<Option<string>>>)
      modifies this
      ensures settings == (match FetchPaymentSetting(res) case Ok(s) => Some(s) case Err(_) => None)
      ensures items == old(items) && orderId == old(orderId) && orderTotal == old(orderTotal)
      ensures gateways == old(gateways) && gwCode == old(gwCode) && customer == old(customer)
      ensures submitting == old(submitting) && loading == old(loading)
    {
      match FetchPaymentSetting(res) {
        case Ok(s) => settings := Some(s);
        case Err(_) => settings := None;
      }
    }

    /** The gateways request: on success the list, with the first gateway selected; on failure no list. */
    method LoadGateways(res: Response<seq<PaymentGateway>>)
      modifies this
      ensures res.ok ==> gateways == res.body
      ensures res.ok && res.body != [] ==> gwCode == Some(res.body[0].code)
      ensures !(res.ok && res.body != []) ==> gwCode == old(gwCode)
      ensures !res.ok ==> gateways == []
      ensures items == old(items) && orderId == old(orderId) && orderTotal == old(orderTotal)
      ensures settings == old(settings) && customer == old(customer) && submitting == old(submitting)
      ensures loading == old(loading)
    {
      match FetchPaymentGateways(res) {
        case Ok(gs) =>
          gateways := gs;
          if |gs| > 0 {
            gwCode := Some(gs[0].code);
          }
        case Err(_) =>
          gateways := [];
      }
    }

    /**
     * The loading effect: with a valid `order` parameter the order's total is fetched (null if that
     * fails); otherwise the cart's products are fetched, all or nothing. Either way loading then ends.
     */
    method LoadOrder(orderParam: Option<string>, orderServer: nat -> Response<WireOrder>,
                     productServer: Id -> Response<Product<string>>)
      modifies this
      ensures orderId == (if ParseOrderParam(orderParam).Some? then ParseOrderParam(orderParam) else old(orderId))
      ensures ParseOrderParam(orderParam).Some? ==>
        (items == old(items)
         && orderTotal == (match GetOrder(orderServer(ParseOrderParam(orderParam).value))
                           case Ok(o) => Some(o.total) case Err(_) => None))
      ensures ParseOrderParam(orderParam).None? ==>
        (orderTotal == old(orderTotal) && items == CartPage.FetchAll(Dedup(ids), productServer).GetOr([]))
      ensures settings == old(settings) && gateways == old(gateways) && gwCode == old(gwCode)
      ensures customer == old(customer) && submitting == old(submitting)
      ensures !loading
    {
      var oid := ParseOrderParam(orderParam);
      if oid.Some? {
        orderId := oid;
        match GetOrder(orderServer(oid.value)) {
          case Ok(o) => orderTotal := Some(o.total);
          case Err(_) => orderTotal := None;
        }
      } else {
        items := CartPage.FetchAll(Dedup(ids), productServer).GetOr([]);
      }
      loading := false;
    }

    /** The customer effect: a stored record, or no change when there is none or it cannot be read. */
    method LoadCustomer()
      modifies this
      ensures store.customer.StoredCustomer? ==> customer == Some(store.customer.customer)
      ensures store.customer.NoCustomer? ==> customer.None?
      ensures store.customer.UnreadableCustomer? ==> customer == old(customer)
      ensures items == old(items) && orderId == old(orderId) && orderTotal == old(orderTotal)
      ensures settings == old(settings) && gateways == old(gateways) && gwCode == old(gwCode)
      ensures submitting == old(submitting) && loading == old(loading)
    {
      match store.customer {
        case StoredCustomer(c) => customer := Some(c);
        case NoCustomer => customer := None;
        case UnreadableCustomer =>
      }
    }

    /** The radio button for a gateway selects its code. */
    method SelectGateway(code: string)
      modifies this
      ensures gwCode == Some(code)
      ensures items == old(items) && orderId == old(orderId) && orderTotal == old(orderTotal)
      ensures settings == old(settings) && gateways == old(gateways) && customer == old(customer)
      ensures submitting == old(submitting) && loading == old(loading)
    {
      gwCode := Some(code);
    }

    /**
     * `pay`: an order, when there is one, is marked paid first. If that fails nothing else happens.
     * Otherwise the cart is emptied, the page returns home and the success message is shown. The form
     * can only be sent while its button is enabled.
     */
    method Pay(cookie: string, server: (nat, string) -> Response<WireOrder>)
      returns (navigateTo: Option<string>, alertText: Option<string>)
      requires PayEnabled(submitting, loading)
      modifies this, store
      ensures !submitting
      ensures var paid := orderId.None? || UpdateOutcome(cookie, server(orderId.value, "paid")).Ok?;
        (paid ==> navigateTo == Some("/") && alertText == Some(SuccessMessage(settings))
                  && store.entries == old(store.entries)[CartKey := Some([])])
        && (!paid ==> navigateTo.None? && alertText.None? && store.entries == old(store.entries))
      ensures ReadIds(store.entries, CartKey) == [] || store.entries == old(store.entries)
      ensures store.customer == old(store.customer)
      ensures items == old(items) && orderId == old(orderId) && orderTotal == old(orderTotal)
      ensures settings == old(settings) && gateways == old(gateways) && gwCode == old(gwCode)
      ensures customer == old(customer) && loading == old(loading)
    {
      navigateTo := None;
      alertText := None;
      submitting := true;
      var paid := true;
      if orderId.Some? {
        paid := UpdateOutcome(cookie, server(orderId.value, "paid")).Ok?;
      }
      if paid {
        store.SetIds(CartKey, []);
        navigateTo := Some("/");
        alertText := Some(SuccessMessage(settings));
      }
      submitting := false;
    }
  }
}
