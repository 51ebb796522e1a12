/**
 * The server's views: the product listing's filters and ordering, the input checks of registration and
 * login, and the order list filtered by e-mail. The query string is a list of (key, value) pairs; the
 * password check of the authentication backend is a parameter.
 */
module Views {
  import opened Wrappers
  import opened Text
  import opened Money
  import opened Sorting
  import opened Models
  import Api

  // ---------------------------------------------------------------------------------------------
  // Query parameters

  /** `query_params.get(key)`: the value of the last pair with that key. */
  function Param(query: Api.Query, key: string): (r: Option<string>)
    ensures r.Some? ==> exists i :: 0 <= i < |query| && query[i] == (key, r.value) && LastWithKey(query, key, i)
    ensures r.None? ==> forall i :: 0 <= i < |query| ==> query[i].0 != key
  {
    if query == [] then None
    else
      var later := Param(query[1..], key);
      if later.Some? then
        var i :| 0 <= i < |query[1..]| && query[1..][i] == (key, later.value) && LastWithKey(query[1..], key, i);
        assert query[i + 1] == (key, later.value) && LastWithKey(query, key, i + 1);
        later
      else if query[0].0 == key then
        assert query[0] == (key, query[0].1) && LastWithKey(query, key, 0);
        Some(query[0].1)
      else None
  }

  /** No pair after position `i` has key `key`. */
  predicate LastWithKey(query: Api.Query, key: string, i: nat) {
    forall j :: i < j < |query| ==> query[j].0 != key
  }

  /** No key occurs twice. */
  predicate UniqueKeys(query: Api.Query) {
    forall i, j :: 0 <= i < j < |query| ==> query[i].0 != query[j].0
  }

  /** Where every key occurs once, the last value is also the first, the one the client's lookup sees. */
  lemma {:induction false} ParamIsLookup(query: Api.Query, key: string)
    requires UniqueKeys(query)
    ensures Param(query, key) == Api.Lookup(query, key)
  {
    if query != [] {
      ParamIsLookup(query[1..], key);
      if query[0].0 == key {
        assert forall i :: 0 <= i < |query[1..]| ==> query[1..][i].0 == query[i + 1].0;
      }
    }
  }

  /** `x or ''` on an optional text. */
  function TextOf(x: Option<string>): string {
    x.GetOr("")
  }

  // ---------------------------------------------------------------------------------------------
  // The product listing

  /** `q`: name or description contains it, up to case; an absent or empty `q` keeps everything. */
  predicate MatchesText(p: ProductRow, q: Option<string>) {
    q.None? || q.value == [] || ContainsIgnoringCase(p.name, q.value) || ContainsIgnoringCase(p.description, q.value)
  }

  /** `category_id`: filters only when it is a non-empty run of digits. */
  predicate MatchesCategoryId(p: ProductRow, id: Option<string>) {
    id.None? || id.value == [] || !AllDigits(id.value) || p.categoryFk == Some(ParseNat(id.value))
  }

  /** `category`: the text category or the linked category's name equals it up to case. */
  predicate MatchesCategoryName(p: ProductRow, name: Option<string>, categoryNames: map<nat, string>) {
    name.None? || name.value == [] ||
    EqualsIgnoringCase(p.category, name.value) ||
    (p.categoryFk.Some? && p.categoryFk.value in categoryNames && EqualsIgnoringCase(categoryNames[p.categoryFk.value], name.value))
  }

  /** `min_price`: an inclusive lower bound; absent, empty or not a decimal means no bound. */
  predicate MatchesMin(p: ProductRow, bound: Option<string>) {
    bound.None? || bound.value == [] || ParseDecimal(bound.value).None? || AtLeast(p.price, ParseDecimal(bound.value).value)
  }

  /** `max_price`: an inclusive upper bound, read like `min_price`. */
  predicate MatchesMax(p: ProductRow, bound: Option<string>) {
    bound.None? || bound.value == [] || ParseDecimal(bound.value).None? || AtMost(p.price, ParseDecimal(bound.value).value)
  }

  /** Every filter the query asks for holds of `p`. */
  predicate Matches(p: ProductRow, query: Api.Query, categoryNames: map<nat, string>) {
    MatchesText(p, Param(query, "q")) &&
    MatchesCategoryId(p, Param(query, "category_id")) &&
    MatchesCategoryName(p, Param(query, "category"), categoryNames) &&
    MatchesMin(p, Param(query, "min_price")) &&
    MatchesMax(p, Param(query, "max_price"))
  }

  /** The ordering a request names, matched after lower-casing; `None` keeps the default id order. */
  function ListingOrder(ordering: Option<string>): (r: Option<ProductRow -> Key>)
    ensures r.None? <==> Lower(TextOf(ordering)) !in {"newest", "oldest", "price_asc", "price_desc"}
  {
    var o := Lower(TextOf(ordering));
    if o == "newest" then Some(NewestFirst)
    else if o == "oldest" then Some(OldestFirst)
    else if o == "price_asc" then Some(CheapestFirst)
    else if o == "price_desc" then Some(DearestFirst)
    else None
  }

  /** The listing: the products that match, in the requested ordering (by id when none is named). */
  function Listing(products: seq<ProductRow>, query: Api.Query, categoryNames: map<nat, string>): (r: seq<ProductRow>)
    ensures |r| <= |products|
  {
    assert |SortBy(products, OldestFirst)| == |multiset(SortBy(products, OldestFirst))| == |products|;
    var kept := Keep(SortBy(products, OldestFirst), (p: ProductRow) => Matches(p, query, categoryNames));
    assert forall key: ProductRow -> Key :: |SortBy(kept, key)| == |multiset(SortBy(kept, key))| == |kept|;
    match ListingOrder(Param(query, "ordering"))
    case Some(key) => SortBy(kept, key)
    case None => kept
  }

  /** `ProductViewSet.get_queryset`: one filter after another on the query set, then the ordering. */
  method GetQueryset(products: seq<ProductRow>, query: Api.Query, categoryNames: map<nat, string>) returns (qs: seq<ProductRow>)
    ensures qs == Listing(products, query, categoryNames)
  {
    var base := SortBy(products, OldestFirst);
    var text := (p: ProductRow) => MatchesText(p, Param(query, "q"));
    var id := (p: ProductRow) => MatchesCategoryId(p, Param(query, "category_id"));
    var name := (p: ProductRow) => MatchesCategoryName(p, Param(query, "category"), categoryNames);
    var min := (p: ProductRow) => MatchesMin(p, Param(query, "min_price"));
    var max := (p: ProductRow) => MatchesMax(p, Param(query, "max_price"));
    var q := Param(query, "q");
    qs := FilterIf(base, q.Some? && q.value != [], text);
    var categoryId := Param(query, "category_id");
    qs := FilterIf(qs, categoryId.Some? && categoryId.value != [] && AllDigits(categoryId.value), id);
    var categoryName := Param(query, "category");
    qs := FilterIf(qs, categoryName.Some? && categoryName.value != [], name);
    var minPrice := Param(query, "min_price");
    qs := FilterIf(qs, minPrice.Some? && minPrice.value != [] && ParseDecimal(minPrice.value).Some?, min);
    var maxPrice := Param(query, "max_price");
    qs := FilterIf(qs, maxPrice.Some? && maxPrice.value != [] && ParseDecimal(maxPrice.value).Some?, max);
    FilterChain(base, text, id, name, min, max, (p: ProductRow) => Matches(p, query, categoryNames));
    match ListingOrder(Param(query, "ordering")) {
      case Some(key) => qs := SortBy(qs, key);
      case None =>
    }
  }

  /** One `if param: qs = qs.filter(...)` step; a skipped filter is one every product passes. */
  method FilterIf(qs: seq<ProductRow>, active: bool, f: ProductRow -> bool) returns (r: seq<ProductRow>)
    requires !active ==> forall p :: f(p)
    ensures r == Keep(qs, f)
  {
    if active {
      r := Keep(qs, f);
    } else {
      KeepAll(qs, f);
      r := qs;
    }
  }

  /** A filter that every element passes keeps the sequence as it is. */
  lemma {:induction false} KeepAll(s: seq<ProductRow>, f: ProductRow -> bool)
    requires forall p :: f(p)
    ensures Keep(s, f) == s
  {
    if s != [] {
      KeepAll(s[1..], f);
    }
  }

  lemma FilterChain(s: seq<ProductRow>, a: ProductRow -> bool, b: ProductRow -> bool, c: ProductRow -> bool,
                    d: ProductRow -> bool, e: ProductRow -> bool, all: ProductRow -> bool)
    requires forall p :: all(p) == (a(p) && b(p) && c(p) && d(p) && e(p))
    ensures Keep(Keep(Keep(Keep(Keep(s, a), b), c), d), e) == Keep(s, all)
  {
    var ab := (p: ProductRow) => a(p) && b(p);
    var abc := (p: ProductRow) => ab(p) && c(p);
    var abcd := (p: ProductRow) => abc(p) && d(p);
    KeepKeep(s, a, b, ab);
    KeepKeep(s, ab, c, abc);
    KeepKeep(s, abc, d, abcd);
    KeepKeep(s, abcd, e, all);
  }

  /** The listing holds exactly the products that satisfy every filter the query asks for. */
  lemma ListingMembers(products: seq<ProductRow>, query: Api.Query, categoryNames: map<nat, string>)
    ensures forall p :: p in Listing(products, query, categoryNames) <==> p in products && Matches(p, query, categoryNames)
  {
    var base := SortBy(products, OldestFirst);
    var kept := Keep(base, (p: ProductRow) => Matches(p, query, categoryNames));
    SortByMembers(products, OldestFirst);
    KeepMembers(base, (p: ProductRow) => Matches(p, query, categoryNames));
    match ListingOrder(Param(query, "ordering")) {
      case Some(key) => SortByMembers(kept, key);
      case None =>
    }
  }

  /** The listing is in the requested ordering, and in id order when none of the four is named. */
  lemma ListingOrdered(products: seq<ProductRow>, query: Api.Query, categoryNames: map<nat, string>)
    ensures ListingOrder(Param(query, "ordering")).Some? ==>
      SortedBy(Listing(products, query, categoryNames), ListingOrder(Param(query, "ordering")).value)
    ensures ListingOrder(Param(query, "ordering")).None? ==> SortedBy(Listing(products, query, categoryNames), OldestFirst)
  {
    var base := SortBy(products, OldestFirst);
    var kept := Keep(base, (p: ProductRow) => Matches(p, query, categoryNames));
    match ListingOrder(Param(query, "ordering")) {
      case Some(key) => SortBySorted(kept, key);
      case None =>
        SortBySorted(products, OldestFirst);
        KeepSorted(base, (p: ProductRow) => Matches(p, query, categoryNames), OldestFirst);
    }
  }

  /** The ordering is matched whatever its case: "NEWEST" orders like "newest". */
  lemma OrderingIgnoresCase()
    ensures ListingOrder(Some("NEWEST")) == Some(NewestFirst)
  {
    var s := "NEWEST";
    assert Lower(s) == "newest" by {
      assert Lower(s)[0] == 'n' && Lower(s)[1] == 'e' && Lower(s)[2] == 'w';
      assert Lower(s)[3] == 'e' && Lower(s)[4] == 's' && Lower(s)[5] == 't';
    }
  }

  // ---------------------------------------------------------------------------------------------
  // Registration and login

  /** A user row. */
  datatype UserRow = UserRow(id: nat, username: string, email: string, firstName: string, lastName: string)

  /** The JSON body of a registration. */
  datatype RegisterData = RegisterData(
    email: Option<string>, username: Option<string>, password: Option<string>,
    firstName: Option<string>, lastName: Option<string>)

  const CredentialsMissing: string := "Email and password required"
  const UserExists: string := "User already exists"

  /** A user whose username or e-mail equals the given ones up to case already exists. */
  predicate Taken(users: seq<UserRow>, username: string, email: string) {
    exists u :: u in users && (EqualsIgnoringCase(u.username, username) || EqualsIgnoringCase(u.email, email))
  }

  /** The username a registration asks for: the stripped username, or the stripped e-mail when that is empty. */
  function RequestedUsername(data: RegisterData): (r: string)
    ensures Strip(TextOf(data.username)) != [] ==> r == Strip(TextOf(data.username))
    ensures Strip(TextOf(data.username)) == [] ==> r == Strip(TextOf(data.email))
  {
    var u := Strip(TextOf(data.username));
    if u != [] then u else Strip(TextOf(data.email))
  }

  /** The index of the last '@' in `s`, or -1 when there is none. */
  function LastAt(s: string): (r: int)
    ensures -1 <= r < |s|
    ensures r == -1 <==> '@' !in s
    ensures r >= 0 ==> s[r] == '@' && '@' !in s[r + 1..]
  {
    if s == [] then -1
    else if s[|s| - 1] == '@' then |s| - 1
    else
      var r := LastAt(s[..|s| - 1]);
      assert s[..|s| - 1] + [s[|s| - 1]] == s;
      assert r >= 0 ==> s[r + 1..] == s[..|s| - 1][r + 1..] + [s[|s| - 1]];
      r
  }

  /** `BaseUserManager.normalize_email`: the domain, the part after the last '@', is lower-cased;
    * an address without '@' is kept as it is. */
  function NormalizeEmail(email: string): (r: string)
    ensures |r| == |email|
    ensures '@' !in email ==> r == email
    ensures forall k :: 0 <= k < |email| && email[k] == '@' && '@' !in email[k + 1..] ==>
              r[..k + 1] == email[..k + 1] && r[k + 1..] == Lower(email[k + 1..])
    ensures EqualsIgnoringCase(r, email)
  {
    var k := LastAt(email);
    if k < 0 then email
    else
      DomainLowered(email, k);
      email[..k] + "@" + Lower(email[k + 1..])
  }

  /** Lower-casing the part after the '@' at `k` keeps the local part and the address up to case. */
  lemma DomainLowered(email: string, k: nat)
    requires k < |email| && email[k] == '@' && '@' !in email[k + 1..]
    ensures var r := email[..k] + "@" + Lower(email[k + 1..]);
      |r| == |email| && EqualsIgnoringCase(r, email) &&
      forall j :: 0 <= j < |email| && email[j] == '@' && '@' !in email[j + 1..] ==>
        r[..j + 1] == email[..j + 1] && r[j + 1..] == Lower(email[j + 1..])
  {
    var r := email[..k] + "@" + Lower(email[k + 1..]);
    assert r[..k + 1] == email[..k + 1];
    assert r[k + 1..] == Lower(email[k + 1..]);
    forall i | 0 <= i < |email|
      ensures LowerChar(r[i]) == LowerChar(email[i])
    {
      if i > k {
        assert r[i] == r[k + 1..][i - (k + 1)];
      }
    }
    forall j | 0 <= j < |email| && email[j] == '@' && '@' !in email[j + 1..]
      ensures j == k
    {
      NoneAfter(email, '@', j + 1);
      NoneAfter(email, '@', k + 1);
    }
    assert Lower(r) == Lower(email);
  }

  /** A character missing from a suffix is missing at every position of it. */
  lemma NoneAfter(s: string, c: char, a: nat)
    requires a <= |s| && c !in s[a..]
    ensures forall m :: a <= m < |s| ==> s[m] != c
  {
    forall m | a <= m < |s|
      ensures s[m] != c
    {
      assert s[m] == s[a..][m - a];
    }
  }

  /** `RegisterView.post`: 400 with a detail, or the new user (numbered `newId`), whose e-mail
    * `create_user` stores normalised. */
  function Register(data: RegisterData, users: seq<UserRow>, newId: nat): (r: Result<UserRow, string>)
    ensures r.Err? <==> (Strip(TextOf(data.email)) == [] || TextOf(data.password) == [] ||
                         Taken(users, RequestedUsername(data), Strip(TextOf(data.email))))
    ensures r.Err? ==> (r.error == CredentialsMissing <==> (Strip(TextOf(data.email)) == [] || TextOf(data.password) == []))
    ensures r.Err? ==> r.error == CredentialsMissing || r.error == UserExists
    ensures r.Ok? ==> r.value == UserRow(newId, RequestedUsername(data), NormalizeEmail(Strip(TextOf(data.email))),
                                         Strip(TextOf(data.firstName)), Strip(TextOf(data.lastName)))
  {
    var email := Strip(TextOf(data.email));
    var username := RequestedUsername(data);
    var password := TextOf(data.password);
    if email == [] || password == [] then Err(CredentialsMissing)
    else if Taken(users, username, email) then Err(UserExists)
    else Ok(UserRow(newId, username, NormalizeEmail(email), Strip(TextOf(data.firstName)), Strip(TextOf(data.lastName))))
  }

  /** Usernames and e-mails are pairwise different up to case. */
  predicate DistinctAccounts(users: seq<UserRow>) {
    forall i, j :: 0 <= i < j < |users| ==>
      !EqualsIgnoringCase(users[i].username, users[j].username) && !EqualsIgnoringCase(users[i].email, users[j].email)
  }

  /** Registration keeps usernames and e-mails distinct up to case. */
  lemma RegisterKeepsAccountsDistinct(data: RegisterData, users: seq<UserRow>, newId: nat)
    requires DistinctAccounts(users)
    requires Register(data, users, newId).Ok?
    ensures DistinctAccounts(users + [Register(data, users, newId).value])
    ensures Register(data, users, newId).value.username != [] && Register(data, users, newId).value.email != []
  {
    var u := Register(data, users, newId).value;
    var all := users + [u];
    forall i, j | 0 <= i < j < |all|
      ensures !EqualsIgnoringCase(all[i].username, all[j].username) && !EqualsIgnoringCase(all[i].email, all[j].email)
    {
      if j == |users| {
        assert all[i] in users;
      }
    }
  }

  /** The JSON body of a login. */
  datatype LoginData = LoginData(email: Option<string>, username: Option<string>, password: Option<string>)

  const LoginCredentialsMissing: string := "Credentials required"
  const InvalidCredentials: string := "Invalid credentials"

  /** `(email or username or '').strip()`. */
  function Identifier(data: LoginData): string {
    Strip(if TextOf(data.email) != [] then data.email.value else TextOf(data.username))
  }

  /** The first user, in key order, whose e-mail equals `email` up to case. */
  function FirstWithEmail(users: seq<UserRow>, email: string): (r: Option<UserRow>)
    ensures r.Some? ==> r.value in users && EqualsIgnoringCase(r.value.email, email)
    ensures r.None? ==> forall u :: u in users ==> !EqualsIgnoringCase(u.email, email)
  {
    if users == [] then None
    else if EqualsIgnoringCase(users[0].email, email) then Some(users[0])
    else FirstWithEmail(users[1..], email)
  }

  /**
   * `LoginView.post`: 400 for missing input; otherwise the identifier is tried as a username and then
   * as the e-mail of the first matching user; `authenticate(username, password)` is the parameter `auth`.
   */
  function Login(data: LoginData, users: seq<UserRow>, auth: (string, string) -> Option<UserRow>): (r: Result<UserRow, string>)
    ensures Identifier(data) == [] || TextOf(data.password) == [] ==> r == Err(LoginCredentialsMissing)
    ensures r.Err? ==> r.error == LoginCredentialsMissing || r.error == InvalidCredentials
    ensures r.Ok? ==>
      auth(Identifier(data), TextOf(data.password)) == Some(r.value) ||
      exists u :: u in users && EqualsIgnoringCase(u.email, Identifier(data)) && auth(u.username, TextOf(data.password)) == Some(r.value)
  {
    var identifier := Identifier(data);
    var password := TextOf(data.password);
    if identifier == [] || password == [] then Err(LoginCredentialsMissing)
    else match auth(identifier, password)
      case Some(user) => Ok(user)
      case None =>
        match FirstWithEmail(users, identifier)
        case None => Err(InvalidCredentials)
        case Some(u) =>
          match auth(u.username, password)
          case Some(user) => Ok(user)
          case None => Err(InvalidCredentials)
  }

  /** A user who signs in with an e-mail succeeds when the first account with that e-mail accepts the password. */
  lemma LoginByEmail(data: LoginData, users: seq<UserRow>, auth: (string, string) -> Option<UserRow>, u: UserRow)
    requires Identifier(data) != [] && TextOf(data.password) != []
    requires auth(Identifier(data), TextOf(data.password)).None?
    requires FirstWithEmail(users, Identifier(data)) == Some(u)
    ensures Login(data, users, auth) ==
      (if auth(u.username, TextOf(data.password)).Some? then Ok(auth(u.username, TextOf(data.password)).value)
       else Err(InvalidCredentials))
  {
  }

  /** Login without any matching account fails with the generic message. */
  lemma LoginUnknownFails(data: LoginData, users: seq<UserRow>, auth: (string, string) -> Option<UserRow>)
    requires Identifier(data) != [] && TextOf(data.password) != []
    requires auth(Identifier(data), TextOf(data.password)).None?
    requires forall u :: u in users ==> !EqualsIgnoringCase(u.email, Identifier(data))
    ensures Login(data, users, auth) == Err(InvalidCredentials)
  {
  }

  // ---------------------------------------------------------------------------------------------
  // The order list

  /** `OrderViewSet.get_queryset`: newest first, restricted to the stripped e-mail up to case when one is given. */
  function OrdersFor(orders: seq<OrderRow>, email: Option<string>): (r: seq<OrderRow>)
    ensures forall o :: o in r <==> o in orders && (Strip(TextOf(email)) != [] ==> EqualsIgnoringCase(o.customerEmail, Strip(TextOf(email))))
    ensures SortedBy(r, NewestOrderFirst)
  {
    var e := Strip(TextOf(email));
    var all := SortBy(orders, NewestOrderFirst);
    SortBySorted(orders, NewestOrderFirst);
    assert forall o :: o in all <==> o in multiset(orders);
    var byEmail := (o: OrderRow) => EqualsIgnoringCase(o.customerEmail, e);
    KeepMembers(all, byEmail);
    KeepSorted(all, byEmail, NewestOrderFirst);
    if e != [] then Keep(all, byEmail) else all
  }
}
