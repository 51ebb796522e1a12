/**
 * The registration and login pages: the ordered input checks, the email pattern, the split of a full
 * name, the customer record kept after signing in, and the redirect that follows.
 */
module AuthPages {
  import opened Wrappers
  import opened Text
  import opened Storage
  import opened Api

  // ---------------------------------------------------------------------------------------------
  // The email pattern `^[^@\s]+@[^@\s]+\.[^@\s]+$`

  /** A character of the class `[^@\s]`. */
  predicate Plain(c: char) {
    c != '@' && !IsJsSpace(c)
  }

  predicate AllPlain(s: string) {
    forall k :: 0 <= k < |s| ==> Plain(s[k])
  }

  /**
   * The pattern read directly: a non-empty plain part, '@', a non-empty plain part, '.', a non-empty
   * plain part, and nothing else.
   */
  ghost predicate EmailPattern(s: string) {
    exists i, j :: 0 < i && i + 1 < j && j + 1 < |s| && s[i] == '@' && s[j] == '.'
      && AllPlain(s[..i]) && AllPlain(s[i + 1..j]) && AllPlain(s[j + 1..])
  }

  /**
   * The check as a computation: one '@' with something before it, no whitespace, and a '.' in the
   * domain that is neither its first nor its last character.
   */
  predicate IsValidEmail(s: string) {
    var i := IndexOf(s, '@');
    0 < i < |s| && |s[i + 1..]| >= 2
    && AllPlain(s[..i]) && AllPlain(s[i + 1..]) && '.' in s[i + 1..][1..|s[i + 1..]| - 1]
  }

  lemma AllPlainAppend(a: string, b: string)
    requires AllPlain(a) && AllPlain(b)
    ensures AllPlain(a + b)
  {
    forall k | 0 <= k < |a + b| ensures Plain((a + b)[k]) {
      if k >= |a| {
        assert (a + b)[k] == b[k - |a|];
      }
    }
  }

  lemma AllPlainSlice(s: string, lo: nat, hi: nat)
    requires AllPlain(s) && lo <= hi <= |s|
    ensures AllPlain(s[lo..hi])
  {
    forall k | 0 <= k < hi - lo ensures Plain(s[lo..hi][k]) {
      assert s[lo..hi][k] == s[lo + k];
    }
  }

  lemma ValidEmailMatches(s: string)
    requires IsValidEmail(s)
    ensures EmailPattern(s)
  {
    var i := IndexOf(s, '@');
    var d := s[i + 1..];
    var inner := d[1..|d| - 1];
    var k :| 0 <= k < |inner| && inner[k] == '.';
    var j := i + 2 + k;
    assert s[j] == '.';
    AllPlainSlice(d, 0, k + 1);
    AllPlainSlice(d, k + 2, |d|);
    assert s[i + 1..j] == d[0..k + 1];
    assert s[j + 1..] == d[k + 2..|d|];
    assert AllPlain(s[..i]) && AllPlain(s[i + 1..j]) && AllPlain(s[j + 1..]);
  }

  /** An address split at `i` ('@') and `j` ('.') into three plain parts passes the check. */
  lemma MatchAtIsValidEmail(s: string, i: nat, j: nat)
    requires 0 < i && i + 1 < j && j + 1 < |s| && s[i] == '@' && s[j] == '.'
    requires AllPlain(s[..i]) && AllPlain(s[i + 1..j]) && AllPlain(s[j + 1..])
    ensures IsValidEmail(s)
  {
    assert '@' !in s[..i] by {
      forall k | 0 <= k < i ensures s[..i][k] != '@' {
        assert Plain(s[..i][k]);
      }
    }
    IndexOfAt(s, '@', i);
    var d := s[i + 1..];
    forall k | 0 <= k < |d| ensures Plain(d[k]) {
      if k < j - i - 1 {
        assert d[k] == s[i + 1..j][k];
      } else if k > j - i - 1 {
        assert d[k] == s[j + 1..][k - (j - i)];
      }
    }
    assert d[1..|d| - 1][j - i - 2] == '.';
  }

  lemma MatchIsValidEmail(s: string)
    requires EmailPattern(s)
    ensures IsValidEmail(s)
  {
    var i, j :| 0 < i && i + 1 < j && j + 1 < |s| && s[i] == '@' && s[j] == '.'
      && AllPlain(s[..i]) && AllPlain(s[i + 1..j]) && AllPlain(s[j + 1..]);
    MatchAtIsValidEmail(s, i, j);
  }

  /** The computed check accepts exactly the strings the pattern matches. */
  lemma EmailCheckIsPattern(s: string)
    ensures IsValidEmail(s) <==> EmailPattern(s)
  {
    if IsValidEmail(s) {
      ValidEmailMatches(s);
    }
    if EmailPattern(s) {
      MatchIsValidEmail(s);
    }
  }

  /** A plain address is accepted. */
  lemma EmailAccepted()
    ensures IsValidEmail("a@b.co")
  {
    var s := "a@b.co";
    assert s[..1] == "a" && s[2..3] == "b" && s[4..] == "co";
    MatchAtIsValidEmail(s, 1, 3);
  }

  /** The pattern is not RFC 5322: the empty string and a domain without a dot are refused. */
  lemma EmailWithoutDotRefused()
    ensures !IsValidEmail("")
    ensures !IsValidEmail("a@b")
  {
  }

  /** A dot right after '@' is refused. */
  lemma EmailLeadingDotRefused()
    ensures !IsValidEmail("a@.b")
  {
    assert IndexOf("a@.b", '@') == 1;
    assert "a@.b"[2..][1..1] == [];
  }

  /** A second '@' is refused. */
  lemma EmailSecondAtRefused()
    ensures !IsValidEmail("a@@b.c")
  {
    assert IndexOf("a@@b.c", '@') == 1;
    assert !Plain("a@@b.c"[2..][0]);
  }

  // ---------------------------------------------------------------------------------------------
  // The checks, first failure wins

  const InvalidEmail: string := "Please enter a valid email"
  const ShortPassword: string := "Password must be at least 6 characters"
  const PasswordMismatch: string := "Passwords do not match"
  const MissingPassword: string := "Please enter your password"

  /** The registration checks, in order: email, password length, confirmation. */
  function RegisterError(email: string, password: string, password2: string): (r: Option<string>)
    ensures r.None? <==> IsValidEmail(email) && |password| >= 6 && password == password2
    ensures !IsValidEmail(email) ==> r == Some(InvalidEmail)
    ensures IsValidEmail(email) && |password| < 6 ==> r == Some(ShortPassword)
    ensures IsValidEmail(email) && |password| >= 6 && password != password2 ==> r == Some(PasswordMismatch)
  {
    if email == [] || !IsValidEmail(email) then Some(InvalidEmail)
    else if password == [] || |password| < 6 then Some(ShortPassword)
    else if password != password2 then Some(PasswordMismatch)
    else None
  }

  /** The login checks: a valid email, then a non-empty password; there is no length rule. */
  function LoginError(email: string, password: string): (r: Option<string>)
    ensures r.None? <==> IsValidEmail(email) && password != []
    ensures !IsValidEmail(email) ==> r == Some(InvalidEmail)
    ensures IsValidEmail(email) && password == [] ==> r == Some(MissingPassword)
  {
    if email == [] || !IsValidEmail(email) then Some(InvalidEmail)
    else if password == [] then Some(MissingPassword)
    else None
  }

  // ---------------------------------------------------------------------------------------------
  // Names, customers and redirects

  /** `[first, ...rest] = name.trim().split(' ')`, with the last name `rest.join(' ')`. */
  function SplitName(name: string): (r: (string, string))
    ensures ' ' !in r.0
  {
    var parts := Split(Trim(name), ' ');
    (parts[0], Join(parts[1..], ' '))
  }

  /**
   * The two names put back together give the trimmed full name; a name without a space is all first
   * name, with an empty last name.
   */
  lemma {:induction false} SplitNameJoins(name: string)
    ensures var t := Trim(name);
      var (first, last) := SplitName(name);
      (' ' in t ==> first + " " + last == t) && (' ' !in t ==> first == t && last == [])
  {
    var t := Trim(name);
    var parts := Split(t, ' ');
    JoinSplit(t, ' ');
    var k := IndexOf(t, ' ');
    if k < |t| {
      assert |parts| >= 2;
      assert Join(parts, ' ') == parts[0] + [' '] + Join(parts[1..], ' ');
    } else {
      assert ' ' !in t;
    }
  }

  /** `q.get('redirect') || '/'`. */
  function Redirect(param: Option<string>): (r: string)
    ensures r != []
    ensures param.Some? && param.value != [] ==> r == param.value
  {
    OrElse(param, "/")
  }

  /** On opening either page, any stored `customer` text sends the visitor on, readable or not. */
  function MountRedirect(slot: CustomerSlot, param: Option<string>): (r: Option<string>)
    ensures r.Some? <==> !slot.NoCustomer?
    ensures r.Some? ==> r.value == Redirect(param)
  {
    if slot.NoCustomer? then None else Some(Redirect(param))
  }

  /**
   * The record kept after signing in: from the profile when it loads (its email and first name when
   * non-empty), else from what was typed.
   */
  function CustomerFrom(user: Option<User>, email: string, name: string): (r: Customer)
    ensures user.None? ==> r == Customer(email, OrUndefined(name))
    ensures user.Some? ==> r.email == OrElse(Some(user.value.email), email)
    ensures user.Some? && user.value.firstName.Some? && user.value.firstName.value != [] ==> r.name == user.value.firstName
    ensures user.Some? && (user.value.firstName.None? || user.value.firstName.value == []) ==> r.name == OrUndefined(name)
    ensures email != [] ==> r.email != []
  {
    match user
    case None => Customer(email, OrUndefined(name))
    case Some(u) =>
      Customer(OrElse(Some(u.email), email),
               if u.firstName.Some? && u.firstName.value != [] then u.firstName else OrUndefined(name))
  }

  /** `apiMe().catch(() => null)`. */
  function Profile(me: Response<User>): (r: Option<User>)
    ensures r.Some? <==> me.ok
    ensures r.Some? ==> r.value == me.body
  {
    match ApiMe(me)
    case Ok(u) => Some(u)
    case Err(_) => None
  }

  /** The body sent to the registration endpoint. */
  datatype RegisterPayload = RegisterPayload(email: string, password: string, firstName: string, lastName: string)

  const RegistrationFailed: string := "Registration failed"
  const LoginFailed: string := "Login failed"

  class RegisterView {
    const store: Store
    var error: Option<string>
    var loading: bool

    constructor (store: Store)
      ensures this.store == store && error.None? && !loading
    {
      this.store := store;
      error := None;
      loading := false;
    }

    /**
     * `onSubmit`: a failed check reports its message and sends nothing. Otherwise the account is created
     * and signed in; when both succeed the customer record is stored and the page moves on, and when
     * either fails its message (or "Registration failed") is shown.
     */
    method Submit(email: string, name: string, password: string, password2: string, redirect: Option<string>,
                  register: Result<JsonObject, string>, login: Result<JsonObject, string>, me: Response<User>)
      returns (sent: Option<RegisterPayload>, navigateTo: Option<string>)
      modifies this, store
      ensures RegisterError(email, password, password2).None? ==> !loading
      ensures RegisterError(email, password, password2).Some? ==>
        (error == RegisterError(email, password, password2) && sent.None? && navigateTo.None? && loading == old(loading)
         && store.customer == old(store.customer))
      ensures RegisterError(email, password, password2).None? ==>
        sent == Some(RegisterPayload(email, password, SplitName(name).0, SplitName(name).1))
      ensures RegisterError(email, password, password2).None? && register.Err? ==>
        (error == Some(OrElse(Some(register.error), RegistrationFailed)) && navigateTo.None?
         && store.customer == old(store.customer))
      ensures RegisterError(email, password, password2).None? && register.Ok? && login.Err? ==>
        (error == Some(OrElse(Some(login.error), RegistrationFailed)) && navigateTo.None?
         && store.customer == old(store.customer))
      ensures RegisterError(email, password, password2).None? && register.Ok? && login.Ok? ==>
        (error.None? && navigateTo == Some(Redirect(redirect))
         && store.customer == StoredCustomer(CustomerFrom(Profile(me), email, name)))
      ensures store.entries == old(store.entries)
    {
      sent := None;
      navigateTo := None;
      error := None;
      var failed := RegisterError(email, password, password2);
      if failed.Some? {
        error := failed;
        return;
      }
      loading := true;
      var (first, last) := SplitName(name);
      sent := Some(RegisterPayload(email, password, first, last));
      if register.Err? {
        error := Some(OrElse(Some(register.error), RegistrationFailed));
      } else if login.Err? {
        error := Some(OrElse(Some(login.error), RegistrationFailed));
      } else {
        store.SetCustomer(CustomerFrom(Profile(me), email, name));
        navigateTo := Some(Redirect(redirect));
      }
      loading := false;
    }
  }

  class LoginView {
    const store: Store
    var error: Option<string>
    var loading: bool

    constructor (store: Store)
      ensures this.store == store && error.None? && !loading
    {
      this.store := store;
      error := None;
      loading := false;
    }

    /**
     * `onSubmit`: a failed check reports its message and sends nothing. Otherwise the credentials are
     * sent; on success the customer record is stored and the page moves on, on failure the message (or
     * "Login failed") is shown.
     */
    method Submit(email: string, name: string, password: string, redirect: Option<string>,
                  login: Result<JsonObject, string>, me: Response<User>)
      returns (sent: bool, navigateTo: Option<string>)
      modifies this, store
      ensures sent <==> LoginError(email, password).None?
      ensures sent ==> !loading
      ensures LoginError(email, password).Some? ==>
        (error == LoginError(email, password) && navigateTo.None? && loading == old(loading)
         && store.customer == old(store.customer))
      ensures LoginError(email, password).None? && login.Err? ==>
        (error == Some(OrElse(Some(login.error), LoginFailed)) && navigateTo.None?
         && store.customer == old(store.customer))
      ensures LoginError(email, password).None? && login.Ok? ==>
        (error.None? && navigateTo == Some(Redirect(redirect))
         && store.customer == StoredCustomer(CustomerFrom(Profile(me), email, name)))
      ensures store.entries == old(store.entries)
    {
      sent := false;
      navigateTo := None;
      error := None;
      var failed := LoginError(email, password);
      if failed.Some? {
        error := failed;
        return;
      }
      loading := true;
      sent := true;
      if login.Err? {
        error := Some(OrElse(Some(login.error), LoginFailed));
      } else {
        store.SetCustomer(CustomerFrom(Profile(me), email, name));
        navigateTo := Some(Redirect(redirect));
      }
      loading := false;
    }
  }
}
