/**
  `components/Header.tsx`: the cart badge, the Admin link, the signed-in
  user's name, and the login/logout button.
 */
module Header {
  import opened Backend
  import opened Effects
  import opened Queries
  import opened CartTotals
  import opened AdminPanel

  /** The number of items in the cart: the cart lines' quantities added up,
      0 while there is no cart data. */
  function CartItemCount(cart: Data<seq<EnrichedLine>>): (count: int)
    ensures cart.Absent? ==> count == 0
    ensures cart.Present? ==> count == SumOf(Quantities(cart.value))
  {
    match cart
    case Absent => 0
    case Present(lines) => ItemTotal(lines)
  }

  /** The badge over the cart icon is rendered when the count is positive. */
  predicate BadgeShown(count: int) {
    count > 0
  }

  /** Since every cart line holds at least one item, the badge is shown
      exactly when the cart data is present and has a line. */
  lemma BadgeShownIffLines(cart: Data<seq<EnrichedLine>>)
    requires cart.Present? ==> forall i :: 0 <= i < |cart.value| ==> cart.value[i].quantity >= 1
    ensures BadgeShown(CartItemCount(cart)) <==> cart.Present? && cart.value != []
  {
    if cart.Present? {
      ItemTotalAtLeastLines(cart.value);
    }
  }

  /** The Admin link needs the admin query to have answered `true`. */
  function AdminLinkShown(isAdmin: Data<bool>): (shown: bool)
    ensures shown <==> isAdmin == Present(true)
  {
    isAdmin.Present? && isAdmin.value
  }

  /** The header's Admin link and the admin pages' gate agree: for a
      signed-in user whose admin check has finished, the link is shown
      exactly when the gate lets the user in. */
  lemma AdminLinkMatchesGate(isAdmin: Data<bool>)
    ensures AdminLinkShown(isAdmin) <==> AdminAccess(true, false, isAdmin) == Granted
  {
  }

  /** The user's name is shown when signed in and a profile exists; an
      absent query result and a `null` profile both hide it. */
  function UserNameShown(authenticated: bool, profile: Data<Option<UserProfile>>): (shown: bool)
    ensures shown <==> authenticated && profile.Present? && profile.value.Some?
  {
    authenticated && profile.Present? && profile.value.Some?
  }

  /** The identity provider's login status; only "logging-in" matters here. */
  datatype LoginStatus = LoggingIn | NotLoggingIn

  datatype AuthButton = AuthButton(caption: string, disabled: bool)

  /** The login/logout button: "Logging in..." and disabled while a login is
      under way, otherwise an enabled "Logout" or "Login". */
  function AuthButtonFor(status: LoginStatus, authenticated: bool): (b: AuthButton)
    ensures b.disabled <==> status == LoggingIn
    ensures b.caption == "Logging in..." <==> status == LoggingIn
    ensures status != LoggingIn ==> b.caption == (if authenticated then "Logout" else "Login")
  {
    var caption := if status == LoggingIn then "Logging in..." else if authenticated then "Logout" else "Login";
    AuthButton(caption, status == LoggingIn)
  }

  /** `handleAuth`: signing out clears the identity and then goes home;
      otherwise it starts a login. Neither touches the backend. */
  function HandleAuth(authenticated: bool): (actions: seq<Action>)
    ensures authenticated ==> actions == [ClearIdentity, Navigate("/")]
    ensures !authenticated ==> actions == [Login]
    ensures NoCall(actions)
  {
    if authenticated then [ClearIdentity, Navigate("/")] else [Login]
  }

  /** The button says what a click does: an enabled "Logout" clears the
      identity, an enabled "Login" starts a login. */
  lemma ButtonSaysWhatClickDoes(status: LoginStatus, authenticated: bool)
    ensures var b := AuthButtonFor(status, authenticated);
      && (!b.disabled ==> (b.caption == "Logout" <==> ClearIdentity in HandleAuth(authenticated)))
      && (!b.disabled ==> (b.caption == "Login" <==> Login in HandleAuth(authenticated)))
  {
  }
}
