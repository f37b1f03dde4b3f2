/**
  `pages/Checkout.tsx`: the contact-form validator, the submit handler, the
  redirect away from the page when there is nothing to check out, and the
  order summary.
 */
module CheckoutPage {
  import opened Text
  import opened Backend
  import opened Effects
  import opened Queries
  import opened CartTotals
  import opened Email

  datatype Field = CustomerName | CustomerEmail | ShippingAddress

  /** The form's three fields, as typed (untrimmed). */
  datatype ContactForm = ContactForm(customerName: string, customerEmail: string, shippingAddress: string)

  const NameRequired: string := "Name is required"
  const EmailRequired: string := "Email is required"
  const EmailInvalid: string := "Invalid email address"
  const AddressRequired: string := "Shipping address is required"

  /** `validateForm`'s error map: one message per failing field. */
  function ValidateContact(f: ContactForm): map<Field, string> {
    var nameErrors: map<Field, string> :=
      if Trim(f.customerName) == "" then map[CustomerName := NameRequired] else map[];
    var emailErrors: map<Field, string> :=
      if Trim(f.customerEmail) == "" then nameErrors[CustomerEmail := EmailRequired]
      else if !MatchesPattern(f.customerEmail) then nameErrors[CustomerEmail := EmailInvalid]
      else nameErrors;
    if Trim(f.shippingAddress) == "" then emailErrors[ShippingAddress := AddressRequired] else emailErrors
  }

  /** The name and the address fail exactly when blank after trimming, each
      with its "required" message. */
  lemma RequiredFieldErrors(f: ContactForm)
    ensures var errors := ValidateContact(f);
      && (CustomerName in errors <==> AllWhitespace(f.customerName))
      && (ShippingAddress in errors <==> AllWhitespace(f.shippingAddress))
      && (CustomerName in errors ==> errors[CustomerName] == NameRequired)
      && (ShippingAddress in errors ==> errors[ShippingAddress] == AddressRequired)
  {
  }

  /** The email fails exactly when the raw value does not match the
      pattern: as "required" when blank, and otherwise as "invalid" (a blank
      value never matches, so the two checks agree). */
  lemma EmailErrors(f: ContactForm)
    ensures var errors := ValidateContact(f);
      && (CustomerEmail in errors <==> !MatchesPattern(f.customerEmail))
      && (CustomerEmail in errors ==>
            errors[CustomerEmail] == (if AllWhitespace(f.customerEmail) then EmailRequired else EmailInvalid))
  {
    MatchedIsNotBlank(f.customerEmail);
  }

  /** `Object.keys(newErrors).length === 0`. */
  predicate FormValid(f: ContactForm) {
    ValidateContact(f).Keys == {}
  }

  /** The form is valid exactly when the name and address are not blank and
      the email is well formed. */
  lemma FormValidIff(f: ContactForm)
    ensures FormValid(f) <==>
      !AllWhitespace(f.customerName) && WellFormed(f.customerEmail) && !AllWhitespace(f.shippingAddress)
  {
    RequiredFieldErrors(f);
    EmailErrors(f);
    PatternIsWellFormed(f.customerEmail);
    NoErrorsIff(ValidateContact(f));
  }

  /** A field-keyed map is empty exactly when none of the three fields is a key. */
  lemma NoErrorsIff(e: map<Field, string>)
    ensures e.Keys == {} <==> CustomerName !in e && CustomerEmail !in e && ShippingAddress !in e
  {
    if e.Keys != {} {
      var k :| k in e.Keys;
      assert k == CustomerName || k == CustomerEmail || k == ShippingAddress;
    }
  }

  /** The route of the confirmation page for a new order. */
  function ConfirmationPath(orderId: string): string {
    "/order-confirmation/" + orderId
  }

  /** `handleSubmit`: an invalid form starts nothing; a valid one starts one
      checkout carrying only the three form values (never the cart) and no
      other call, and, when it resolves to an order id, navigates to that
      order's page. */
  function HandleSubmit(f: ContactForm, reply: Reply<string>): (actions: seq<Action>)
    ensures !FormValid(f) ==> actions == []
    ensures FormValid(f) ==>
      && |actions| > 0
      && actions[0] == Mutate(Checkout(f.customerName, f.customerEmail, f.shippingAddress))
      && NoCall(actions[1..])
    ensures reply.Ok? ==> (Navigate(ConfirmationPath(reply.value)) in actions <==> FormValid(f))
    ensures reply.Failed? ==> forall a :: a in actions ==> !a.Navigate?
    ensures FormValid(f) ==>
      actions == [Mutate(Checkout(f.customerName, f.customerEmail, f.shippingAddress))]
                 + (if reply.Ok? then [Navigate(ConfirmationPath(reply.value))] else [])
  {
    if !FormValid(f) then []
    else
      var call := [Mutate(Checkout(f.customerName, f.customerEmail, f.shippingAddress))];
      match reply
      case Ok(orderId) =>
        var done := call + [Navigate(ConfirmationPath(orderId))];
        assert done[1..] == [Navigate(ConfirmationPath(orderId))];
        done
      case Failed =>
        assert call[1..] == [];
        call
  }

  /** The operations a submit starts: one checkout with the typed values
      exactly when the form is valid, whatever the backend answers. */
  lemma SubmitCalls(f: ContactForm, reply: Reply<string>)
    ensures Calls(HandleSubmit(f, reply)) ==
      (if FormValid(f) then [Checkout(f.customerName, f.customerEmail, f.shippingAddress)] else [])
  {
    if FormValid(f) {
      SingleCall(HandleSubmit(f, reply));
    }
  }

  /** What the page renders: a redirect to the cart with nothing on screen,
      or the form beside an order summary. */
  datatype Screen =
    | RedirectTo(path: string)
    | Summary(lines: seq<EnrichedLine>, amounts: seq<int>, total: int)

  /** An unauthenticated visitor, or a cart that is absent (including still
      loading) or empty, is sent to the cart page. */
  function CheckoutScreen(authenticated: bool, cart: Data<seq<EnrichedLine>>): (s: Screen)
    ensures s.RedirectTo? <==> !authenticated || cart.Absent? || cart.value == []
    ensures s.RedirectTo? ==> s.path == "/cart"
    ensures s.Summary? ==> s.lines == cart.value && |s.amounts| == |s.lines|
    ensures s.Summary? ==> forall i :: 0 <= i < |s.lines| ==> s.amounts[i] == s.lines[i].price * s.lines[i].quantity
    ensures s.Summary? ==> s.total == SumOf(s.amounts)
  {
    if !authenticated || cart.Absent? || cart.value == [] then RedirectTo("/cart")
    else Summary(cart.value, LineAmounts(cart.value), CartTotal(cart.value))
  }
}
