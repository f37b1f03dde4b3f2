/**
  `pages/Cart.tsx`: which view the cart page shows, the order summary, the
  per-line card with its quantity stepper and remove button, and the
  checkout button.
 */
module CartPage {
  import opened Backend
  import opened Effects
  import opened Queries
  import opened CartTotals

  /** The page's four views, tried in this order. */
  datatype View =
    | LoginPrompt
    | LoadingSkeleton
    | EmptyCart
    | Lines(lines: seq<EnrichedLine>, subtotal: int, total: int)

  /** Unauthenticated visitors see the login prompt whatever the cart query
      holds; then a loading cart shows skeletons; an absent or empty cart
      shows the empty state; otherwise the lines and a summary whose Subtotal
      and Total rows show the same sum of price × quantity. */
  function SelectView(authenticated: bool, isLoading: bool, cart: Data<seq<EnrichedLine>>): (v: View)
    ensures !authenticated <==> v == LoginPrompt
    ensures v == LoadingSkeleton <==> authenticated && isLoading
    ensures v == EmptyCart <==> authenticated && !isLoading && (cart.Absent? || cart.value == [])
    ensures v.Lines? ==> cart.Present? && v.lines == cart.value && v.lines != []
    ensures v.Lines? ==> v.subtotal == v.total == SumOf(LineAmounts(v.lines))
  {
    if !authenticated then LoginPrompt
    else if isLoading then LoadingSkeleton
    else if cart.Absent? || cart.value == [] then EmptyCart
    else
      var total := CartTotal(cart.value);
      Lines(cart.value, total, total)
  }

  /** `handleUpdateQuantity`: a quantity below 1 is ignored; any other is
      sent as the line's new absolute quantity through `addToCart`. */
  function HandleUpdateQuantity(productId: string, newQuantity: int): (actions: seq<Action>)
    ensures newQuantity < 1 <==> actions == []
    ensures forall a :: a in actions ==> a == Mutate(AddToCart(productId, newQuantity))
    ensures |actions| <= 1
  {
    if newQuantity < 1 then [] else [Mutate(AddToCart(productId, newQuantity))]
  }

  /** `handleRemove`: removes exactly the given product's line. */
  function HandleRemove(productId: string): (actions: seq<Action>)
    ensures Calls(actions) == [RemoveFromCart(productId)]
    ensures |actions| == 1
  {
    assert [Mutate(RemoveFromCart(productId))][1..] == [];
    [Mutate(RemoveFromCart(productId))]
  }

  /** `handleCheckout`: asks an unauthenticated visitor to log in without
      navigating; otherwise goes to the checkout page. */
  function HandleCheckout(authenticated: bool): (actions: seq<Action>)
    ensures !authenticated ==> actions == [Login]
    ensures authenticated ==> actions == [Navigate("/checkout")]
    ensures NoCall(actions)
  {
    if authenticated then [Navigate("/checkout")] else [Login]
  }

  /** What one line's card renders: a bare skeleton, or the product with its
      stepper and remove button. */
  datatype Card =
    | LineSkeleton
    | LineCard(name: string, price: int, quantity: int, minusDisabled: bool)

  /** `CartItemCard` looks the product up on its own: while that lookup is
      loading or has nothing, only a skeleton is shown. The minus button is
      disabled at quantity 1 or below. */
  function CardFor(productLoading: bool, product: Data<Product>, line: EnrichedLine): (c: Card)
    ensures c.LineCard? <==> !productLoading && product.Present?
    ensures c.LineCard? ==> c.name == product.value.name && c.price == product.value.price
    ensures c.LineCard? ==> c.quantity == line.quantity && (c.minusDisabled <==> line.quantity <= 1)
  {
    if productLoading || product.Absent? then LineSkeleton
    else LineCard(product.value.name, product.value.price, line.quantity, line.quantity <= 1)
  }

  /** The three controls of a card. */
  datatype Control = MinusButton | PlusButton | RemoveButton

  /** Pressing a control of the card for `line`: a skeleton has no controls
      and a disabled minus button does nothing; minus asks for one less,
      plus for one more, and remove removes the line. */
  function Press(card: Card, line: EnrichedLine, control: Control): (actions: seq<Action>)
    ensures card.LineSkeleton? ==> actions == []
    ensures NoCall(actions) || |Calls(actions)| == 1
    ensures forall op :: op in Calls(actions) ==> (op.AddToCart? || op.RemoveFromCart?) && op.productId == line.productId
    ensures forall op :: op in Calls(actions) && op.AddToCart? ==> op.quantity >= 1
  {
    match card
    case LineSkeleton => []
    case LineCard(_, _, _, minusDisabled) =>
      match control
      case MinusButton => if minusDisabled then [] else HandleUpdateQuantity(line.productId, line.quantity - 1)
      case PlusButton => HandleUpdateQuantity(line.productId, line.quantity + 1)
      case RemoveButton => HandleRemove(line.productId)
  }

  /** The stepper sets absolute quantities: on a shown card, minus on a line
      of quantity q ≥ 2 asks for exactly q − 1 and plus on a line of
      quantity q ≥ 0 asks for exactly q + 1; minus at q ≤ 1 asks for nothing. */
  lemma StepperRequests(productLoading: bool, product: Data<Product>, line: EnrichedLine)
    requires !productLoading && product.Present?
    ensures var card := CardFor(productLoading, product, line);
      && (line.quantity >= 2 ==> Press(card, line, MinusButton) == [Mutate(AddToCart(line.productId, line.quantity - 1))])
      && (line.quantity <= 1 ==> Press(card, line, MinusButton) == [])
      && (line.quantity >= 0 ==> Press(card, line, PlusButton) == [Mutate(AddToCart(line.productId, line.quantity + 1))])
      && Press(card, line, RemoveButton) == [Mutate(RemoveFromCart(line.productId))]
  {
  }
}
