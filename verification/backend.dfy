/**
  The records the storefront exchanges with its backend, and the backend
  operations the client can ask for. The backend itself is not modelled:
  what a call returns is always a parameter of the member that makes it.
 */
module Backend {

  /** A nullable backend value (`T | null`). */
  datatype Option<+T> = None | Some(value: T)

  /** A query's `data` field: `undefined` until a result has arrived. */
  datatype Data<+T> = Absent | Present(value: T)

  /** The outcome of a remote call: the value it resolved to, or a thrown error. */
  datatype Reply<+T> = Ok(value: T) | Failed

  /** A browser `File` chosen for upload; only its size matters to the rules. */
  datatype ImageFile = ImageFile(name: string, size: nat)

  /** An `ExternalBlob`: an already stored image, or one built from a chosen file. */
  datatype Blob = StoredBlob(handle: string) | FileBlob(file: ImageFile)

  /** One cart line; quantities are `bigint` in the source. */
  datatype CartItem = CartItem(productId: string, quantity: int)

  /** A catalog product; `price` is in cents. */
  datatype Product = Product(id: string, name: string, description: string, image: Blob, price: int)

  datatype UserProfile = UserProfile(name: string)

  datatype UserRole = Admin | User | Guest

  /** An order as the backend stores it; the client only displays it. */
  datatype Order = Order(
    id: string,
    customerName: string,
    total: int,
    userId: string,
    timestamp: int,
    shippingAddress: string,
    items: seq<CartItem>,
    customerEmail: string)

  /** The mutating operations of the backend interface, with their arguments. */
  datatype Op =
    | SaveCallerUserProfile(profile: UserProfile)
    | AddProduct(name: string, price: int, description: string, image: Blob)
    | UpdateProduct(id: string, name: string, price: int, description: string, image: Blob)
    | DeleteProduct(id: string)
    | AddToCart(productId: string, quantity: int)
    | RemoveFromCart(productId: string)
    | ClearCart
    | Checkout(customerName: string, customerEmail: string, shippingAddress: string)
}

/**
  What an event handler does, as data: the mutations it starts and the
  navigation and identity requests it makes, in order. Toasts are not effects.
 */
module Effects {
  import opened Backend

  datatype Action =
    | Mutate(op: Op)      // `mutateAsync` of the hook wrapping `op`
    | Navigate(path: string)
    | Login               // Internet Identity `login()`
    | ClearIdentity       // Internet Identity `clear()`

  /** The operations a handler starts, in order. */
  function Calls(actions: seq<Action>): (ops: seq<Op>)
    ensures |ops| <= |actions|
    ensures forall op :: op in ops <==> Mutate(op) in actions
  {
    if actions == [] then []
    else
      var rest := Calls(actions[1..]);
      assert forall op :: Mutate(op) in actions <==> Mutate(op) == actions[0] || Mutate(op) in actions[1..];
      if actions[0].Mutate? then [actions[0].op] + rest else rest
  }

  /** The operations of two effect lists run one after the other are the
      first list's operations followed by the second's: `Calls` keeps the
      order of the effects and every repetition. */
  lemma {:induction false} CallsConcat(a: seq<Action>, b: seq<Action>)
    ensures Calls(a + b) == Calls(a) + Calls(b)
  {
    if a != [] {
      assert (a + b)[0] == a[0];
      assert (a + b)[1..] == a[1..] + b;
      CallsConcat(a[1..], b);
    } else {
      assert a + b == b;
    }
  }

  /** One mutation effect starts exactly its operation. */
  lemma CallsOfMutate(op: Op)
    ensures Calls([Mutate(op)]) == [op]
  {
    assert [Mutate(op)][1..] == [];
  }

  /** The handler starts no backend operation. */
  predicate NoCall(actions: seq<Action>) {
    forall a :: a in actions ==> !a.Mutate?
  }

  /** A handler whose first effect is a mutation and whose other effects
      are not starts exactly that one operation. */
  lemma {:induction false} SingleCall(actions: seq<Action>)
    requires |actions| > 0 && actions[0].Mutate? && NoCall(actions[1..])
    ensures Calls(actions) == [actions[0].op]
  {
    NoCallNoOps(actions[1..]);
  }

  /** Handlers that start no mutation start no operation. */
  lemma {:induction false} NoCallNoOps(actions: seq<Action>)
    requires NoCall(actions)
    ensures Calls(actions) == []
  {
    if actions != [] {
      assert forall a :: a in actions[1..] ==> a in actions;
      NoCallNoOps(actions[1..]);
    }
  }
}
