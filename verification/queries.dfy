/**
  The data hooks of `hooks/useQueries.ts`: the cart read model (cart lines
  enriched with live product data), the fallbacks used when no backend actor
  exists, the conditions under which a query may run, and the query cache
  with the keys each mutation invalidates when it succeeds.
 */
module Queries {
  import opened Backend

  // ---------------------------------------------------------------- cart read

  /** A cart line joined with the price and name of its product at read time. */
  datatype EnrichedLine = EnrichedLine(productId: string, quantity: int, price: int, productName: string)
  {
    /** The raw cart line this enriched line was built from. */
    function Item(): CartItem {
      CartItem(productId, quantity)
    }
  }

  /** The result of looking up one line's product. */
  datatype Lookup = Resolved(product: Product) | Missing

  const UnknownProductName: string := "Unknown Product"

  /** The enrichment of one line: the product's price and name when the lookup
      resolved, a zero-priced placeholder when it threw. */
  function EnrichLine(item: CartItem, found: Lookup): EnrichedLine {
    match found
    case Resolved(p) => EnrichedLine(item.productId, item.quantity, p.price, p.name)
    case Missing => EnrichedLine(item.productId, item.quantity, 0, UnknownProductName)
  }

  /** `line` carries what the lookup of its product produced. */
  predicate Describes(line: EnrichedLine, found: Lookup) {
    match found
    case Resolved(p) => line.price == p.price && line.productName == p.name
    case Missing => line.price == 0 && line.productName == UnknownProductName
  }

  /** The per-line `getProduct` calls of the cart query, combined with
      `Promise.all`: one enriched line per cart line, in cart order. */
  function Enrich(items: seq<CartItem>, lookup: string -> Lookup): (lines: seq<EnrichedLine>)
    ensures |lines| == |items|
    ensures forall i :: 0 <= i < |items| ==> lines[i].Item() == items[i]
    ensures forall i :: 0 <= i < |items| ==> Describes(lines[i], lookup(items[i].productId))
  {
    if items == [] then []
    else [EnrichLine(items[0], lookup(items[0].productId))] + Enrich(items[1..], lookup)
  }

  /** The raw cart lines underneath enriched ones. */
  function Items(lines: seq<EnrichedLine>): (items: seq<CartItem>)
    ensures |items| == |lines|
    ensures forall i :: 0 <= i < |lines| ==> items[i] == lines[i].Item()
  {
    seq(|lines|, i requires 0 <= i < |lines| => lines[i].Item())
  }

  /** Enrichment only adds: stripping it gives back the cart exactly. */
  lemma StripEnrichment(items: seq<CartItem>, lookup: string -> Lookup)
    ensures Items(Enrich(items, lookup)) == items
  {
  }

  /** Enrichment works line by line, so it distributes over concatenation:
      the order of the combined result is the order of the cart. */
  lemma {:induction false} EnrichConcat(a: seq<CartItem>, b: seq<CartItem>, lookup: string -> Lookup)
    ensures Enrich(a + b, lookup) == Enrich(a, lookup) + Enrich(b, lookup)
  {
    if a != [] {
      assert (a + b)[1..] == a[1..] + b;
      EnrichConcat(a[1..], b, lookup);
    }
  }

  /** The cart query function: no actor gives an empty cart, a failed
      `getCart` fails the query, and otherwise every line is enriched; a failed
      product lookup never fails the query. */
  function ReadCart(actorPresent: bool, cart: Reply<seq<CartItem>>, lookup: string -> Lookup): (r: Reply<seq<EnrichedLine>>)
    ensures !actorPresent ==> r == Ok([])
    ensures r.Failed? <==> actorPresent && cart.Failed?
    ensures actorPresent && cart.Ok? ==> |r.value| == |cart.value| && Items(r.value) == cart.value
    ensures actorPresent && cart.Ok? ==>
      forall i :: 0 <= i < |cart.value| ==> Describes(r.value[i], lookup(cart.value[i].productId))
  {
    if !actorPresent then Ok([])
    else match cart
      case Failed => Failed
      case Ok(items) => Ok(Enrich(items, lookup))
  }

  // ------------------------------------------------------ actor-absent reads

  /** The list queries (products, my orders, all orders): an absent actor
      yields the empty list instead of an error. */
  function ReadList<T>(actorPresent: bool, fetched: Reply<seq<T>>): (r: Reply<seq<T>>)
    ensures !actorPresent ==> r == Ok([])
    ensures actorPresent ==> r == fetched
  {
    if actorPresent then fetched else Ok([])
  }

  /** The admin check: an absent actor answers "not an admin". */
  function ReadIsAdmin(actorPresent: bool, fetched: Reply<bool>): (r: Reply<bool>)
    ensures !actorPresent ==> r == Ok(false)
    ensures actorPresent ==> r == fetched
  {
    if actorPresent then fetched else Ok(false)
  }

  /** The single-record queries (profile, product, order): an absent actor
      makes them throw. */
  function ReadOne<T>(actorPresent: bool, fetched: Reply<T>): (r: Reply<T>)
    ensures !actorPresent ==> r.Failed?
    ensures actorPresent ==> r == fetched
  {
    if actorPresent then fetched else Failed
  }

  // ---------------------------------------------------------- enabled flags

  /** The `enabled` condition shared by every query: an actor exists and is
      not being (re)created. */
  predicate QueryEnabled(actorPresent: bool, actorFetching: bool) {
    actorPresent && !actorFetching
  }

  /** The no-actor fallbacks of the query functions are never what a
      running query reads: a query runs only while `enabled` holds, and that
      needs an actor, so the backend's answer is passed through unchanged. */
  lemma EnabledReadsPassThrough<T, U>(actorPresent: bool, actorFetching: bool,
                                      list: Reply<seq<T>>, one: Reply<U>, admin: Reply<bool>)
    ensures QueryEnabled(actorPresent, actorFetching) ==>
      && ReadList(actorPresent, list) == list
      && ReadOne(actorPresent, one) == one
      && ReadIsAdmin(actorPresent, admin) == admin
  {
  }

  /** `useGetProduct(id, options)`: also needs a non-empty id, and is off when
      the caller passes `enabled: false` (an absent option leaves it on). */
  function ProductQueryEnabled(actorPresent: bool, actorFetching: bool, id: string, enabledOption: Option<bool>): (r: bool)
    ensures r ==> QueryEnabled(actorPresent, actorFetching) && id != ""
    ensures enabledOption == Some(false) ==> !r
    ensures QueryEnabled(actorPresent, actorFetching) && id != "" && enabledOption != Some(false) ==> r
  {
    QueryEnabled(actorPresent, actorFetching) && id != "" && enabledOption != Some(false)
  }

  /** `useGetOrder(orderId)`: also needs a non-empty order id. */
  function OrderQueryEnabled(actorPresent: bool, actorFetching: bool, orderId: string): (r: bool)
    ensures r ==> QueryEnabled(actorPresent, actorFetching)
    ensures orderId == "" ==> !r
    ensures QueryEnabled(actorPresent, actorFetching) && orderId != "" ==> r
  {
    QueryEnabled(actorPresent, actorFetching) && orderId != ""
  }

  /** The flags `useGetCallerUserProfile` reports on top of the raw query's. */
  datatype ProfileFlags = ProfileFlags(isLoading: bool, isFetched: bool)

  /** Loading while the actor is being created; never "fetched" without an
      actor; otherwise the raw query's flags pass through. */
  function ProfileStatus(actorPresent: bool, actorFetching: bool, queryLoading: bool, queryFetched: bool): (f: ProfileFlags)
    ensures actorFetching ==> f.isLoading
    ensures !actorPresent ==> !f.isFetched
    ensures f.isFetched ==> queryFetched
    ensures !actorFetching ==> (f.isLoading <==> queryLoading)
    ensures actorPresent ==> (f.isFetched <==> queryFetched)
  {
    ProfileFlags(actorFetching || queryLoading, actorPresent && queryFetched)
  }

  // ------------------------------------------------------------ query cache

  /** A query key such as `['product', id]`. */
  type Key = seq<string>

  datatype Freshness = Fresh | Stale

  /** The query client's cache: every key that holds data, and whether that
      data has been marked stale. */
  type Cache = map<Key, Freshness>

  const ProfileKey: Key := ["currentUserProfile"]
  const IsAdminKey: Key := ["isAdmin"]
  const ProductsKey: Key := ["products"]
  const CartKey: Key := ["cart"]
  const OrdersKey: Key := ["orders"]
  const MyOrdersKey: Key := ["myOrders"]
  const AllOrdersKey: Key := ["allOrders"]

  function ProductKey(id: string): Key {
    ["product", id]
  }

  function OrderKey(orderId: string): Key {
    ["order", orderId]
  }

  /** `invalidateQueries({ queryKey: key })` with TanStack Query's partial
      matching: every cached key that starts with `key` becomes stale. */
  function Invalidate(c: Cache, key: Key): Cache {
    map k | k in c :: if key <= k then Stale else c[k]
  }

  /** Some key of `keys` is a prefix of `k`. */
  predicate Covered(keys: seq<Key>, k: Key) {
    exists j :: 0 <= j < |keys| && keys[j] <= k
  }

  /** Invalidating several keys, one after the other. */
  function InvalidateAll(c: Cache, keys: seq<Key>): (r: Cache)
    ensures r.Keys == c.Keys
    ensures forall k :: k in c ==> r[k] == (if Covered(keys, k) then Stale else c[k])
  {
    if keys == [] then c
    else
      var r := InvalidateAll(Invalidate(c, keys[0]), keys[1..]);
      assert forall k :: Covered(keys, k) <==> keys[0] <= k || Covered(keys[1..], k) by {
        forall k
          ensures Covered(keys, k) <==> keys[0] <= k || Covered(keys[1..], k)
        {
          if Covered(keys[1..], k) {
            var j :| 0 <= j < |keys[1..]| && keys[1..][j] <= k;
            assert keys[j + 1] <= k;
          }
          if Covered(keys, k) && !(keys[0] <= k) {
            var j :| 0 <= j < |keys| && keys[j] <= k;
            assert keys[1..][j - 1] <= k;
          }
        }
      }
      r
  }

  /** The keys each mutation's `onSuccess` invalidates. */
  function InvalidatedBy(op: Op): seq<Key> {
    match op
    case SaveCallerUserProfile(_) => [ProfileKey]
    case AddProduct(_, _, _, _) => [ProductsKey]
    case UpdateProduct(id, _, _, _, _) => [ProductsKey, ProductKey(id)]
    case DeleteProduct(_) => [ProductsKey]
    case AddToCart(_, _) => [CartKey]
    case RemoveFromCart(_) => [CartKey]
    case ClearCart => [CartKey]
    case Checkout(_, _, _) => [CartKey, OrdersKey]
  }

  /** How a mutation settled: the request that reached the backend, if any,
      whether the mutation succeeded, and the cache afterwards. */
  datatype Settled = Settled(sent: Option<Op>, succeeded: bool, cache: Cache)

  /** Every mutation hook: without an actor `mutationFn` throws before calling
      the backend; otherwise the backend's answer decides. Only success runs
      `onSuccess`, which invalidates the op's keys; a failure leaves the cache
      exactly as it was. */
  function RunMutation(c: Cache, actorPresent: bool, op: Op, backendOk: bool): (s: Settled)
    ensures s.sent.Some? <==> actorPresent
    ensures s.sent.Some? ==> s.sent.value == op
    ensures s.succeeded <==> actorPresent && backendOk
    ensures s.cache.Keys == c.Keys
    ensures !s.succeeded ==> s.cache == c
    ensures s.succeeded ==> forall k :: k in c ==> s.cache[k] == (if Covered(InvalidatedBy(op), k) then Stale else c[k])
  {
    if !actorPresent then Settled(None, false, c)
    else if !backendOk then Settled(Some(op), false, c)
    else Settled(Some(op), true, InvalidateAll(c, InvalidatedBy(op)))
  }

  /** The cart mutations (add or set quantity, remove, clear) mark stale
      exactly the entries under `['cart']`, and only when they succeed. */
  lemma CartMutationsInvalidateCart(c: Cache, actorPresent: bool, op: Op, backendOk: bool)
    requires op.AddToCart? || op.RemoveFromCart? || op.ClearCart?
    ensures var s := RunMutation(c, actorPresent, op, backendOk);
      forall k :: k in c ==> s.cache[k] == (if s.succeeded && CartKey <= k then Stale else c[k])
  {
    var s := RunMutation(c, actorPresent, op, backendOk);
    if s.succeeded {
      forall k | k in c
        ensures s.cache[k] == (if CartKey <= k then Stale else c[k])
      {
        assert Covered(InvalidatedBy(op), k) <==> InvalidatedBy(op)[0] <= k;
      }
    }
  }

  /** A successful product update marks stale the product list and that
      product's own entry, and nothing else. */
  lemma UpdateProductInvalidation(c: Cache, actorPresent: bool, id: string, name: string, price: int, description: string, image: Blob)
    requires actorPresent
    ensures var s := RunMutation(c, actorPresent, UpdateProduct(id, name, price, description, image), true);
      && (ProductsKey in c ==> s.cache[ProductsKey] == Stale)
      && (ProductKey(id) in c ==> s.cache[ProductKey(id)] == Stale)
      && forall k :: k in c && !(ProductsKey <= k) && !(ProductKey(id) <= k) ==> s.cache[k] == c[k]
  {
    var keys := InvalidatedBy(UpdateProduct(id, name, price, description, image));
    assert keys[0] == ProductsKey && keys[1] == ProductKey(id);
    forall k | k in c && !(ProductsKey <= k) && !(ProductKey(id) <= k)
      ensures !Covered(keys, k)
    {
    }
  }

  /** Adding or deleting a product refreshes the product list but leaves
      every single-product entry as it was, the deleted product's included:
      `['products']` is not a prefix of `['product', id]`. */
  lemma AddOrDeleteLeavesProductEntries(c: Cache, actorPresent: bool, op: Op, backendOk: bool, id: string)
    requires op.AddProduct? || op.DeleteProduct?
    requires ProductKey(id) in c
    ensures RunMutation(c, actorPresent, op, backendOk).cache[ProductKey(id)] == c[ProductKey(id)]
  {
    assert !(ProductsKey <= ProductKey(id)) by {
      assert ProductsKey[0] != ProductKey(id)[0];
    }
    assert !Covered(InvalidatedBy(op), ProductKey(id));
  }

  /** A successful checkout marks the cart stale, but its second key
      `['orders']` matches none of the order queries: the cached order
      lookups and order lists are left as they were. */
  lemma CheckoutLeavesOrderQueries(c: Cache, name: string, email: string, address: string, orderId: string)
    ensures var s := RunMutation(c, true, Checkout(name, email, address), true);
      && (CartKey in c ==> s.cache[CartKey] == Stale)
      && (OrderKey(orderId) in c ==> s.cache[OrderKey(orderId)] == c[OrderKey(orderId)])
      && (MyOrdersKey in c ==> s.cache[MyOrdersKey] == c[MyOrdersKey])
      && (AllOrdersKey in c ==> s.cache[AllOrdersKey] == c[AllOrdersKey])
  {
    var keys := InvalidatedBy(Checkout(name, email, address));
    assert keys == [CartKey, OrdersKey];
    assert CartKey <= CartKey;
    assert !(OrdersKey <= OrderKey(orderId)) && !(CartKey <= OrderKey(orderId)) by {
      assert OrdersKey[0] != OrderKey(orderId)[0] && CartKey[0] != OrderKey(orderId)[0];
    }
    assert !(OrdersKey <= MyOrdersKey) && !(CartKey <= MyOrdersKey) by {
      assert OrdersKey[0] != MyOrdersKey[0] && CartKey[0] != MyOrdersKey[0];
    }
    assert !(OrdersKey <= AllOrdersKey) && !(CartKey <= AllOrdersKey) by {
      assert OrdersKey[0] != AllOrdersKey[0] && CartKey[0] != AllOrdersKey[0];
    }
    assert !Covered(keys, OrderKey(orderId)) && !Covered(keys, MyOrdersKey) && !Covered(keys, AllOrdersKey);
  }
}
