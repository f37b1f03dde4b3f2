/**
  `pages/AdminPanel.tsx`: who may see the admin pages, the product table,
  and deleting a product from it.
 */
module AdminPanel {
  import opened Backend
  import opened Effects
  import opened Queries

  /** The gate both admin pages put in front of their content. */
  datatype Access = AdminLoginPrompt | AccessLoading | AccessDenied | Granted

  /** Unauthenticated visitors get the login prompt; while the check (and,
      on the product form, the product) is loading, a placeholder; then
      anything but an answered `true` from the admin query is denied. */
  function AdminAccess(authenticated: bool, loading: bool, isAdmin: Data<bool>): (a: Access)
    ensures a == AdminLoginPrompt <==> !authenticated
    ensures a == AccessLoading <==> authenticated && loading
    ensures a == Granted <==> authenticated && !loading && isAdmin == Present(true)
  {
    if !authenticated then AdminLoginPrompt
    else if loading then AccessLoading
    else if !(isAdmin.Present? && isAdmin.value) then AccessDenied
    else Granted
  }

  /** Without a backend actor the admin query answers `false`, so once it
      has answered the gate denies access. */
  lemma NoActorNoAccess(authenticated: bool, loading: bool, fetched: Reply<bool>)
    ensures var r := ReadIsAdmin(false, fetched);
      AdminAccess(authenticated, loading, Present(r.value)) != Granted
  {
  }

  /** The products card below the gate. */
  datatype ProductsPane = ProductsSkeleton | ProductTable(rows: seq<Product>) | NoProductsYet

  function SelectPane(isLoading: bool, products: Data<seq<Product>>): (p: ProductsPane)
    ensures isLoading <==> p == ProductsSkeleton
    ensures p.ProductTable? <==> !isLoading && products.Present? && products.value != []
    ensures p.ProductTable? ==> p.rows == products.value
  {
    if isLoading then ProductsSkeleton
    else if products.Present? && products.value != [] then ProductTable(products.value)
    else NoProductsYet
  }

  /** `handleDelete`, reached only from the confirmation dialog of a row:
      it deletes that row's product and nothing else. */
  function DeleteRow(rows: seq<Product>, i: nat): (actions: seq<Action>)
    requires i < |rows|
    ensures Calls(actions) == [DeleteProduct(rows[i].id)]
    ensures |actions| == 1
  {
    assert [Mutate(DeleteProduct(rows[i].id))][1..] == [];
    [Mutate(DeleteProduct(rows[i].id))]
  }

  /** A successful delete refreshes the product list, but the deleted
      product's own cached entry is left as it was. */
  lemma DeleteRefreshesListOnly(c: Cache, rows: seq<Product>, i: nat)
    requires i < |rows|
    requires ProductsKey in c && ProductKey(rows[i].id) in c
    ensures var s := RunMutation(c, true, Calls(DeleteRow(rows, i))[0], true);
      && s.cache[ProductsKey] == Stale
      && s.cache[ProductKey(rows[i].id)] == c[ProductKey(rows[i].id)]
  {
    var op := Calls(DeleteRow(rows, i))[0];
    assert op == DeleteProduct(rows[i].id);
    assert Covered(InvalidatedBy(op), ProductsKey) by {
      assert InvalidatedBy(op)[0] == ProductsKey;
    }
    AddOrDeleteLeavesProductEntries(c, true, op, true, rows[i].id);
  }
}
