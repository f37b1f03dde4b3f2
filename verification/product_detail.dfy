/**
  `pages/ProductDetail.tsx`: the add-to-cart handler, when the profile
  set-up dialog opens, and which view the page shows.
 */
module ProductDetail {
  import opened Backend
  import opened Effects
  import opened Queries
  import opened Header

  /** `!!userProfile`: the profile query answered with a profile. */
  predicate HasProfile(profile: Data<Option<UserProfile>>) {
    profile.Present? && profile.value.Some?
  }

  /** `handleAddToCart`: an unauthenticated visitor is sent to log in; a
      signed-in user without a profile is refused; anyone else adds exactly
      one unit of this product. */
  function HandleAddToCart(authenticated: bool, profile: Data<Option<UserProfile>>, id: string): (actions: seq<Action>)
    ensures !authenticated ==> actions == [Login]
    ensures authenticated && !HasProfile(profile) ==> actions == []
    ensures NoCall(actions) <==> !(authenticated && HasProfile(profile))
    ensures forall op :: op in Calls(actions) ==> op == AddToCart(id, 1)
    ensures |Calls(actions)| <= 1
    ensures authenticated && HasProfile(profile) ==> actions == [Mutate(AddToCart(id, 1))]
  {
    if !authenticated then [Login]
    else if !HasProfile(profile) then []
    else
      assert Calls([Mutate(AddToCart(id, 1))]) == [AddToCart(id, 1)] by {
        assert [Mutate(AddToCart(id, 1))][1..] == [];
      }
      [Mutate(AddToCart(id, 1))]
  }

  /** `isAuthenticated && !profileLoading && isFetched && userProfile === null`:
      the dialog opens only once the query has really answered "no profile"
      (strict equality: a result not yet there does not open it). */
  function ShowProfileSetup(authenticated: bool, flags: ProfileFlags, profile: Data<Option<UserProfile>>): (show: bool)
    ensures show <==> authenticated && !flags.isLoading && flags.isFetched && profile == Present(None)
  {
    authenticated && !flags.isLoading && flags.isFetched && profile == Present(None)
  }

  /** While the set-up dialog is open, adding to the cart starts nothing. */
  lemma ProfileSetupBlocksAdding(authenticated: bool, flags: ProfileFlags, profile: Data<Option<UserProfile>>, id: string)
    requires ShowProfileSetup(authenticated, flags, profile)
    ensures NoCall(HandleAddToCart(authenticated, profile, id))
  {
  }

  /** Without a backend actor the dialog never opens, whatever the raw query
      reports. */
  lemma NoActorNoProfileSetup(authenticated: bool, actorFetching: bool, queryLoading: bool, queryFetched: bool, profile: Data<Option<UserProfile>>)
    ensures !ShowProfileSetup(authenticated, ProfileStatus(false, actorFetching, queryLoading, queryFetched), profile)
  {
  }

  /** The header shows the signed-in user's name exactly when this page's
      add-to-cart would start a call, and never while the profile set-up
      dialog is open. */
  lemma NameShownIffCanAdd(authenticated: bool, flags: ProfileFlags, profile: Data<Option<UserProfile>>, id: string)
    ensures UserNameShown(authenticated, profile) <==> !NoCall(HandleAddToCart(authenticated, profile, id))
    ensures ShowProfileSetup(authenticated, flags, profile) ==> !UserNameShown(authenticated, profile)
  {
  }

  datatype View = DetailSkeleton | NotFound | Details(product: Product)

  /** Loading shows a skeleton; a finished lookup with no product shows
      "Product not found"; otherwise the product. */
  function SelectView(isLoading: bool, product: Data<Product>): (v: View)
    ensures isLoading <==> v == DetailSkeleton
    ensures v == NotFound <==> !isLoading && product.Absent?
    ensures v.Details? ==> product == Present(v.product)
  {
    if isLoading then DetailSkeleton
    else match product
      case Absent => NotFound
      case Present(p) => Details(p)
  }
}
