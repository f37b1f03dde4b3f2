/**
  `pages/AdminProductForm.tsx`: the product editor in its two modes (create
  at `/admin/products/new`, edit at `/admin/products/$id/edit`), its image
  picker, its validator and its submit handler.

  Two JavaScript number conversions are parameters: `parsesPositive(p)`
  stands for `!(isNaN(Number(p)) || Number(p) <= 0)`, and `toCents(p)` for
  `BigInt(Math.round(Number(p) * 100))`, which is `None` where `BigInt`
  throws (a price so large that the cents overflow to `Infinity`).
 */
module AdminProductForm {
  import opened Text
  import opened Backend
  import opened Effects
  import opened Queries
  import opened AdminPanel

  /** `!!productId`: the route carried a non-empty `id`. */
  function EditMode(routeId: Option<string>): (edit: bool)
    ensures edit <==> routeId.Some? && routeId.value != ""
  {
    routeId.Some? && routeId.value != ""
  }

  /** `useGetProduct(productId || '', { enabled: isEditMode })`. */
  function ProductQueryOn(actorPresent: bool, actorFetching: bool, routeId: Option<string>): bool {
    var id := if routeId.Some? then routeId.value else "";
    ProductQueryEnabled(actorPresent, actorFetching, id, Some(EditMode(routeId)))
  }

  /** In create mode the existing-product query never runs; in edit mode it
      runs as soon as the actor is ready. */
  lemma ProductQueryOnlyWhenEditing(actorPresent: bool, actorFetching: bool, routeId: Option<string>)
    ensures ProductQueryOn(actorPresent, actorFetching, routeId) <==>
      EditMode(routeId) && QueryEnabled(actorPresent, actorFetching)
  {
  }

  /** 5 MiB, the largest accepted image. */
  const MaxImageBytes: nat := 5 * 1024 * 1024

  /** `handleImageChange`: no file keeps the current choice; a file larger
      than 5 MiB is refused and the current choice kept; otherwise the new
      file replaces it. */
  function ChooseImage(current: Option<ImageFile>, picked: Option<ImageFile>): (chosen: Option<ImageFile>)
    ensures picked.None? ==> chosen == current
    ensures picked.Some? && picked.value.size <= MaxImageBytes ==> chosen == picked
    ensures picked.Some? && picked.value.size > MaxImageBytes ==> chosen == current
    ensures chosen.Some? && chosen != current ==> chosen.value.size <= MaxImageBytes
  {
    match picked
    case None => current
    case Some(file) => if file.size > MaxImageBytes then current else picked
  }

  /** An image of exactly 5 MiB is accepted; one byte more is refused. */
  lemma SizeLimitIsInclusive(current: Option<ImageFile>, name: string)
    ensures ChooseImage(current, Some(ImageFile(name, 5242880))) == Some(ImageFile(name, 5242880))
    ensures ChooseImage(current, Some(ImageFile(name, 5242881))) == current
  {
  }

  datatype ProductField = NameField | PriceField | DescriptionField | ImageField

  /** The editor's three text fields, as typed. */
  datatype ProductForm = ProductForm(name: string, price: string, description: string)

  const NameRequired: string := "Product name is required"
  const PriceRequired: string := "Price is required"
  const PriceInvalid: string := "Price must be a positive number"
  const DescriptionRequired: string := "Description is required"
  const ImageRequired: string := "Product image is required"

  /** `validateForm`'s error map. */
  function ValidateProduct(f: ProductForm, editMode: bool, imageFile: Option<ImageFile>, parsesPositive: string -> bool): map<ProductField, string> {
    var nameErrors: map<ProductField, string> :=
      if Trim(f.name) == "" then map[NameField := NameRequired] else map[];
    var priceErrors :=
      if Trim(f.price) == "" then nameErrors[PriceField := PriceRequired]
      else if !parsesPositive(f.price) then nameErrors[PriceField := PriceInvalid]
      else nameErrors;
    var descriptionErrors :=
      if Trim(f.description) == "" then priceErrors[DescriptionField := DescriptionRequired] else priceErrors;
    if !editMode && imageFile.None? then descriptionErrors[ImageField := ImageRequired] else descriptionErrors
  }

  /** Which fields fail and with what message. The image is only required
      when creating; an existing product keeps its stored image. */
  lemma ProductErrors(f: ProductForm, editMode: bool, imageFile: Option<ImageFile>, parsesPositive: string -> bool)
    ensures var errors := ValidateProduct(f, editMode, imageFile, parsesPositive);
      && (NameField in errors <==> AllWhitespace(f.name))
      && (PriceField in errors <==> AllWhitespace(f.price) || !parsesPositive(f.price))
      && (DescriptionField in errors <==> AllWhitespace(f.description))
      && (ImageField in errors <==> !editMode && imageFile.None?)
      && (NameField in errors ==> errors[NameField] == NameRequired)
      && (PriceField in errors ==> errors[PriceField] == (if AllWhitespace(f.price) then PriceRequired else PriceInvalid))
      && (DescriptionField in errors ==> errors[DescriptionField] == DescriptionRequired)
      && (ImageField in errors ==> errors[ImageField] == ImageRequired)
  {
  }

  predicate ProductFormValid(f: ProductForm, editMode: bool, imageFile: Option<ImageFile>, parsesPositive: string -> bool) {
    ValidateProduct(f, editMode, imageFile, parsesPositive).Keys == {}
  }

  /** The form is valid exactly when no field fails. */
  lemma ProductFormValidIff(f: ProductForm, editMode: bool, imageFile: Option<ImageFile>, parsesPositive: string -> bool)
    ensures ProductFormValid(f, editMode, imageFile, parsesPositive) <==>
      && !AllWhitespace(f.name)
      && !AllWhitespace(f.price) && parsesPositive(f.price)
      && !AllWhitespace(f.description)
      && (editMode || imageFile.Some?)
  {
    var errors := ValidateProduct(f, editMode, imageFile, parsesPositive);
    ProductErrors(f, editMode, imageFile, parsesPositive);
    if errors.Keys != {} {
      var k :| k in errors.Keys;
      assert k == NameField || k == PriceField || k == DescriptionField || k == ImageField;
    }
  }

  /** The image sent with the product: a newly chosen file, else the stored
      image of the product being edited, else none (the submit stops). */
  function ImageToSend(imageFile: Option<ImageFile>, existing: Data<Product>): (blob: Option<Blob>)
    ensures imageFile.Some? ==> blob == Some(FileBlob(imageFile.value))
    ensures imageFile.None? && existing.Present? ==> blob == Some(existing.value.image)
    ensures blob.None? <==> imageFile.None? && existing.Absent?
  {
    if imageFile.Some? then Some(FileBlob(imageFile.value))
    else if existing.Present? then Some(existing.value.image)
    else None
  }

  /** The mutation a valid submit starts: in edit mode an update of the
      product the route names, otherwise a new product; the name and
      description go as typed, the price as the given cents. */
  function ProductOp(f: ProductForm, routeId: Option<string>, cents: int, image: Blob): (op: Op)
    ensures op.UpdateProduct? <==> EditMode(routeId)
    ensures op.AddProduct? <==> !EditMode(routeId)
    ensures op.UpdateProduct? ==> op.id == routeId.value
    ensures op.name == f.name && op.price == cents && op.description == f.description && op.image == image
  {
    if EditMode(routeId) then UpdateProduct(routeId.value, f.name, cents, f.description, image)
    else AddProduct(f.name, cents, f.description, image)
  }

  /** A submit gets past validation, has an image to send, and its price
      converts to cents without `BigInt` throwing. */
  predicate CanSubmit(f: ProductForm, routeId: Option<string>, imageFile: Option<ImageFile>, existing: Data<Product>,
                      parsesPositive: string -> bool, toCents: string -> Option<int>) {
    && ProductFormValid(f, EditMode(routeId), imageFile, parsesPositive)
    && ImageToSend(imageFile, existing).Some?
    && toCents(f.price).Some?
  }

  /** `handleSubmit`: an invalid form starts nothing; without an image to
      send, or when building the price throws, nothing is started either
      (the `catch` only reports); otherwise exactly one add or update.
      `backendOk` is whether that mutation resolved; only success returns
      to `/admin`. */
  function SubmitProduct(f: ProductForm, routeId: Option<string>, imageFile: Option<ImageFile>, existing: Data<Product>,
                         parsesPositive: string -> bool, toCents: string -> Option<int>, backendOk: bool): (actions: seq<Action>)
    ensures !CanSubmit(f, routeId, imageFile, existing, parsesPositive, toCents) ==> actions == []
    ensures CanSubmit(f, routeId, imageFile, existing, parsesPositive, toCents) ==>
      && |actions| > 0
      && actions[0] == Mutate(ProductOp(f, routeId, toCents(f.price).value, ImageToSend(imageFile, existing).value))
      && NoCall(actions[1..])
    ensures Navigate("/admin") in actions <==> CanSubmit(f, routeId, imageFile, existing, parsesPositive, toCents) && backendOk
    ensures CanSubmit(f, routeId, imageFile, existing, parsesPositive, toCents) ==>
      actions == [Mutate(ProductOp(f, routeId, toCents(f.price).value, ImageToSend(imageFile, existing).value))]
                 + (if backendOk then [Navigate("/admin")] else [])
  {
    if !ProductFormValid(f, EditMode(routeId), imageFile, parsesPositive) then []
    else match ImageToSend(imageFile, existing)
      case None => []
      case Some(blob) =>
        if toCents(f.price).None? then [] else
        var call := [Mutate(ProductOp(f, routeId, toCents(f.price).value, blob))];
        if backendOk then
          var done := call + [Navigate("/admin")];
          assert done[1..] == [Navigate("/admin")];
          done
        else
          assert call[1..] == [];
          call
  }

  /** A valid submit is only ever dropped when its price does not convert
      to cents, or for want of an image in edit mode, when no new file was
      chosen and the product never loaded. */
  lemma OnlyEditModeLacksImage(f: ProductForm, routeId: Option<string>, imageFile: Option<ImageFile>, existing: Data<Product>,
                               parsesPositive: string -> bool, toCents: string -> Option<int>, backendOk: bool)
    requires ProductFormValid(f, EditMode(routeId), imageFile, parsesPositive)
    ensures NoCall(SubmitProduct(f, routeId, imageFile, existing, parsesPositive, toCents, backendOk)) <==>
      toCents(f.price).None? || (EditMode(routeId) && imageFile.None? && existing.Absent?)
  {
    CreateNeedsFile(f, routeId, imageFile, parsesPositive);
  }

  /** In create mode validation already demands a file, so a valid form
      always has one to send. */
  lemma CreateNeedsFile(f: ProductForm, routeId: Option<string>, imageFile: Option<ImageFile>, parsesPositive: string -> bool)
    requires ProductFormValid(f, EditMode(routeId), imageFile, parsesPositive)
    ensures !EditMode(routeId) ==> imageFile.Some?
  {
    ProductErrors(f, EditMode(routeId), imageFile, parsesPositive);
  }

  /** A valid create-mode submit whose price converts adds exactly the typed
      product, with the chosen file as its image, and starts nothing else;
      one whose price does not convert starts nothing. */
  lemma CreateAddsChosenFile(f: ProductForm, imageFile: Option<ImageFile>, existing: Data<Product>,
                             parsesPositive: string -> bool, toCents: string -> Option<int>, backendOk: bool)
    ensures ProductFormValid(f, false, imageFile, parsesPositive) ==>
      && imageFile.Some?
      && (toCents(f.price).Some? ==>
            Calls(SubmitProduct(f, None, imageFile, existing, parsesPositive, toCents, backendOk)) ==
              [AddProduct(f.name, toCents(f.price).value, f.description, FileBlob(imageFile.value))])
      && (toCents(f.price).None? ==> SubmitProduct(f, None, imageFile, existing, parsesPositive, toCents, backendOk) == [])
  {
    if ProductFormValid(f, false, imageFile, parsesPositive) {
      CreateNeedsFile(f, None, imageFile, parsesPositive);
      if toCents(f.price).Some? {
        SingleCall(SubmitProduct(f, None, imageFile, existing, parsesPositive, toCents, backendOk));
      }
    }
  }

  /** The editor's gate: the admin panel's, with the loading placeholder also
      shown while an edited product is loading. */
  function FormAccess(authenticated: bool, adminLoading: bool, routeId: Option<string>, productLoading: bool, isAdmin: Data<bool>): (a: Access)
    ensures a == Granted <==> authenticated && !adminLoading && !(EditMode(routeId) && productLoading) && isAdmin == Present(true)
    ensures a == AccessLoading <==> authenticated && (adminLoading || (EditMode(routeId) && productLoading))
    ensures a == AdminLoginPrompt <==> !authenticated
  {
    AdminAccess(authenticated, adminLoading || (EditMode(routeId) && productLoading), isAdmin)
  }

  /** A create-mode editor is never held up by the product query. */
  lemma CreateModeIgnoresProductLoading(authenticated: bool, adminLoading: bool, productLoading: bool, isAdmin: Data<bool>)
    ensures FormAccess(authenticated, adminLoading, None, productLoading, isAdmin) == AdminAccess(authenticated, adminLoading, isAdmin)
  {
  }
}
