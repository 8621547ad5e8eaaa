/** The front end's add/edit form for inventory items: its own validation
    schema (stricter than the back end's create schema: minStock has no
    default, and there is no image URL field), its starting values, and the
    itemId field that is locked while editing. */
module InventoryForm {
  import opened Common
  import opened Schemas
  import opened Inventory

  /** The form's field values; a number field left empty reads as NaN (None). */
  datatype FormValues = FormValues(
    itemId: Option<string>, name: Option<string>, itemType: Option<string>,
    price: Option<int>, quantity: Option<int>, minStock: Option<int>,
    status: Option<string>, notes: Option<string>)

  /** Form values the schema accepted. */
  datatype ItemForm = ItemForm(
    itemId: string, name: string, itemType: ItemType, price: int,
    quantity: nat, minStock: nat, status: ItemStatus, notes: Option<string>)

  function ParseForm(v: FormValues): (r: Result<ItemForm, Failure>)
    ensures r.Err? ==> r.error == ValidationFailed
    ensures r.Ok? <==>
      && NonEmpty(v.itemId) && NonEmpty(v.name)
      && v.itemType.Some? && v.itemType.value in TypeNames
      && v.price.Some? && v.price.value > 0
      && v.quantity.Some? && v.quantity.value >= 0
      && v.minStock.Some? && v.minStock.value >= 0
      && v.status.Some? && v.status.value in StatusNames
    ensures r.Ok? ==>
      && r.value.itemId == v.itemId.value && r.value.name == v.name.value
      && TypeName(r.value.itemType) == v.itemType.value
      && r.value.price == v.price.value && r.value.quantity == v.quantity.value
      && r.value.minStock == v.minStock.value
      && StatusName(r.value.status) == v.status.value && r.value.notes == v.notes
  {
    if !NonEmpty(v.itemId) || !NonEmpty(v.name) then Err(ValidationFailed)
    else if v.itemType.None? || ParseType(v.itemType.value).None? then Err(ValidationFailed)
    else if v.price.None? || v.price.value <= 0 then Err(ValidationFailed)
    else if v.quantity.None? || v.quantity.value < 0 then Err(ValidationFailed)
    else if v.minStock.None? || v.minStock.value < 0 then Err(ValidationFailed)
    else if v.status.None? || ParseStatus(v.status.value).None? then Err(ValidationFailed)
    else
      Ok(ItemForm(v.itemId.value, v.name.value, ParseType(v.itemType.value).value, v.price.value,
                  v.quantity.value, v.minStock.value, ParseStatus(v.status.value).value, v.notes))
  }

  /** The request body the form's values make: no image URL. */
  function AsBody(v: FormValues): RawItem {
    RawItem(v.itemId, v.name, v.itemType, v.price, v.quantity, v.minStock, v.status, v.notes, None)
  }

  /** Whatever the form accepts, the back end's create schema accepts, with
      the same values. */
  lemma FormAcceptedIsCreatable(v: FormValues, isUrl: string -> bool)
    requires ParseForm(v).Ok?
    ensures ParseCreate(AsBody(v), isUrl).Ok?
    ensures
      var f, n := ParseForm(v).value, ParseCreate(AsBody(v), isUrl).value;
      && n.itemId == f.itemId && n.name == f.name && n.itemType == f.itemType && n.price == f.price
      && n.quantity == f.quantity && n.minStock == f.minStock && n.status == f.status
      && n.notes == f.notes && n.imageUrl.None?
  {
    var f, n := ParseForm(v).value, ParseCreate(AsBody(v), isUrl).value;
    TypeNameInjective(n.itemType, f.itemType);
    StatusNameInjective(n.status, f.status);
  }

  /** Whatever the form accepts is also a valid update body. */
  lemma FormAcceptedIsUpdatable(v: FormValues, isUrl: string -> bool)
    requires ParseForm(v).Ok?
    ensures ParseUpdate(AsBody(v), isUrl).Ok?
  {
    FormAcceptedIsCreatable(v, isUrl);
    CreateBodyIsUpdateBody(AsBody(v), isUrl);
  }

  lemma TypeNameInjective(a: ItemType, b: ItemType)
    requires TypeName(a) == TypeName(b)
    ensures a == b
  {
    EnumRoundTrips(a, InStock, Admin);
    EnumRoundTrips(b, InStock, Admin);
  }

  lemma StatusNameInjective(a: ItemStatus, b: ItemStatus)
    requires StatusName(a) == StatusName(b)
    ensures a == b
  {
    EnumRoundTrips(Other, a, Admin);
    EnumRoundTrips(Other, b, Admin);
  }

  /** The form is strictly stricter: without a minimum stock it refuses what
      the back end would accept with minimum stock 0. */
  lemma MissingMinStockOnlyFormRejects(isUrl: string -> bool)
    ensures
      var v := FormValues(Some("MAT-001"), Some("Acrylic"), Some("MATERIALS"), Some(500), Some(5), None,
                          Some("IN_STOCK"), None);
      && ParseForm(v).Err?
      && ParseCreate(AsBody(v), isUrl).Ok? && ParseCreate(AsBody(v), isUrl).value.minStock == 0
  {
  }

  /** `defaultValues`: an edit form starts from the item, a new-item form
      from quantity 0, minimum 0 and IN_STOCK, everything else empty. */
  function DefaultValues(item: Option<Item>): (v: FormValues)
    ensures item.None? ==> v.quantity == Some(0) && v.minStock == Some(0) && v.status == Some("IN_STOCK")
    ensures item.None? ==> v.itemId.None? && v.name.None? && v.itemType.None? && v.price.None? && v.notes.None?
  {
    match item
    case None => FormValues(None, None, None, None, Some(0), Some(0), Some("IN_STOCK"), None)
    case Some(it) =>
      FormValues(Some(it.itemId), Some(it.name), Some(TypeName(it.itemType)), Some(it.price),
                 Some(it.quantity), Some(it.minStock), Some(StatusName(it.status)), it.notes)
  }

  /** A blank new-item form cannot be submitted as it stands. */
  lemma NewFormNeedsInput()
    ensures ParseForm(DefaultValues(None)).Err?
  {
  }

  /** An edit form submitted unchanged gives back the item's own values. */
  lemma EditFormRoundTrip(item: Item)
    requires item.itemId != "" && item.name != "" && item.price > 0
    ensures ParseForm(DefaultValues(Some(item))) ==
      Ok(ItemForm(item.itemId, item.name, item.itemType, item.price, item.quantity,
                  item.minStock, item.status, item.notes))
  {
    EnumRoundTrips(item.itemType, item.status, Admin);
    var f := ParseForm(DefaultValues(Some(item))).value;
    TypeNameInjective(f.itemType, item.itemType);
    StatusNameInjective(f.status, item.status);
  }

  /** The itemId input is disabled exactly when an item is being edited. */
  function ItemIdDisabled(item: Option<Item>): (disabled: bool)
    ensures disabled <==> item.Some?
  {
    item.Some?
  }

  /** Whatever the locked itemId field of an edit form holds, the update
      the edit sends is the same: the update schema drops itemId. */
  lemma LockedItemIdIsIgnored(v: FormValues, other: Option<string>, isUrl: string -> bool)
    ensures ParseUpdate(AsBody(v.(itemId := other)), isUrl) == ParseUpdate(AsBody(v), isUrl)
  {
    assert AsBody(v.(itemId := other)) == AsBody(v).(itemId := other);
    UpdateIgnoresItemId(AsBody(v), isUrl, other);
  }
}
