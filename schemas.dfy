/** The request-body schemas of the back end: the inventory enumerations and
    the validation of login, registration, item creation, item update and
    stock adjustment bodies. A body is given field by field, a missing field
    being None; prices are integer cents. The library checks for e-mail
    addresses and URLs are passed in as predicates. */
module Schemas {
  import opened Common
  import opened Text

  datatype ItemType = Chocolate | Soap | Pins | Drones | Tools | Materials | Other
  datatype ItemStatus = InStock | LowStock | OutOfStock | Discontinued
  datatype Role = Admin | Staff | Instructor

  function TypeName(t: ItemType): string {
    match t
    case Chocolate => "CHOCOLATE"
    case Soap => "SOAP"
    case Pins => "PINS"
    case Drones => "DRONES"
    case Tools => "TOOLS"
    case Materials => "MATERIALS"
    case Other => "OTHER"
  }

  function StatusName(s: ItemStatus): string {
    match s
    case InStock => "IN_STOCK"
    case LowStock => "LOW_STOCK"
    case OutOfStock => "OUT_OF_STOCK"
    case Discontinued => "DISCONTINUED"
  }

  function RoleName(r: Role): string {
    match r
    case Admin => "ADMIN"
    case Staff => "STAFF"
    case Instructor => "INSTRUCTOR"
  }

  /** The enumeration literals exactly as the schemas list them. */
  const TypeNames: set<string> := {"CHOCOLATE", "SOAP", "PINS", "DRONES", "TOOLS", "MATERIALS", "OTHER"}
  const StatusNames: set<string> := {"IN_STOCK", "LOW_STOCK", "OUT_OF_STOCK", "DISCONTINUED"}
  const RoleNames: set<string> := {"ADMIN", "STAFF", "INSTRUCTOR"}

  function ParseType(s: string): (r: Option<ItemType>)
    ensures r.Some? <==> s in TypeNames
    ensures r.Some? ==> TypeName(r.value) == s
  {
    if s == "CHOCOLATE" then Some(Chocolate)
    else if s == "SOAP" then Some(Soap)
    else if s == "PINS" then Some(Pins)
    else if s == "DRONES" then Some(Drones)
    else if s == "TOOLS" then Some(Tools)
    else if s == "MATERIALS" then Some(Materials)
    else if s == "OTHER" then Some(Other)
    else None
  }

  function ParseStatus(s: string): (r: Option<ItemStatus>)
    ensures r.Some? <==> s in StatusNames
    ensures r.Some? ==> StatusName(r.value) == s
  {
    if s == "IN_STOCK" then Some(InStock)
    else if s == "LOW_STOCK" then Some(LowStock)
    else if s == "OUT_OF_STOCK" then Some(OutOfStock)
    else if s == "DISCONTINUED" then Some(Discontinued)
    else None
  }

  function ParseRole(s: string): (r: Option<Role>)
    ensures r.Some? <==> s in RoleNames
    ensures r.Some? ==> RoleName(r.value) == s
  {
    if s == "ADMIN" then Some(Admin)
    else if s == "STAFF" then Some(Staff)
    else if s == "INSTRUCTOR" then Some(Instructor)
    else None
  }

  /** Each enumeration's names and parser are inverse to each other. */
  lemma EnumRoundTrips(t: ItemType, s: ItemStatus, r: Role)
    ensures ParseType(TypeName(t)) == Some(t)
    ensures ParseStatus(StatusName(s)) == Some(s)
    ensures ParseRole(RoleName(r)) == Some(r)
  {
  }

  // ---------------------------------------------------------------------------
  // Inventory bodies
  // ---------------------------------------------------------------------------

  datatype RawItem = RawItem(
    itemId: Option<string>, name: Option<string>, itemType: Option<string>,
    price: Option<int>, quantity: Option<int>, minStock: Option<int>,
    status: Option<string>, notes: Option<string>, imageUrl: Option<string>)

  /** A body the create schema accepted, with the minStock default applied. */
  datatype NewItem = NewItem(
    itemId: string, name: string, itemType: ItemType, price: int,
    quantity: nat, minStock: nat, status: ItemStatus,
    notes: Option<string>, imageUrl: Option<string>)

  /** A body the update schema accepted: every field optional, no itemId. */
  datatype ItemChanges = ItemChanges(
    name: Option<string>, itemType: Option<ItemType>, price: Option<int>,
    quantity: Option<nat>, minStock: Option<nat>, status: Option<ItemStatus>,
    notes: Option<string>, imageUrl: Option<string>)

  predicate NonEmpty(o: Option<string>) { o.Some? && |o.value| >= 1 }

  function ParseCreate(raw: RawItem, isUrl: string -> bool): (r: Result<NewItem, Failure>)
    ensures r.Err? ==> r.error == ValidationFailed
    ensures r.Ok? <==>
      && NonEmpty(raw.itemId) && NonEmpty(raw.name)
      && raw.itemType.Some? && raw.itemType.value in TypeNames
      && raw.price.Some? && raw.price.value > 0
      && raw.quantity.Some? && raw.quantity.value >= 0
      && (raw.minStock.Some? ==> raw.minStock.value >= 0)
      && raw.status.Some? && raw.status.value in StatusNames
      && (raw.imageUrl.Some? ==> isUrl(raw.imageUrl.value))
    ensures r.Ok? ==>
      && r.value.itemId == raw.itemId.value && r.value.name == raw.name.value
      && TypeName(r.value.itemType) == raw.itemType.value
      && r.value.price == raw.price.value && r.value.quantity == raw.quantity.value
      && r.value.minStock == raw.minStock.GetOr(0)
      && StatusName(r.value.status) == raw.status.value
      && r.value.notes == raw.notes && r.value.imageUrl == raw.imageUrl
  {
    if !NonEmpty(raw.itemId) || !NonEmpty(raw.name) then Err(ValidationFailed)
    else if raw.itemType.None? || ParseType(raw.itemType.value).None? then Err(ValidationFailed)
    else if raw.price.None? || raw.price.value <= 0 then Err(ValidationFailed)
    else if raw.quantity.None? || raw.quantity.value < 0 then Err(ValidationFailed)
    else if raw.minStock.Some? && raw.minStock.value < 0 then Err(ValidationFailed)
    else if raw.status.None? || ParseStatus(raw.status.value).None? then Err(ValidationFailed)
    else if raw.imageUrl.Some? && !isUrl(raw.imageUrl.value) then Err(ValidationFailed)
    else
      Ok(NewItem(raw.itemId.value, raw.name.value, ParseType(raw.itemType.value).value,
                 raw.price.value, raw.quantity.value, raw.minStock.GetOr(0),
                 ParseStatus(raw.status.value).value, raw.notes, raw.imageUrl))
  }

  function ParseUpdate(raw: RawItem, isUrl: string -> bool): (r: Result<ItemChanges, Failure>)
    ensures r.Err? ==> r.error == ValidationFailed
    ensures r.Ok? <==>
      && (raw.name.Some? ==> |raw.name.value| >= 1)
      && (raw.itemType.Some? ==> raw.itemType.value in TypeNames)
      && (raw.price.Some? ==> raw.price.value > 0)
      && (raw.quantity.Some? ==> raw.quantity.value >= 0)
      && (raw.minStock.Some? ==> raw.minStock.value >= 0)
      && (raw.status.Some? ==> raw.status.value in StatusNames)
      && (raw.imageUrl.Some? ==> isUrl(raw.imageUrl.value))
    ensures r.Ok? ==>
      && r.value.name == raw.name && r.value.price == raw.price
      && (r.value.itemType.Some? <==> raw.itemType.Some?)
      && (r.value.itemType.Some? ==> TypeName(r.value.itemType.value) == raw.itemType.value)
      && (r.value.quantity.Some? <==> raw.quantity.Some?)
      && (r.value.quantity.Some? ==> r.value.quantity.value == raw.quantity.value)
      && (r.value.minStock.Some? <==> raw.minStock.Some?)
      && (r.value.minStock.Some? ==> r.value.minStock.value == raw.minStock.value)
      && (r.value.status.Some? <==> raw.status.Some?)
      && (r.value.status.Some? ==> StatusName(r.value.status.value) == raw.status.value)
      && r.value.notes == raw.notes && r.value.imageUrl == raw.imageUrl
  {
    if raw.name.Some? && |raw.name.value| < 1 then Err(ValidationFailed)
    else if raw.itemType.Some? && ParseType(raw.itemType.value).None? then Err(ValidationFailed)
    else if raw.price.Some? && raw.price.value <= 0 then Err(ValidationFailed)
    else if raw.quantity.Some? && raw.quantity.value < 0 then Err(ValidationFailed)
    else if raw.minStock.Some? && raw.minStock.value < 0 then Err(ValidationFailed)
    else if raw.status.Some? && ParseStatus(raw.status.value).None? then Err(ValidationFailed)
    else if raw.imageUrl.Some? && !isUrl(raw.imageUrl.value) then Err(ValidationFailed)
    else
      Ok(ItemChanges(
        raw.name,
        if raw.itemType.Some? then ParseType(raw.itemType.value) else None,
        raw.price,
        if raw.quantity.Some? then Some(raw.quantity.value as nat) else None,
        if raw.minStock.Some? then Some(raw.minStock.value as nat) else None,
        if raw.status.Some? then ParseStatus(raw.status.value) else None,
        raw.notes, raw.imageUrl))
  }

  /** The update schema drops itemId: whatever the body says about it does
      not change the outcome. */
  lemma UpdateIgnoresItemId(raw: RawItem, isUrl: string -> bool, itemId: Option<string>)
    ensures ParseUpdate(raw.(itemId := itemId), isUrl) == ParseUpdate(raw, isUrl)
  {
  }

  /** Every body the create schema accepts is also accepted as an update. */
  lemma CreateBodyIsUpdateBody(raw: RawItem, isUrl: string -> bool)
    requires ParseCreate(raw, isUrl).Ok?
    ensures ParseUpdate(raw, isUrl).Ok?
  {
  }

  datatype RawAdjustment = RawAdjustment(quantity: Option<int>, notes: Option<string>)
  datatype Adjustment = Adjustment(delta: int, notes: Option<string>)

  /** Any integer is an acceptable delta, negative and zero included. */
  function ParseAdjustment(raw: RawAdjustment): (r: Result<Adjustment, Failure>)
    ensures r.Ok? <==> raw.quantity.Some?
    ensures r.Err? ==> r.error == ValidationFailed
    ensures r.Ok? ==> r.value.delta == raw.quantity.value && r.value.notes == raw.notes
  {
    if raw.quantity.None? then Err(ValidationFailed)
    else Ok(Adjustment(raw.quantity.value, raw.notes))
  }

  // ---------------------------------------------------------------------------
  // Authentication bodies
  // ---------------------------------------------------------------------------

  datatype RawLogin = RawLogin(email: Option<string>, password: Option<string>)
  datatype Credentials = Credentials(email: string, password: string)

  function ParseLogin(raw: RawLogin, isEmail: string -> bool): (r: Result<Credentials, Failure>)
    ensures r.Err? ==> r.error == ValidationFailed
    ensures r.Ok? <==>
      raw.email.Some? && isEmail(raw.email.value)
      && raw.password.Some? && Utf16Length(raw.password.value) >= 6
    ensures r.Ok? ==> r.value == Credentials(raw.email.value, raw.password.value)
  {
    if raw.email.None? || !isEmail(raw.email.value) then Err(ValidationFailed)
    else if raw.password.None? || Utf16Length(raw.password.value) < 6 then Err(ValidationFailed)
    else Ok(Credentials(raw.email.value, raw.password.value))
  }

  datatype RawRegistration = RawRegistration(
    email: Option<string>, password: Option<string>,
    firstName: Option<string>, lastName: Option<string>, role: Option<string>)

  datatype Registration = Registration(
    email: string, password: string, firstName: string, lastName: string, role: Option<Role>)

  function ParseRegistration(raw: RawRegistration, isEmail: string -> bool): (r: Result<Registration, Failure>)
    ensures r.Err? ==> r.error == ValidationFailed
    ensures r.Ok? <==>
      && raw.email.Some? && isEmail(raw.email.value)
      && raw.password.Some? && Utf16Length(raw.password.value) >= 6
      && NonEmpty(raw.firstName) && NonEmpty(raw.lastName)
      && (raw.role.Some? ==> raw.role.value in RoleNames)
    ensures r.Ok? ==>
      && r.value.email == raw.email.value && r.value.password == raw.password.value
      && r.value.firstName == raw.firstName.value && r.value.lastName == raw.lastName.value
      && (r.value.role.Some? <==> raw.role.Some?)
      && (r.value.role.Some? ==> RoleName(r.value.role.value) == raw.role.value)
  {
    if raw.email.None? || !isEmail(raw.email.value) then Err(ValidationFailed)
    else if raw.password.None? || Utf16Length(raw.password.value) < 6 then Err(ValidationFailed)
    else if !NonEmpty(raw.firstName) || !NonEmpty(raw.lastName) then Err(ValidationFailed)
    else if raw.role.Some? && ParseRole(raw.role.value).None? then Err(ValidationFailed)
    else
      Ok(Registration(raw.email.value, raw.password.value, raw.firstName.value, raw.lastName.value,
                      if raw.role.Some? then ParseRole(raw.role.value) else None))
  }

  /** zod measures `.min(6)` in UTF-16 code units, so three emoji make a
      long enough password. */
  lemma EmojiPasswordAccepted(isEmail: string -> bool)
    requires isEmail("a@b.co")
    ensures ParseLogin(RawLogin(Some("a@b.co"), Some("\U{1F600}\U{1F600}\U{1F600}")), isEmail).Ok?
  {
    Utf16Examples();
  }

  /** A registration body carries everything a login body needs. */
  lemma RegistrationBodyIsLoginBody(raw: RawRegistration, isEmail: string -> bool)
    requires ParseRegistration(raw, isEmail).Ok?
    ensures ParseLogin(RawLogin(raw.email, raw.password), isEmail).Ok?
  {
  }
}
