/**
 * `src/services/reservations.service.js`: the two validators, the product
 * preparation and the guarded writes for reservations.
 */
module ReservationsService {
  import opened Json
  import opened Lists
  import opened Validation
  import opened Formats
  import opened Store
  import opened Lookup
  import opened Documents
  import opened References
  import Model = ReservationsModel

  const NotFoundMessage := "Reserva no encontrada"
  const EmptyProductsMessage := "Debe haber al menos un producto en la reserva"
  const CreatePrefix := "Error creando reserva: "
  const NothingMessage := "Debes proporcionar al menos un campo para actualizar la reserva."
  const PaymentMethods := ["debit", "credit", "cash", "wallet"]
  const States := ["pending_pickup", "finished", "cancelled", "paid"]

  // ---------------------------------------------------------------------
  // validateReservationData

  /** `product.id` is truthy and a string or a number. */
  predicate UsableId(v: JVal) {
    Truthy(v) && StringOrNumber(v)
  }

  /** `product.type` is truthy but not one of the known types. */
  predicate UnknownKind(v: JVal) {
    Truthy(v) && !OneOf(v, ProductTypes)
  }

  /** Which checks of the `forEach` callback an object element failed, one flag per `if` block. */
  datatype ItemFailures = ItemFailures(kind: bool, id: bool, quantity: bool, unitPrice: bool, unknown: bool)

  /** The `if` blocks of the callback for the element at `index`, in order. */
  function ItemTable(index: nat, f: ItemFailures): seq<Rule> {
    [Rule(f.kind, BadItem(index, BadType)), Rule(f.id, BadItem(index, BadId)),
     Rule(f.quantity, BadItem(index, BadQuantity)), Rule(f.unitPrice, BadItem(index, BadUnitPrice)),
     Rule(f.unknown, BadItem(index, UnknownType))]
  }

  /** The checks of the callback on the fields it reads. */
  function CheckItemFields(kind: JVal, id: JVal, quantity: JVal, unitPrice: JVal): ItemFailures {
    ItemFailures(!NonEmptyString(kind), !UsableId(id), !RequiredAbove(quantity, 0.0),
                 !RequiredAtLeast(unitPrice, 0.0), UnknownKind(kind))
  }

  function ItemDataFailures(p: JVal): ItemFailures {
    CheckItemFields(Get(p, "type"), Get(p, "id"), Get(p, "quantity"), Get(p, "unitPrice"))
  }

  /** What the `forEach` callback pushes for the product at `index`. */
  function ItemIssues(p: JVal, index: nat): seq<Issue> {
    if !IsNonNullObject(p) then [BadItem(index, NotAnObject)]
    else Fired(ItemTable(index, ItemDataFailures(p)))
  }

  /** The callback, with `return` after the first message for an element that is not an object. */
  method CheckItem(p: JVal, index: nat) returns (errors: seq<Issue>)
    ensures errors == ItemIssues(p, index)
  {
    errors := [];
    if !IsNonNullObject(p) {
      errors := errors + [BadItem(index, NotAnObject)];
      return;
    }
    var kind, id, quantity, unitPrice := Get(p, "type"), Get(p, "id"), Get(p, "quantity"), Get(p, "unitPrice");
    errors := PushBroken(errors, ItemTable(index, CheckItemFields(kind, id, quantity, unitPrice)));
  }

  /** Each message of an element is pushed exactly when its check failed: the type and the id, */
  lemma ItemTableKinds(index: nat, f: ItemFailures)
    ensures BadItem(index, BadType) in Fired(ItemTable(index, f)) <==> f.kind
    ensures BadItem(index, UnknownType) in Fired(ItemTable(index, f)) <==> f.unknown
    ensures BadItem(index, BadId) in Fired(ItemTable(index, f)) <==> f.id
  {
    FiredAt(ItemTable(index, f), 0);
    FiredAt(ItemTable(index, f), 4);
    FiredAt(ItemTable(index, f), 1);
  }

  /** and the quantity and the unit price. */
  lemma ItemTableNumbers(index: nat, f: ItemFailures)
    ensures BadItem(index, BadQuantity) in Fired(ItemTable(index, f)) <==> f.quantity
    ensures BadItem(index, BadUnitPrice) in Fired(ItemTable(index, f)) <==> f.unitPrice
  {
    FiredAt(ItemTable(index, f), 2);
    FiredAt(ItemTable(index, f), 3);
  }

  /** An element's messages all name that element, and there are none exactly when no check failed. */
  lemma ItemTableShape(index: nat, f: ItemFailures)
    ensures forall x :: x in Fired(ItemTable(index, f)) ==> x.BadItem? && x.index == index
    ensures Fired(ItemTable(index, f)) == [] <==> f == ItemFailures(false, false, false, false, false)
  {
    forall x | x in Fired(ItemTable(index, f))
      ensures x.BadItem? && x.index == index
    {
      FiredHas(ItemTable(index, f), x);
    }
    FiredNone(ItemTable(index, f));
  }

  /** What the `products` block pushes: one message for a missing or empty array, else the per-element pass. */
  function ProductsIssues(products: JVal): seq<Issue> {
    if !NonEmptyArray(products) then [BadField(Products)]
    else ItemsIssues(products.items, ItemIssues)
  }

  /** The `products` block: the array test, then `forEach` over the elements. */
  method CheckProducts(products: JVal) returns (errors: seq<Issue>)
    ensures errors == ProductsIssues(products)
  {
    if !NonEmptyArray(products) {
      return [BadField(Products)];
    }
    var items := products.items;
    errors := [];
    var i := 0;
    while i < |items|
      invariant 0 <= i <= |items|
      invariant errors == ItemsIssues(items[..i], ItemIssues)
    {
      var found := CheckItem(items[i], i);
      assert items[..i + 1][..i] == items[..i];
      errors := errors + found;
      i := i + 1;
    }
    assert items[..|items|] == items;
  }

  /** Which field checks of `validateReservationData` failed, one flag per `if` block. */
  datatype ReservationFailures = ReservationFailures(
    userId: bool, totalAmount: bool, pickupDate: bool, pickupTimeSlot: bool, contactEmail: bool,
    paymentMethod: bool, subtotal: bool, state: bool, ecoPackaging: bool)

  /** The `userId` block, which runs before the `products` block. */
  function UserIdTable(f: ReservationFailures): seq<Rule> {
    [Rule(f.userId, BadField(UserId))]
  }

  /** The field blocks after the `products` block, in order. */
  function FieldTable(f: ReservationFailures): seq<Rule> {
    [Rule(f.totalAmount, BadField(TotalAmount)), Rule(f.pickupDate, BadField(PickupDate)),
     Rule(f.pickupTimeSlot, BadField(PickupTimeSlot)), Rule(f.contactEmail, BadField(ContactEmail)),
     Rule(f.paymentMethod, BadField(PaymentMethod)), Rule(f.subtotal, BadField(Subtotal)),
     Rule(f.state, BadField(State)), Rule(f.ecoPackaging, BadField(EcoPackaging))]
  }

  /** The field checks of `validateReservationData` on the fields it reads. */
  function CheckReservation(userId: JVal, totalAmount: JVal, pickupDate: JVal, pickupTimeSlot: JVal,
                            contactEmail: JVal, paymentMethod: JVal, subtotal: JVal, state: JVal,
                            ecoPackaging: JVal): ReservationFailures {
    ReservationFailures(!StringOrNumber(userId), !RequiredAtLeast(totalAmount, 0.0), !DateString(pickupDate),
                        !SlotString(pickupTimeSlot), !EmailString(contactEmail),
                        !OneOf(paymentMethod, PaymentMethods), !RequiredAtLeast(subtotal, 0.0),
                        !OneOf(state, States), !BooleanIfPresent(ecoPackaging))
  }

  function ReservationDataFailures(data: JVal): ReservationFailures {
    CheckReservation(Get(data, "userId"), Get(data, "totalAmount"), Get(data, "pickupDate"),
                     Get(data, "pickupTimeSlot"), Get(data, "contactEmail"), Get(data, "paymentMethod"),
                     Get(data, "subtotal"), Get(data, "state"), Get(data, "ecoPackaging"))
  }

  /** The errors `validateReservationData` pushes, in order: `userId`, the `products` block, then the other fields. */
  function ReservationIssues(data: JVal): seq<Issue> {
    if !Truthy(data) then [NoData]
    else
      var f := ReservationDataFailures(data);
      Fired(UserIdTable(f)) + ProductsIssues(Get(data, "products")) + Fired(FieldTable(f))
  }

  method ValidateReservationData(data: JVal) returns (v: Verdict)
    ensures v == Checked(ReservationIssues(data))
  {
    var errors: seq<Issue> := [];
    if !Truthy(data) {
      errors := errors + [NoData];
      return Checked(errors);
    }
    var userId, products, totalAmount := Get(data, "userId"), Get(data, "products"), Get(data, "totalAmount");
    var pickupDate, pickupTimeSlot, contactEmail := Get(data, "pickupDate"), Get(data, "pickupTimeSlot"), Get(data, "contactEmail");
    var paymentMethod, subtotal, state := Get(data, "paymentMethod"), Get(data, "subtotal"), Get(data, "state");
    var ecoPackaging := Get(data, "ecoPackaging");
    var f := CheckReservation(userId, totalAmount, pickupDate, pickupTimeSlot, contactEmail,
                              paymentMethod, subtotal, state, ecoPackaging);
    assert f == ReservationDataFailures(data);
    errors := PushBroken(errors, UserIdTable(f));
    assert errors == Fired(UserIdTable(f));
    var productErrors := CheckProducts(products);
    errors := errors + productErrors;
    errors := PushBroken(errors, FieldTable(f));
    assert errors == ReservationIssues(data);
    return Checked(errors);
  }

  /** The `userId` message is pushed exactly when its check failed, and it is the only message of its block. */
  lemma UserIdTableMeaning(f: ReservationFailures)
    ensures forall x :: x in Fired(UserIdTable(f)) <==> f.userId && x == BadField(UserId)
    ensures Fired(UserIdTable(f)) == [] <==> !f.userId
  {
    forall x ensures x in Fired(UserIdTable(f)) <==> f.userId && x == BadField(UserId) {
      FiredHas(UserIdTable(f), x);
    }
    FiredNone(UserIdTable(f));
  }

  /** Each field message after the products is pushed exactly when its check failed: the date, slot and e-mail, */
  lemma FieldTableFormats(f: ReservationFailures)
    ensures BadField(PickupDate) in Fired(FieldTable(f)) <==> f.pickupDate
    ensures BadField(PickupTimeSlot) in Fired(FieldTable(f)) <==> f.pickupTimeSlot
    ensures BadField(ContactEmail) in Fired(FieldTable(f)) <==> f.contactEmail
  {
    FiredAt(FieldTable(f), 1);
    FiredAt(FieldTable(f), 2);
    FiredAt(FieldTable(f), 3);
  }

  /** the amounts and the packaging flag, */
  lemma FieldTableAmounts(f: ReservationFailures)
    ensures BadField(TotalAmount) in Fired(FieldTable(f)) <==> f.totalAmount
    ensures BadField(Subtotal) in Fired(FieldTable(f)) <==> f.subtotal
    ensures BadField(EcoPackaging) in Fired(FieldTable(f)) <==> f.ecoPackaging
  {
    FiredAt(FieldTable(f), 0);
    FiredAt(FieldTable(f), 5);
    FiredAt(FieldTable(f), 7);
  }

  /** and the payment method and the state. */
  lemma FieldTableChoices(f: ReservationFailures)
    ensures BadField(PaymentMethod) in Fired(FieldTable(f)) <==> f.paymentMethod
    ensures BadField(State) in Fired(FieldTable(f)) <==> f.state
  {
    FiredAt(FieldTable(f), 4);
    FiredAt(FieldTable(f), 6);
  }

  /**
   * The field blocks after the products report fields other than `userId`
   * and `products` only, and nothing exactly when none of them failed.
   */
  lemma FieldTableShape(f: ReservationFailures)
    ensures forall x :: x in Fired(FieldTable(f)) ==> x.BadField? && x != BadField(UserId) && x != BadField(Products)
    ensures Fired(FieldTable(f)) == [] <==>
      !f.totalAmount && !f.pickupDate && !f.pickupTimeSlot && !f.contactEmail && !f.paymentMethod
      && !f.subtotal && !f.state && !f.ecoPackaging
  {
    forall x | x in Fired(FieldTable(f))
      ensures x.BadField? && x != BadField(UserId) && x != BadField(Products)
    {
      FiredHas(FieldTable(f), x);
    }
    FiredNone(FieldTable(f));
  }

  /** A product a new reservation may hold: an object with a known type, a usable id, a positive quantity and a unit price of at least 0. */
  predicate ItemAcceptable(p: JVal) {
    IsNonNullObject(p)
    && OneOf(Get(p, "type"), ProductTypes)
    && UsableId(Get(p, "id"))
    && RequiredAbove(Get(p, "quantity"), 0.0)
    && RequiredAtLeast(Get(p, "unitPrice"), 0.0)
  }

  /** An element draws no message exactly when it is acceptable. */
  lemma ItemIssuesEmptyIff(p: JVal, index: nat)
    ensures ItemIssues(p, index) == [] <==> ItemAcceptable(p)
  {
    ItemTableShape(index, ItemDataFailures(p));
  }

  /** A non-empty array of acceptable products. */
  predicate ProductsAcceptable(products: JVal) {
    NonEmptyArray(products) && forall i :: 0 <= i < |products.items| ==> ItemAcceptable(products.items[i])
  }

  lemma ProductsIssuesEmptyIff(products: JVal)
    ensures ProductsIssues(products) == [] <==> ProductsAcceptable(products)
  {
    if NonEmptyArray(products) {
      ItemsIssuesEmpty(products.items, ItemIssues);
      forall i | 0 <= i < |products.items|
        ensures ItemIssues(products.items[i], i) == [] <==> ItemAcceptable(products.items[i])
      {
        ItemIssuesEmptyIff(products.items[i], i);
      }
    }
  }

  /**
   * What a new reservation must be: a user id, acceptable products, totals
   * of at least 0, a DD-MM-YY pickup date, an HH:MM-HH:MM slot, an e-mail
   * address, one of the known payment methods and states, and a boolean
   * `ecoPackaging` when given.
   */
  predicate ReservationAcceptable(data: JVal) {
    Truthy(data)
    && StringOrNumber(Get(data, "userId"))
    && ProductsAcceptable(Get(data, "products"))
    && RequiredAtLeast(Get(data, "totalAmount"), 0.0)
    && DateString(Get(data, "pickupDate"))
    && SlotString(Get(data, "pickupTimeSlot"))
    && EmailString(Get(data, "contactEmail"))
    && OneOf(Get(data, "paymentMethod"), PaymentMethods)
    && RequiredAtLeast(Get(data, "subtotal"), 0.0)
    && OneOf(Get(data, "state"), States)
    && BooleanIfPresent(Get(data, "ecoPackaging"))
  }

  /** The data passes exactly when it is acceptable. */
  lemma ReservationDataValidIff(data: JVal)
    ensures Checked(ReservationIssues(data)).valid <==> ReservationAcceptable(data)
  {
    if Truthy(data) {
      var f := ReservationDataFailures(data);
      UserIdTableMeaning(f);
      ProductsIssuesEmptyIff(Get(data, "products"));
      FieldTableShape(f);
    }
  }

  /** Missing data is reported alone. */
  lemma NoReservationData(data: JVal)
    requires !Truthy(data)
    ensures Checked(ReservationIssues(data)) == Verdict(false, [NoData])
  {
  }

  /** Every message of an element check names that element. */
  lemma ItemIssuesAbout(p: JVal, index: nat)
    ensures forall x :: x in ItemIssues(p, index) ==> x.BadItem? && x.index == index
  {
    ItemTableShape(index, ItemDataFailures(p));
  }

  /** Every element check names only the element it was given. */
  lemma ItemIssuesTagged()
    ensures Tagged(ItemIssues)
  {
    forall p, i, k | 0 <= k < |ItemIssues(p, i)|
      ensures ItemIssues(p, i)[k].BadItem? && ItemIssues(p, i)[k].index == i
    {
      ItemIssuesAbout(p, i);
    }
  }

  /** The `products` block reports only itself or its elements. */
  lemma ProductsIssuesAbout(products: JVal)
    ensures forall x :: x in ProductsIssues(products) ==> x == BadField(Products) || x.BadItem?
  {
    if NonEmptyArray(products) {
      ItemIssuesTagged();
      ItemsIssuesInRange(products.items, ItemIssues);
    }
  }

  /** Element messages come from the `products` block only, never from a field check. */
  lemma FieldPushesNameNoElement(data: JVal, index: nat, a: ItemAspect)
    requires Truthy(data)
    ensures BadItem(index, a) in ReservationIssues(data) <==> BadItem(index, a) in ProductsIssues(Get(data, "products"))
  {
    UserIdTableMeaning(ReservationDataFailures(data));
    FieldTableShape(ReservationDataFailures(data));
  }

  /** A field after the products is reported exactly as the field table reports it. */
  lemma FieldReportedByTable(data: JVal, x: Issue)
    requires Truthy(data) && x.BadField? && x != BadField(UserId) && x != BadField(Products)
    ensures x in ReservationIssues(data) <==> x in Fired(FieldTable(ReservationDataFailures(data)))
  {
    UserIdTableMeaning(ReservationDataFailures(data));
    ProductsIssuesAbout(Get(data, "products"));
  }

  /** A user id that is null, missing, or neither a string nor a number is reported. */
  lemma UserIdReported(data: JVal)
    requires Truthy(data)
    ensures BadField(UserId) in ReservationIssues(data) <==> !StringOrNumber(Get(data, "userId"))
  {
    UserIdTableMeaning(ReservationDataFailures(data));
    ProductsIssuesAbout(Get(data, "products"));
    FieldTableShape(ReservationDataFailures(data));
  }

  /**
   * An element of a non-empty `products` array is reported, under its own
   * index, exactly as its own check reports it.
   */
  lemma ProductReportedAtIndex(data: JVal, index: nat, a: ItemAspect)
    requires Truthy(data) && NonEmptyArray(Get(data, "products")) && index < |Get(data, "products").items|
    ensures BadItem(index, a) in ReservationIssues(data) <==>
      BadItem(index, a) in ItemIssues(Get(data, "products").items[index], index)
  {
    FieldPushesNameNoElement(data, index, a);
    ItemIssuesTagged();
    ItemsIssuesAt(Get(data, "products").items, ItemIssues, index, a);
  }

  /** What the type and id messages mean, for an element that is an object. */
  lemma ItemTypeAndIdMessages(p: JVal, index: nat)
    requires IsNonNullObject(p)
    ensures BadItem(index, BadType) in ItemIssues(p, index) <==> !NonEmptyString(Get(p, "type"))
    ensures BadItem(index, UnknownType) in ItemIssues(p, index) <==>
      Truthy(Get(p, "type")) && !OneOf(Get(p, "type"), ProductTypes)
    ensures BadItem(index, BadId) in ItemIssues(p, index) <==> !(Truthy(Get(p, "id")) && StringOrNumber(Get(p, "id")))
  {
    ItemTableKinds(index, ItemDataFailures(p));
  }

  /** What the quantity and price messages mean, for an element that is an object. */
  lemma ItemNumberMessages(p: JVal, index: nat)
    requires IsNonNullObject(p)
    ensures BadItem(index, BadQuantity) in ItemIssues(p, index) <==> !RequiredAbove(Get(p, "quantity"), 0.0)
    ensures BadItem(index, BadUnitPrice) in ItemIssues(p, index) <==> !RequiredAtLeast(Get(p, "unitPrice"), 0.0)
  {
    ItemTableNumbers(index, ItemDataFailures(p));
  }

  /** An element that is not an object gets that one message and no other. */
  lemma NonObjectItem(p: JVal, index: nat)
    requires !IsNonNullObject(p)
    ensures ItemIssues(p, index) == [BadItem(index, NotAnObject)]
  {
  }

  /** `products` that is not an array, or is empty, gets the one field message and no element messages. */
  lemma ProductsNotAnArray(data: JVal)
    requires Truthy(data) && !NonEmptyArray(Get(data, "products"))
    ensures BadField(Products) in ReservationIssues(data)
    ensures forall i, a :: BadItem(i, a) !in ReservationIssues(data)
  {
    forall i, a ensures BadItem(i, a) !in ReservationIssues(data) {
      FieldPushesNameNoElement(data, i, a);
    }
  }

  /** The pickup date and slot are reported exactly when they are not strings of their shape. */
  lemma FormatsReported(data: JVal)
    requires Truthy(data)
    ensures BadField(PickupDate) in ReservationIssues(data) <==> !DateString(Get(data, "pickupDate"))
    ensures BadField(PickupTimeSlot) in ReservationIssues(data) <==> !SlotString(Get(data, "pickupTimeSlot"))
    ensures BadField(ContactEmail) in ReservationIssues(data) <==> !EmailString(Get(data, "contactEmail"))
  {
    FieldReportedByTable(data, BadField(PickupDate));
    FieldReportedByTable(data, BadField(PickupTimeSlot));
    FieldReportedByTable(data, BadField(ContactEmail));
    FieldTableFormats(ReservationDataFailures(data));
  }

  /** The two amounts are required numbers of at least 0; `ecoPackaging` is a boolean when given. */
  lemma AmountsReported(data: JVal)
    requires Truthy(data)
    ensures BadField(TotalAmount) in ReservationIssues(data) <==> !RequiredAtLeast(Get(data, "totalAmount"), 0.0)
    ensures BadField(Subtotal) in ReservationIssues(data) <==> !RequiredAtLeast(Get(data, "subtotal"), 0.0)
    ensures BadField(EcoPackaging) in ReservationIssues(data) <==> !BooleanIfPresent(Get(data, "ecoPackaging"))
  {
    FieldReportedByTable(data, BadField(TotalAmount));
    FieldReportedByTable(data, BadField(Subtotal));
    FieldReportedByTable(data, BadField(EcoPackaging));
    FieldTableAmounts(ReservationDataFailures(data));
  }

  /** The pickup date is a shape check only: "99-99-99" passes. */
  lemma PickupDateShapeOnly(data: JVal)
    requires Truthy(data) && Get(data, "pickupDate") == Str("99-99-99")
    ensures BadField(PickupDate) !in ReservationIssues(data)
  {
    FormatsReported(data);
    ShapesAreNotRanges();
  }

  /** The pickup slot is a shape check only: "99:99-00:00", which ends before it starts, passes. */
  lemma PickupSlotShapeOnly(data: JVal)
    requires Truthy(data) && Get(data, "pickupTimeSlot") == Str("99:99-00:00")
    ensures BadField(PickupTimeSlot) !in ReservationIssues(data)
  {
    FormatsReported(data);
    ShapesAreNotRanges();
  }

  /** The payment method is required and must be one of the four methods. */
  lemma PaymentMethodRequired(data: JVal)
    requires Truthy(data)
    ensures BadField(PaymentMethod) in ReservationIssues(data) <==> !OneOf(Get(data, "paymentMethod"), PaymentMethods)
  {
    FieldReportedByTable(data, BadField(PaymentMethod));
    FieldTableChoices(ReservationDataFailures(data));
  }

  /** The state is required and must be one of the four states. */
  lemma StateRequired(data: JVal)
    requires Truthy(data)
    ensures BadField(State) in ReservationIssues(data) <==> !OneOf(Get(data, "state"), States)
  {
    FieldReportedByTable(data, BadField(State));
    FieldTableChoices(ReservationDataFailures(data));
  }

  // ---------------------------------------------------------------------
  // validateReservationUpdateData

  /** Which checks of the update callback an object element failed: each field only when given. */
  datatype UpdateItemFailures = UpdateItemFailures(kind: bool, id: bool, quantity: bool, unitPrice: bool)

  /** The `if` blocks of the update callback for the element at `index`, in order. */
  function UpdateItemTable(index: nat, f: UpdateItemFailures): seq<Rule> {
    [Rule(f.kind, BadItem(index, BadType)), Rule(f.id, BadItem(index, BadId)),
     Rule(f.quantity, BadItem(index, BadQuantity)), Rule(f.unitPrice, BadItem(index, BadUnitPrice))]
  }

  function CheckUpdateItemFields(kind: JVal, id: JVal, quantity: JVal, unitPrice: JVal): UpdateItemFailures {
    UpdateItemFailures(!OneOfIfPresent(kind, ProductTypes), !StringOrNumberIfPresent(id),
                       !AboveIfPresent(quantity, 0.0), !AtLeastIfPresent(unitPrice, 0.0))
  }

  function UpdateItemDataFailures(p: JVal): UpdateItemFailures {
    CheckUpdateItemFields(Get(p, "type"), Get(p, "id"), Get(p, "quantity"), Get(p, "unitPrice"))
  }

  /** The check for an element of `products` on update. */
  function UpdateItemIssues(p: JVal, index: nat): seq<Issue> {
    if !IsNonNullObject(p) then [BadItem(index, NotAnObject)]
    else Fired(UpdateItemTable(index, UpdateItemDataFailures(p)))
  }

  method CheckUpdateItem(p: JVal, index: nat) returns (errors: seq<Issue>)
    ensures errors == UpdateItemIssues(p, index)
  {
    errors := [];
    if !IsNonNullObject(p) {
      errors := errors + [BadItem(index, NotAnObject)];
      return;
    }
    var kind, id, quantity, unitPrice := Get(p, "type"), Get(p, "id"), Get(p, "quantity"), Get(p, "unitPrice");
    errors := PushBroken(errors, UpdateItemTable(index, CheckUpdateItemFields(kind, id, quantity, unitPrice)));
  }

  /** Each message of an updated element is pushed exactly when its check failed. */
  lemma UpdateItemTableMeaning(index: nat, f: UpdateItemFailures)
    ensures BadItem(index, BadType) in Fired(UpdateItemTable(index, f)) <==> f.kind
    ensures BadItem(index, BadId) in Fired(UpdateItemTable(index, f)) <==> f.id
    ensures BadItem(index, BadQuantity) in Fired(UpdateItemTable(index, f)) <==> f.quantity
    ensures BadItem(index, BadUnitPrice) in Fired(UpdateItemTable(index, f)) <==> f.unitPrice
  {
    FiredAt(UpdateItemTable(index, f), 0);
    FiredAt(UpdateItemTable(index, f), 1);
    FiredAt(UpdateItemTable(index, f), 2);
    FiredAt(UpdateItemTable(index, f), 3);
  }

  /** An updated element's messages all name that element, and there are none exactly when no check failed. */
  lemma UpdateItemTableShape(index: nat, f: UpdateItemFailures)
    ensures forall x :: x in Fired(UpdateItemTable(index, f)) ==> x.BadItem? && x.index == index
    ensures Fired(UpdateItemTable(index, f)) == [] <==> f == UpdateItemFailures(false, false, false, false)
  {
    forall x | x in Fired(UpdateItemTable(index, f))
      ensures x.BadItem? && x.index == index
    {
      FiredHas(UpdateItemTable(index, f), x);
    }
    FiredNone(UpdateItemTable(index, f));
  }

  /** The `products` block on update: nothing when absent, else as on create with the update element check. */
  function UpdateProductsIssues(products: JVal): seq<Issue> {
    if products.Undef? then []
    else if !NonEmptyArray(products) then [BadField(Products)]
    else ItemsIssues(products.items, UpdateItemIssues)
  }

  method CheckUpdateProducts(products: JVal) returns (errors: seq<Issue>)
    ensures errors == UpdateProductsIssues(products)
  {
    if products.Undef? {
      return [];
    }
    if !NonEmptyArray(products) {
      return [BadField(Products)];
    }
    var items := products.items;
    errors := [];
    var i := 0;
    while i < |items|
      invariant 0 <= i <= |items|
      invariant errors == ItemsIssues(items[..i], UpdateItemIssues)
    {
      var found := CheckUpdateItem(items[i], i);
      assert items[..i + 1][..i] == items[..i];
      errors := errors + found;
      i := i + 1;
    }
    assert items[..|items|] == items;
  }

  /** None of the fourteen recognised fields is defined. */
  predicate NothingSupplied(data: JVal) {
    Get(data, "userId").Undef? && Get(data, "products").Undef? && Get(data, "totalAmount").Undef?
    && Get(data, "pickupDate").Undef? && Get(data, "pickupTimeSlot").Undef? && Get(data, "customerNotes").Undef?
    && Get(data, "contactEmail").Undef? && Get(data, "paymentMethod").Undef? && Get(data, "subtotal").Undef?
    && Get(data, "discount").Undef? && Get(data, "state").Undef? && Get(data, "discountCode").Undef?
    && Get(data, "ecoPackaging").Undef? && Get(data, "cancellationDate").Undef?
  }

  /** `paymentMethod` on update: absent, null, or one of the four methods. */
  predicate PaymentIfPresent(v: JVal) {
    v.Undef? || v.Null? || OneOf(v, PaymentMethods)
  }

  /** `cancellationDate` on update: absent, the empty string, or a DD-MM-YY string. */
  predicate CancellationIfPresent(v: JVal) {
    v.Undef? || v == Str("") || DateString(v)
  }

  /** Which field checks of `validateReservationUpdateData` failed: each field only when given. */
  datatype UpdateFailures = UpdateFailures(
    userId: bool, totalAmount: bool, pickupDate: bool, pickupTimeSlot: bool, customerNotes: bool,
    contactEmail: bool, paymentMethod: bool, subtotal: bool, discount: bool, state: bool,
    discountCode: bool, ecoPackaging: bool, cancellationDate: bool)

  /** The `userId` block of the update, before the `products` block. */
  function UpdateUserIdTable(f: UpdateFailures): seq<Rule> {
    [Rule(f.userId, BadField(UserId))]
  }

  /** The field blocks of the update after the `products` block, in order. */
  function UpdateFieldTable(f: UpdateFailures): seq<Rule> {
    [Rule(f.totalAmount, BadField(TotalAmount)), Rule(f.pickupDate, BadField(PickupDate)),
     Rule(f.pickupTimeSlot, BadField(PickupTimeSlot)), Rule(f.customerNotes, BadField(CustomerNotes)),
     Rule(f.contactEmail, BadField(ContactEmail)), Rule(f.paymentMethod, BadField(PaymentMethod)),
     Rule(f.subtotal, BadField(Subtotal)), Rule(f.discount, BadField(Discount)),
     Rule(f.state, BadField(State)), Rule(f.discountCode, BadField(DiscountCode)),
     Rule(f.ecoPackaging, BadField(EcoPackaging)), Rule(f.cancellationDate, BadField(CancellationDate))]
  }

  /** The field checks of `validateReservationUpdateData` on the destructured fields. */
  function CheckUpdate(userId: JVal, totalAmount: JVal, pickupDate: JVal, pickupTimeSlot: JVal,
                       customerNotes: JVal, contactEmail: JVal, paymentMethod: JVal, subtotal: JVal,
                       discount: JVal, state: JVal, discountCode: JVal, ecoPackaging: JVal,
                       cancellationDate: JVal): UpdateFailures {
    UpdateFailures(!StringOrNumberIfPresent(userId), !AtLeastIfPresent(totalAmount, 0.0),
                   !DateIfPresent(pickupDate), !SlotIfPresent(pickupTimeSlot), !StringIfPresent(customerNotes),
                   !EmailIfPresent(contactEmail), !PaymentIfPresent(paymentMethod),
                   !AtLeastIfPresent(subtotal, 0.0), !AtLeastIfPresent(discount, 0.0),
                   !OneOfIfPresent(state, States), !StringIfPresent(discountCode),
                   !BooleanIfPresent(ecoPackaging), !CancellationIfPresent(cancellationDate))
  }

  function UpdateDataFailures(data: JVal): UpdateFailures {
    CheckUpdate(Get(data, "userId"), Get(data, "totalAmount"), Get(data, "pickupDate"),
                Get(data, "pickupTimeSlot"), Get(data, "customerNotes"), Get(data, "contactEmail"),
                Get(data, "paymentMethod"), Get(data, "subtotal"), Get(data, "discount"), Get(data, "state"),
                Get(data, "discountCode"), Get(data, "ecoPackaging"), Get(data, "cancellationDate"))
  }

  /** The errors `validateReservationUpdateData` pushes once something was supplied. */
  function UpdateIssues(data: JVal): seq<Issue> {
    var f := UpdateDataFailures(data);
    Fired(UpdateUserIdTable(f)) + UpdateProductsIssues(Get(data, "products")) + Fired(UpdateFieldTable(f))
  }

  /** Destructuring null or undefined throws; otherwise the message or the checked list. */
  function UpdateVerdict(data: JVal): Verdict {
    if IsNullish(data) then Crash(TypeErrorText)
    else if NothingSupplied(data) then NothingToUpdate(NothingMessage)
    else Checked(UpdateIssues(data))
  }

  method ValidateReservationUpdateData(data: JVal) returns (v: Verdict)
    ensures v == UpdateVerdict(data)
  {
    if IsNullish(data) {
      return Crash(TypeErrorText);
    }
    var userId, products, totalAmount := Get(data, "userId"), Get(data, "products"), Get(data, "totalAmount");
    var pickupDate, pickupTimeSlot, customerNotes := Get(data, "pickupDate"), Get(data, "pickupTimeSlot"), Get(data, "customerNotes");
    var contactEmail, paymentMethod, subtotal := Get(data, "contactEmail"), Get(data, "paymentMethod"), Get(data, "subtotal");
    var discount, state, discountCode := Get(data, "discount"), Get(data, "state"), Get(data, "discountCode");
    var ecoPackaging, cancellationDate := Get(data, "ecoPackaging"), Get(data, "cancellationDate");
    var errors: seq<Issue> := [];
    if NothingSupplied(data) {
      return NothingToUpdate(NothingMessage);
    }
    var f := CheckUpdate(userId, totalAmount, pickupDate, pickupTimeSlot, customerNotes, contactEmail,
                         paymentMethod, subtotal, discount, state, discountCode, ecoPackaging, cancellationDate);
    assert f == UpdateDataFailures(data);
    errors := PushBroken(errors, UpdateUserIdTable(f));
    assert errors == Fired(UpdateUserIdTable(f));
    var productErrors := CheckUpdateProducts(products);
    errors := errors + productErrors;
    errors := PushBroken(errors, UpdateFieldTable(f));
    assert errors == UpdateIssues(data);
    return Checked(errors);
  }

  /** The update's `userId` message is pushed exactly when its check failed, and it is the only message of its block. */
  lemma UpdateUserIdTableMeaning(f: UpdateFailures)
    ensures forall x :: x in Fired(UpdateUserIdTable(f)) <==> f.userId && x == BadField(UserId)
    ensures Fired(UpdateUserIdTable(f)) == [] <==> !f.userId
  {
    forall x ensures x in Fired(UpdateUserIdTable(f)) <==> f.userId && x == BadField(UserId) {
      FiredHas(UpdateUserIdTable(f), x);
    }
    FiredNone(UpdateUserIdTable(f));
  }

  /** Each update field message after the products is pushed exactly when its check failed: the payment method and the state, */
  lemma UpdateFieldTableChoices(f: UpdateFailures)
    ensures BadField(PaymentMethod) in Fired(UpdateFieldTable(f)) <==> f.paymentMethod
    ensures BadField(State) in Fired(UpdateFieldTable(f)) <==> f.state
  {
    FiredAt(UpdateFieldTable(f), 5);
    FiredAt(UpdateFieldTable(f), 8);
  }

  /** the cancellation date and the pickup date. */
  lemma UpdateFieldTableDates(f: UpdateFailures)
    ensures BadField(CancellationDate) in Fired(UpdateFieldTable(f)) <==> f.cancellationDate
    ensures BadField(PickupDate) in Fired(UpdateFieldTable(f)) <==> f.pickupDate
  {
    FiredAt(UpdateFieldTable(f), 11);
    FiredAt(UpdateFieldTable(f), 1);
  }

  /**
   * The update's field blocks after the products report fields other than
   * `userId` and `products` only, and nothing exactly when none of them failed.
   */
  lemma UpdateFieldTableShape(f: UpdateFailures)
    ensures forall x :: x in Fired(UpdateFieldTable(f)) ==> x.BadField? && x != BadField(UserId) && x != BadField(Products)
    ensures Fired(UpdateFieldTable(f)) == [] <==>
      !f.totalAmount && !f.pickupDate && !f.pickupTimeSlot && !f.customerNotes && !f.contactEmail
      && !f.paymentMethod && !f.subtotal && !f.discount && !f.state && !f.discountCode
      && !f.ecoPackaging && !f.cancellationDate
  {
    forall x | x in Fired(UpdateFieldTable(f))
      ensures x.BadField? && x != BadField(UserId) && x != BadField(Products)
    {
      FiredHas(UpdateFieldTable(f), x);
    }
    FiredNone(UpdateFieldTable(f));
  }

  /** An element of an update may hold: an object whose given fields each pass their rule. */
  predicate UpdateItemAcceptable(p: JVal) {
    IsNonNullObject(p)
    && OneOfIfPresent(Get(p, "type"), ProductTypes)
    && StringOrNumberIfPresent(Get(p, "id"))
    && AboveIfPresent(Get(p, "quantity"), 0.0)
    && AtLeastIfPresent(Get(p, "unitPrice"), 0.0)
  }

  lemma UpdateItemIssuesEmptyIff(p: JVal, index: nat)
    ensures UpdateItemIssues(p, index) == [] <==> UpdateItemAcceptable(p)
  {
    UpdateItemTableShape(index, UpdateItemDataFailures(p));
  }

  /** What each message of an updated element means, for an element that is an object. */
  lemma UpdateItemMessages(p: JVal, index: nat)
    requires IsNonNullObject(p)
    ensures BadItem(index, BadType) in UpdateItemIssues(p, index) <==> !OneOfIfPresent(Get(p, "type"), ProductTypes)
    ensures BadItem(index, BadId) in UpdateItemIssues(p, index) <==> !StringOrNumberIfPresent(Get(p, "id"))
    ensures BadItem(index, BadQuantity) in UpdateItemIssues(p, index) <==> !AboveIfPresent(Get(p, "quantity"), 0.0)
    ensures BadItem(index, BadUnitPrice) in UpdateItemIssues(p, index) <==> !AtLeastIfPresent(Get(p, "unitPrice"), 0.0)
  {
    UpdateItemTableMeaning(index, UpdateItemDataFailures(p));
  }

  /** Absent, or a non-empty array of acceptable elements. */
  predicate UpdateProductsAcceptable(products: JVal) {
    products.Undef?
    || (NonEmptyArray(products) && forall i :: 0 <= i < |products.items| ==> UpdateItemAcceptable(products.items[i]))
  }

  lemma UpdateProductsIssuesEmptyIff(products: JVal)
    ensures UpdateProductsIssues(products) == [] <==> UpdateProductsAcceptable(products)
  {
    if NonEmptyArray(products) {
      ItemsIssuesEmpty(products.items, UpdateItemIssues);
      forall i | 0 <= i < |products.items|
        ensures UpdateItemIssues(products.items[i], i) == [] <==> UpdateItemAcceptable(products.items[i])
      {
        UpdateItemIssuesEmptyIff(products.items[i], i);
      }
    }
  }

  /** What an update may be, once something was supplied: every field that was sent passes its rule. */
  predicate UpdateAcceptable(data: JVal) {
    StringOrNumberIfPresent(Get(data, "userId"))
    && UpdateProductsAcceptable(Get(data, "products"))
    && AtLeastIfPresent(Get(data, "totalAmount"), 0.0)
    && DateIfPresent(Get(data, "pickupDate"))
    && SlotIfPresent(Get(data, "pickupTimeSlot"))
    && StringIfPresent(Get(data, "customerNotes"))
    && EmailIfPresent(Get(data, "contactEmail"))
    && PaymentIfPresent(Get(data, "paymentMethod"))
    && AtLeastIfPresent(Get(data, "subtotal"), 0.0)
    && AtLeastIfPresent(Get(data, "discount"), 0.0)
    && OneOfIfPresent(Get(data, "state"), States)
    && StringIfPresent(Get(data, "discountCode"))
    && BooleanIfPresent(Get(data, "ecoPackaging"))
    && CancellationIfPresent(Get(data, "cancellationDate"))
  }

  /** Once something was supplied, the update passes exactly when every field that was sent passes its rule. */
  lemma UpdateDataValidIff(data: JVal)
    requires !IsNullish(data) && !NothingSupplied(data)
    ensures UpdateVerdict(data).Verdict?
    ensures UpdateVerdict(data).valid <==> UpdateAcceptable(data)
  {
    var f := UpdateDataFailures(data);
    UpdateUserIdTableMeaning(f);
    UpdateProductsIssuesEmptyIff(Get(data, "products"));
    UpdateFieldTableShape(f);
  }

  /** With none of the fourteen fields the answer is the message, with no list of errors. */
  lemma NothingSuppliedGivesMessage(data: JVal)
    requires !IsNullish(data) && NothingSupplied(data)
    ensures UpdateVerdict(data) == NothingToUpdate(NothingMessage)
  {
  }

  lemma UpdateItemIssuesAbout(p: JVal, index: nat)
    ensures forall x :: x in UpdateItemIssues(p, index) ==> x.BadItem? && x.index == index
  {
    UpdateItemTableShape(index, UpdateItemDataFailures(p));
  }

  lemma UpdateItemIssuesTagged()
    ensures Tagged(UpdateItemIssues)
  {
    forall p, i, k | 0 <= k < |UpdateItemIssues(p, i)|
      ensures UpdateItemIssues(p, i)[k].BadItem? && UpdateItemIssues(p, i)[k].index == i
    {
      UpdateItemIssuesAbout(p, i);
    }
  }

  /** The `products` block of an update reports only itself or its elements. */
  lemma UpdateProductsIssuesAbout(products: JVal)
    ensures forall x :: x in UpdateProductsIssues(products) ==> x == BadField(Products) || x.BadItem?
  {
    if NonEmptyArray(products) {
      UpdateItemIssuesTagged();
      ItemsIssuesInRange(products.items, UpdateItemIssues);
    }
  }

  /** A field after the products is reported exactly as the update's field table reports it. */
  lemma UpdateFieldReportedByTable(data: JVal, x: Issue)
    requires x.BadField? && x != BadField(UserId) && x != BadField(Products)
    ensures x in UpdateIssues(data) <==> x in Fired(UpdateFieldTable(UpdateDataFailures(data)))
  {
    UpdateUserIdTableMeaning(UpdateDataFailures(data));
    UpdateProductsIssuesAbout(Get(data, "products"));
  }

  /** Absent products draw no message at all: only fields are then reported. */
  lemma AbsentProductsPass(data: JVal)
    requires Get(data, "products").Undef?
    ensures forall x :: x in UpdateIssues(data) ==> x.BadField? && x != BadField(Products)
  {
    UpdateUserIdTableMeaning(UpdateDataFailures(data));
    UpdateFieldTableShape(UpdateDataFailures(data));
  }

  /** A user id that was not sent is not reported. */
  lemma AbsentUserIdPasses(data: JVal)
    requires Get(data, "userId").Undef?
    ensures BadField(UserId) !in UpdateIssues(data)
  {
    UpdateUserIdTableMeaning(UpdateDataFailures(data));
    UpdateProductsIssuesAbout(Get(data, "products"));
    UpdateFieldTableShape(UpdateDataFailures(data));
  }

  /**
   * A null payment method passes on update, where null is in the list of
   * methods, while create requires one of the four methods.
   */
  lemma NullPaymentOnlyPassesUpdate(data: JVal)
    requires Truthy(data) && Get(data, "paymentMethod") == Null
    ensures BadField(PaymentMethod) !in UpdateIssues(data)
    ensures BadField(PaymentMethod) in ReservationIssues(data)
  {
    UpdateFieldReportedByTable(data, BadField(PaymentMethod));
    UpdateFieldTableChoices(UpdateDataFailures(data));
    PaymentMethodRequired(data);
  }

  /** An empty cancellation date passes on update; a non-empty one must be a DD-MM-YY string. */
  lemma CancellationReported(data: JVal)
    ensures BadField(CancellationDate) in UpdateIssues(data) <==> !CancellationIfPresent(Get(data, "cancellationDate"))
    ensures Get(data, "cancellationDate") == Str("") ==> BadField(CancellationDate) !in UpdateIssues(data)
  {
    UpdateFieldReportedByTable(data, BadField(CancellationDate));
    UpdateFieldTableDates(UpdateDataFailures(data));
  }

  /** A supplied state is checked against the same list as on create. */
  lemma UpdateStateReported(data: JVal)
    requires Present(Get(data, "state"))
    ensures BadField(State) in UpdateIssues(data) <==> !OneOf(Get(data, "state"), States)
  {
    UpdateFieldReportedByTable(data, BadField(State));
    UpdateFieldTableChoices(UpdateDataFailures(data));
  }

  // ---------------------------------------------------------------------
  // prepareProducts and the guarded writes

  /**
   * The data `createReservation` hands to the model: reading `data.products`
   * of null or undefined throws; an object's array `products` is replaced by
   * `prepareProducts(products)`; anything else goes on untouched.
   */
  function Prepared(data: JVal): Outcome<JVal> {
    if IsNullish(data) then Throw(TypeErrorText)
    else if !data.Obj? then Return(data)
    else match RewriteItems(data.fields, "products", PrepareProduct)
      case Throw(m) => Throw(m)
      case Return(fields) => Return(Obj(fields))
  }

  /** What `updateReservation` hands to the model: as for create, but an empty `products` array is refused first. */
  function UpdatePrepared(updateData: JVal): Outcome<JVal> {
    if !IsNullish(updateData) && Get(updateData, "products") == Arr([]) then Throw(EmptyProductsMessage)
    else Prepared(updateData)
  }

  /** `getReservationById`: the model's answer, with a miss turned into the "not found" exception. */
  method GetReservationById(c: Collection, id: string) returns (r: Outcome<JVal>)
    requires c.name == Model.CollectionName
    ensures ByKey(c.docs, c.available, id) == Null ==> r == Throw(NotFoundMessage)
    ensures ByKey(c.docs, c.available, id) != Null ==> r == Return(Obj(WithId(PathOf(id), DataAt(c.docs, PathOf(id)))))
  {
    var reservation := Model.GetReservationById(c, id);
    if !Truthy(reservation) {
      return Throw(NotFoundMessage);
    }
    r := Return(reservation);
  }

  /**
   * `createReservation`: the products prepared, then the model's create;
   * any exception on the way comes out prefixed with "Error creando reserva: ".
   */
  method CreateReservation(c: Collection, data: JVal) returns (r: Outcome<JVal>)
    requires c.name == Model.CollectionName && c.Valid()
    modifies c
    ensures c.Valid()
    ensures Prepared(data).Throw? ==> r == Throw(CreatePrefix + Prepared(data).message) && c.docs == old(c.docs)
    ensures Prepared(data).Return? ==>
      var w := Model.Written(Prepared(data).value);
      if old(c.available) && w.Some? && Writable(w.value) then
        AddedOne(old(c.docs), c.docs, w.value) && r == Return(Obj(WithId(NewKey(old(c.docs), c.docs), w.value)))
      else r == Throw(CreatePrefix + Model.CreateFailedMessage) && c.docs == old(c.docs)
  {
    if IsNullish(data) {
      return Throw(CreatePrefix + TypeErrorText);
    }
    var d := data;
    var products := Get(data, "products");
    if Truthy(products) && products.Arr? {
      var prepared := PrepareProducts(products.items);
      if prepared.Throw? {
        assert Prepared(data) == Throw(prepared.message);
        return Throw(CreatePrefix + prepared.message);
      }
      d := Obj(data.fields["products" := Arr(prepared.value)]);
    }
    assert Prepared(data) == Return(d);
    var created := Model.CreateReservation(c, d);
    if created.Throw? {
      return Throw(CreatePrefix + created.message);
    }
    r := created;
  }

  /**
   * `updateReservation`: a direct-key read first, which throws on a miss
   * before anything is written; then the empty-array rule and the products
   * prepared; then the model's update. Because the key was just found, the
   * model's fallback scan is never taken and the merge lands on the key itself.
   */
  method UpdateReservation(c: Collection, id: string, updateData: JVal) returns (r: Outcome<JVal>)
    requires c.name == Model.CollectionName && c.Valid()
    modifies c
    ensures c.Valid()
    ensures ByKey(old(c.docs), old(c.available), id) == Null ==> r == Throw(NotFoundMessage) && c.docs == old(c.docs)
    ensures ByKey(old(c.docs), old(c.available), id) != Null && UpdatePrepared(updateData).Throw? ==>
      r == Throw(UpdatePrepared(updateData).message) && c.docs == old(c.docs)
    ensures ByKey(old(c.docs), old(c.available), id) != Null && UpdatePrepared(updateData).Return? ==>
      var w := Model.Written(UpdatePrepared(updateData).value);
      r.Return? &&
      if w.Some? && Updatable(w.value) then MergedAt(old(c.docs), c.docs, PathOf(id), w.value, r.value)
      else c.docs == old(c.docs) && r.value == Null
  {
    var existing := Model.GetReservationById(c, id);
    if !Truthy(existing) {
      return Throw(NotFoundMessage);
    }
    assert Locate(c.docs, c.available, id) == At(PathOf(id));
    var prepared := PrepareUpdate(updateData);
    if prepared.Throw? {
      return Throw(prepared.message);
    }
    var d := prepared.value;
    var updated := Model.UpdateReservation(c, id, d);
    r := Return(updated);
  }

  /**
   * The steps of `updateReservation` between the direct-key read and the
   * model's update: reading `updateData.products` of null or undefined
   * throws, an empty `products` array is refused, and the items are prepared.
   */
  method PrepareUpdate(updateData: JVal) returns (o: Outcome<JVal>)
    ensures o == UpdatePrepared(updateData)
  {
    if IsNullish(updateData) {
      return Throw(TypeErrorText);
    }
    var d := updateData;
    var products := Get(updateData, "products");
    if Truthy(products) && products.Arr? {
      if |products.items| == 0 {
        assert products == Arr([]);
        return Throw(EmptyProductsMessage);
      }
      var prepared := PrepareProducts(products.items);
      if prepared.Throw? {
        assert UpdatePrepared(updateData) == Throw(prepared.message);
        return Throw(prepared.message);
      }
      d := Obj(updateData.fields["products" := Arr(prepared.value)]);
    }
    o := Return(d);
  }

  /** `deleteReservation`: throws on a miss before deleting; the model's "not found" reply is never reached from here. */
  method DeleteReservation(c: Collection, id: string) returns (r: Outcome<JVal>)
    requires c.name == Model.CollectionName && c.Valid()
    modifies c
    ensures c.Valid()
    ensures ByKey(old(c.docs), old(c.available), id) == Null ==> r == Throw(NotFoundMessage) && c.docs == old(c.docs)
    ensures ByKey(old(c.docs), old(c.available), id) != Null ==>
      r == Return(Obj(DataAt(old(c.docs), PathOf(id)))) && c.docs == Removed(old(c.docs), PathOf(id))
  {
    var existing := Model.GetReservationById(c, id);
    if !Truthy(existing) {
      return Throw(NotFoundMessage);
    }
    var deleted := Model.DeleteReservation(c, id);
    r := Return(deleted);
  }

  /**
   * A reservation whose products all have a known type but one of which has
   * a numeric id (which both validators accept) is never stored: the
   * prepared item has no document reference, so the model's create throws.
   */
  lemma NumericProductIdFailsCreate(data: JVal, k: nat)
    requires data.Obj? && Get(data, "products").Arr?
    requires forall i :: 0 <= i < |Get(data, "products").items| ==> KnownItem(Get(data, "products").items[i])
    requires k < |Get(data, "products").items| && Get(Get(data, "products").items[k], "id").Num?
    ensures Prepared(data).Return?
    ensures Model.Written(Prepared(data).value).None?
  {
    var items := Get(data, "products").items;
    PrepareProductsMeaning(items);
    var out := PrepareProducts(items).value;
    NumericIdHasNoRef(items[k]);
    assert out[k] == PrepareProduct(items[k]).value;
    assert RewriteItems(data.fields, "products", PrepareProduct) == Return(data.fields["products" := Arr(out)]);
    var d := Prepared(data).value;
    assert d.fields["products"] == Arr(out);
    assert !Model.ProductRecord(out[k]).Return?;
    assert MapOrThrow(out, Model.ProductRecord).Throw?;
  }
}
