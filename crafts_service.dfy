/** `src/services/craftsProducts.service.js`: validation, search and the guarded writes for craft products. */
module CraftsProductsService {
  import opened Json
  import opened Validation
  import opened Formats
  import opened Store
  import opened Documents
  import opened Search
  import Model = CraftsProductsModel

  const NotFoundMessage := "Producto no encontrado"
  const NoMatchMessage := "No se encontraron productos con ese nombre"
  const NothingMessage := "Debes proporcionar al menos un campo para actualizar"

  // ---------------------------------------------------------------------
  // validateProductData

  /**
   * Which checks of `validateProductData` failed. The creation date has an
   * `if / else if` pair: its shape is only checked on a non-empty string.
   */
  datatype CreateFailures = CreateFailures(name: bool, brandArtist: bool, dateMissing: bool, dateShape: bool,
                                           description: bool, ecoFriendly: bool, price: bool, stock: bool)

  /** The `if` blocks of `validateProductData`, in order. */
  function CreateTable(f: CreateFailures): seq<Rule> {
    [Rule(f.name, BadField(Name)), Rule(f.brandArtist, BadField(BrandArtist)),
     Rule(f.dateMissing, BadField(CreationDate)), Rule(f.dateShape, BadShape(CreationDate)),
     Rule(f.description, BadField(Description)), Rule(f.ecoFriendly, BadField(EcoFriendly)),
     Rule(f.price, BadField(Price)), Rule(f.stock, BadField(Stock))]
  }

  /** The checks of `validateProductData` on the fields it destructures. */
  function CheckCreate(name: JVal, brandArtist: JVal, creationDate: JVal, description: JVal,
                       ecoFriendly: JVal, price: JVal, stock: JVal): CreateFailures {
    CreateFailures(!TrimmedAtLeast(name, 1), !TrimmedAtLeast(brandArtist, 1),
                   !NonEmptyString(creationDate), NonEmptyString(creationDate) && !DateString(creationDate),
                   !TrimmedAtLeast(description, 1), !BooleanIfPresent(ecoFriendly),
                   !RequiredAbove(price, 0.0), !RequiredAtLeast(stock, 0.0))
  }

  function ProductDataFailures(data: JVal): CreateFailures {
    CheckCreate(Get(data, "name"), Get(data, "brandArtist"), Get(data, "creationDate"), Get(data, "description"),
                Get(data, "ecoFriendly"), Get(data, "price"), Get(data, "stock"))
  }

  /** The errors `validateProductData` pushes, in order. */
  function ProductDataIssues(data: JVal): seq<Issue> {
    if !Truthy(data) then [NoData] else Fired(CreateTable(ProductDataFailures(data)))
  }

  method ValidateProductData(data: JVal) returns (v: Verdict)
    ensures v == Checked(ProductDataIssues(data))
  {
    var errors: seq<Issue> := [];
    if !Truthy(data) {
      errors := errors + [NoData];
      return Checked(errors);
    }
    var name, brandArtist, creationDate := Get(data, "name"), Get(data, "brandArtist"), Get(data, "creationDate");
    var description, ecoFriendly := Get(data, "description"), Get(data, "ecoFriendly");
    var price, stock := Get(data, "price"), Get(data, "stock");
    errors := PushBroken(errors, CreateTable(CheckCreate(name, brandArtist, creationDate, description, ecoFriendly, price, stock)));
    return Checked(errors);
  }

  /** Each message of the create table is pushed exactly when its check failed: the text fields, */
  lemma CreateTableText(f: CreateFailures)
    ensures BadField(Name) in Fired(CreateTable(f)) <==> f.name
    ensures BadField(BrandArtist) in Fired(CreateTable(f)) <==> f.brandArtist
    ensures BadField(Description) in Fired(CreateTable(f)) <==> f.description
  {
    FiredAt(CreateTable(f), 0);
    FiredAt(CreateTable(f), 1);
    FiredAt(CreateTable(f), 4);
  }

  /** the creation date's two messages, */
  lemma CreateTableDate(f: CreateFailures)
    ensures BadField(CreationDate) in Fired(CreateTable(f)) <==> f.dateMissing
    ensures BadShape(CreationDate) in Fired(CreateTable(f)) <==> f.dateShape
  {
    FiredAt(CreateTable(f), 2);
    FiredAt(CreateTable(f), 3);
  }

  /** and the numbers; no stock ceiling is part of the create table. */
  lemma CreateTableNumbers(f: CreateFailures)
    ensures BadField(Price) in Fired(CreateTable(f)) <==> f.price
    ensures BadField(Stock) in Fired(CreateTable(f)) <==> f.stock
    ensures StockOverTen !in Fired(CreateTable(f))
  {
    FiredAt(CreateTable(f), 6);
    FiredAt(CreateTable(f), 7);
    FiredHas(CreateTable(f), StockOverTen);
  }

  /** Nothing is pushed exactly when no check failed. */
  lemma CreateTableEmpty(f: CreateFailures)
    ensures Fired(CreateTable(f)) == [] <==> f == CreateFailures(false, false, false, false, false, false, false, false)
  {
    FiredNone(CreateTable(f));
  }

  /**
   * What a new craft product must be: a non-blank name, maker and
   * description, a DD-MM-YY creation date, a boolean `ecoFriendly` when
   * given, a positive price and a stock of at least 0.
   */
  predicate ProductAcceptable(data: JVal) {
    Truthy(data)
    && TrimmedAtLeast(Get(data, "name"), 1)
    && TrimmedAtLeast(Get(data, "brandArtist"), 1)
    && DateString(Get(data, "creationDate"))
    && TrimmedAtLeast(Get(data, "description"), 1)
    && BooleanIfPresent(Get(data, "ecoFriendly"))
    && RequiredAbove(Get(data, "price"), 0.0)
    && RequiredAtLeast(Get(data, "stock"), 0.0)
  }

  /** The data passes exactly when it is acceptable. */
  lemma ProductDataValidIff(data: JVal)
    ensures Checked(ProductDataIssues(data)).valid <==> ProductAcceptable(data)
  {
    CreateTableEmpty(ProductDataFailures(data));
  }

  /** Missing data is reported alone. */
  lemma NoProductData(data: JVal)
    requires !Truthy(data)
    ensures ProductDataIssues(data) == [NoData]
  {
  }

  /** A creation date that is missing, empty or not a string gets the first message. */
  lemma CreationDateMissingReported(data: JVal)
    requires Truthy(data)
    ensures BadField(CreationDate) in ProductDataIssues(data) <==> !NonEmptyString(Get(data, "creationDate"))
  {
    CreateTableDate(ProductDataFailures(data));
  }

  /** A non-empty string of the wrong shape gets the shape message instead. */
  lemma CreationDateShapeReported(data: JVal)
    requires Truthy(data)
    ensures BadShape(CreationDate) in ProductDataIssues(data) <==>
      NonEmptyString(Get(data, "creationDate")) && !DateShape(Get(data, "creationDate").s)
  {
    CreateTableDate(ProductDataFailures(data));
  }

  /** The two numeric fields are reported exactly when they break their bound. */
  lemma NumbersReported(data: JVal)
    requires Truthy(data)
    ensures BadField(Price) in ProductDataIssues(data) <==> !RequiredAbove(Get(data, "price"), 0.0)
    ensures BadField(Stock) in ProductDataIssues(data) <==> !RequiredAtLeast(Get(data, "stock"), 0.0)
  {
    CreateTableNumbers(ProductDataFailures(data));
  }

  /** The text fields are reported exactly when they are not non-blank strings. */
  lemma TextFieldsReported(data: JVal)
    requires Truthy(data)
    ensures BadField(Name) in ProductDataIssues(data) <==> !TrimmedAtLeast(Get(data, "name"), 1)
    ensures BadField(BrandArtist) in ProductDataIssues(data) <==> !TrimmedAtLeast(Get(data, "brandArtist"), 1)
    ensures BadField(Description) in ProductDataIssues(data) <==> !TrimmedAtLeast(Get(data, "description"), 1)
  {
    CreateTableText(ProductDataFailures(data));
  }

  // ---------------------------------------------------------------------
  // validateUpdateData

  /** `!name && !brandArtist && !creationDate && !description && ecoFriendly === undefined && !price && stock === undefined`. */
  predicate NothingSupplied(data: JVal) {
    !Truthy(Get(data, "name")) && !Truthy(Get(data, "brandArtist")) && !Truthy(Get(data, "creationDate"))
    && !Truthy(Get(data, "description")) && Get(data, "ecoFriendly").Undef?
    && !Truthy(Get(data, "price")) && Get(data, "stock").Undef?
  }

  /** `stock !== undefined && stock > 10`: the comparison converts the stock to a number. */
  predicate StockAboveTen(v: JVal) {
    Present(v) && NumberAbove(v, 10.0)
  }

  /**
   * Which checks of `validateUpdateData` failed. Both the creation date and
   * the stock have an `if / else if` pair: the second test only runs when
   * the first passed.
   */
  datatype UpdateFailures = UpdateFailures(name: bool, brandArtist: bool, dateType: bool, dateShape: bool,
                                           description: bool, ecoFriendly: bool, price: bool, stock: bool,
                                           stockCeiling: bool)

  /** The `if` blocks `validateUpdateData` runs once something was supplied, in order. */
  function UpdateTable(f: UpdateFailures): seq<Rule> {
    [Rule(f.name, BadField(Name)), Rule(f.brandArtist, BadField(BrandArtist)),
     Rule(f.dateType, BadField(CreationDate)), Rule(f.dateShape, BadShape(CreationDate)),
     Rule(f.description, BadField(Description)), Rule(f.ecoFriendly, BadField(EcoFriendly)),
     Rule(f.price, BadField(Price)), Rule(f.stock, BadField(Stock)), Rule(f.stockCeiling, StockOverTen)]
  }

  /** The checks of `validateUpdateData` on the fields it destructures. */
  function CheckUpdate(name: JVal, brandArtist: JVal, creationDate: JVal, description: JVal,
                       ecoFriendly: JVal, price: JVal, stock: JVal): UpdateFailures {
    UpdateFailures(!TrimmedIfPresent(name, 1), !TrimmedIfPresent(brandArtist, 1),
                   !StringIfPresent(creationDate), StringIfPresent(creationDate) && !DateIfPresent(creationDate),
                   !TrimmedIfPresent(description, 1), !BooleanIfPresent(ecoFriendly),
                   !AboveIfPresent(price, 0.0), !AtLeastIfPresent(stock, 0.0),
                   AtLeastIfPresent(stock, 0.0) && StockAboveTen(stock))
  }

  function UpdateDataFailures(data: JVal): UpdateFailures {
    CheckUpdate(Get(data, "name"), Get(data, "brandArtist"), Get(data, "creationDate"), Get(data, "description"),
                Get(data, "ecoFriendly"), Get(data, "price"), Get(data, "stock"))
  }

  /** The errors `validateUpdateData` pushes once something was supplied. */
  function UpdateIssues(data: JVal): seq<Issue> {
    Fired(UpdateTable(UpdateDataFailures(data)))
  }

  /** Destructuring null or undefined throws; otherwise the answer is the message or the checked list. */
  function UpdateVerdict(data: JVal): Verdict {
    if IsNullish(data) then Crash(TypeErrorText)
    else if NothingSupplied(data) then NothingToUpdate(NothingMessage)
    else Checked(UpdateIssues(data))
  }

  method ValidateUpdateData(data: JVal) returns (v: Verdict)
    ensures v == UpdateVerdict(data)
  {
    if IsNullish(data) {
      return Crash(TypeErrorText);
    }
    var name, brandArtist, creationDate := Get(data, "name"), Get(data, "brandArtist"), Get(data, "creationDate");
    var description, ecoFriendly := Get(data, "description"), Get(data, "ecoFriendly");
    var price, stock := Get(data, "price"), Get(data, "stock");
    var errors: seq<Issue> := [];
    if NothingSupplied(data) {
      return NothingToUpdate(NothingMessage);
    }
    errors := PushBroken(errors, UpdateTable(CheckUpdate(name, brandArtist, creationDate, description, ecoFriendly, price, stock)));
    return Checked(errors);
  }

  /** Each message of the update table is pushed exactly when its check failed: the text fields, */
  lemma UpdateTableText(f: UpdateFailures)
    ensures BadField(Name) in Fired(UpdateTable(f)) <==> f.name
    ensures BadField(BrandArtist) in Fired(UpdateTable(f)) <==> f.brandArtist
    ensures BadField(Description) in Fired(UpdateTable(f)) <==> f.description
  {
    FiredAt(UpdateTable(f), 0);
    FiredAt(UpdateTable(f), 1);
    FiredAt(UpdateTable(f), 4);
  }

  /** the creation date's two messages, */
  lemma UpdateTableDate(f: UpdateFailures)
    ensures BadField(CreationDate) in Fired(UpdateTable(f)) <==> f.dateType
    ensures BadShape(CreationDate) in Fired(UpdateTable(f)) <==> f.dateShape
  {
    FiredAt(UpdateTable(f), 2);
    FiredAt(UpdateTable(f), 3);
  }

  /** and the stock's two messages. */
  lemma UpdateTableStock(f: UpdateFailures)
    ensures BadField(Stock) in Fired(UpdateTable(f)) <==> f.stock
    ensures StockOverTen in Fired(UpdateTable(f)) <==> f.stockCeiling
  {
    FiredAt(UpdateTable(f), 7);
    FiredAt(UpdateTable(f), 8);
  }

  /** Nothing is pushed exactly when no check failed. */
  lemma UpdateTableEmpty(f: UpdateFailures)
    ensures Fired(UpdateTable(f)) == [] <==>
      f == UpdateFailures(false, false, false, false, false, false, false, false, false)
  {
    FiredNone(UpdateTable(f));
  }

  /** What an update must be once something was supplied; a supplied stock must also be at most 10. */
  predicate UpdateAcceptable(data: JVal) {
    TrimmedIfPresent(Get(data, "name"), 1)
    && TrimmedIfPresent(Get(data, "brandArtist"), 1)
    && DateIfPresent(Get(data, "creationDate"))
    && TrimmedIfPresent(Get(data, "description"), 1)
    && BooleanIfPresent(Get(data, "ecoFriendly"))
    && AboveIfPresent(Get(data, "price"), 0.0)
    && AtLeastIfPresent(Get(data, "stock"), 0.0)
    && !StockAboveTen(Get(data, "stock"))
  }

  /** Once something was supplied, the update passes exactly when it is acceptable. */
  lemma UpdateDataValidIff(data: JVal)
    requires !IsNullish(data) && !NothingSupplied(data)
    ensures UpdateVerdict(data).Verdict?
    ensures UpdateVerdict(data).valid <==> UpdateAcceptable(data)
  {
    UpdateTableEmpty(UpdateDataFailures(data));
  }

  /** Sending nothing usable gives the message, not a list of errors. */
  lemma NothingSuppliedGivesMessage(data: JVal)
    requires !IsNullish(data) && NothingSupplied(data)
    ensures UpdateVerdict(data) == NothingToUpdate(NothingMessage)
  {
  }

  /** A field that was not sent is never reported: the name, the creation date and the stock under either message. */
  lemma AbsentFieldsPass(data: JVal)
    ensures Get(data, "name").Undef? ==> BadField(Name) !in UpdateIssues(data)
    ensures Get(data, "creationDate").Undef? ==>
      BadField(CreationDate) !in UpdateIssues(data) && BadShape(CreationDate) !in UpdateIssues(data)
    ensures Get(data, "stock").Undef? ==> BadField(Stock) !in UpdateIssues(data) && StockOverTen !in UpdateIssues(data)
  {
    UpdateTableText(UpdateDataFailures(data));
    UpdateTableDate(UpdateDataFailures(data));
    UpdateTableStock(UpdateDataFailures(data));
  }

  /** A supplied stock is either out of range, above ten, or fine, and is reported accordingly. */
  lemma UpdateStockReported(data: JVal)
    requires Present(Get(data, "stock"))
    ensures BadField(Stock) in UpdateIssues(data) <==> !NumberAtLeast(Get(data, "stock"), 0.0)
    ensures StockOverTen in UpdateIssues(data) <==>
      NumberAtLeast(Get(data, "stock"), 0.0) && NumberAbove(Get(data, "stock"), 10.0)
  {
    UpdateTableStock(UpdateDataFailures(data));
  }

  /** A supplied creation date is checked the way the create rules check it, except that an empty string is a bad shape here. */
  lemma UpdateDateReported(data: JVal)
    requires Present(Get(data, "creationDate"))
    ensures BadField(CreationDate) in UpdateIssues(data) <==> !Get(data, "creationDate").Str?
    ensures BadShape(CreationDate) in UpdateIssues(data) <==>
      Get(data, "creationDate").Str? && !DateShape(Get(data, "creationDate").s)
  {
    UpdateTableDate(UpdateDataFailures(data));
  }

  /** Only these seven fields are read. */
  predicate OnlyField(data: JVal, key: string) {
    (key == "name" || Get(data, "name").Undef?)
    && (key == "brandArtist" || Get(data, "brandArtist").Undef?)
    && (key == "creationDate" || Get(data, "creationDate").Undef?)
    && (key == "description" || Get(data, "description").Undef?)
    && (key == "ecoFriendly" || Get(data, "ecoFriendly").Undef?)
    && (key == "price" || Get(data, "price").Undef?)
    && (key == "stock" || Get(data, "stock").Undef?)
  }

  /** A price of 0 sent alone is "nothing supplied": `!price` holds for 0. */
  lemma ZeroPriceAloneIsNothing(data: JVal)
    requires !IsNullish(data) && OnlyField(data, "price") && Get(data, "price") == Num(0.0)
    ensures UpdateVerdict(data) == NothingToUpdate(NothingMessage)
  {
  }

  /** A stock of 0 sent alone is a valid update: the stock test is `=== undefined`. */
  lemma ZeroStockAloneIsValid(data: JVal)
    requires !IsNullish(data) && OnlyField(data, "stock") && Get(data, "stock") == Num(0.0)
    ensures UpdateVerdict(data) == Verdict(true, [])
  {
    UpdateTableEmpty(UpdateDataFailures(data));
  }

  /** The creation rules allow any stock of at least 0, 11 included, ... */
  lemma StockElevenPassesCreate(data: JVal)
    requires Truthy(data) && Get(data, "stock") == Num(11.0)
    ensures BadField(Stock) !in ProductDataIssues(data) && StockOverTen !in ProductDataIssues(data)
  {
    CreateTableNumbers(ProductDataFailures(data));
  }

  /** ... while the update rules refuse more than 10. */
  lemma StockElevenFailsUpdate(data: JVal)
    requires Get(data, "stock") == Num(11.0)
    ensures StockOverTen in UpdateIssues(data) && BadField(Stock) !in UpdateIssues(data)
  {
    UpdateTableStock(UpdateDataFailures(data));
  }

  // ---------------------------------------------------------------------
  // The reads, the search and the guarded writes

  /** `getCraftProductById`: the model's answer, with a miss turned into the "not found" exception. */
  method GetCraftProductById(c: Collection, id: string) returns (r: Outcome<JVal>)
    requires c.name == Model.CollectionName
    ensures ByKey(c.docs, c.available, id) == Null ==> r == Throw(NotFoundMessage)
    ensures ByKey(c.docs, c.available, id) != Null ==> r == Return(Obj(WithId(PathOf(id), DataAt(c.docs, PathOf(id)))))
  {
    var product := Model.GetCraftProductById(c, id);
    if !Truthy(product) {
      return Throw(NotFoundMessage);
    }
    r := Return(product);
  }

  /** `createCraftProduct` forwards to the model without validating: validation is the caller's step. */
  method CreateCraftProduct(c: Collection, data: JVal) returns (r: Outcome<JVal>)
    requires c.name == Model.CollectionName && c.Valid()
    modifies c
    ensures c.Valid()
    ensures !(data.Obj? && old(c.available) && Writable(data.fields)) ==> r == Throw(Model.CreateFailedMessage) && c.docs == old(c.docs)
    ensures data.Obj? && old(c.available) && Writable(data.fields) ==>
      AddedOne(old(c.docs), c.docs, data.fields) && r == Return(Obj(WithId(NewKey(old(c.docs), c.docs), data.fields)))
  {
    r := Model.CreateCraftProduct(c, data);
  }

  /** `searchCraftProductByName`. The `Array.isArray` guard never fires: the listing is always an array. */
  method SearchCraftProductByName(c: Collection, name: JVal) returns (r: Outcome<seq<JVal>>)
    requires c.name == Model.CollectionName
    ensures r == SearchBy(if c.available then Listing(c.docs) else [], "name", name, NoMatchMessage)
  {
    var products := Model.GetAllCraftsProducts(c);
    r := SearchBy(products, "name", name, NoMatchMessage);
  }

  /**
   * `updateCraftProduct`: a direct-key read first, which throws on a miss
   * before anything is written; so the model's fallback scan is never
   * reached from here, and the merge always lands on the key itself.
   */
  method UpdateCraftProduct(c: Collection, id: string, updateData: JVal) returns (r: Outcome<JVal>)
    requires c.name == Model.CollectionName && c.Valid()
    modifies c
    ensures c.Valid()
    ensures ByKey(old(c.docs), old(c.available), id) == Null ==> r == Throw(NotFoundMessage) && c.docs == old(c.docs)
    ensures ByKey(old(c.docs), old(c.available), id) != Null ==>
      r.Return? &&
      (if updateData.Obj? && Updatable(updateData.fields) then MergedAt(old(c.docs), c.docs, PathOf(id), updateData.fields, r.value)
       else c.docs == old(c.docs) && r.value == Null)
  {
    var product := Model.GetCraftProductById(c, id);
    if !Truthy(product) {
      return Throw(NotFoundMessage);
    }
    var updated := Model.UpdateCraftProduct(c, id, updateData);
    r := Return(updated);
  }

  /** `deleteCraftProduct`: throws on a miss before deleting; the model's "not found" reply is never reached from here. */
  method DeleteCraftProduct(c: Collection, id: string) returns (r: Outcome<JVal>)
    requires c.name == Model.CollectionName && c.Valid()
    modifies c
    ensures c.Valid()
    ensures ByKey(old(c.docs), old(c.available), id) == Null ==> r == Throw(NotFoundMessage) && c.docs == old(c.docs)
    ensures ByKey(old(c.docs), old(c.available), id) != Null ==>
      r == Return(Obj(DataAt(old(c.docs), PathOf(id)))) && c.docs == Removed(old(c.docs), PathOf(id))
  {
    var product := Model.GetCraftProductById(c, id);
    if !Truthy(product) {
      return Throw(NotFoundMessage);
    }
    var deleted := Model.DeleteCraftProduct(c, id);
    r := Return(deleted);
  }
}
