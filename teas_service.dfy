/** `src/services/teasProducts.service.js`: validation, search and the guarded writes for tea products. */
module TeasProductsService {
  import opened Json
  import opened Validation
  import opened Store
  import opened Documents
  import opened Search
  import Model = TeasProductsModel

  const NotFoundMessage := "Producto no encontrado"
  const NoMatchMessage := "No se encontraron productos con ese nombre"
  const NothingMessage := "Debes proporcionar al menos un campo para actualizar"

  // ---------------------------------------------------------------------
  // validateProductData

  /** Which of the five field checks failed; both validators check the same fields in the same order. */
  datatype Failures = Failures(name: bool, brand: bool, description: bool, price: bool, stock: bool)

  /** The `if` blocks of either validator, in order, once it is known which checks failed. */
  function Table(f: Failures): seq<Rule> {
    [Rule(f.name, BadField(Name)), Rule(f.brand, BadField(Brand)), Rule(f.description, BadField(Description)),
     Rule(f.price, BadField(Price)), Rule(f.stock, BadField(Stock))]
  }

  /** The checks of `validateProductData` on the fields it destructures. */
  function CreateFailures(name: JVal, brand: JVal, description: JVal, price: JVal, stock: JVal): Failures {
    Failures(!TrimmedAtLeast(name, 1), !StringIfTruthy(brand), !StringIfTruthy(description),
             !RequiredAbove(price, 0.0), !RequiredAtLeast(stock, 0.0))
  }

  function ProductDataFailures(data: JVal): Failures {
    CreateFailures(Get(data, "name"), Get(data, "brand"), Get(data, "description"), Get(data, "price"), Get(data, "stock"))
  }

  /** The errors `validateProductData` pushes, in order. */
  function ProductDataIssues(data: JVal): seq<Issue> {
    if !Truthy(data) then [NoData] else Fired(Table(ProductDataFailures(data)))
  }

  method ValidateProductData(data: JVal) returns (v: Verdict)
    ensures v == Checked(ProductDataIssues(data))
  {
    var errors: seq<Issue> := [];
    if !Truthy(data) {
      errors := errors + [NoData];
      return Checked(errors);
    }
    var name, brand, description := Get(data, "name"), Get(data, "brand"), Get(data, "description");
    var price, stock := Get(data, "price"), Get(data, "stock");
    errors := PushBroken(errors, Table(CreateFailures(name, brand, description, price, stock)));
    return Checked(errors);
  }

  /** Each field is reported exactly when its check failed, ... */
  lemma TableReports(f: Failures)
    ensures BadField(Name) in Fired(Table(f)) <==> f.name
    ensures BadField(Brand) in Fired(Table(f)) <==> f.brand
    ensures BadField(Description) in Fired(Table(f)) <==> f.description
  {
    FiredAt(Table(f), 0);
    FiredAt(Table(f), 1);
    FiredAt(Table(f), 2);
  }

  lemma TableReportsNumbers(f: Failures)
    ensures BadField(Price) in Fired(Table(f)) <==> f.price
    ensures BadField(Stock) in Fired(Table(f)) <==> f.stock
  {
    FiredAt(Table(f), 3);
    FiredAt(Table(f), 4);
  }

  /** ... and nothing is reported exactly when no check failed. */
  lemma TableEmpty(f: Failures)
    ensures Fired(Table(f)) == [] <==> f == Failures(false, false, false, false, false)
  {
    FiredNone(Table(f));
  }

  /** What a new tea product must be: a non-blank name, a positive price, a stock of at least 0; brand and description strings when given. */
  predicate ProductAcceptable(data: JVal) {
    Truthy(data)
    && TrimmedAtLeast(Get(data, "name"), 1)
    && StringIfTruthy(Get(data, "brand"))
    && StringIfTruthy(Get(data, "description"))
    && RequiredAbove(Get(data, "price"), 0.0)
    && RequiredAtLeast(Get(data, "stock"), 0.0)
  }

  /** The data passes exactly when it is acceptable. */
  lemma ProductDataValidIff(data: JVal)
    ensures Checked(ProductDataIssues(data)).valid <==> ProductAcceptable(data)
  {
    TableEmpty(ProductDataFailures(data));
  }

  /** Missing data is reported alone. */
  lemma NoProductData(data: JVal)
    requires !Truthy(data)
    ensures ProductDataIssues(data) == [NoData]
  {
  }

  /** A name that is not a non-blank string is reported. */
  lemma NameReported(data: JVal)
    requires Truthy(data)
    ensures BadField(Name) in ProductDataIssues(data) <==> !TrimmedAtLeast(Get(data, "name"), 1)
  {
    TableReports(ProductDataFailures(data));
  }

  /** The two numeric fields are reported exactly when they break their bound. */
  lemma NumbersReported(data: JVal)
    requires Truthy(data)
    ensures BadField(Price) in ProductDataIssues(data) <==> !RequiredAbove(Get(data, "price"), 0.0)
    ensures BadField(Stock) in ProductDataIssues(data) <==> !RequiredAtLeast(Get(data, "stock"), 0.0)
  {
    TableReportsNumbers(ProductDataFailures(data));
  }

  /** Brand and description are optional: a falsy value is never reported, a truthy one only when it is not a string. */
  lemma OptionalFieldsReported(data: JVal)
    requires Truthy(data)
    ensures BadField(Brand) in ProductDataIssues(data) <==> Truthy(Get(data, "brand")) && !Get(data, "brand").Str?
    ensures BadField(Description) in ProductDataIssues(data) <==>
      Truthy(Get(data, "description")) && !Get(data, "description").Str?
  {
    TableReports(ProductDataFailures(data));
  }

  // ---------------------------------------------------------------------
  // validateUpdateData

  /** `!name && !brand && !description && !price && stock === undefined`: falsy values count as not supplied. */
  predicate NothingSupplied(data: JVal) {
    !Truthy(Get(data, "name")) && !Truthy(Get(data, "brand")) && !Truthy(Get(data, "description"))
    && !Truthy(Get(data, "price")) && Get(data, "stock").Undef?
  }

  /** The checks of `validateUpdateData` on the fields it destructures: only supplied fields are held to a rule. */
  function UpdateFailures(name: JVal, brand: JVal, description: JVal, price: JVal, stock: JVal): Failures {
    Failures(!TrimmedIfPresent(name, 1), !StringIfPresent(brand), !StringIfPresent(description),
             !AboveIfPresent(price, 0.0), !AtLeastIfPresent(stock, 0.0))
  }

  function UpdateDataFailures(data: JVal): Failures {
    UpdateFailures(Get(data, "name"), Get(data, "brand"), Get(data, "description"), Get(data, "price"), Get(data, "stock"))
  }

  /** The errors `validateUpdateData` pushes once something was supplied. */
  function UpdateIssues(data: JVal): seq<Issue> {
    Fired(Table(UpdateDataFailures(data)))
  }

  /** Destructuring null or undefined throws; otherwise the answer is the message or the checked list. */
  function UpdateVerdict(data: JVal): Verdict {
    if IsNullish(data) then Crash(TypeErrorText)
    else if NothingSupplied(data) then NothingToUpdate(NothingMessage)
    else Checked(UpdateIssues(data))
  }

  method ValidateUpdateData(data: JVal) returns (v: Verdict)
    ensures v == UpdateVerdict(data)
  {
    if IsNullish(data) {
      return Crash(TypeErrorText);
    }
    var name, brand, description := Get(data, "name"), Get(data, "brand"), Get(data, "description");
    var price, stock := Get(data, "price"), Get(data, "stock");
    var errors: seq<Issue> := [];
    if NothingSupplied(data) {
      return NothingToUpdate(NothingMessage);
    }
    errors := PushBroken(errors, Table(UpdateFailures(name, brand, description, price, stock)));
    return Checked(errors);
  }

  /** What an update must be once something was supplied: each supplied field held to its rule. */
  predicate UpdateAcceptable(data: JVal) {
    TrimmedIfPresent(Get(data, "name"), 1)
    && StringIfPresent(Get(data, "brand"))
    && StringIfPresent(Get(data, "description"))
    && AboveIfPresent(Get(data, "price"), 0.0)
    && AtLeastIfPresent(Get(data, "stock"), 0.0)
  }

  /** Once something was supplied, the update passes exactly when it is acceptable. */
  lemma UpdateDataValidIff(data: JVal)
    requires !IsNullish(data) && !NothingSupplied(data)
    ensures UpdateVerdict(data).Verdict?
    ensures UpdateVerdict(data).valid <==> UpdateAcceptable(data)
  {
    TableEmpty(UpdateDataFailures(data));
  }

  /** Sending nothing usable gives the message, not a list of errors. */
  lemma NothingSuppliedGivesMessage(data: JVal)
    requires !IsNullish(data) && NothingSupplied(data)
    ensures UpdateVerdict(data) == NothingToUpdate(NothingMessage)
  {
  }

  /** Only supplied fields are checked: a field that was not sent is never reported. */
  lemma AbsentFieldPasses(data: JVal, key: string, f: Field)
    requires (key, f) in {("name", Name), ("brand", Brand), ("description", Description), ("price", Price), ("stock", Stock)}
    requires Get(data, key).Undef?
    ensures BadField(f) !in UpdateIssues(data)
  {
    TableReports(UpdateDataFailures(data));
    TableReportsNumbers(UpdateDataFailures(data));
  }

  /** A supplied name or price is held to the rule the create check uses. */
  lemma SuppliedFieldsReported(data: JVal)
    ensures Present(Get(data, "name")) ==> (BadField(Name) in UpdateIssues(data) <==> !TrimmedAtLeast(Get(data, "name"), 1))
    ensures Present(Get(data, "price")) ==> (BadField(Price) in UpdateIssues(data) <==> !RequiredAbove(Get(data, "price"), 0.0))
  {
    TableReports(UpdateDataFailures(data));
    TableReportsNumbers(UpdateDataFailures(data));
  }

  /** The one place the update check is looser than the create check: a null stock passes it. */
  lemma NullStockOnlyPassesUpdate(data: JVal)
    requires Truthy(data) && Get(data, "stock") == Null
    ensures BadField(Stock) !in UpdateIssues(data)
    ensures BadField(Stock) in ProductDataIssues(data)
  {
    TableReportsNumbers(UpdateDataFailures(data));
    TableReportsNumbers(ProductDataFailures(data));
  }

  /** `{ price: 0 }` alone is "nothing supplied", not a bad price. */
  lemma ZeroPriceAloneIsNothing()
    ensures UpdateVerdict(Obj(map["price" := Num(0.0)])) == NothingToUpdate(NothingMessage)
  {
  }

  // ---------------------------------------------------------------------
  // searchTeaProductByName and the guarded writes

  /** `getTeaProductById`: the model's answer, with a miss turned into the "not found" exception. */
  method GetTeaProductById(c: Collection, id: string) returns (r: Outcome<JVal>)
    requires c.name == Model.CollectionName
    ensures ByKey(c.docs, c.available, id) == Null ==> r == Throw(NotFoundMessage)
    ensures ByKey(c.docs, c.available, id) != Null ==> r == Return(Obj(WithId(PathOf(id), DataAt(c.docs, PathOf(id)))))
  {
    var product := Model.GetTeaProductById(c, id);
    if !Truthy(product) {
      return Throw(NotFoundMessage);
    }
    r := Return(product);
  }

  /** `createTeaProduct` forwards to the model without validating: validation is the caller's step. */
  method CreateTeaProduct(c: Collection, data: JVal) returns (r: Outcome<JVal>)
    requires c.name == Model.CollectionName && c.Valid()
    modifies c
    ensures c.Valid()
    ensures !(data.Obj? && old(c.available) && Writable(data.fields)) ==> r == Throw(Model.CreateFailedMessage) && c.docs == old(c.docs)
    ensures data.Obj? && old(c.available) && Writable(data.fields) ==>
      AddedOne(old(c.docs), c.docs, data.fields) && r == Return(Obj(WithId(NewKey(old(c.docs), c.docs), data.fields)))
  {
    r := Model.CreateTeaProduct(c, data);
  }

  /** `searchTeaProductByName`. `getAllTeasProducts` always answers with an array, so its `Array.isArray` guard never fires. */
  method SearchTeaProductByName(c: Collection, name: JVal) returns (r: Outcome<seq<JVal>>)
    requires c.name == Model.CollectionName
    ensures r == SearchBy(if c.available then Listing(c.docs) else [], "name", name, NoMatchMessage)
  {
    var products := Model.GetAllTeasProducts(c);
    r := SearchBy(products, "name", name, NoMatchMessage);
  }

  /**
   * `updateTeaProduct`: a direct-key read first, which throws on a miss
   * before anything is written; so the model's fallback scan is never
   * reached from here, and the merge always lands on the key itself.
   */
  method UpdateTeaProduct(c: Collection, id: string, updateData: JVal) returns (r: Outcome<JVal>)
    requires c.name == Model.CollectionName && c.Valid()
    modifies c
    ensures c.Valid()
    ensures ByKey(old(c.docs), old(c.available), id) == Null ==> r == Throw(NotFoundMessage) && c.docs == old(c.docs)
    ensures ByKey(old(c.docs), old(c.available), id) != Null ==>
      r.Return? &&
      (if updateData.Obj? && Updatable(updateData.fields) then MergedAt(old(c.docs), c.docs, PathOf(id), updateData.fields, r.value)
       else c.docs == old(c.docs) && r.value == Null)
  {
    var product := Model.GetTeaProductById(c, id);
    if !Truthy(product) {
      return Throw(NotFoundMessage);
    }
    var updated := Model.UpdateTeaProduct(c, id, updateData);
    r := Return(updated);
  }

  /** `deleteTeaProduct`: throws on a miss before deleting; the model's "not found" reply is never reached from here. */
  method DeleteTeaProduct(c: Collection, id: string) returns (r: Outcome<JVal>)
    requires c.name == Model.CollectionName && c.Valid()
    modifies c
    ensures c.Valid()
    ensures ByKey(old(c.docs), old(c.available), id) == Null ==> r == Throw(NotFoundMessage) && c.docs == old(c.docs)
    ensures ByKey(old(c.docs), old(c.available), id) != Null ==>
      r == Return(Obj(DataAt(old(c.docs), PathOf(id)))) && c.docs == Removed(old(c.docs), PathOf(id))
  {
    var product := Model.GetTeaProductById(c, id);
    if !Truthy(product) {
      return Throw(NotFoundMessage);
    }
    var deleted := Model.DeleteTeaProduct(c, id);
    r := Return(deleted);
  }
}
