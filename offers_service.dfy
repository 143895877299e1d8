/**
 * `src/services/offers.service.js`: the two validators, the search by
 * title, the preparation of `applicableTo` and the guarded writes for offers.
 */
module OffersService {
  import opened Json
  import opened Lists
  import opened Validation
  import opened Formats
  import opened Store
  import opened Lookup
  import opened Documents
  import opened References
  import opened Search
  import Model = OffersModel

  const NotFoundMessage := "Oferta no encontrada"
  const NoMatchMessage := "No se encontraron ofertas con ese titulo"
  const EmptyApplicableMessage := "Debe haber al menos un producto aplicable"
  const CreatePrefix := "Error creando oferta: "
  const NothingMessage := "Debes proporcionar al menos un campo para actualizar la oferta."
  const OfferStates := ["active", "inactive", "expired"]

  // ---------------------------------------------------------------------
  // The field checks both validators share the layout of

  /** `isLimited === true` while `limit` is missing or not a positive number. */
  predicate LimitMissing(isLimited: JVal, limit: JVal) {
    isLimited == Bool(true) && !RequiredAbove(limit, 0.0)
  }

  /**
   * Which field checks of a validator failed, one flag per `if` block.
   * Both validators have the same blocks in the same order; only the tests differ.
   */
  datatype OfferFailures = OfferFailures(
    title: bool, description: bool, minimumPurchase: bool, isLimited: bool, limit: bool,
    state: bool, promotionalCode: bool, startDate: bool, endDate: bool)

  /** The blocks before `applicableTo`. */
  function HeadTable(f: OfferFailures): seq<Rule> {
    [Rule(f.title, BadField(Title)), Rule(f.description, BadField(Description))]
  }

  /** The blocks after `applicableTo`, in order. */
  function TailTable(f: OfferFailures): seq<Rule> {
    [Rule(f.minimumPurchase, BadField(MinimumPurchase)), Rule(f.isLimited, BadField(IsLimited)),
     Rule(f.limit, LimitRequired), Rule(f.state, BadField(State)),
     Rule(f.promotionalCode, BadField(PromotionalCode)), Rule(f.startDate, BadField(StartDate)),
     Rule(f.endDate, BadField(EndDate))]
  }

  /** The head blocks report the title and the description only, each exactly when its check failed. */
  lemma HeadTableMeaning(f: OfferFailures)
    ensures forall x :: x in Fired(HeadTable(f)) ==> x == BadField(Title) || x == BadField(Description)
    ensures BadField(Title) in Fired(HeadTable(f)) <==> f.title
    ensures BadField(Description) in Fired(HeadTable(f)) <==> f.description
  {
    forall x | x in Fired(HeadTable(f)) ensures x == BadField(Title) || x == BadField(Description) {
      FiredHas(HeadTable(f), x);
    }
    FiredAt(HeadTable(f), 0);
    FiredAt(HeadTable(f), 1);
  }

  /** Each tail message is pushed exactly when its check failed: the purchase and the limit rules, */
  lemma TailTableLimits(f: OfferFailures)
    ensures BadField(MinimumPurchase) in Fired(TailTable(f)) <==> f.minimumPurchase
    ensures BadField(IsLimited) in Fired(TailTable(f)) <==> f.isLimited
    ensures LimitRequired in Fired(TailTable(f)) <==> f.limit
  {
    FiredAt(TailTable(f), 0);
    FiredAt(TailTable(f), 1);
    FiredAt(TailTable(f), 2);
  }

  /** the state and the code, */
  lemma TailTableText(f: OfferFailures)
    ensures BadField(State) in Fired(TailTable(f)) <==> f.state
    ensures BadField(PromotionalCode) in Fired(TailTable(f)) <==> f.promotionalCode
  {
    FiredAt(TailTable(f), 3);
    FiredAt(TailTable(f), 4);
  }

  /** and the two dates. */
  lemma TailTableDates(f: OfferFailures)
    ensures BadField(StartDate) in Fired(TailTable(f)) <==> f.startDate
    ensures BadField(EndDate) in Fired(TailTable(f)) <==> f.endDate
  {
    FiredAt(TailTable(f), 5);
    FiredAt(TailTable(f), 6);
  }

  /** The tail never names the head fields, `applicableTo` or an element; the two tables are empty exactly when no check failed. */
  lemma TablesShape(f: OfferFailures)
    ensures forall x :: x in Fired(TailTable(f)) ==>
      x != BadField(Title) && x != BadField(Description) && x != BadField(ApplicableTo) && !x.BadItem?
    ensures Fired(HeadTable(f)) == [] <==> !f.title && !f.description
    ensures Fired(TailTable(f)) == [] <==>
      !f.minimumPurchase && !f.isLimited && !f.limit && !f.state && !f.promotionalCode && !f.startDate && !f.endDate
  {
    forall x | x in Fired(TailTable(f))
      ensures x != BadField(Title) && x != BadField(Description) && x != BadField(ApplicableTo) && !x.BadItem?
    {
      FiredHas(TailTable(f), x);
    }
    FiredNone(HeadTable(f));
    FiredNone(TailTable(f));
  }

  /** What an array block pushes can only name `applicableTo` or an element. */
  predicate AboutApplicable(items: seq<Issue>) {
    forall y :: y in items ==> y == BadField(ApplicableTo) || y.BadItem?
  }

  /** Around an `applicableTo` block, a tail message is in the list exactly when the tail pushed it. */
  lemma TailReportedByTable(f: OfferFailures, items: seq<Issue>, x: Issue)
    requires AboutApplicable(items)
    requires x != BadField(Title) && x != BadField(Description) && x != BadField(ApplicableTo) && !x.BadItem?
    ensures x in Fired(HeadTable(f)) + items + Fired(TailTable(f)) <==> x in Fired(TailTable(f))
  {
    HeadTableMeaning(f);
  }

  /** and a head message exactly when the head pushed it. */
  lemma HeadReportedByTable(f: OfferFailures, items: seq<Issue>, x: Issue)
    requires AboutApplicable(items)
    requires x == BadField(Title) || x == BadField(Description)
    ensures x in Fired(HeadTable(f)) + items + Fired(TailTable(f)) <==> x in Fired(HeadTable(f))
  {
    TablesShape(f);
  }

  // ---------------------------------------------------------------------
  // validateOfferData

  /** `typeof product === 'object' && product.type && product.id`. */
  predicate HasTypeAndId(p: JVal) {
    IsObject(p) && Truthy(Get(p, "type")) && Truthy(Get(p, "id"))
  }

  /** Which checks of the create callback an element failed. */
  datatype ItemFailures = ItemFailures(typeOrId: bool, unknown: bool)

  function ItemTable(index: nat, f: ItemFailures): seq<Rule> {
    [Rule(f.typeOrId, BadItem(index, MissingTypeOrId)), Rule(f.unknown, BadItem(index, UnknownType))]
  }

  function ItemDataFailures(p: JVal): ItemFailures {
    ItemFailures(!HasTypeAndId(p), Truthy(Get(p, "type")) && !OneOf(Get(p, "type"), ProductTypes))
  }

  /**
   * What the create callback pushes for an element other than null or
   * undefined. Those two make the callback read a field of null or
   * undefined and throw, which `ApplicableCrashes` accounts for.
   */
  function ItemIssues(p: JVal, index: nat): seq<Issue> {
    Fired(ItemTable(index, ItemDataFailures(p)))
  }

  lemma ItemTableMeaning(index: nat, f: ItemFailures)
    ensures BadItem(index, MissingTypeOrId) in Fired(ItemTable(index, f)) <==> f.typeOrId
    ensures BadItem(index, UnknownType) in Fired(ItemTable(index, f)) <==> f.unknown
    ensures forall x :: x in Fired(ItemTable(index, f)) ==> x.BadItem? && x.index == index
    ensures Fired(ItemTable(index, f)) == [] <==> !f.typeOrId && !f.unknown
  {
    FiredAt(ItemTable(index, f), 0);
    FiredAt(ItemTable(index, f), 1);
    forall x | x in Fired(ItemTable(index, f)) ensures x.BadItem? && x.index == index {
      FiredHas(ItemTable(index, f), x);
    }
    FiredNone(ItemTable(index, f));
  }

  /** What the `applicableTo` block pushes: one message for a missing or empty array, else the per-element pass. */
  function ApplicableErrors(v: JVal): seq<Issue> {
    if !NonEmptyArray(v) then [BadField(ApplicableTo)] else ItemsIssues(v.items, ItemIssues)
  }

  /** The pass throws on the first element that is null or undefined. */
  predicate ApplicableCrashes(v: JVal) {
    NonEmptyArray(v) && exists i :: 0 <= i < |v.items| && IsNullish(v.items[i])
  }

  /** The two callback checks on one element, returning nothing but the exception for null or undefined. */
  method CheckItem(p: JVal, index: nat) returns (r: Outcome<seq<Issue>>)
    ensures IsNullish(p) ==> r == Throw(TypeErrorText)
    ensures !IsNullish(p) ==> r == Return(ItemIssues(p, index))
  {
    if IsNullish(p) {
      return Throw(TypeErrorText);
    }
    var errors := PushBroken([], ItemTable(index, ItemDataFailures(p)));
    assert errors == ItemIssues(p, index);
    r := Return(errors);
  }

  /** The `applicableTo` block with its `forEach`. */
  method CheckApplicableTo(v: JVal) returns (r: Outcome<seq<Issue>>)
    ensures r == if ApplicableCrashes(v) then Throw(TypeErrorText) else Return(ApplicableErrors(v))
  {
    if !NonEmptyArray(v) {
      return Return([BadField(ApplicableTo)]);
    }
    var items := v.items;
    var errors: seq<Issue> := [];
    var i := 0;
    while i < |items|
      invariant 0 <= i <= |items|
      invariant forall j :: 0 <= j < i ==> !IsNullish(items[j])
      invariant errors == ItemsIssues(items[..i], ItemIssues)
    {
      var found := CheckItem(items[i], i);
      if found.Throw? {
        return found;
      }
      assert items[..i + 1][..i] == items[..i];
      errors := errors + found.value;
      i := i + 1;
    }
    assert items[..|items|] == items;
    r := Return(errors);
  }

  /** The field checks of `validateOfferData` on the fields it reads. */
  function CheckOffer(title: JVal, description: JVal, minimumPurchase: JVal, isLimited: JVal, limit: JVal,
                      state: JVal, promotionalCode: JVal, startDate: JVal, endDate: JVal): OfferFailures {
    OfferFailures(!TrimmedAtLeast(title, 5), !TrimmedAtLeast(description, 1),
                  !RequiredAtLeast(minimumPurchase, 0.0), !BooleanIfPresent(isLimited),
                  LimitMissing(isLimited, limit), !OneOf(state, OfferStates),
                  !TrimmedAtLeast(promotionalCode, 3), !DateString(startDate), !DateString(endDate))
  }

  function OfferDataFailures(data: JVal): OfferFailures {
    CheckOffer(Get(data, "title"), Get(data, "description"), Get(data, "minimumPurchase"),
               Get(data, "isLimited"), Get(data, "limit"), Get(data, "state"),
               Get(data, "promotionalCode"), Get(data, "startDate"), Get(data, "endDate"))
  }

  /** The errors `validateOfferData` pushes, in order, when it does not throw. */
  function OfferIssues(data: JVal): seq<Issue> {
    if !Truthy(data) then [NoData]
    else
      var f := OfferDataFailures(data);
      Fired(HeadTable(f)) + ApplicableErrors(Get(data, "applicableTo")) + Fired(TailTable(f))
  }

  /** The answer of `validateOfferData`: the exception of the `forEach`, or the checked list. */
  function OfferVerdict(data: JVal): Verdict {
    if Truthy(data) && ApplicableCrashes(Get(data, "applicableTo")) then Crash(TypeErrorText)
    else Checked(OfferIssues(data))
  }

  method ValidateOfferData(data: JVal) returns (v: Verdict)
    ensures v == OfferVerdict(data)
  {
    var errors: seq<Issue> := [];
    if !Truthy(data) {
      errors := errors + [NoData];
      return Checked(errors);
    }
    var title, description, applicableTo := Get(data, "title"), Get(data, "description"), Get(data, "applicableTo");
    var minimumPurchase, isLimited, limit := Get(data, "minimumPurchase"), Get(data, "isLimited"), Get(data, "limit");
    var state, promotionalCode := Get(data, "state"), Get(data, "promotionalCode");
    var startDate, endDate := Get(data, "startDate"), Get(data, "endDate");
    var f := CheckOffer(title, description, minimumPurchase, isLimited, limit, state, promotionalCode, startDate, endDate);
    assert f == OfferDataFailures(data);
    errors := PushBroken(errors, HeadTable(f));
    assert errors == Fired(HeadTable(f));
    var found := CheckApplicableTo(applicableTo);
    if found.Throw? {
      return Crash(found.message);
    }
    errors := errors + found.value;
    errors := PushBroken(errors, TailTable(f));
    assert errors == OfferIssues(data);
    return Checked(errors);
  }

  /** An element an offer may hold: an object with a truthy id and a type of "tea" or "craft". */
  predicate ItemAcceptable(p: JVal) {
    HasTypeAndId(p) && OneOf(Get(p, "type"), ProductTypes)
  }

  lemma ItemIssuesEmptyIff(p: JVal, index: nat)
    ensures ItemIssues(p, index) == [] <==> ItemAcceptable(p)
  {
    ItemTableMeaning(index, ItemDataFailures(p));
  }

  /** What each element message means. */
  lemma ItemMessages(p: JVal, index: nat)
    ensures BadItem(index, MissingTypeOrId) in ItemIssues(p, index) <==> !HasTypeAndId(p)
    ensures BadItem(index, UnknownType) in ItemIssues(p, index) <==>
      Truthy(Get(p, "type")) && !OneOf(Get(p, "type"), ProductTypes)
  {
    ItemTableMeaning(index, ItemDataFailures(p));
  }

  lemma ItemIssuesTagged()
    ensures Tagged(ItemIssues)
  {
    forall p, i, k | 0 <= k < |ItemIssues(p, i)|
      ensures ItemIssues(p, i)[k].BadItem? && ItemIssues(p, i)[k].index == i
    {
      ItemTableMeaning(i, ItemDataFailures(p));
    }
  }

  /** The `applicableTo` block reports only itself or its elements. */
  lemma ApplicableErrorsAbout(v: JVal)
    ensures AboutApplicable(ApplicableErrors(v))
  {
    if NonEmptyArray(v) {
      ItemIssuesTagged();
      ItemsIssuesInRange(v.items, ItemIssues);
    }
  }

  /** A non-empty array of acceptable elements. */
  predicate ApplicableAcceptable(v: JVal) {
    NonEmptyArray(v) && forall i :: 0 <= i < |v.items| ==> ItemAcceptable(v.items[i])
  }

  lemma ApplicableErrorsEmptyIff(v: JVal)
    ensures ApplicableErrors(v) == [] <==> ApplicableAcceptable(v)
  {
    if NonEmptyArray(v) {
      ItemsIssuesEmpty(v.items, ItemIssues);
      forall i | 0 <= i < |v.items|
        ensures ItemIssues(v.items[i], i) == [] <==> ItemAcceptable(v.items[i])
      {
        ItemIssuesEmptyIff(v.items[i], i);
      }
    }
  }

  /**
   * What a new offer must be: a title of at least 5 and a code of at least
   * 3 characters after trimming, a non-blank description, acceptable
   * elements, a minimum purchase of at least 0, a boolean `isLimited` when
   * given and then a positive `limit`, a known state, and two DD-MM-YY dates.
   */
  predicate OfferAcceptable(data: JVal) {
    Truthy(data)
    && TrimmedAtLeast(Get(data, "title"), 5)
    && TrimmedAtLeast(Get(data, "description"), 1)
    && ApplicableAcceptable(Get(data, "applicableTo"))
    && RequiredAtLeast(Get(data, "minimumPurchase"), 0.0)
    && BooleanIfPresent(Get(data, "isLimited"))
    && !LimitMissing(Get(data, "isLimited"), Get(data, "limit"))
    && OneOf(Get(data, "state"), OfferStates)
    && TrimmedAtLeast(Get(data, "promotionalCode"), 3)
    && DateString(Get(data, "startDate"))
    && DateString(Get(data, "endDate"))
  }

  /** The data passes exactly when it is acceptable; acceptable data never makes the validator throw. */
  lemma OfferDataValidIff(data: JVal)
    ensures OfferVerdict(data).Verdict? && OfferVerdict(data).valid <==> OfferAcceptable(data)
  {
    if Truthy(data) {
      var v := Get(data, "applicableTo");
      if ApplicableCrashes(v) {
        var i :| 0 <= i < |v.items| && IsNullish(v.items[i]);
        assert !ItemAcceptable(v.items[i]);
      } else {
        TablesShape(OfferDataFailures(data));
        ApplicableErrorsEmptyIff(v);
      }
    }
  }

  /** Missing data is reported alone. */
  lemma NoOfferData(data: JVal)
    requires !Truthy(data)
    ensures OfferVerdict(data) == Verdict(false, [NoData])
  {
  }

  /** The title, description and code are reported exactly when they are too short after trimming. */
  lemma TextFieldsReported(data: JVal)
    requires Truthy(data)
    ensures BadField(Title) in OfferIssues(data) <==> !TrimmedAtLeast(Get(data, "title"), 5)
    ensures BadField(Description) in OfferIssues(data) <==> !TrimmedAtLeast(Get(data, "description"), 1)
    ensures BadField(PromotionalCode) in OfferIssues(data) <==> !TrimmedAtLeast(Get(data, "promotionalCode"), 3)
  {
    var f := OfferDataFailures(data);
    var items := ApplicableErrors(Get(data, "applicableTo"));
    ApplicableErrorsAbout(Get(data, "applicableTo"));
    HeadReportedByTable(f, items, BadField(Title));
    HeadReportedByTable(f, items, BadField(Description));
    TailReportedByTable(f, items, BadField(PromotionalCode));
    HeadTableMeaning(f);
    TailTableText(f);
  }

  /** `isLimited` must be a boolean when given, and `isLimited === true` needs a positive `limit`. */
  lemma LimitRulesReported(data: JVal)
    requires Truthy(data)
    ensures BadField(IsLimited) in OfferIssues(data) <==> !BooleanIfPresent(Get(data, "isLimited"))
    ensures LimitRequired in OfferIssues(data) <==>
      Get(data, "isLimited") == Bool(true) && !RequiredAbove(Get(data, "limit"), 0.0)
  {
    var f := OfferDataFailures(data);
    var items := ApplicableErrors(Get(data, "applicableTo"));
    ApplicableErrorsAbout(Get(data, "applicableTo"));
    TailReportedByTable(f, items, BadField(IsLimited));
    TailReportedByTable(f, items, LimitRequired);
    TailTableLimits(f);
  }

  /** The state must be a known one and each date, on its own, of the DD-MM-YY shape. */
  lemma StateAndDatesReported(data: JVal)
    requires Truthy(data)
    ensures BadField(State) in OfferIssues(data) <==> !OneOf(Get(data, "state"), OfferStates)
    ensures BadField(StartDate) in OfferIssues(data) <==> !DateString(Get(data, "startDate"))
    ensures BadField(EndDate) in OfferIssues(data) <==> !DateString(Get(data, "endDate"))
  {
    var f := OfferDataFailures(data);
    var items := ApplicableErrors(Get(data, "applicableTo"));
    ApplicableErrorsAbout(Get(data, "applicableTo"));
    TailReportedByTable(f, items, BadField(State));
    TailReportedByTable(f, items, BadField(StartDate));
    TailReportedByTable(f, items, BadField(EndDate));
    TailTableText(f);
    TailTableDates(f);
  }

  /** The dates are not compared: an offer may end before it starts. */
  lemma EndBeforeStartPasses(data: JVal)
    requires Truthy(data) && Get(data, "startDate") == Str("31-12-24") && Get(data, "endDate") == Str("01-01-24")
    ensures BadField(StartDate) !in OfferIssues(data) && BadField(EndDate) !in OfferIssues(data)
  {
    StateAndDatesReported(data);
  }

  /** Around the head and the tail, an element message is in the list exactly when the array block pushed it. */
  lemma ElementReportedByPass(f: OfferFailures, items: seq<Issue>, x: Issue)
    requires x.BadItem?
    ensures x in Fired(HeadTable(f)) + items + Fired(TailTable(f)) <==> x in items
  {
    HeadTableMeaning(f);
    TablesShape(f);
  }

  /** `applicableTo` that is not an array, or is empty, gets the one field message and no element messages. */
  lemma ApplicableNotAnArray(data: JVal)
    requires Truthy(data) && !NonEmptyArray(Get(data, "applicableTo"))
    ensures OfferVerdict(data).Verdict?
    ensures BadField(ApplicableTo) in OfferIssues(data)
    ensures forall x :: x in OfferIssues(data) ==> !x.BadItem?
  {
    var f := OfferDataFailures(data);
    assert OfferIssues(data) == Fired(HeadTable(f)) + [BadField(ApplicableTo)] + Fired(TailTable(f));
    forall x | x in OfferIssues(data) ensures !x.BadItem? {
      if x.BadItem? {
        ElementReportedByPass(f, [BadField(ApplicableTo)], x);
      }
    }
  }

  /** An element of a non-empty `applicableTo` is reported, under its own index, exactly as its own check reports it. */
  lemma ApplicableReportedAtIndex(data: JVal, index: nat, a: ItemAspect)
    requires Truthy(data) && NonEmptyArray(Get(data, "applicableTo")) && index < |Get(data, "applicableTo").items|
    ensures BadItem(index, a) in OfferIssues(data) <==>
      BadItem(index, a) in ItemIssues(Get(data, "applicableTo").items[index], index)
  {
    var f := OfferDataFailures(data);
    var v := Get(data, "applicableTo");
    assert OfferIssues(data) == Fired(HeadTable(f)) + ItemsIssues(v.items, ItemIssues) + Fired(TailTable(f));
    ElementReportedByPass(f, ItemsIssues(v.items, ItemIssues), BadItem(index, a));
    ItemIssuesTagged();
    ItemsIssuesAt(v.items, ItemIssues, index, a);
  }

  // ---------------------------------------------------------------------
  // validateUpdateData

  /** `product.id && product.id.trim() === ''`, for a string id. */
  predicate BlankId(v: JVal) {
    v.Str? && v.s != "" && Trim(v.s) == ""
  }

  /** `product.id.trim()` on a truthy id that is not a string throws: `trim` is not a function there. */
  predicate IdCrashes(p: JVal) {
    IsNonNullObject(p) && Truthy(Get(p, "id")) && !Get(p, "id").Str?
  }

  /** Which of the first three checks of the update callback an object element failed. */
  datatype UpdateItemFailures = UpdateItemFailures(kind: bool, id: bool, unknown: bool)

  function UpdateItemTable(index: nat, f: UpdateItemFailures): seq<Rule> {
    [Rule(f.kind, BadItem(index, BadType)), Rule(f.id, BadItem(index, BadId)),
     Rule(f.unknown, BadItem(index, UnknownType))]
  }

  function CheckUpdateItemFields(kind: JVal, id: JVal): UpdateItemFailures {
    UpdateItemFailures(!NonEmptyString(kind), !NonEmptyString(id), Truthy(kind) && !OneOf(kind, ProductTypes))
  }

  /**
   * What the update callback pushes for an element, when it does not throw:
   * one message for a non-object, else the three checks and then the blank-id test.
   */
  function UpdateItemIssues(p: JVal, index: nat): seq<Issue> {
    if !IsNonNullObject(p) then [BadItem(index, NotAnObject)]
    else
      Fired(UpdateItemTable(index, CheckUpdateItemFields(Get(p, "type"), Get(p, "id"))))
      + (if BlankId(Get(p, "id")) then [BadItem(index, EmptyId)] else [])
  }

  /** The update callback, which returns early for a non-object and throws on a truthy id that is not a string. */
  method CheckUpdateItem(p: JVal, index: nat) returns (r: Outcome<seq<Issue>>)
    ensures IdCrashes(p) ==> r == Throw(TypeErrorText)
    ensures !IdCrashes(p) ==> r == Return(UpdateItemIssues(p, index))
  {
    var errors: seq<Issue> := [];
    if !IsNonNullObject(p) {
      errors := errors + [BadItem(index, NotAnObject)];
      assert errors == UpdateItemIssues(p, index);
      return Return(errors);
    }
    var kind, id := Get(p, "type"), Get(p, "id");
    errors := PushBroken(errors, UpdateItemTable(index, CheckUpdateItemFields(kind, id)));
    assert errors == Fired(UpdateItemTable(index, CheckUpdateItemFields(kind, id)));
    if Truthy(id) {
      if !id.Str? {
        return Throw(TypeErrorText);
      }
      if Trim(id.s) == "" {
        errors := errors + [BadItem(index, EmptyId)];
      }
    }
    assert BlankId(id) <==> Truthy(id) && Trim(id.s) == "";
    assert errors == UpdateItemIssues(p, index);
    r := Return(errors);
  }

  lemma UpdateItemTableMeaning(index: nat, f: UpdateItemFailures)
    ensures BadItem(index, BadType) in Fired(UpdateItemTable(index, f)) <==> f.kind
    ensures BadItem(index, BadId) in Fired(UpdateItemTable(index, f)) <==> f.id
    ensures BadItem(index, UnknownType) in Fired(UpdateItemTable(index, f)) <==> f.unknown
  {
    FiredAt(UpdateItemTable(index, f), 0);
    FiredAt(UpdateItemTable(index, f), 1);
    FiredAt(UpdateItemTable(index, f), 2);
  }

  lemma UpdateItemTableShape(index: nat, f: UpdateItemFailures)
    ensures forall x :: x in Fired(UpdateItemTable(index, f)) ==> x.BadItem? && x.index == index && x.aspect != EmptyId
    ensures Fired(UpdateItemTable(index, f)) == [] <==> !f.kind && !f.id && !f.unknown
  {
    forall x | x in Fired(UpdateItemTable(index, f)) ensures x.BadItem? && x.index == index && x.aspect != EmptyId {
      FiredHas(UpdateItemTable(index, f), x);
    }
    FiredNone(UpdateItemTable(index, f));
  }

  /** What the update `applicableTo` block pushes: nothing when absent, else as on create with the update callback. */
  function UpdateApplicableErrors(v: JVal): seq<Issue> {
    if v.Undef? then []
    else if !NonEmptyArray(v) then [BadField(ApplicableTo)]
    else ItemsIssues(v.items, UpdateItemIssues)
  }

  /** The update pass throws on the first object element with a truthy id that is not a string. */
  predicate UpdateApplicableCrashes(v: JVal) {
    NonEmptyArray(v) && exists i :: 0 <= i < |v.items| && IdCrashes(v.items[i])
  }

  method CheckUpdateApplicableTo(v: JVal) returns (r: Outcome<seq<Issue>>)
    ensures r == if UpdateApplicableCrashes(v) then Throw(TypeErrorText) else Return(UpdateApplicableErrors(v))
  {
    if v.Undef? {
      return Return([]);
    }
    if !NonEmptyArray(v) {
      return Return([BadField(ApplicableTo)]);
    }
    var items := v.items;
    var errors: seq<Issue> := [];
    var i := 0;
    while i < |items|
      invariant 0 <= i <= |items|
      invariant forall j :: 0 <= j < i ==> !IdCrashes(items[j])
      invariant errors == ItemsIssues(items[..i], UpdateItemIssues)
    {
      var found := CheckUpdateItem(items[i], i);
      if found.Throw? {
        return found;
      }
      assert items[..i + 1][..i] == items[..i];
      errors := errors + found.value;
      i := i + 1;
    }
    assert items[..|items|] == items;
    r := Return(errors);
  }

  /** The "nothing to update" test: falsy text fields and dates count as not supplied. */
  predicate NothingSupplied(data: JVal) {
    !Truthy(Get(data, "title")) && !Truthy(Get(data, "description")) && !Truthy(Get(data, "applicableTo"))
    && Get(data, "minimumPurchase").Undef? && Get(data, "isLimited").Undef? && Get(data, "limit").Undef?
    && !Truthy(Get(data, "state")) && !Truthy(Get(data, "promotionalCode"))
    && !Truthy(Get(data, "startDate")) && !Truthy(Get(data, "endDate"))
  }

  /** The field checks of `validateUpdateData`: each field only when it is not `undefined`; the limit rule as on create. */
  function CheckUpdate(title: JVal, description: JVal, minimumPurchase: JVal, isLimited: JVal, limit: JVal,
                       state: JVal, promotionalCode: JVal, startDate: JVal, endDate: JVal): OfferFailures {
    OfferFailures(!TrimmedIfPresent(title, 5), !TrimmedIfPresent(description, 1),
                  !AtLeastIfPresent(minimumPurchase, 0.0), !BooleanIfPresent(isLimited),
                  LimitMissing(isLimited, limit), !OneOfIfPresent(state, OfferStates),
                  !TrimmedIfPresent(promotionalCode, 3), !DateIfPresent(startDate), !DateIfPresent(endDate))
  }

  function UpdateDataFailures(data: JVal): OfferFailures {
    CheckUpdate(Get(data, "title"), Get(data, "description"), Get(data, "minimumPurchase"),
                Get(data, "isLimited"), Get(data, "limit"), Get(data, "state"),
                Get(data, "promotionalCode"), Get(data, "startDate"), Get(data, "endDate"))
  }

  /** The errors `validateUpdateData` pushes once something was supplied, when it does not throw. */
  function UpdateIssues(data: JVal): seq<Issue> {
    var f := UpdateDataFailures(data);
    Fired(HeadTable(f)) + UpdateApplicableErrors(Get(data, "applicableTo")) + Fired(TailTable(f))
  }

  /** Destructuring null or undefined throws; then the message, the exception of the `forEach`, or the checked list. */
  function UpdateVerdict(data: JVal): Verdict {
    if IsNullish(data) then Crash(TypeErrorText)
    else if NothingSupplied(data) then NothingToUpdate(NothingMessage)
    else if UpdateApplicableCrashes(Get(data, "applicableTo")) then Crash(TypeErrorText)
    else Checked(UpdateIssues(data))
  }

  method ValidateUpdateData(data: JVal) returns (v: Verdict)
    ensures v == UpdateVerdict(data)
  {
    if IsNullish(data) {
      return Crash(TypeErrorText);
    }
    var title, description, applicableTo := Get(data, "title"), Get(data, "description"), Get(data, "applicableTo");
    var minimumPurchase, isLimited, limit := Get(data, "minimumPurchase"), Get(data, "isLimited"), Get(data, "limit");
    var state, promotionalCode := Get(data, "state"), Get(data, "promotionalCode");
    var startDate, endDate := Get(data, "startDate"), Get(data, "endDate");
    var errors: seq<Issue> := [];
    if NothingSupplied(data) {
      return NothingToUpdate(NothingMessage);
    }
    var f := CheckUpdate(title, description, minimumPurchase, isLimited, limit, state, promotionalCode, startDate, endDate);
    assert f == UpdateDataFailures(data);
    errors := PushBroken(errors, HeadTable(f));
    assert errors == Fired(HeadTable(f));
    var found := CheckUpdateApplicableTo(applicableTo);
    if found.Throw? {
      return Crash(found.message);
    }
    errors := errors + found.value;
    errors := PushBroken(errors, TailTable(f));
    assert errors == UpdateIssues(data);
    return Checked(errors);
  }

  /** An element an update may hold: an object with a type of "tea" or "craft" and a non-blank string id. */
  predicate UpdateItemAcceptable(p: JVal) {
    IsNonNullObject(p) && OneOf(Get(p, "type"), ProductTypes) && NonEmptyString(Get(p, "id")) && !BlankId(Get(p, "id"))
  }

  lemma UpdateItemIssuesEmptyIff(p: JVal, index: nat)
    ensures UpdateItemIssues(p, index) == [] <==> UpdateItemAcceptable(p)
  {
    if IsNonNullObject(p) {
      UpdateItemTableShape(index, CheckUpdateItemFields(Get(p, "type"), Get(p, "id")));
    }
  }

  /** What each message of an updated element means, for an element that is an object. */
  lemma UpdateItemMessages(p: JVal, index: nat)
    requires IsNonNullObject(p)
    ensures BadItem(index, BadType) in UpdateItemIssues(p, index) <==> !NonEmptyString(Get(p, "type"))
    ensures BadItem(index, BadId) in UpdateItemIssues(p, index) <==> !NonEmptyString(Get(p, "id"))
    ensures BadItem(index, UnknownType) in UpdateItemIssues(p, index) <==>
      Truthy(Get(p, "type")) && !OneOf(Get(p, "type"), ProductTypes)
    ensures BadItem(index, EmptyId) in UpdateItemIssues(p, index) <==> BlankId(Get(p, "id"))
  {
    var f := CheckUpdateItemFields(Get(p, "type"), Get(p, "id"));
    UpdateItemTableMeaning(index, f);
    UpdateItemTableShape(index, f);
  }

  lemma UpdateItemIssuesTagged()
    ensures Tagged(UpdateItemIssues)
  {
    forall p, i, k | 0 <= k < |UpdateItemIssues(p, i)|
      ensures UpdateItemIssues(p, i)[k].BadItem? && UpdateItemIssues(p, i)[k].index == i
    {
      if IsNonNullObject(p) {
        UpdateItemTableShape(i, CheckUpdateItemFields(Get(p, "type"), Get(p, "id")));
      }
    }
  }

  lemma UpdateApplicableErrorsAbout(v: JVal)
    ensures AboutApplicable(UpdateApplicableErrors(v))
  {
    if NonEmptyArray(v) {
      UpdateItemIssuesTagged();
      ItemsIssuesInRange(v.items, UpdateItemIssues);
    }
  }

  /** Absent, or a non-empty array of acceptable elements. */
  predicate UpdateApplicableAcceptable(v: JVal) {
    v.Undef? || (NonEmptyArray(v) && forall i :: 0 <= i < |v.items| ==> UpdateItemAcceptable(v.items[i]))
  }

  lemma UpdateApplicableErrorsEmptyIff(v: JVal)
    ensures UpdateApplicableErrors(v) == [] <==> UpdateApplicableAcceptable(v)
  {
    if NonEmptyArray(v) {
      ItemsIssuesEmpty(v.items, UpdateItemIssues);
      forall i | 0 <= i < |v.items|
        ensures UpdateItemIssues(v.items[i], i) == [] <==> UpdateItemAcceptable(v.items[i])
      {
        UpdateItemIssuesEmptyIff(v.items[i], i);
      }
    }
  }

  /** What an update may be once something was supplied: every field that is not `undefined` passes its rule. */
  predicate UpdateAcceptable(data: JVal) {
    TrimmedIfPresent(Get(data, "title"), 5)
    && TrimmedIfPresent(Get(data, "description"), 1)
    && UpdateApplicableAcceptable(Get(data, "applicableTo"))
    && AtLeastIfPresent(Get(data, "minimumPurchase"), 0.0)
    && BooleanIfPresent(Get(data, "isLimited"))
    && !LimitMissing(Get(data, "isLimited"), Get(data, "limit"))
    && OneOfIfPresent(Get(data, "state"), OfferStates)
    && TrimmedIfPresent(Get(data, "promotionalCode"), 3)
    && DateIfPresent(Get(data, "startDate"))
    && DateIfPresent(Get(data, "endDate"))
  }

  /** Once something was supplied, the update passes exactly when it is acceptable; acceptable data never makes it throw. */
  lemma UpdateDataValidIff(data: JVal)
    requires !IsNullish(data) && !NothingSupplied(data)
    ensures UpdateVerdict(data).Verdict? && UpdateVerdict(data).valid <==> UpdateAcceptable(data)
  {
    var v := Get(data, "applicableTo");
    if UpdateApplicableCrashes(v) {
      var i :| 0 <= i < |v.items| && IdCrashes(v.items[i]);
      assert !UpdateItemAcceptable(v.items[i]);
    } else {
      TablesShape(UpdateDataFailures(data));
      UpdateApplicableErrorsEmptyIff(v);
    }
  }

  /** With nothing supplied the answer is the message, with no list of errors. */
  lemma NothingSuppliedGivesMessage(data: JVal)
    requires !IsNullish(data) && NothingSupplied(data)
    ensures UpdateVerdict(data) == NothingToUpdate(NothingMessage)
  {
  }

  /** Only these ten fields are read. */
  predicate OnlyField(data: JVal, key: string) {
    (key == "title" || Get(data, "title").Undef?)
    && (key == "description" || Get(data, "description").Undef?)
    && (key == "applicableTo" || Get(data, "applicableTo").Undef?)
    && (key == "minimumPurchase" || Get(data, "minimumPurchase").Undef?)
    && (key == "isLimited" || Get(data, "isLimited").Undef?)
    && (key == "limit" || Get(data, "limit").Undef?)
    && (key == "state" || Get(data, "state").Undef?)
    && (key == "promotionalCode" || Get(data, "promotionalCode").Undef?)
    && (key == "startDate" || Get(data, "startDate").Undef?)
    && (key == "endDate" || Get(data, "endDate").Undef?)
  }

  /** An empty title sent alone is "nothing supplied", not a title that is too short. */
  lemma EmptyTitleAloneIsNothing(data: JVal)
    requires !IsNullish(data) && OnlyField(data, "title") && Get(data, "title") == Str("")
    ensures UpdateVerdict(data) == NothingToUpdate(NothingMessage)
  {
  }

  /** The limit rule holds on update too, and a supplied title is held to the create bound. */
  lemma UpdateRulesReported(data: JVal)
    ensures LimitRequired in UpdateIssues(data) <==>
      Get(data, "isLimited") == Bool(true) && !RequiredAbove(Get(data, "limit"), 0.0)
    ensures Present(Get(data, "title")) ==>
      (BadField(Title) in UpdateIssues(data) <==> !TrimmedAtLeast(Get(data, "title"), 5))
  {
    var f := UpdateDataFailures(data);
    var items := UpdateApplicableErrors(Get(data, "applicableTo"));
    UpdateApplicableErrorsAbout(Get(data, "applicableTo"));
    TailReportedByTable(f, items, LimitRequired);
    HeadReportedByTable(f, items, BadField(Title));
    TailTableLimits(f);
    HeadTableMeaning(f);
  }

  /** A field that was not sent is not reported, whatever the others hold. */
  lemma AbsentFieldsPass(data: JVal)
    ensures Get(data, "title").Undef? ==> BadField(Title) !in UpdateIssues(data)
    ensures Get(data, "state").Undef? ==> BadField(State) !in UpdateIssues(data)
    ensures Get(data, "startDate").Undef? ==> BadField(StartDate) !in UpdateIssues(data)
  {
    var f := UpdateDataFailures(data);
    var items := UpdateApplicableErrors(Get(data, "applicableTo"));
    UpdateApplicableErrorsAbout(Get(data, "applicableTo"));
    HeadReportedByTable(f, items, BadField(Title));
    TailReportedByTable(f, items, BadField(State));
    TailReportedByTable(f, items, BadField(StartDate));
    HeadTableMeaning(f);
    TailTableText(f);
    TailTableDates(f);
  }

  /**
   * On update a numeric id is refused twice over: the element gets the
   * id message, and the blank-id test then calls `trim` on the number and throws.
   */
  lemma NumericIdRefusedOnUpdate(data: JVal, k: nat)
    requires !IsNullish(data)
    requires NonEmptyArray(Get(data, "applicableTo")) && k < |Get(data, "applicableTo").items|
    requires IsNonNullObject(Get(data, "applicableTo").items[k])
    requires Get(Get(data, "applicableTo").items[k], "id").Num? && Get(Get(data, "applicableTo").items[k], "id").n != 0.0
    ensures BadItem(k, BadId) in UpdateItemIssues(Get(data, "applicableTo").items[k], k)
    ensures UpdateVerdict(data) == Crash(TypeErrorText)
  {
    var items := Get(data, "applicableTo").items;
    UpdateItemMessages(items[k], k);
    assert IdCrashes(items[k]);
  }

  // ---------------------------------------------------------------------
  // searchOfferByTitle, prepareApplicableTo and the guarded writes

  /**
   * The data `createOffer` hands to the model: reading `data.applicableTo`
   * of null or undefined throws; an object's array `applicableTo` is
   * replaced by `prepareApplicableTo(applicableTo)`; anything else goes on untouched.
   */
  function Prepared(data: JVal): Outcome<JVal> {
    if IsNullish(data) then Throw(TypeErrorText)
    else if !data.Obj? then Return(data)
    else match RewriteItems(data.fields, "applicableTo", PrepareApplicable)
      case Throw(m) => Throw(m)
      case Return(fields) => Return(Obj(fields))
  }

  /** What `updateOffer` hands to the model: as for create, but an empty `applicableTo` array is refused first. */
  function UpdatePrepared(updateData: JVal): Outcome<JVal> {
    if !IsNullish(updateData) && Get(updateData, "applicableTo") == Arr([]) then Throw(EmptyApplicableMessage)
    else Prepared(updateData)
  }

  /** `getOfferById`: the model's answer, with a miss turned into the "not found" exception. */
  method GetOfferById(c: Collection, id: string) returns (r: Outcome<JVal>)
    requires c.name == Model.CollectionName
    ensures ByKey(c.docs, c.available, id) == Null ==> r == Throw(NotFoundMessage)
    ensures ByKey(c.docs, c.available, id) != Null ==> r == Return(Obj(WithId(PathOf(id), DataAt(c.docs, PathOf(id)))))
  {
    var offer := Model.GetOfferById(c, id);
    if !Truthy(offer) {
      return Throw(NotFoundMessage);
    }
    r := Return(offer);
  }

  /**
   * `searchOfferByTitle`: the offers whose string `title` contains the
   * query, in order. `getAllOffers` always answers with an array, so the
   * `Array.isArray` guard never fires.
   */
  method SearchOfferByTitle(c: Collection, title: JVal) returns (r: Outcome<seq<JVal>>)
    requires c.name == Model.CollectionName
    ensures r == SearchBy(if c.available then Listing(c.docs) else [], "title", title, NoMatchMessage)
  {
    var offers := Model.GetAllOffers(c);
    r := SearchBy(offers, "title", title, NoMatchMessage);
  }

  /**
   * `createOffer`: `applicableTo` prepared, then the model's create; any
   * exception on the way comes out prefixed with "Error creando oferta: ".
   */
  method CreateOffer(c: Collection, data: JVal) returns (r: Outcome<JVal>)
    requires c.name == Model.CollectionName && c.Valid()
    modifies c
    ensures c.Valid()
    ensures Prepared(data).Throw? ==> r == Throw(CreatePrefix + Prepared(data).message) && c.docs == old(c.docs)
    ensures Prepared(data).Return? ==>
      var w := Model.Written(Prepared(data).value);
      if old(c.available) && w.Some? && Writable(w.value) then
        AddedOne(old(c.docs), c.docs, w.value) && r == Return(Obj(WithId(NewKey(old(c.docs), c.docs), w.value)))
      else r == Throw(CreatePrefix + Model.CreateFailedMessage) && c.docs == old(c.docs)
  {
    if IsNullish(data) {
      return Throw(CreatePrefix + TypeErrorText);
    }
    var d := data;
    var applicableTo := Get(data, "applicableTo");
    if Truthy(applicableTo) && applicableTo.Arr? {
      var prepared := PrepareApplicableTo(applicableTo.items);
      if prepared.Throw? {
        return Throw(CreatePrefix + prepared.message);
      }
      d := Obj(data.fields["applicableTo" := Arr(prepared.value)]);
    }
    assert Prepared(data) == Return(d);
    var created := Model.CreateOffer(c, d);
    if created.Throw? {
      return Throw(CreatePrefix + created.message);
    }
    r := created;
  }

  /**
   * `updateOffer`: a direct-key read first, which throws on a miss before
   * anything is written; then the empty-array rule and `applicableTo`
   * prepared; then the model's update, whose fallback scan is never taken
   * because the key was just found.
   */
  method UpdateOffer(c: Collection, id: string, updateData: JVal) returns (r: Outcome<JVal>)
    requires c.name == Model.CollectionName && c.Valid()
    modifies c
    ensures c.Valid()
    ensures ByKey(old(c.docs), old(c.available), id) == Null ==> r == Throw(NotFoundMessage) && c.docs == old(c.docs)
    ensures ByKey(old(c.docs), old(c.available), id) != Null && UpdatePrepared(updateData).Throw? ==>
      r == Throw(UpdatePrepared(updateData).message) && c.docs == old(c.docs)
    ensures ByKey(old(c.docs), old(c.available), id) != Null && UpdatePrepared(updateData).Return? ==>
      var w := Model.Written(UpdatePrepared(updateData).value);
      r.Return? &&
      if w.Some? && Updatable(w.value) then MergedAt(old(c.docs), c.docs, PathOf(id), w.value, r.value)
      else c.docs == old(c.docs) && r.value == Null
  {
    var existing := Model.GetOfferById(c, id);
    if !Truthy(existing) {
      return Throw(NotFoundMessage);
    }
    assert Locate(c.docs, c.available, id) == At(PathOf(id));
    var prepared := PrepareUpdate(updateData);
    if prepared.Throw? {
      return Throw(prepared.message);
    }
    var d := prepared.value;
    var updated := Model.UpdateOffer(c, id, d);
    r := Return(updated);
  }

  /**
   * The steps of `updateOffer` between the direct-key read and the
   * model's update: reading `updateData.applicableTo` of null or undefined
   * throws, an empty `applicableTo` array is refused, and the items are prepared.
   */
  method PrepareUpdate(updateData: JVal) returns (o: Outcome<JVal>)
    ensures o == UpdatePrepared(updateData)
  {
    if IsNullish(updateData) {
      return Throw(TypeErrorText);
    }
    var d := updateData;
    var applicableTo := Get(updateData, "applicableTo");
    if Truthy(applicableTo) && applicableTo.Arr? {
      if |applicableTo.items| == 0 {
        assert applicableTo == Arr([]);
        return Throw(EmptyApplicableMessage);
      }
      var prepared := PrepareApplicableTo(applicableTo.items);
      if prepared.Throw? {
        assert UpdatePrepared(updateData) == Throw(prepared.message);
        return Throw(prepared.message);
      }
      d := Obj(updateData.fields["applicableTo" := Arr(prepared.value)]);
    }
    o := Return(d);
  }

  /** `deleteOffer`: throws on a miss before deleting; the model's "not found" reply is never reached from here. */
  method DeleteOffer(c: Collection, id: string) returns (r: Outcome<JVal>)
    requires c.name == Model.CollectionName && c.Valid()
    modifies c
    ensures c.Valid()
    ensures ByKey(old(c.docs), old(c.available), id) == Null ==> r == Throw(NotFoundMessage) && c.docs == old(c.docs)
    ensures ByKey(old(c.docs), old(c.available), id) != Null ==>
      r == Return(Obj(DataAt(old(c.docs), PathOf(id)))) && c.docs == Removed(old(c.docs), PathOf(id))
  {
    var existing := Model.GetOfferById(c, id);
    if !Truthy(existing) {
      return Throw(NotFoundMessage);
    }
    var deleted := Model.DeleteOffer(c, id);
    r := Return(deleted);
  }

  /**
   * An offer whose items all have a known type but one of which has a
   * numeric id (which `validateOfferData` accepts) is never stored: the
   * prepared item has no document reference, so the model's create fails.
   */
  lemma NumericApplicableIdFailsCreate(data: JVal, k: nat)
    requires data.Obj? && Get(data, "applicableTo").Arr?
    requires forall i :: 0 <= i < |Get(data, "applicableTo").items| ==> KnownItem(Get(data, "applicableTo").items[i])
    requires k < |Get(data, "applicableTo").items| && Get(Get(data, "applicableTo").items[k], "id").Num?
    ensures Prepared(data).Return?
    ensures Model.Written(Prepared(data).value).None?
  {
    var items := Get(data, "applicableTo").items;
    PrepareApplicableToMeaning(items);
    var out := PrepareApplicableTo(items).value;
    NumericIdHasNoRef(items[k]);
    assert out[k] == PrepareApplicable(items[k]).value;
    assert RewriteItems(data.fields, "applicableTo", PrepareApplicable) == Return(data.fields["applicableTo" := Arr(out)]);
    var d := Prepared(data).value;
    assert d.fields["applicableTo"] == Arr(out);
    assert !ItemRef(out[k]).Return?;
    assert MapOrThrow(out, ItemRef).Throw?;
  }
}
