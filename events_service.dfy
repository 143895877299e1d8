/**
 * `src/services/events.service.js`: the two validators and the guarded
 * reads and writes for events.
 *
 * The time-order rule builds `new Date(`2000-01-01T${time}`)` for both
 * times. With a two-digit hour that is an ISO date-time and the comparison
 * is one of minutes since midnight. With a one-digit hour ("9:00"), which
 * the clock expression admits, how the string parses is left to the
 * engine; the validators take that parse as a parameter `loose`, whose None
 * stands for an invalid date (which compares false both ways, so the rule
 * does not fire).
 */
module EventsService {
  import opened Json
  import opened Validation
  import opened Formats
  import opened Store
  import opened Documents
  import Model = EventsModel

  const NotFoundMessage := "Evento no encontrado"
  const NothingMessage := "Debes proporcionar al menos un campo para actualizar el evento."

  /** The exception of reading a `const` before its declaration. */
  const ReferenceErrorText := "ReferenceError"

  // ---------------------------------------------------------------------
  // The time-order rule

  /**
   * `String(v)` as far as the clock expression can match it (`regex.test`
   * converts its argument): a string is itself, and a one-element array
   * reads as its element. None stands for "does not match", since no other
   * text can: a number, boolean, null, undefined, object or reference gives
   * a text without ':'; an empty array gives ""; an array of two or more
   * elements is joined with ',', which the anchored expression never admits.
   */
  function RegexText(v: JVal): Option<string> {
    match v
    case Str(s) => Some(s)
    case Arr(items) => if |items| == 1 then RegexText(items[0]) else None
    case _ => None
  }

  /** `timeRegex.test(v)`. */
  predicate ClockTest(v: JVal) {
    RegexText(v).Some? && ClockTime(RegexText(v).value)
  }

  /** A string matches exactly when it is a clock time: the test only differs from the `typeof` check on arrays. */
  lemma ClockTestOnStrings(s: string)
    ensures ClockTest(Str(s)) <==> ClockString(Str(s))
    ensures ClockTest(Arr([Str(s)])) <==> ClockTime(s)
  {
  }

  /** `new Date(`2000-01-01T${t}`)` as minutes since midnight, for a matching time. */
  function Instant(t: string, loose: string -> Option<int>): Option<int>
    requires ClockTime(t)
  {
    if TwoDigitHour(t) then Some(MinuteOfDay(t)) else loose(t)
  }

  /** `start && end && test(start) && test(end)` and then `end <= start`. */
  predicate OrderBroken(start: JVal, end: JVal, loose: string -> Option<int>) {
    Truthy(start) && Truthy(end) && ClockTest(start) && ClockTest(end)
    && var a := Instant(RegexText(start).value, loose);
       var b := Instant(RegexText(end).value, loose);
       a.Some? && b.Some? && b.value <= a.value
  }

  /** For two-digit-hour strings the rule compares minutes, and equal times break it. */
  lemma OrderOnTwoDigitHours(start: string, end: string, loose: string -> Option<int>)
    requires TwoDigitHour(start) && TwoDigitHour(end)
    ensures OrderBroken(Str(start), Str(end), loose) <==> MinuteOfDay(end) <= MinuteOfDay(start)
    ensures start == end ==> OrderBroken(Str(start), Str(end), loose)
  {
  }

  /** Without both times there is nothing to compare. */
  lemma OrderNeedsBothTimes(start: JVal, end: JVal, loose: string -> Option<int>)
    requires !Truthy(start) || !Truthy(end)
    ensures !OrderBroken(start, end, loose)
  {
  }

  /** `isFree === true && Number(entryPrice) !== 0` (NaN differs from 0). */
  predicate FreePriced(isFree: JVal, entryPrice: JVal) {
    isFree == Bool(true) && ToNumber(entryPrice) != Some(0.0)
  }

  // ---------------------------------------------------------------------
  // The checks both validators share the layout of

  /** Which checks of a validator failed, one flag per `if` block; both validators have the same blocks in the same order. */
  datatype EventFailures = EventFailures(
    title: bool, date: bool, startTime: bool, endTime: bool, order: bool,
    registrationRequired: bool, isFree: bool, description: bool, location: bool, isVirtual: bool,
    entryPrice: bool, freePriced: bool, cancelledByRain: bool)

  function EventTable(f: EventFailures): seq<Rule> {
    [Rule(f.title, BadField(Title)), Rule(f.date, BadField(Date)),
     Rule(f.startTime, BadField(StartTime)), Rule(f.endTime, BadField(EndTime)),
     Rule(f.order, EndNotAfterStart),
     Rule(f.registrationRequired, BadField(RegistrationRequired)), Rule(f.isFree, BadField(IsFree)),
     Rule(f.description, BadField(Description)), Rule(f.location, BadField(Location)),
     Rule(f.isVirtual, BadField(IsVirtual)), Rule(f.entryPrice, BadField(EntryPrice)),
     Rule(f.freePriced, FreeButPriced), Rule(f.cancelledByRain, BadField(CancelledByRain))]
  }

  /** Each message is pushed exactly when its check failed: the texts, */
  lemma EventTableTexts(f: EventFailures)
    ensures BadField(Title) in Fired(EventTable(f)) <==> f.title
    ensures BadField(Description) in Fired(EventTable(f)) <==> f.description
    ensures BadField(Location) in Fired(EventTable(f)) <==> f.location
  {
    FiredAt(EventTable(f), 0);
    FiredAt(EventTable(f), 7);
    FiredAt(EventTable(f), 8);
  }

  /** the schedule, */
  lemma EventTableSchedule(f: EventFailures)
    ensures BadField(Date) in Fired(EventTable(f)) <==> f.date
    ensures BadField(StartTime) in Fired(EventTable(f)) <==> f.startTime
    ensures BadField(EndTime) in Fired(EventTable(f)) <==> f.endTime
    ensures EndNotAfterStart in Fired(EventTable(f)) <==> f.order
  {
    FiredAt(EventTable(f), 1);
    FiredAt(EventTable(f), 2);
    FiredAt(EventTable(f), 3);
    FiredAt(EventTable(f), 4);
  }

  /** the four flags, */
  lemma EventTableFlags(f: EventFailures)
    ensures BadField(RegistrationRequired) in Fired(EventTable(f)) <==> f.registrationRequired
    ensures BadField(IsFree) in Fired(EventTable(f)) <==> f.isFree
    ensures BadField(IsVirtual) in Fired(EventTable(f)) <==> f.isVirtual
    ensures BadField(CancelledByRain) in Fired(EventTable(f)) <==> f.cancelledByRain
  {
    FiredAt(EventTable(f), 5);
    FiredAt(EventTable(f), 6);
    FiredAt(EventTable(f), 9);
    FiredAt(EventTable(f), 12);
  }

  /** and the price rules. */
  lemma EventTablePrice(f: EventFailures)
    ensures BadField(EntryPrice) in Fired(EventTable(f)) <==> f.entryPrice
    ensures FreeButPriced in Fired(EventTable(f)) <==> f.freePriced
  {
    FiredAt(EventTable(f), 10);
    FiredAt(EventTable(f), 11);
  }

  /** No message at all exactly when no check failed. */
  lemma EventTableEmpty(f: EventFailures)
    ensures Fired(EventTable(f)) == [] <==>
      !f.title && !f.date && !f.startTime && !f.endTime && !f.order && !f.registrationRequired && !f.isFree
      && !f.description && !f.location && !f.isVirtual && !f.entryPrice && !f.freePriced && !f.cancelledByRain
  {
    FiredNone(EventTable(f));
  }

  // ---------------------------------------------------------------------
  // validateEventData

  /** The checks of `validateEventData` on the fields it reads. */
  function CheckEvent(title: JVal, date: JVal, startTime: JVal, endTime: JVal, registrationRequired: JVal,
                      isFree: JVal, description: JVal, location: JVal, isVirtual: JVal, entryPrice: JVal,
                      cancelledByRain: JVal, loose: string -> Option<int>): EventFailures {
    EventFailures(!TrimmedAtLeast(title, 5), !DateString(date), !ClockString(startTime), !ClockString(endTime),
                  OrderBroken(startTime, endTime, loose),
                  !BooleanIfPresent(registrationRequired), !BooleanIfPresent(isFree),
                  !TrimmedAtLeast(description, 10), !TrimmedAtLeast(location, 5), !BooleanIfPresent(isVirtual),
                  !RequiredAtLeast(entryPrice, 0.0), FreePriced(isFree, entryPrice),
                  !BooleanIfPresent(cancelledByRain))
  }

  function EventDataFailures(data: JVal, loose: string -> Option<int>): EventFailures {
    CheckEvent(Get(data, "title"), Get(data, "date"), Get(data, "startTime"), Get(data, "endTime"),
               Get(data, "registrationRequired"), Get(data, "isFree"), Get(data, "description"),
               Get(data, "location"), Get(data, "isVirtual"), Get(data, "entryPrice"),
               Get(data, "cancelledByRain"), loose)
  }

  /** The errors `validateEventData` pushes, in order. It never throws: reading a field of any truthy value is harmless. */
  function EventIssues(data: JVal, loose: string -> Option<int>): seq<Issue> {
    if !Truthy(data) then [NoData] else Fired(EventTable(EventDataFailures(data, loose)))
  }

  method ValidateEventData(data: JVal, loose: string -> Option<int>) returns (v: Verdict)
    ensures v == Checked(EventIssues(data, loose))
  {
    var errors: seq<Issue> := [];
    if !Truthy(data) {
      errors := errors + [NoData];
      return Checked(errors);
    }
    var title, date, startTime, endTime := Get(data, "title"), Get(data, "date"), Get(data, "startTime"), Get(data, "endTime");
    var registrationRequired, isFree := Get(data, "registrationRequired"), Get(data, "isFree");
    var description, location, isVirtual := Get(data, "description"), Get(data, "location"), Get(data, "isVirtual");
    var entryPrice, cancelledByRain := Get(data, "entryPrice"), Get(data, "cancelledByRain");
    var f := CheckEvent(title, date, startTime, endTime, registrationRequired, isFree, description, location,
                        isVirtual, entryPrice, cancelledByRain, loose);
    assert f == EventDataFailures(data, loose);
    errors := PushBroken(errors, EventTable(f));
    return Checked(errors);
  }

  /**
   * What a new event must be: a title and a location of at least 5 and a
   * description of at least 10 characters after trimming, a DD-MM-YY date,
   * two clock times with the end after the start, four flags that are
   * booleans when given, and an entry price of at least 0 that is 0 for a
   * free event.
   */
  predicate EventAcceptable(data: JVal, loose: string -> Option<int>) {
    Truthy(data)
    && TrimmedAtLeast(Get(data, "title"), 5)
    && DateString(Get(data, "date"))
    && ClockString(Get(data, "startTime")) && ClockString(Get(data, "endTime"))
    && !OrderBroken(Get(data, "startTime"), Get(data, "endTime"), loose)
    && BooleanIfPresent(Get(data, "registrationRequired"))
    && BooleanIfPresent(Get(data, "isFree"))
    && TrimmedAtLeast(Get(data, "description"), 10)
    && TrimmedAtLeast(Get(data, "location"), 5)
    && BooleanIfPresent(Get(data, "isVirtual"))
    && RequiredAtLeast(Get(data, "entryPrice"), 0.0)
    && !FreePriced(Get(data, "isFree"), Get(data, "entryPrice"))
    && BooleanIfPresent(Get(data, "cancelledByRain"))
  }

  lemma EventDataValidIff(data: JVal, loose: string -> Option<int>)
    ensures Checked(EventIssues(data, loose)).valid <==> EventAcceptable(data, loose)
  {
    if Truthy(data) {
      EventTableEmpty(EventDataFailures(data, loose));
    }
  }

  /** Missing data is reported alone. */
  lemma NoEventData(data: JVal, loose: string -> Option<int>)
    requires !Truthy(data)
    ensures Checked(EventIssues(data, loose)) == Verdict(false, [NoData])
  {
  }

  /** The three texts are reported exactly when too short after trimming. */
  lemma TextFieldsReported(data: JVal, loose: string -> Option<int>)
    requires Truthy(data)
    ensures BadField(Title) in EventIssues(data, loose) <==> !TrimmedAtLeast(Get(data, "title"), 5)
    ensures BadField(Description) in EventIssues(data, loose) <==> !TrimmedAtLeast(Get(data, "description"), 10)
    ensures BadField(Location) in EventIssues(data, loose) <==> !TrimmedAtLeast(Get(data, "location"), 5)
  {
    EventTableTexts(EventDataFailures(data, loose));
  }

  /** The date and the two times are required and must have their shapes; two-digit-hour times must be in order. */
  lemma ScheduleReported(data: JVal, loose: string -> Option<int>)
    requires Truthy(data)
    ensures BadField(Date) in EventIssues(data, loose) <==> !DateString(Get(data, "date"))
    ensures BadField(StartTime) in EventIssues(data, loose) <==> !ClockString(Get(data, "startTime"))
    ensures BadField(EndTime) in EventIssues(data, loose) <==> !ClockString(Get(data, "endTime"))
    ensures (Get(data, "startTime").Str? && TwoDigitHour(Get(data, "startTime").s)
             && Get(data, "endTime").Str? && TwoDigitHour(Get(data, "endTime").s)) ==>
      (EndNotAfterStart in EventIssues(data, loose) <==>
        MinuteOfDay(Get(data, "endTime").s) <= MinuteOfDay(Get(data, "startTime").s))
  {
    var f := EventDataFailures(data, loose);
    EventTableSchedule(f);
  }

  /** The four flags are reported only when given and not booleans. */
  lemma FlagsReported(data: JVal, loose: string -> Option<int>)
    requires Truthy(data)
    ensures BadField(RegistrationRequired) in EventIssues(data, loose) <==> !BooleanIfPresent(Get(data, "registrationRequired"))
    ensures BadField(IsFree) in EventIssues(data, loose) <==> !BooleanIfPresent(Get(data, "isFree"))
    ensures BadField(IsVirtual) in EventIssues(data, loose) <==> !BooleanIfPresent(Get(data, "isVirtual"))
    ensures BadField(CancelledByRain) in EventIssues(data, loose) <==> !BooleanIfPresent(Get(data, "cancelledByRain"))
  {
    EventTableFlags(EventDataFailures(data, loose));
  }

  /** The entry price is required and at least 0, and a free event must be priced 0. */
  lemma PriceRulesReported(data: JVal, loose: string -> Option<int>)
    requires Truthy(data)
    ensures BadField(EntryPrice) in EventIssues(data, loose) <==> !RequiredAtLeast(Get(data, "entryPrice"), 0.0)
    ensures FreeButPriced in EventIssues(data, loose) <==>
      Get(data, "isFree") == Bool(true) && ToNumber(Get(data, "entryPrice")) != Some(0.0)
  {
    EventTablePrice(EventDataFailures(data, loose));
  }

  /** A free event with a missing price gets both price messages. */
  lemma FreeWithoutPrice(data: JVal, loose: string -> Option<int>)
    requires Truthy(data) && Get(data, "isFree") == Bool(true) && Get(data, "entryPrice").Undef?
    ensures BadField(EntryPrice) in EventIssues(data, loose) && FreeButPriced in EventIssues(data, loose)
  {
    PriceRulesReported(data, loose);
  }

  // ---------------------------------------------------------------------
  // validateEventUpdateData

  /** The "nothing to update" test: falsy texts and times count as not supplied; flags and price only when `undefined`. */
  predicate NothingSupplied(data: JVal) {
    !Truthy(Get(data, "title")) && !Truthy(Get(data, "date"))
    && !Truthy(Get(data, "startTime")) && !Truthy(Get(data, "endTime"))
    && Get(data, "registrationRequired").Undef? && Get(data, "isFree").Undef?
    && !Truthy(Get(data, "description")) && !Truthy(Get(data, "location"))
    && Get(data, "isVirtual").Undef? && Get(data, "entryPrice").Undef? && Get(data, "cancelledByRain").Undef?
  }

  /** `isFree === true && entryPrice !== undefined && Number(entryPrice) !== 0`. */
  predicate FreePricedIfPresent(isFree: JVal, entryPrice: JVal) {
    Present(entryPrice) && FreePriced(isFree, entryPrice)
  }

  /** The checks of `validateEventUpdateData`: each field only when it is not `undefined`. */
  function CheckUpdate(title: JVal, date: JVal, startTime: JVal, endTime: JVal, registrationRequired: JVal,
                       isFree: JVal, description: JVal, location: JVal, isVirtual: JVal, entryPrice: JVal,
                       cancelledByRain: JVal, loose: string -> Option<int>): EventFailures {
    EventFailures(!TrimmedIfPresent(title, 5), !DateIfPresent(date), !ClockIfPresent(startTime), !ClockIfPresent(endTime),
                  OrderBroken(startTime, endTime, loose),
                  !BooleanIfPresent(registrationRequired), !BooleanIfPresent(isFree),
                  !TrimmedIfPresent(description, 10), !TrimmedIfPresent(location, 5), !BooleanIfPresent(isVirtual),
                  !AtLeastIfPresent(entryPrice, 0.0), FreePricedIfPresent(isFree, entryPrice),
                  !BooleanIfPresent(cancelledByRain))
  }

  function UpdateDataFailures(data: JVal, loose: string -> Option<int>): EventFailures {
    CheckUpdate(Get(data, "title"), Get(data, "date"), Get(data, "startTime"), Get(data, "endTime"),
                Get(data, "registrationRequired"), Get(data, "isFree"), Get(data, "description"),
                Get(data, "location"), Get(data, "isVirtual"), Get(data, "entryPrice"),
                Get(data, "cancelledByRain"), loose)
  }

  function UpdateIssues(data: JVal, loose: string -> Option<int>): seq<Issue> {
    Fired(EventTable(UpdateDataFailures(data, loose)))
  }

  /**
   * The answer of `validateEventUpdateData`. For falsy or non-object data
   * its first statement pushes onto `errors` before the `const` is
   * declared, which throws; then the message, or the checked list.
   */
  function UpdateVerdict(data: JVal, loose: string -> Option<int>): Verdict {
    if !Truthy(data) || !IsObject(data) then Crash(ReferenceErrorText)
    else if NothingSupplied(data) then NothingToUpdate(NothingMessage)
    else Checked(UpdateIssues(data, loose))
  }

  method ValidateEventUpdateData(data: JVal, loose: string -> Option<int>) returns (v: Verdict)
    ensures v == UpdateVerdict(data, loose)
  {
    if !Truthy(data) || !IsObject(data) {
      return Crash(ReferenceErrorText);
    }
    var title, date, startTime, endTime := Get(data, "title"), Get(data, "date"), Get(data, "startTime"), Get(data, "endTime");
    var registrationRequired, isFree := Get(data, "registrationRequired"), Get(data, "isFree");
    var description, location, isVirtual := Get(data, "description"), Get(data, "location"), Get(data, "isVirtual");
    var entryPrice, cancelledByRain := Get(data, "entryPrice"), Get(data, "cancelledByRain");
    var errors: seq<Issue> := [];
    if NothingSupplied(data) {
      return NothingToUpdate(NothingMessage);
    }
    var f := CheckUpdate(title, date, startTime, endTime, registrationRequired, isFree, description, location,
                         isVirtual, entryPrice, cancelledByRain, loose);
    assert f == UpdateDataFailures(data, loose);
    errors := PushBroken(errors, EventTable(f));
    return Checked(errors);
  }

  /** What an update may be once something was supplied: every field that is not `undefined` passes its rule. */
  predicate UpdateAcceptable(data: JVal, loose: string -> Option<int>) {
    TrimmedIfPresent(Get(data, "title"), 5)
    && DateIfPresent(Get(data, "date"))
    && ClockIfPresent(Get(data, "startTime")) && ClockIfPresent(Get(data, "endTime"))
    && !OrderBroken(Get(data, "startTime"), Get(data, "endTime"), loose)
    && BooleanIfPresent(Get(data, "registrationRequired"))
    && BooleanIfPresent(Get(data, "isFree"))
    && TrimmedIfPresent(Get(data, "description"), 10)
    && TrimmedIfPresent(Get(data, "location"), 5)
    && BooleanIfPresent(Get(data, "isVirtual"))
    && AtLeastIfPresent(Get(data, "entryPrice"), 0.0)
    && !FreePricedIfPresent(Get(data, "isFree"), Get(data, "entryPrice"))
    && BooleanIfPresent(Get(data, "cancelledByRain"))
  }

  lemma UpdateDataValidIff(data: JVal, loose: string -> Option<int>)
    requires Truthy(data) && IsObject(data) && !NothingSupplied(data)
    ensures UpdateVerdict(data, loose).Verdict? && UpdateVerdict(data, loose).valid <==> UpdateAcceptable(data, loose)
  {
    EventTableEmpty(UpdateDataFailures(data, loose));
  }

  /** Falsy or non-object data throws instead of answering. */
  lemma NonObjectUpdateThrows(data: JVal, loose: string -> Option<int>)
    requires !Truthy(data) || !IsObject(data)
    ensures UpdateVerdict(data, loose) == Crash(ReferenceErrorText)
  {
  }

  /** With nothing supplied the answer is the message, with no list of errors. */
  lemma NothingSuppliedGivesMessage(data: JVal, loose: string -> Option<int>)
    requires Truthy(data) && IsObject(data) && NothingSupplied(data)
    ensures UpdateVerdict(data, loose) == NothingToUpdate(NothingMessage)
  {
  }

  /** On update the time order is checked only when both times are supplied, and the free rule only with a price. */
  lemma UpdateCrossRules(data: JVal, loose: string -> Option<int>)
    ensures !Truthy(Get(data, "startTime")) || !Truthy(Get(data, "endTime")) ==> EndNotAfterStart !in UpdateIssues(data, loose)
    ensures Get(data, "entryPrice").Undef? ==> FreeButPriced !in UpdateIssues(data, loose)
    ensures FreeButPriced in UpdateIssues(data, loose) <==>
      Get(data, "isFree") == Bool(true) && Present(Get(data, "entryPrice")) && ToNumber(Get(data, "entryPrice")) != Some(0.0)
  {
    var f := UpdateDataFailures(data, loose);
    EventTableSchedule(f);
    EventTablePrice(f);
  }

  /** A supplied field is held to its create rule; an absent one is not reported. */
  lemma UpdateFieldsReported(data: JVal, loose: string -> Option<int>)
    ensures BadField(Title) in UpdateIssues(data, loose) <==> Present(Get(data, "title")) && !TrimmedAtLeast(Get(data, "title"), 5)
    ensures BadField(StartTime) in UpdateIssues(data, loose) <==> Present(Get(data, "startTime")) && !ClockString(Get(data, "startTime"))
    ensures BadField(EntryPrice) in UpdateIssues(data, loose) <==>
      Present(Get(data, "entryPrice")) && !NumberAtLeast(Get(data, "entryPrice"), 0.0)
  {
    var f := UpdateDataFailures(data, loose);
    EventTableTexts(f);
    EventTableSchedule(f);
    EventTablePrice(f);
  }

  /** On update a null price passes (`Number(null)` is 0), where the create validator refuses it. */
  lemma NullPriceOnlyPassesUpdate(data: JVal, loose: string -> Option<int>)
    requires Truthy(data) && Get(data, "entryPrice") == Null
    ensures BadField(EntryPrice) in EventIssues(data, loose)
    ensures BadField(EntryPrice) !in UpdateIssues(data, loose)
  {
    PriceRulesReported(data, loose);
    UpdateFieldsReported(data, loose);
  }

  /** Whatever a new event may be, an update may carry. */
  lemma CreateAcceptableIsUpdateAcceptable(data: JVal, loose: string -> Option<int>)
    requires EventAcceptable(data, loose)
    ensures UpdateAcceptable(data, loose)
  {
  }

  // ---------------------------------------------------------------------
  // The guarded reads and writes

  /** `getEventById`: the model's answer, with a miss turned into the "not found" exception. */
  method GetEventById(c: Collection, id: string) returns (r: Outcome<JVal>)
    requires c.name == Model.CollectionName
    ensures ByKey(c.docs, c.available, id) == Null ==> r == Throw(NotFoundMessage)
    ensures ByKey(c.docs, c.available, id) != Null ==> r == Return(Obj(WithId(PathOf(id), DataAt(c.docs, PathOf(id)))))
  {
    var event := Model.GetEventById(c, id);
    if !Truthy(event) {
      return Throw(NotFoundMessage);
    }
    r := Return(event);
  }

  /**
   * `searchEventByTitle` filters a variable `products` that is not
   * declared in this file, so after the listing it always throws.
   */
  method SearchEventByTitle(c: Collection, title: JVal) returns (r: Outcome<seq<JVal>>)
    requires c.name == Model.CollectionName
    ensures r == Throw(ReferenceErrorText)
  {
    var events := Model.GetAllEvents(c);
    r := Throw(ReferenceErrorText);
  }

  /** `createEvent`: the model's create, unguarded and unchanged. */
  method CreateEvent(c: Collection, data: JVal) returns (r: Outcome<JVal>)
    requires c.name == Model.CollectionName && c.Valid()
    modifies c
    ensures c.Valid()
    ensures !(old(c.available) && data.Obj? && Writable(data.fields)) ==> r == Throw(TypeErrorText) && c.docs == old(c.docs)
    ensures old(c.available) && data.Obj? && Writable(data.fields) ==>
      AddedOne(old(c.docs), c.docs, data.fields) && r == Return(Obj(WithId(NewKey(old(c.docs), c.docs), data.fields)))
  {
    r := Model.CreateEvent(c, data);
  }

  /** `updateEvent`: a miss throws before anything is written; otherwise an object patch is merged in. */
  method UpdateEvent(c: Collection, id: string, data: JVal) returns (r: Outcome<JVal>)
    requires c.name == Model.CollectionName && c.Valid()
    modifies c
    ensures c.Valid()
    ensures ByKey(old(c.docs), old(c.available), id) == Null ==> r == Throw(NotFoundMessage) && c.docs == old(c.docs)
    ensures ByKey(old(c.docs), old(c.available), id) != Null ==>
      r.Return? &&
      if data.Obj? && Updatable(data.fields) then MergedAt(old(c.docs), c.docs, PathOf(id), data.fields, r.value)
      else c.docs == old(c.docs) && r.value == Null
  {
    var event := Model.GetEventById(c, id);
    if !Truthy(event) {
      return Throw(NotFoundMessage);
    }
    var updated := Model.UpdateEvent(c, id, data);
    r := Return(updated);
  }

  /** `deleteEvent`: a miss throws before anything is deleted; otherwise the document goes and its fields come back. */
  method DeleteEvent(c: Collection, id: string) returns (r: Outcome<JVal>)
    requires c.name == Model.CollectionName && c.Valid()
    modifies c
    ensures c.Valid()
    ensures ByKey(old(c.docs), old(c.available), id) == Null ==> r == Throw(NotFoundMessage) && c.docs == old(c.docs)
    ensures ByKey(old(c.docs), old(c.available), id) != Null ==>
      r == Return(Obj(DataAt(old(c.docs), PathOf(id)))) && c.docs == Removed(old(c.docs), PathOf(id))
  {
    var event := Model.GetEventById(c, id);
    if !Truthy(event) {
      return Throw(NotFoundMessage);
    }
    var deleted := Model.DeleteEvent(c, id);
    r := Return(deleted);
  }
}
