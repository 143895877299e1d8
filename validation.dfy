/**
 * What every `validate*` function of the services has in common: the list
 * of problems it collects, the three shapes its answer takes, the per-item
 * pass over an array field, and the field tests it is built from.
 */
module Validation {
  import opened Json

  /** What is wrong with one element of an array field (`products`, `applicableTo`). */
  datatype ItemAspect =
    | NotAnObject      // the element is not a non-null object
    | MissingTypeOrId  // `type` or `id` is absent or falsy (offer create)
    | BadType          // `type` is not a usable string
    | BadId            // `id` is not a usable string or number
    | BadQuantity      // `quantity` is not a number above 0
    | BadUnitPrice     // `unitPrice` is not a number of at least 0
    | UnknownType      // `type` is given but is neither "tea" nor "craft"
    | EmptyId          // `id` is made of white space alone (offer update)

  /** The fields a message can name. */
  datatype Field =
    // products
    | Name | Brand | BrandArtist | CreationDate | Description | EcoFriendly | Price | Stock
    // reservations
    | UserId | Products | TotalAmount | PickupDate | PickupTimeSlot | CustomerNotes | ContactEmail
    | PaymentMethod | Subtotal | Discount | State | DiscountCode | EcoPackaging | CancellationDate
    // offers
    | Title | ApplicableTo | MinimumPurchase | IsLimited | PromotionalCode | StartDate | EndDate
    // events
    | Date | StartTime | EndTime | RegistrationRequired | IsFree | Location | IsVirtual | EntryPrice
    | CancelledByRain
    // users
    | FullName | DateOfBirth | Email | Password | AccountEnabled | Phone | Address | Role

  /**
   * One pushed error message. The source pushes Spanish sentences; the model
   * keeps which rule fired (and for which field or element) instead of the text.
   */
  datatype Issue =
    | NoData                                // nothing was sent at all
    | BadField(field: Field)               // the field breaks its rule
    | BadShape(field: Field)               // the field is a string of the wrong shape (second message)
    | BadItem(index: nat, aspect: ItemAspect)
    | LimitRequired                         // `isLimited` is true but `limit` is not positive
    | EndNotAfterStart                      // `endTime` is not later than `startTime`
    | FreeButPriced                         // `isFree` is true but `entryPrice` is not 0
    | StockOverTen                          // a craft update asks for more than 10 in stock

  /**
   * The answer of a validator: `{ valid, errors }`, the `{ valid: false,
   * message }` an update validator gives when nothing was supplied, or the
   * exception a validator throws on input it does not guard against.
   */
  datatype Verdict =
    | Verdict(valid: bool, errors: seq<Issue>)
    | NothingToUpdate(message: string)
    | Crash(reason: string)

  /** `{ valid: errors.length === 0, errors }`. */
  function Checked(errors: seq<Issue>): (v: Verdict)
    ensures v.Verdict? && v.errors == errors
    ensures v.valid <==> errors == []
  {
    Verdict(|errors| == 0, errors)
  }

  /**
   * One `if (bad) errors.push(issue)` block of a validator. A validator's
   * straight run of such blocks is a list of rules, read in order.
   */
  datatype Rule = Rule(broken: bool, issue: Issue)

  /** The issues of the broken rules from rule `i` on, in the order of the rules. */
  function FiredFrom(rules: seq<Rule>, i: nat): seq<Issue>
    requires i <= |rules|
    decreases |rules| - i
  {
    if i == |rules| then []
    else (if rules[i].broken then [rules[i].issue] else []) + FiredFrom(rules, i + 1)
  }

  /** The issues of the broken rules, in the order of the rules. */
  function Fired(rules: seq<Rule>): seq<Issue> {
    FiredFrom(rules, 0)
  }

  /** An issue is reported from rule `i` on exactly when some later rule that raises it is broken. */
  lemma {:induction false} FiredFromHas(rules: seq<Rule>, i: nat, x: Issue)
    requires i <= |rules|
    ensures x in FiredFrom(rules, i) <==> Rule(true, x) in rules[i..]
    decreases |rules| - i
  {
    if i < |rules| {
      FiredFromHas(rules, i + 1, x);
      assert rules[i..] == [rules[i]] + rules[i + 1..];
    }
  }

  /** An issue is reported exactly when some rule that raises it is broken. */
  lemma FiredHas(rules: seq<Rule>, x: Issue)
    ensures x in Fired(rules) <==> Rule(true, x) in rules
  {
    FiredFromHas(rules, 0, x);
    assert rules[0..] == rules;
  }

  /** The issue of rule `i`, raised by no other rule, is reported exactly when rule `i` is broken. */
  lemma FiredAt(rules: seq<Rule>, i: nat)
    requires i < |rules|
    requires forall j :: 0 <= j < |rules| && j != i ==> rules[j].issue != rules[i].issue
    ensures rules[i].issue in Fired(rules) <==> rules[i].broken
  {
    FiredHas(rules, rules[i].issue);
    if Rule(true, rules[i].issue) in rules {
      var j :| 0 <= j < |rules| && rules[j] == Rule(true, rules[i].issue);
    }
  }

  /** Nothing is reported from rule `i` on exactly when no later rule is broken. */
  lemma {:induction false} FiredFromNone(rules: seq<Rule>, i: nat)
    requires i <= |rules|
    ensures FiredFrom(rules, i) == [] <==> forall k :: i <= k < |rules| ==> !rules[k].broken
    decreases |rules| - i
  {
    if i < |rules| {
      FiredFromNone(rules, i + 1);
    }
  }

  /** Nothing is reported exactly when no rule is broken. */
  lemma FiredNone(rules: seq<Rule>)
    ensures Fired(rules) == [] <==> forall k :: k in rules ==> !k.broken
  {
    FiredFromNone(rules, 0);
  }

  /** Runs the `if` blocks of `rules` one after the other, pushing onto `errors`. */
  method PushBroken(errors: seq<Issue>, rules: seq<Rule>) returns (r: seq<Issue>)
    ensures r == errors + Fired(rules)
  {
    r := errors;
    var i := 0;
    while i < |rules|
      invariant 0 <= i <= |rules|
      invariant r + FiredFrom(rules, i) == errors + Fired(rules)
    {
      var step := if rules[i].broken then [rules[i].issue] else [];
      assert (r + step) + FiredFrom(rules, i + 1) == r + (step + FiredFrom(rules, i + 1));
      r := r + step;
      i := i + 1;
    }
  }

  // ---------------------------------------------------------------------
  // The per-element pass over an array field (a `forEach`)

  /** What the `forEach` pushes for `items`, element by element, each tagged with its index. */
  function ItemsIssues(items: seq<JVal>, check: (JVal, nat) -> seq<Issue>): seq<Issue>
    decreases |items|
  {
    if items == [] then []
    else ItemsIssues(items[..|items| - 1], check) + check(items[|items| - 1], |items| - 1)
  }

  /** A per-element check that only ever reports the element it was given. */
  ghost predicate Tagged(check: (JVal, nat) -> seq<Issue>) {
    forall p, i, k :: 0 <= k < |check(p, i)| ==> check(p, i)[k].BadItem? && check(p, i)[k].index == i
  }

  /** Every entry the pass produces concerns an element, and names a position inside the array. */
  lemma {:induction false} ItemsIssuesInRange(items: seq<JVal>, check: (JVal, nat) -> seq<Issue>)
    requires Tagged(check)
    ensures forall k :: 0 <= k < |ItemsIssues(items, check)| ==>
      ItemsIssues(items, check)[k].BadItem? && ItemsIssues(items, check)[k].index < |items|
    decreases |items|
  {
    if items != [] {
      var front := items[..|items| - 1];
      ItemsIssuesInRange(front, check);
      var r := ItemsIssues(items, check);
      assert r == ItemsIssues(front, check) + check(items[|items| - 1], |items| - 1);
      forall k | 0 <= k < |r| ensures r[k].BadItem? && r[k].index < |items| {
        if k >= |ItemsIssues(front, check)| {
          assert r[k] == check(items[|items| - 1], |items| - 1)[k - |ItemsIssues(front, check)|];
        }
      }
    }
  }

  /** An element is reported in the pass exactly as its own check reports it, whatever the other elements hold. */
  lemma {:induction false} ItemsIssuesAt(items: seq<JVal>, check: (JVal, nat) -> seq<Issue>, i: nat, a: ItemAspect)
    requires Tagged(check)
    requires i < |items|
    ensures BadItem(i, a) in ItemsIssues(items, check) <==> BadItem(i, a) in check(items[i], i)
    decreases |items|
  {
    var n := |items| - 1;
    var front := items[..n];
    assert ItemsIssues(items, check) == ItemsIssues(front, check) + check(items[n], n);
    if i < n {
      ItemsIssuesAt(front, check, i, a);
      assert front[i] == items[i];
    } else {
      ItemsIssuesInRange(front, check);
    }
  }

  /** The pass finds nothing exactly when no element's own check finds anything. */
  lemma {:induction false} ItemsIssuesEmpty(items: seq<JVal>, check: (JVal, nat) -> seq<Issue>)
    ensures ItemsIssues(items, check) == [] <==> forall i :: 0 <= i < |items| ==> check(items[i], i) == []
    decreases |items|
  {
    if items != [] {
      var n := |items| - 1;
      var front := items[..n];
      ItemsIssuesEmpty(front, check);
      assert forall i :: 0 <= i < n ==> front[i] == items[i];
    }
  }

  // ---------------------------------------------------------------------
  // Field tests, stated as what a field must be to pass

  /** Not `undefined`: what "the field was supplied" means in the update validators. */
  predicate Present(v: JVal) {
    !v.Undef?
  }

  /** A string whose trimmed `length` is at least `n`, that length counted in UTF-16 code units. */
  predicate TrimmedAtLeast(v: JVal, n: nat) {
    v.Str? && Utf16Length(Trim(v.s)) >= n
  }

  /** Three characters beyond the 16-bit range are six code units: enough for a five-unit minimum. */
  lemma TrimmedAtLeastCountsUnits()
    ensures TrimmedAtLeast(Str("\U{1F375}\U{1F375}\U{1F375}"), 5)
    ensures !TrimmedAtLeast(Str("abc"), 5)
  {
    var s := "\U{1F375}\U{1F375}\U{1F375}";
    TrimKeepsSolid(s);
    assert s[..2][..1] == s[..1];
    assert s[..|s| - 1] == s[..2];
    assert Utf16Length(s[..1]) == 2;
    assert Utf16Length(s) == 6;
    TrimKeepsSolid("abc");
    Utf16LengthInPlane("abc");
  }

  /** Below U+10000 the code units are the characters. */
  lemma TrimmedAtLeastInPlane(s: string, n: nat)
    requires forall i :: 0 <= i < |s| ==> s[i] as int < 0x1_0000
    ensures TrimmedAtLeast(Str(s), n) <==> |Trim(s)| >= n
  {
    TrimStartDropsBlanks(s);
    TrimEndDropsBlanks(TrimStart(s));
    var t := Trim(s);
    forall i | 0 <= i < |t| ensures t[i] as int < 0x1_0000 {
      assert t[i] == s[|s| - |TrimStart(s)| + i];
    }
    Utf16LengthInPlane(t);
  }

  /** A string equal to one of `options` (`options.includes(v)` after a type test). */
  predicate OneOf(v: JVal, options: seq<string>) {
    v.Str? && v.s in options
  }

  /** Present only when it is a boolean (`v === undefined || typeof v === 'boolean'`). */
  predicate BooleanIfPresent(v: JVal) {
    v.Undef? || v.Bool?
  }

  /** Falsy, or a string (`!(v && typeof v !== 'string')`). */
  predicate StringIfTruthy(v: JVal) {
    !Truthy(v) || v.Str?
  }

  /** A truthy string (`v && typeof v === 'string'`): a string other than "". */
  predicate NonEmptyString(v: JVal) {
    v.Str? && v.s != ""
  }

  /** `v === undefined || typeof v === 'string'`. */
  predicate StringIfPresent(v: JVal) {
    v.Undef? || v.Str?
  }

  /** `v === undefined`, or a string whose trimmed length is at least `n`. */
  predicate TrimmedIfPresent(v: JVal, n: nat) {
    v.Undef? || TrimmedAtLeast(v, n)
  }

  /** `v === undefined`, or a string equal to one of `options`. */
  predicate OneOfIfPresent(v: JVal, options: seq<string>) {
    v.Undef? || OneOf(v, options)
  }

  /** A string or a number (`typeof v === 'string' || typeof v === 'number'`). */
  predicate StringOrNumber(v: JVal) {
    v.Str? || v.Num?
  }

  /** `v === undefined`, or a string or a number (null is refused by the `v == null` test). */
  predicate StringOrNumberIfPresent(v: JVal) {
    v.Undef? || StringOrNumber(v)
  }

  /** `Array.isArray(v) && v.length > 0`. */
  predicate NonEmptyArray(v: JVal) {
    v.Arr? && |v.items| > 0
  }

  /** Not null or undefined, and `Number(v)` is a number at least `bound`. */
  predicate RequiredAtLeast(v: JVal, bound: real) {
    !IsNullish(v) && !NaNOrBelow(v, bound)
  }

  /** Not null or undefined, and `Number(v)` is a number above `bound`. */
  predicate RequiredAbove(v: JVal, bound: real) {
    !IsNullish(v) && !NaNOrAtMost(v, bound)
  }

  /** `Number(v)` is a number at least `bound` (null counts as 0 here, as `Number(null)` is 0). */
  predicate NumberAtLeast(v: JVal, bound: real) {
    !NaNOrBelow(v, bound)
  }

  predicate NumberAbove(v: JVal, bound: real) {
    !NaNOrAtMost(v, bound)
  }

  /** `v === undefined`, or `Number(v)` is a number above `bound`. */
  predicate AboveIfPresent(v: JVal, bound: real) {
    v.Undef? || NumberAbove(v, bound)
  }

  /** `v === undefined`, or `Number(v)` is a number at least `bound`. */
  predicate AtLeastIfPresent(v: JVal, bound: real) {
    v.Undef? || NumberAtLeast(v, bound)
  }

  /** A number field passes exactly when its value passes, and null is rejected only where it is required. */
  lemma NumberTests(n: real)
    ensures RequiredAtLeast(Num(n), 0.0) <==> n >= 0.0
    ensures RequiredAbove(Num(n), 0.0) <==> n > 0.0
    ensures !RequiredAtLeast(Null, 0.0) && NumberAtLeast(Null, 0.0) && !NumberAbove(Null, 0.0)
    ensures !NumberAtLeast(Undef, 0.0)
  {
  }
}
