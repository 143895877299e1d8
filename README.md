# Tienda backend: a Dafny model of the models and services

The repository is an Express backend for a tea-and-crafts shop. Its data lives
in Cloud Firestore, in one collection per entity: tea products, craft
products, reservations, offers, events and users. Each entity has a model
file, which talks to the store, and a service file, which validates incoming
data, turns misses into exceptions and calls the model. This project models
those twelve files and proves what they do.

## How the model is built

- **Values.** `Json.JVal` stands for a JavaScript value: undefined, null,
  booleans, numbers (as reals), strings, arrays, plain objects, and Firestore
  document references. Truthiness, `typeof`, loose and strict equality,
  `Number()`, `trim()` and ASCII `toLowerCase()` are written out as functions
  (`json.dfy`).
- **The store.** `Store.Collection` is a class with the documents of one
  collection (`docs`), and an `available` flag; while it is false every
  store call fails. Its methods are `getDoc`, `getDocs`, `addDoc`,
  `updateDoc` and `deleteDoc` (`store.dfy`). `Store.Collection.Valid` says
  keys are plain keys (non-empty, no '/') in strictly ascending document-ID
  order, and every state-changing operation keeps it. That order
  (`Store.Below`) compares keys character by character, a proper prefix
  first; it is the order of their UTF-8 bytes, in which `getDocs` with no
  `orderBy` lists a collection. So `addDoc` puts the new document where its
  random key falls (`Store.Inserted`), not at the end, and every `find`
  over a listing meets the documents in key order.
- **Writes Firestore refuses.** `addDoc` fails for fields that are not
  `Store.Writable`: a field name that is empty or of the form `__…__`, the
  value `undefined`, or an array directly inside an array, at any depth.
  `updateDoc` fails for a patch that is not `Store.Updatable`: a value of
  those kinds, or a key that is not a field path (a character of `~*/[]`,
  or a piece between dots that is not a field name). Each model then takes
  its catch branch. `Store.DocPath` is the path `doc(collection, id)`
  builds: the id is cut at '/', the empty pieces are dropped, and `doc()`
  throws for "//" or an even number of pieces. The backend writes no
  sub-collection, so a path of several pieces names no stored document.
- **Conversions.** `Json.Text` is `String(v)` as a property key or a
  template literal writes it, and `Json.Utf16Length` is a string's `length`
  in UTF-16 code units.
- **Shared store idioms.** `Documents` holds the listing, the read by key, the
  add, the merge-and-reread and the delete that every model repeats
  (`documents.dfy`). `Lookup` holds the lenient lookup of the update
  functions: read by key, and when that misses, scan for a stored `id` field
  equal under `==`, either to the argument or to `Number(argument)`
  (`lookup.dfy`). `Search` holds the case-insensitive substring search of
  the services (`search.dfy`). `References` holds the `collectionMap` table
  and the conversion of product items into document references
  (`references.dfy`).
- **Validators.** Each `validate*` function is a method. It destructures its
  input and runs the source's `if … errors.push(…)` blocks in order, with a
  `while` loop for each `forEach`. Each is proved equal to a reference
  function `…Issues`, and what that function means is proved in lemmas: each
  message is pushed exactly when its own check fails; the data passes exactly
  when a plain predicate (`…Acceptable`) holds; missing data gets its one
  message. Messages are an `Issue` datatype rather than the Spanish texts.
  The early "nothing to update" return is the verdict `NothingToUpdate`. A
  validator that throws (a destructured `null`, for instance) returns
  `Crash` (`validation.dfy`).
- **Formats.** `Formats` holds the `DD-MM-YY`, `HH:MM`, `HH:MM-HH:MM` and
  e-mail regular expressions as predicates on strings (`formats.dfy`).
- **Models and services.** Every model and service function is a method over
  a `Store.Collection`. Its `ensures` tie the answer and the new documents to
  the old documents. Exceptions are `Outcome.Throw(message)`, with the
  source's message texts.

## Model

| member | source | states |
|---|---|---|
| Json.WithId | src/models/teasProducts.model.js:25 | `{ id: key, ...data }` holds every stored field, and holds the key as `id` unless a stored `id` field overrides it |
| Json.TrimStartDropsBlanks | src/services/teasProducts.service.js:66 | the front trim drops a white-space prefix and stops at the first other character |
| Json.TrimEndDropsBlanks | src/services/teasProducts.service.js:66 | the back trim drops a white-space suffix and stops at the last other character |
| Json.TrimHasNoBlankEnds | src/services/teasProducts.service.js:66 | a trimmed string neither starts nor ends with white space |
| Json.TrimEmptyIffBlank | src/services/teasProducts.service.js:66 | a string trims to "" exactly when it is all white space |
| Json.ToLower | src/services/teasProducts.service.js:24 | `toLowerCase()` keeps the length and lowers exactly the ASCII capitals |
| Json.ToLowerIdempotent | src/services/teasProducts.service.js:24 | lower-casing twice is lower-casing once |
| Json.NumberBounds | src/services/teasProducts.service.js:81-88 | for a number value, the test "NaN or below the bound" fails exactly when the value is at least the bound, and "NaN or at most the bound" exactly when it is above it |
| Json.Utf16Length | src/services/offers.service.js:84 | `length` counts code units: at least one and at most two per character |
| Json.Utf16LengthInPlane | src/services/offers.service.js:84 | a string with no character from U+10000 on has as many code units as characters |
| Json.NatText | src/models/teasProducts.model.js:62 | the text `String(k)` of a whole number is a non-empty run of decimal digits |
| Json.NatTextValue | src/models/teasProducts.model.js:62 | reading those digits back gives the number again |
| Json.NumberText | src/models/teasProducts.model.js:62 | the text of a number starts with '-' or a digit |
| Json.NumberTextRoundTrip | src/models/teasProducts.model.js:62 | `Number(String(n))` is `n` for every number whose text the model writes |
| Lists.FirstWhere | src/models/users.model.js:43 | `find` gives the first position whose element passes the test, and none exactly when no element passes |
| Lists.Filter | src/services/teasProducts.service.js:22-25 | every kept element is an element of the input that passes, and every passing element is kept |
| Lists.FilterConcat | src/services/teasProducts.service.js:22-25 | filtering a concatenation is concatenating the filtered parts |
| Lists.FilterEmptyIffNone | src/services/teasProducts.service.js:27-29 | the filter is empty exactly when no element passes, which is when the search throws |
| Lists.FilterMultiplicity | src/services/teasProducts.service.js:22-25 | `filter` keeps every passing element as often as the input holds it, and no other element |
| Lists.FirstWhereIsFirstOfFilter | src/models/users.model.js:43 | `find` answers exactly when `filter` keeps something, and answers with the first kept element |
| Lists.FilterIsSubsequence | src/services/teasProducts.service.js:22-25 | what `filter` keeps is a subsequence of its input: nothing is reordered or invented |
| Lists.MapOrThrow | src/services/reservations.service.js:290-308 | `map` with a throwing callback: either every element is mapped, keeping length and order, or the first throw is the answer |
| Validation.PushBroken | src/services/teasProducts.service.js:65-88 | running the push blocks in order gives the old list followed by the issues of the broken rules, in rule order |
| Validation.FiredHas | src/services/teasProducts.service.js:65-88 | an issue is reported exactly when some rule that raises it is broken |
| Validation.FiredFromHas | src/services/teasProducts.service.js:65-88 | the same, for the rules from a given position on |
| Validation.FiredAt | src/services/teasProducts.service.js:65-88 | the issue of one rule, raised by no other rule, is reported exactly when that rule is broken |
| Validation.FiredNone | src/services/teasProducts.service.js:90 | nothing is reported exactly when no rule is broken |
| Validation.FiredFromNone | src/services/teasProducts.service.js:90 | the same, for the rules from a given position on |
| Validation.ItemsIssuesInRange | src/services/reservations.service.js:84-118 | every entry of a `forEach` pass names an index inside the array |
| Validation.ItemsIssuesAt | src/services/reservations.service.js:84-118 | an element is reported in the pass exactly as its own check reports it, whatever the other elements hold |
| Validation.ItemsIssuesEmpty | src/services/reservations.service.js:84-118 | the pass reports nothing exactly when no element's own check reports anything |
| Validation.NumberTests | src/services/teasProducts.service.js:81-88 | a number passes the required bound tests exactly when it is within the bound; null fails the required test but passes the optional `>= 0` test, since `Number(null)` is 0; undefined is not a number |
| Validation.TrimmedAtLeastCountsUnits | src/services/offers.service.js:84 | three characters from beyond U+FFFF pass a five-unit minimum, and "abc" does not |
| Validation.TrimmedAtLeastInPlane | src/services/offers.service.js:84 | for a string without such characters the minimum counts characters |
| Formats.ShapesAreNotRanges | src/services/reservations.service.js:127-136 | the `DD-MM-YY` and `HH:MM-HH:MM` tests accept strings that name no real day or time ("99-99-99", "99:99-00:00") |
| Formats.ClockTimeInRange | src/services/events.service.js:76 | a string that matches the events time expression names an hour 0-23 and a minute 0-59 |
| Formats.FormatClockRoundTrip | src/services/events.service.js:76 | every hour 0-23 and minute 0-59, written `HH:MM`, matches and reads back as the same hour and minute |
| Formats.EmailShapeIffPieces | src/services/users.service.js:140 | the position reading of the e-mail expression agrees with its reading as local part, '@', domain, '.', suffix |
| Formats.EmailShapeHasOneAt | src/services/users.service.js:140 | an address that matches has no white space and exactly one '@' |
| Store.KeyIndex | src/models/teasProducts.model.js:20-22 | the position of the document stored under a key, if any, and that document has the key |
| Store.Lookup | src/models/teasProducts.model.js:22 | a successful `getDoc` finds a document exactly when one has the key, and then sees its stored fields |
| Store.Merged | src/models/teasProducts.model.js:75 | `updateDoc`: the document under the key gets the patch's fields over its own; every other document stays where it was, so the key order is kept |
| Store.Removed | src/models/teasProducts.model.js:99 | `deleteDoc`: every remaining document was there before and has another key, and every document with another key remains |
| Store.MergedLookup | src/models/teasProducts.model.js:75-78 | reading back right after an update gives the old fields overwritten by the patch |
| Store.RemovedKeys | src/models/teasProducts.model.js:99 | after a delete the key is gone and every other key is still there |
| Store.FreshKeyExists | src/models/teasProducts.model.js:38 | there is always a well-formed key no document uses, so `addDoc` can always name the new document |
| Store.Segments | src/models/teasProducts.model.js:20 | the pieces of an id between slashes are all plain keys |
| Store.DocPath | src/models/teasProducts.model.js:20 | a plain key is its own document path, and a path `doc()` accepts is never empty |
| Store.SegmentsOfJoin | src/models/teasProducts.model.js:20 | joining plain pieces with '/' and cutting the result again gives the pieces back, with no "//" and no slash at either end |
| Store.DocPathOfJoin | src/models/teasProducts.model.js:20 | a path joined from an odd number of plain pieces is its own document path |
| Store.DocPathIdempotent | src/models/teasProducts.model.js:20 | normalising a document path a second time changes nothing |
| Store.OnePieceIsKey | src/models/teasProducts.model.js:20 | the path is a plain key exactly when the id has one piece |
| Store.NestedPathNamesNothing | src/models/teasProducts.model.js:20-22 | with every stored key a plain key, an id of several pieces names no stored document |
| Store.DocPathTrimsSlashes | src/models/teasProducts.model.js:20 | "/abc" and "abc/" name the document "abc" |
| Store.DocPathNested | src/models/teasProducts.model.js:20 | "a/b/c" names a document of a sub-collection |
| Store.DocPathRefused | src/models/teasProducts.model.js:20 | `doc()` throws for "", "/", "a/b" and "a//b/c" |
| Store.BelowIrreflexive | src/models/teasProducts.model.js:8 | no key comes before itself |
| Store.BelowTransitive | src/models/teasProducts.model.js:8 | key order is transitive |
| Store.BelowTotal | src/models/teasProducts.model.js:8 | of two different keys, one comes before the other |
| Store.SortedDistinct | src/models/teasProducts.model.js:8 | documents in ascending key order have distinct keys |
| Store.Slot | src/models/teasProducts.model.js:38 | the slot of a key: every document before it has a smaller key, and the one at it does not |
| Store.Inserted | src/models/teasProducts.model.js:38 | one more document, the new one at the slot of its key, the documents before the slot unchanged and those after it moved up by one |
| Store.InsertedSorted | src/models/teasProducts.model.js:38 | inserting a document under an unused key keeps the documents in ascending key order |
| Store.NewKeyOfInserted | src/models/teasProducts.model.js:38-41 | the key of the inserted document is the one key of the new listing that was not there before |
| Store.FilterSorted | src/models/teasProducts.model.js:99 | removing documents keeps the rest in ascending key order |
| Store.WriteRefusals | src/models/teasProducts.model.js:38 | `addDoc` refuses an empty field name, an `undefined` value and an array inside an array, and accepts an array of maps and a key holding a dot |
| Store.ReservedRefusals | src/models/teasProducts.model.js:38 | "__x__" is a reserved name, refused as a field name and as a field path |
| Store.PathRefusals | src/models/teasProducts.model.js:75 | `updateDoc` refuses the keys "", "a..b" and "a/b" |
| Store.NoDotOnePiece | src/models/teasProducts.model.js:75 | a key without a dot is one path piece |
| Store.DotSplit | src/models/teasProducts.model.js:75 | a dot splits a key into the piece before it and the pieces after it |
| Store.PlainKeyPath | src/models/teasProducts.model.js:75 | a field name without any of `.~*/[]` is a field path of one piece: itself |
| Store.DottedKeyPath | src/models/teasProducts.model.js:75 | two such names joined by a dot are a field path of those two pieces |
| Store.PlainPatchUpdatable | src/models/teasProducts.model.js:75 | a patch whose keys have none of `.~*/[]` can be updated exactly when it could be added |
| Store.Collection.GetDoc | src/models/teasProducts.model.js:22 | `getDoc`: fails when the store is down, and otherwise sees what `Store.Lookup` sees |
| Store.Collection.GetDocs | src/models/teasProducts.model.js:8 | `getDocs`: every document, in ascending key order, or a failure; changes nothing |
| Store.Collection.AddDoc | src/models/teasProducts.model.js:38 | `addDoc`: fails and changes nothing when the store is down or the fields are not `Writable`; otherwise inserts one document, under a well-formed key no document used, at the place of that key in key order, and returns the key |
| Store.Collection.UpdateDoc | src/models/teasProducts.model.js:75 | `updateDoc`: fails, changing nothing, when the store is down, the patch is not `Updatable` or no document has the key; otherwise the documents become `Merged` |
| Store.Collection.DeleteDoc | src/models/teasProducts.model.js:99 | `deleteDoc`: succeeds exactly when the store is up, and the documents become `Removed`, also for an absent key |
| Documents.Listing | src/models/teasProducts.model.js:11 | one record `{ id: key, ...data }` per document, in the store's key order |
| Documents.ByKey | src/models/teasProducts.model.js:18-30 | not null exactly when the store is up and `doc()` names a stored document, and then that document's record under its path |
| Documents.GetAll | src/models/teasProducts.model.js:6-16 | the listing, or `[]` when the store fails |
| Documents.GetById | src/models/teasProducts.model.js:18-30 | the answer is `ByKey` of the store state |
| Documents.Add | src/models/teasProducts.model.js:38-41 | a failed store call, or fields `addDoc` refuses, adds nothing; otherwise exactly one document holding the fields is inserted at the place of its new key (`AddedOne`), and `{ id, ...fields }` comes back with that key |
| Documents.MergeAndReread | src/models/teasProducts.model.js:75-81 | the document under the key is merged with the patch and read back; null with nothing written when the document is missing, a call fails or `updateDoc` refuses the patch |
| Documents.DeleteByKey | src/models/teasProducts.model.js:90-102 | the document at the path the id names is removed and its fields come back exactly when the store is up and that path is stored; a missing document is told apart from a failure and from an id `doc()` refuses; otherwise nothing changes |
| Lookup.Locate | src/models/teasProducts.model.js:52-73 | fails exactly when the store is down or `doc()` refuses the id; a stored path is found directly; otherwise the first document whose stored `id` field loosely equals the argument or `Number(argument)`; no match only when no document has such a field |
| Lookup.LenientLookup | src/models/teasProducts.model.js:52-73 | the lookup as run, with its second `getDoc`, settles on `Locate` and changes nothing |
| Lookup.SameStringMatches | src/models/teasProducts.model.js:62 | a document whose stored `id` is the argument string is found by the scan |
| Lookup.NumberMatchesNumeral | src/models/teasProducts.model.js:62 | a stored number 7 is found for the argument "7" |
| Lookup.NullishNeverMatches | src/models/teasProducts.model.js:62 | a null or undefined stored `id` never matches |
| Lookup.WrappedIdMatches | src/models/teasProducts.model.js:62 | a stored `["7"]` matches the argument "7" |
| Lookup.WrappedNumberIdMatches | src/models/teasProducts.model.js:62 | a stored `[7]` matches the argument "7" |
| Lookup.JoinedIdMatches | src/models/teasProducts.model.js:62 | a stored `["a", null, 2]` matches "a,,2", its elements joined with ',' |
| Lookup.ObjectIdMatchesItsText | src/models/teasProducts.model.js:62 | a stored plain object matches exactly the argument "[object Object]" |
| Search.SearchBy | src/services/teasProducts.service.js:15-32 | a non-empty subsequence of the records holding every record whose field is a string containing the lower-cased, trimmed query once lower-cased, and only those; each such record as often as the records hold it; the no-match exception exactly when there are none; a query that is not a string throws the `TypeError` of `toLowerCase` when some record's field is a string, and otherwise the no-match exception |
| Search.KeptByMatches | src/services/teasProducts.service.js:22-29 | the kept records are a subsequence holding each matching record as often as the input does and no other, and are empty exactly when nothing matches |
| Search.QueryCaseIgnored | src/services/teasProducts.service.js:24 | the search does not see the case of the query |
| Search.FieldCaseIgnored | src/services/teasProducts.service.js:24 | a record matches exactly when its lower-cased field does |
| Search.BlankQueryKeepsStrings | src/services/teasProducts.service.js:24 | an empty or all-white-space query keeps every record whose field is a string |
| TeasProductsModel.GetAllTeasProducts | src/models/teasProducts.model.js:6-16 | the listing of every stored product, or `[]` when the store fails |
| TeasProductsModel.GetTeaProductById | src/models/teasProducts.model.js:18-30 | `{ id, ...data }` of the product under the key, null for a missing key or a failed call |
| TeasProductsModel.CreateTeaProduct | src/models/teasProducts.model.js:32-47 | a non-object, an object Firestore refuses to store, or a failed store call gives the one create-failure message and writes nothing; any other object is added as exactly one new document at the place of its new key, stored as sent and returned under that key |
| TeasProductsModel.UpdateTeaProduct | src/models/teasProducts.model.js:49-86 | the patch is merged into the document the lenient lookup settles on, and that document comes back; null and no write when nothing matches, a call fails, or the patch is not an object `updateDoc` can write |
| TeasProductsModel.DeleteTeaProduct | src/models/teasProducts.model.js:88-107 | by direct key only: a present document is removed and its fields come back; a missing one gives `{ deleted: false, message }`; a failure gives null; nothing else changes |
| TeasProductsService.ValidateProductData | src/services/teasProducts.service.js:56-91 | the pushed list is exactly the reference function's list of issues for the data |
| TeasProductsService.TableReports | src/services/teasProducts.service.js:65-78 | the name, brand and description messages are each pushed exactly when their own check failed |
| TeasProductsService.TableReportsNumbers | src/services/teasProducts.service.js:80-88 | the price and stock messages are each pushed exactly when their own check failed |
| TeasProductsService.TableEmpty | src/services/teasProducts.service.js:90 | nothing is pushed exactly when no check failed |
| TeasProductsService.ProductDataValidIff | src/services/teasProducts.service.js:56-91 | the data is valid exactly when it is truthy, has a non-blank string name, a price above 0, a stock of at least 0, and string brand and description when those are truthy |
| TeasProductsService.NoProductData | src/services/teasProducts.service.js:60-63 | falsy data gets the one "no data" message and nothing else |
| TeasProductsService.NameReported | src/services/teasProducts.service.js:66-68 | the name is reported exactly when it is not a string that is non-empty after trimming |
| TeasProductsService.NumbersReported | src/services/teasProducts.service.js:81-88 | the price is reported exactly when it is missing, null, not a number or at most 0; the stock when it is missing, null, not a number or below 0 |
| TeasProductsService.OptionalFieldsReported | src/services/teasProducts.service.js:71-78 | brand and description are reported exactly when they are truthy and not strings |
| TeasProductsService.ValidateUpdateData | src/services/teasProducts.service.js:93-122 | the answer is the reference function's verdict: a throw for null or undefined, the "nothing to update" message, or the checked list |
| TeasProductsService.UpdateDataValidIff | src/services/teasProducts.service.js:101-121 | once something was supplied, the update is valid exactly when every field that is not undefined passes its rule |
| TeasProductsService.NothingSuppliedGivesMessage | src/services/teasProducts.service.js:97-99 | with a falsy name, brand, description and price and no stock, the answer is the message and not a list |
| TeasProductsService.AbsentFieldPasses | src/services/teasProducts.service.js:101-119 | a field that was not sent is never reported |
| TeasProductsService.SuppliedFieldsReported | src/services/teasProducts.service.js:101-115 | a supplied name or price is reported exactly when it breaks the rule the create check uses |
| TeasProductsService.NullStockOnlyPassesUpdate | src/services/teasProducts.service.js:86-119 | a null stock is reported by the create check but passes the update check, where `Number(null)` is 0 |
| TeasProductsService.ZeroPriceAloneIsNothing | src/services/teasProducts.service.js:97-99 | `{ price: 0 }` alone is "nothing to update", not a bad price |
| TeasProductsService.GetTeaProductById | src/services/teasProducts.service.js:7-13 | a miss, an id `doc()` refuses or a failed store call throws "Producto no encontrado"; otherwise the stored product with its key |
| TeasProductsService.CreateTeaProduct | src/services/teasProducts.service.js:34-36 | the model's create, with the same outcome and the same single new document |
| TeasProductsService.SearchTeaProductByName | src/services/teasProducts.service.js:15-32 | the search over the listing (`[]` when the store fails) by the `name` field, with its no-match message |
| TeasProductsService.UpdateTeaProduct | src/services/teasProducts.service.js:38-46 | a miss throws "Producto no encontrado" and writes nothing; otherwise an object patch `updateDoc` can write is merged into the document under that very key and read back, and any other patch gives null with nothing written |
| TeasProductsService.DeleteTeaProduct | src/services/teasProducts.service.js:48-54 | a miss throws and deletes nothing; otherwise the document under the key is removed and its fields come back |
| CraftsProductsModel.GetAllCraftsProducts | src/models/craftsProducts.model.js:6-16 | the listing of every stored product, or `[]` when the store fails |
| CraftsProductsModel.GetCraftProductById | src/models/craftsProducts.model.js:18-30 | `{ id, ...data }` of the product under the key, null for a missing key or a failed call |
| CraftsProductsModel.CreateCraftProduct | src/models/craftsProducts.model.js:32-48 | a non-object, an object Firestore refuses to store, or a failed store call gives the one create-failure message and writes nothing; any other object is added as exactly one new document at the place of its new key, stored as sent and returned under that key |
| CraftsProductsModel.UpdateCraftProduct | src/models/craftsProducts.model.js:50-89 | the patch is merged into the document the lenient lookup settles on, and that document comes back; null and no write when nothing matches, a call fails, or the patch is not an object `updateDoc` can write |
| CraftsProductsModel.DeleteCraftProduct | src/models/craftsProducts.model.js:91-109 | by direct key only: a present document is removed and its fields come back; a missing one gives `{ deleted: false, message }`; a failure gives null; nothing else changes |
| CraftsProductsService.ValidateProductData | src/services/craftsProducts.service.js:57-108 | the pushed list is exactly the reference function's list of issues for the data |
| CraftsProductsService.CreateTableText | src/services/craftsProducts.service.js:66-90 | the name, maker and description messages are each pushed exactly when their own check failed |
| CraftsProductsService.CreateTableDate | src/services/craftsProducts.service.js:76-85 | the creation date's "required" and "shape" messages are each pushed exactly when their own check failed |
| CraftsProductsService.CreateTableNumbers | src/services/craftsProducts.service.js:97-105 | the price and stock messages are each pushed exactly when their own check failed, and the create check never pushes the stock-over-10 message |
| CraftsProductsService.CreateTableEmpty | src/services/craftsProducts.service.js:107 | nothing is pushed exactly when no check failed |
| CraftsProductsService.ProductDataValidIff | src/services/craftsProducts.service.js:57-108 | the data is valid exactly when it has a non-blank name, maker and description, a `DD-MM-YY` creation date, a boolean `ecoFriendly` when given, a price above 0 and a stock of at least 0 |
| CraftsProductsService.NoProductData | src/services/craftsProducts.service.js:61-64 | falsy data gets the one "no data" message and nothing else |
| CraftsProductsService.CreationDateMissingReported | src/services/craftsProducts.service.js:77-78 | the "required" message comes exactly when the creation date is not a non-empty string |
| CraftsProductsService.CreationDateShapeReported | src/services/craftsProducts.service.js:79-85 | the "shape" message comes exactly when the creation date is a non-empty string that is not `DD-MM-YY` |
| CraftsProductsService.NumbersReported | src/services/craftsProducts.service.js:97-105 | the price is reported exactly when it is missing, null, not a number or at most 0; the stock when it is missing, null, not a number or below 0 |
| CraftsProductsService.TextFieldsReported | src/services/craftsProducts.service.js:66-90 | name, maker and description are each reported exactly when not a string that is non-empty after trimming |
| CraftsProductsService.ValidateUpdateData | src/services/craftsProducts.service.js:110-166 | the answer is the reference function's verdict: a throw for null or undefined, the "nothing to update" message, or the checked list |
| CraftsProductsService.UpdateTableText | src/services/craftsProducts.service.js:121-146 | the name, maker and description messages are each pushed exactly when their own check failed |
| CraftsProductsService.UpdateTableDate | src/services/craftsProducts.service.js:131-141 | the creation date's type and shape messages are each pushed exactly when their own check failed |
| CraftsProductsService.UpdateTableStock | src/services/craftsProducts.service.js:158-163 | the stock's range and over-10 messages are each pushed exactly when their own check failed |
| CraftsProductsService.UpdateTableEmpty | src/services/craftsProducts.service.js:165 | nothing is pushed exactly when no check failed |
| CraftsProductsService.UpdateDataValidIff | src/services/craftsProducts.service.js:121-165 | once something was supplied, the update is valid exactly when every supplied field passes its rule and a supplied stock is at most 10 |
| CraftsProductsService.NothingSuppliedGivesMessage | src/services/craftsProducts.service.js:115-119 | with nothing supplied the answer is the message and not a list |
| CraftsProductsService.AbsentFieldsPass | src/services/craftsProducts.service.js:121-163 | a name, creation date or stock that was not sent is never reported, under any of their messages |
| CraftsProductsService.UpdateStockReported | src/services/craftsProducts.service.js:158-163 | a supplied stock gets the range message exactly when it is not a number of at least 0, and the over-10 message exactly when it is one above 10 |
| CraftsProductsService.UpdateDateReported | src/services/craftsProducts.service.js:131-141 | a supplied creation date gets the type message exactly when not a string, and the shape message exactly when a string that is not `DD-MM-YY`, "" included |
| CraftsProductsService.ZeroPriceAloneIsNothing | src/services/craftsProducts.service.js:115-119 | a price of 0 sent alone is "nothing to update", since `!price` holds for 0 |
| CraftsProductsService.ZeroStockAloneIsValid | src/services/craftsProducts.service.js:115-116 | a stock of 0 sent alone is a valid update with no errors, since the stock test is `=== undefined` |
| CraftsProductsService.StockElevenPassesCreate | src/services/craftsProducts.service.js:103-105 | a stock of 11 passes the create check |
| CraftsProductsService.StockElevenFailsUpdate | src/services/craftsProducts.service.js:158-163 | the same stock gets the over-10 message on update, and not the range message |
| CraftsProductsService.GetCraftProductById | src/services/craftsProducts.service.js:7-13 | a miss, an id `doc()` refuses or a failed store call throws the "not found" message; otherwise the stored product with its key |
| CraftsProductsService.CreateCraftProduct | src/services/craftsProducts.service.js:15-17 | the model's create, with the same outcome and the same single new document |
| CraftsProductsService.SearchCraftProductByName | src/services/craftsProducts.service.js:19-36 | the search over the listing (`[]` when the store fails) by the `name` field, with its no-match message |
| CraftsProductsService.UpdateCraftProduct | src/services/craftsProducts.service.js:38-46 | a miss throws and writes nothing; otherwise an object patch `updateDoc` can write is merged into the document under that very key and read back, and any other patch gives null with nothing written |
| CraftsProductsService.DeleteCraftProduct | src/services/craftsProducts.service.js:48-54 | a miss throws and deletes nothing; otherwise the document under the key is removed and its fields come back |
| EventsModel.GetAllEvents | src/models/events.model.js:6-16 | the listing of every stored event, or `[]` when the store fails |
| EventsModel.GetEventById | src/models/events.model.js:18-30 | `{ id, ...data }` of the event under the key, null for a missing key or a failed call |
| EventsModel.CreateEvent | src/models/events.model.js:32-44 | an object Firestore can store is added as exactly one new document at the place of its new key, stored as sent and returned under that key; anything else, or a failed store call, writes nothing and throws a `TypeError`, because the catch calls the caught error as a constructor |
| EventsModel.UpdateEvent | src/models/events.model.js:46-80 | an object patch is merged into the document under the given key and read back; null with nothing written when the key names no document, a call fails, or the patch is not an object `updateDoc` can write; a document found only by a stored `id` field is never updated |
| EventsModel.DeleteEvent | src/models/events.model.js:82-99 | a present document is removed and its fields come back; for a key that names no document nothing changes and the answer is undefined, never the `{ deleted: false }` reply; a failure gives null |
| EventsModel.FallbackNeverTaken | src/models/events.model.js:51-68 | a store where the lenient lookup of the other models finds a document by its stored `id`, while the key itself names none, so `updateEvent` writes nothing there |
| EventsService.ClockTestOnStrings | src/services/events.service.js:76-83 | on a string, `timeRegex.test` agrees with the `typeof … === 'string'` check plus the expression; on a one-element array it tests the element |
| EventsService.OrderOnTwoDigitHours | src/services/events.service.js:86-93 | for two-digit-hour times the order rule is broken exactly when the end is not after the start in minutes; equal times break it |
| EventsService.OrderNeedsBothTimes | src/services/events.service.js:87 | without a truthy start and end the order rule is never broken |
| EventsService.EventTableTexts | src/services/events.service.js:64-113 | the title, description and location messages are each pushed exactly when their own check failed |
| EventsService.EventTableSchedule | src/services/events.service.js:69-93 | the date, start, end and order messages are each pushed exactly when their own check failed |
| EventsService.EventTableFlags | src/services/events.service.js:95-133 | the four flag messages are each pushed exactly when their own check failed |
| EventsService.EventTablePrice | src/services/events.service.js:120-128 | the entry-price and free-but-priced messages are each pushed exactly when their own check failed |
| EventsService.EventTableEmpty | src/services/events.service.js:135 | nothing is pushed exactly when no check failed |
| EventsService.ValidateEventData | src/services/events.service.js:55-136 | the pushed list is exactly the reference function's list of issues for the data |
| EventsService.EventDataValidIff | src/services/events.service.js:55-136 | the data is valid exactly when title and location have at least 5 and the description 10 UTF-16 code units after trimming, the date is `DD-MM-YY`, both times are clock times not out of order, the four flags are booleans when given, and the entry price is at least 0, and 0 for a free event |
| EventsService.NoEventData | src/services/events.service.js:59-62 | falsy data gets the one "no data" message and is invalid |
| EventsService.TextFieldsReported | src/services/events.service.js:64-113 | title, description and location are each reported exactly when shorter than 5, 10 and 5 UTF-16 code units after trimming, or not strings |
| EventsService.ScheduleReported | src/services/events.service.js:69-93 | the date and the two times are reported exactly when they are not strings of their shape; for two-digit-hour times the order message comes exactly when the end is not after the start |
| EventsService.FlagsReported | src/services/events.service.js:95-133 | each of the four flags is reported exactly when it was given and is not a boolean |
| EventsService.PriceRulesReported | src/services/events.service.js:120-128 | the entry price is reported exactly when missing, null, not a number or below 0; the free rule exactly when `isFree` is true and the price is not the number 0 |
| EventsService.FreeWithoutPrice | src/services/events.service.js:120-128 | a free event with no price gets both price messages |
| EventsService.ValidateEventUpdateData | src/services/events.service.js:138-235 | the answer is the reference function's verdict: falsy or non-object data throws, then the "nothing to update" message, then the checked list |
| EventsService.UpdateDataValidIff | src/services/events.service.js:163-234 | once something was supplied, the update is valid exactly when every field that is not undefined passes its rule, the supplied times are in order and a supplied price suits `isFree` |
| EventsService.NonObjectUpdateThrows | src/services/events.service.js:139-140 | falsy or non-object data throws a `ReferenceError`: `errors` is used before its `const` declaration |
| EventsService.NothingSuppliedGivesMessage | src/services/events.service.js:155-161 | with nothing supplied the answer is the message and not a list |
| EventsService.UpdateCrossRules | src/services/events.service.js:186-227 | on update the order rule needs both times and the free rule needs a supplied price, which then must be the number 0 when `isFree` is true |
| EventsService.UpdateFieldsReported | src/services/events.service.js:163-222 | the title, the start time and the price are reported exactly when supplied and breaking their create rule |
| EventsService.NullPriceOnlyPassesUpdate | src/services/events.service.js:121-222 | a null entry price is reported on create and passes on update, where `Number(null)` is 0 |
| EventsService.CreateAcceptableIsUpdateAcceptable | src/services/events.service.js:55-235 | every acceptable new event is also an acceptable update |
| EventsService.GetEventById | src/services/events.service.js:7-13 | a miss, an id `doc()` refuses or a failed store call throws "Evento no encontrado"; otherwise the stored event with its key |
| EventsService.SearchEventByTitle | src/services/events.service.js:15-32 | always throws a `ReferenceError`: the filter reads `products`, which is not declared |
| EventsService.CreateEvent | src/services/events.service.js:35-37 | the model's create, with the same outcome and the same single new document |
| EventsService.UpdateEvent | src/services/events.service.js:39-45 | a miss throws and writes nothing; otherwise an object patch `updateDoc` can write is merged into the document under the key and read back, and any other patch gives null with nothing written |
| EventsService.DeleteEvent | src/services/events.service.js:47-53 | a miss throws and deletes nothing; otherwise the document under the key is removed and its fields come back |
| OffersModel.WrittenApplicable | src/models/offers.model.js:38-42 | with an array `applicableTo`, the offer can be written exactly when every item names a document; the written array then has the same length and holds, in order, the reference each item names and nothing else |
| OffersModel.WrittenWithoutApplicable | src/models/offers.model.js:38-42 | an object without an array `applicableTo` is written exactly as sent |
| OffersModel.GetAllOffers | src/models/offers.model.js:6-16 | the listing of every stored offer, or `[]` when the store fails |
| OffersModel.GetOfferById | src/models/offers.model.js:18-30 | `{ id, ...data }` of the offer under the key, null for a missing key or a failed call |
| OffersModel.CreateOffer | src/models/offers.model.js:32-53 | data that cannot be written (not an object, or an item without a reference), or a failed store call, gives the one create-failure message and writes nothing, and so do rewritten fields Firestore refuses; otherwise exactly one document with the rewritten fields is added at the place of its new key and returned under that key |
| OffersModel.UpdateOffer | src/models/offers.model.js:55-99 | the rewritten patch is merged into the document the lenient lookup settles on, which comes back; null and no write when nothing matches, a call fails or the patch cannot be written (an item without a reference, or a patch `updateDoc` refuses) |
| OffersModel.PreparePatch | src/models/offers.model.js:81-86 | the patch `updateDoc` is given is `Written(updateData)`: the `applicableTo` items turned into references, or none when an item has no reference or the data is no object |
| OffersModel.DeleteOffer | src/models/offers.model.js:101-119 | by direct key only: a present document is removed and its fields come back; a missing one gives `{ deleted: false, message }`; a failure gives null; nothing else changes |
| OffersService.HeadTableMeaning | src/services/offers.service.js:83-91 | the title and description blocks push only their own messages, each exactly when its check failed |
| OffersService.TailTableLimits | src/services/offers.service.js:111-126 | the minimum-purchase, `isLimited` and limit messages are each pushed exactly when their own check failed |
| OffersService.TailTableText | src/services/offers.service.js:128-137 | the state and promotional-code messages are each pushed exactly when their own check failed |
| OffersService.TailTableDates | src/services/offers.service.js:139-150 | the start- and end-date messages are each pushed exactly when their own check failed |
| OffersService.TablesShape | src/services/offers.service.js:83-150 | the blocks after `applicableTo` never name the title, the description, `applicableTo` or an element; each group pushes nothing exactly when none of its checks failed |
| OffersService.TailReportedByTable | src/services/offers.service.js:93-150 | around the `applicableTo` block, a message of a later block is in the list exactly when that block pushed it |
| OffersService.HeadReportedByTable | src/services/offers.service.js:83-109 | a title or description message is in the list exactly when its own block pushed it |
| OffersService.ItemTableMeaning | src/services/offers.service.js:98-108 | the callback's "needs type and id" and "unknown type" messages are each pushed exactly when their own check failed, both under the element's index, and nothing is pushed exactly when neither failed |
| OffersService.CheckItem | src/services/offers.service.js:98-108 | a null or undefined element throws a `TypeError`; any other element gets the reference function's messages |
| OffersService.CheckApplicableTo | src/services/offers.service.js:93-109 | the `forEach` pass throws exactly when some element is null or undefined, and otherwise pushes the reference function's messages for the field |
| OffersService.ValidateOfferData | src/services/offers.service.js:74-156 | the answer is the reference function's verdict: the throw of the `forEach`, or the checked list |
| OffersService.ItemIssuesEmptyIff | src/services/offers.service.js:98-108 | an element draws no message exactly when it is an object with a truthy type and id and the type is "tea" or "craft" |
| OffersService.ItemMessages | src/services/offers.service.js:98-108 | the "needs type and id" message comes exactly when the element is not an object with a truthy type and id; the "unknown type" message exactly when the type is truthy and neither "tea" nor "craft" |
| OffersService.ItemIssuesTagged | src/services/offers.service.js:98-108 | the callback only ever names the element it was given |
| OffersService.ApplicableErrorsAbout | src/services/offers.service.js:93-109 | the `applicableTo` block names only `applicableTo` or its elements |
| OffersService.ApplicableErrorsEmptyIff | src/services/offers.service.js:93-109 | the block pushes nothing exactly when `applicableTo` is a non-empty array of acceptable elements |
| OffersService.OfferDataValidIff | src/services/offers.service.js:74-156 | the validator answers valid exactly when the data has a title of at least 5 and a code of at least 3 UTF-16 code units after trimming, a non-blank description, acceptable elements, a minimum purchase of at least 0, a boolean `isLimited` when given and then a positive limit, a known state and two `DD-MM-YY` dates; such data never makes it throw |
| OffersService.NoOfferData | src/services/offers.service.js:78-81 | falsy data gets the one "no data" message and is invalid |
| OffersService.TextFieldsReported | src/services/offers.service.js:83-137 | title, description and code are each reported exactly when shorter than 5, 1 and 3 UTF-16 code units after trimming, or not strings |
| OffersService.LimitRulesReported | src/services/offers.service.js:116-126 | `isLimited` is reported exactly when given and not a boolean; the limit message comes exactly when `isLimited` is true and the limit is missing, null, not a number or not positive |
| OffersService.StateAndDatesReported | src/services/offers.service.js:128-150 | the state is reported exactly when not "active", "inactive" or "expired"; each date exactly when not a `DD-MM-YY` string |
| OffersService.EndBeforeStartPasses | src/services/offers.service.js:139-153 | an offer from "31-12-24" to "01-01-24" draws no date message: the dates are not compared |
| OffersService.ElementReportedByPass | src/services/offers.service.js:93-109 | around the other blocks, an element message is in the list exactly when the `applicableTo` pass pushed it |
| OffersService.ApplicableNotAnArray | src/services/offers.service.js:94-95 | an `applicableTo` that is not a non-empty array gets the field message and no element message, and the validator does not throw |
| OffersService.ApplicableReportedAtIndex | src/services/offers.service.js:96-108 | an element of a non-empty `applicableTo` is reported under its index exactly as its own check reports it |
| OffersService.CheckUpdateItem | src/services/offers.service.js:184-212 | an object element whose id is truthy and not a string throws a `TypeError` at `trim`; any other element gets the reference function's messages |
| OffersService.UpdateItemTableMeaning | src/services/offers.service.js:191-206 | the type, id and unknown-type messages of an updated element are each pushed exactly when their own check failed |
| OffersService.UpdateItemTableShape | src/services/offers.service.js:191-206 | those three blocks name only the element, never with the blank-id message, and push nothing exactly when none of them failed |
| OffersService.CheckUpdateApplicableTo | src/services/offers.service.js:178-214 | the update's `forEach` pass throws exactly when some element makes its callback throw, and otherwise pushes the reference function's messages |
| OffersService.ValidateUpdateData | src/services/offers.service.js:158-258 | the answer is the reference function's verdict: a throw for null or undefined, the "nothing to update" message, the throw of the `forEach`, or the checked list |
| OffersService.UpdateItemIssuesEmptyIff | src/services/offers.service.js:184-212 | an updated element draws no message exactly when it is an object with a "tea" or "craft" type and a non-blank string id |
| OffersService.UpdateItemMessages | src/services/offers.service.js:191-211 | for an object element: the type message exactly when the type is not a non-empty string, the id message exactly when the id is not one, the unknown-type message exactly when a truthy type is neither "tea" nor "craft", and the blank-id message exactly when the id is blank |
| OffersService.UpdateItemIssuesTagged | src/services/offers.service.js:184-212 | the update callback only ever names the element it was given |
| OffersService.UpdateApplicableErrorsAbout | src/services/offers.service.js:178-214 | the update's `applicableTo` block names only `applicableTo` or its elements |
| OffersService.UpdateApplicableErrorsEmptyIff | src/services/offers.service.js:178-214 | the update's `applicableTo` block pushes nothing exactly when the field is absent or a non-empty array of acceptable elements |
| OffersService.UpdateDataValidIff | src/services/offers.service.js:168-257 | once something was supplied, the update is valid exactly when every field that is not undefined passes its rule, with the limit rule as on create; such data never makes it throw |
| OffersService.NothingSuppliedGivesMessage | src/services/offers.service.js:163-166 | with nothing supplied the answer is the message and not a list |
| OffersService.EmptyTitleAloneIsNothing | src/services/offers.service.js:163-166 | an empty title sent alone is "nothing to update", not a title that is too short |
| OffersService.UpdateRulesReported | src/services/offers.service.js:168-231 | the limit message comes on update exactly as on create, and a supplied title is reported exactly when it breaks the create bound |
| OffersService.AbsentFieldsPass | src/services/offers.service.js:168-255 | a title, state or start date that was not sent is not reported |
| OffersService.NumericIdRefusedOnUpdate | src/services/offers.service.js:196-211 | an object element with a non-zero numeric id gets the id message from its callback, and the update validator then throws at `trim` |
| OffersService.GetOfferById | src/services/offers.service.js:7-13 | a miss, an id `doc()` refuses or a failed store call throws "Oferta no encontrada"; otherwise the stored offer with its key |
| OffersService.SearchOfferByTitle | src/services/offers.service.js:16-33 | the search over the listing (`[]` when the store fails) by the `title` field, with its no-match message |
| OffersService.CreateOffer | src/services/offers.service.js:35-46 | null or undefined data, or an item of unknown type, throws with the "Error creando oferta: " prefix and writes nothing; otherwise the model's create on the prepared data, whose failure message gets the same prefix |
| OffersService.UpdateOffer | src/services/offers.service.js:48-64 | a miss throws and writes nothing; so do null or undefined data, an empty `applicableTo` array and an item of unknown type; otherwise the prepared and rewritten patch is merged into the document under that very key, or null comes back with nothing written when it cannot be written |
| OffersService.PrepareUpdate | src/services/offers.service.js:54-61 | what reaches the model is `UpdatePrepared(updateData)`: null or undefined data throws, an empty `applicableTo` array is refused, and the items are prepared |
| OffersService.DeleteOffer | src/services/offers.service.js:66-72 | a miss throws and deletes nothing; otherwise the document under the key is removed and its fields come back |
| OffersService.NumericApplicableIdFailsCreate | src/services/offers.service.js:260-278 | an offer whose items all have a known type, one of them with a numeric id, prepares without error and then cannot be written, so create fails |
| References.TableEntry | src/services/reservations.service.js:291-296 | `collectionMap[type]` goes by the text of `type`: "tea" and "craft" exactly give their own entries, and exactly the names of the members of `Object.prototype` give an inherited member |
| References.TableEntryOwn | src/services/offers.service.js:262-267 | "tea", "craft" and `["tea"]` find the table's entries |
| References.TableEntryInherited | src/services/offers.service.js:262-267 | "constructor" and "__proto__" find inherited members, which are truthy and so not refused |
| References.TableEntryAbsent | src/services/offers.service.js:267-269 | "Tea", 1 and null find nothing |
| References.ProductPrepared | src/services/reservations.service.js:296-307 | one product prepares exactly when its type is known, to the table's value and its own `id`, `quantity` and `unitPrice` |
| References.ApplicablePrepared | src/services/offers.service.js:267-276 | one applicable item prepares exactly when its type is known, to the table's value and its own `id` and `type` |
| References.InheritedTypeHasNoRef | src/models/offers.model.js:40 | an item whose type finds an inherited member prepares, but gets no reference, since its collection is no string |
| References.PrepareProductsMeaning | src/services/reservations.service.js:289-309 | `prepareProducts` succeeds exactly when every item has a known type; the result then has the same length and, item by item in order, the table's collection and the `id`, `quantity` and `unitPrice` of the item |
| References.PrepareProductsRejectsBatch | src/services/reservations.service.js:296-300 | the first item of unknown type rejects the whole batch with the message that names its type |
| References.PrepareApplicableToMeaning | src/services/offers.service.js:260-278 | `prepareApplicableTo` succeeds exactly when every item has a known type; the result then has the same length and, item by item in order, the table's collection and the `id` and `type` of the item |
| References.PreparedCollections | src/services/offers.service.js:262-265 | a prepared tea item points at the collection teas are stored in; a prepared craft item does not point at the collection crafts are stored in |
| References.CraftTableEntryMissesCraftsCollection | src/services/reservations.service.js:291-294 | the table's tea entry is the teas collection, but its craft entry "craftProducts" is not the crafts collection "craftsProducts" |
| References.MakeRef | src/models/reservations.model.js:44 | a reference comes back only for two strings; two plain keys give the reference to that collection and id |
| References.MakeRefInCollection | src/models/reservations.model.js:44 | into a collection named by a plain key, a reference comes back exactly when `doc()` names a document with that id, and it points at that document's path |
| References.MakeRefPaths | src/models/offers.model.js:40 | "/abc" becomes the reference to "abc", "a/b/c" a reference into a sub-collection, and "a/b" none |
| References.RewriteItems | src/models/reservations.model.js:39-51 | when the field holds an array it is replaced by its image under the callback, or the callback's exception is passed on; otherwise the fields come back as they were |
| References.RewriteKeepsOtherFields | src/models/offers.model.js:38-42 | a rewrite that succeeds keeps the set of field names and every other field |
| References.NumericIdHasNoRef | src/models/offers.model.js:40 | a known item with a numeric id, which the validators let through, gets no reference once prepared |
| References.PreparedItemRef | src/models/offers.model.js:40 | a known item with a usable string id, once prepared, gets a reference into its type's collection under that id |
| ReservationsModel.WrittenProducts | src/models/reservations.model.js:39-52 | with an array `products`, the reservation can be written exactly when every product names a document; the written array then has the same length and holds, in order, `{ productRef, quantity, unitPrice }` for each product |
| ReservationsModel.WrittenWithoutProducts | src/models/reservations.model.js:39 | an object without an array `products` is written exactly as sent |
| ReservationsModel.GetAllReservations | src/models/reservations.model.js:6-16 | the listing of every stored reservation, or `[]` when the store fails |
| ReservationsModel.GetReservationById | src/models/reservations.model.js:18-30 | `{ id, ...data }` of the document under the key, null for a missing key or a failed call |
| ReservationsModel.CreateReservation | src/models/reservations.model.js:32-63 | data that is not an object, a product without a reference, or a failed store call gives the one create-failure message and writes nothing, and so do rewritten fields Firestore refuses; otherwise exactly one document with the rewritten fields is added at the place of its new key and returned under that key |
| ReservationsModel.UpdateReservation | src/models/reservations.model.js:65-110 | the rewritten patch is merged into the document the lenient lookup settles on, which comes back; null and no write when nothing matches, a call fails or the patch cannot be written (an item without a reference, or a patch `updateDoc` refuses) |
| ReservationsModel.PreparePatch | src/models/reservations.model.js:89-97 | the patch `updateDoc` is given is `Written(updateData)`: the products turned into reference records, or none when a product has no reference or the data is no object |
| ReservationsModel.DeleteReservation | src/models/reservations.model.js:112-131 | by direct key only: a present document is removed and its fields come back; a missing one gives `{ deleted: false, message }`; a failure gives null; nothing else changes |
| ReservationsService.CheckItem | src/services/reservations.service.js:84-118 | the `forEach` callback pushes the reference function's messages for the element |
| ReservationsService.ItemTableKinds | src/services/reservations.service.js:92-117 | the type, unknown-type and id messages are each pushed exactly when their own check failed |
| ReservationsService.ItemTableNumbers | src/services/reservations.service.js:102-109 | the quantity and unit-price messages are each pushed exactly when their own check failed |
| ReservationsService.ItemTableShape | src/services/reservations.service.js:91-117 | an element's messages all name that element, and it gets none exactly when no check failed |
| ReservationsService.CheckProducts | src/services/reservations.service.js:81-119 | the `products` block pushes the reference function's messages: the array test, then the pass over the elements |
| ReservationsService.ValidateReservationData | src/services/reservations.service.js:65-167 | the answer is the checked list of the reference function's messages, `userId` first, then `products`, then the other fields |
| ReservationsService.UserIdTableMeaning | src/services/reservations.service.js:76-78 | the `userId` message is pushed exactly when its check failed, and it is the only message of its block |
| ReservationsService.FieldTableFormats | src/services/reservations.service.js:127-142 | the pickup-date, slot and e-mail messages are each pushed exactly when their own check failed |
| ReservationsService.FieldTableAmounts | src/services/reservations.service.js:121-164 | the total, subtotal and `ecoPackaging` messages are each pushed exactly when their own check failed |
| ReservationsService.FieldTableChoices | src/services/reservations.service.js:144-159 | the payment-method and state messages are each pushed exactly when their own check failed |
| ReservationsService.FieldTableShape | src/services/reservations.service.js:121-164 | the field blocks after `products` name fields other than `userId` and `products` only, and push nothing exactly when none of their checks failed |
| ReservationsService.ItemIssuesEmptyIff | src/services/reservations.service.js:84-118 | an element draws no message exactly when it is an object with a known type, an id, a positive quantity and a unit price of at least 0 |
| ReservationsService.ProductsIssuesEmptyIff | src/services/reservations.service.js:81-119 | the `products` block pushes nothing exactly when it is a non-empty array of acceptable elements |
| ReservationsService.ReservationDataValidIff | src/services/reservations.service.js:65-167 | the validator answers valid exactly when the data has a user id, acceptable products, totals of at least 0, a `DD-MM-YY` pickup date, an `HH:MM-HH:MM` slot, an e-mail address, a known payment method and state, and a boolean `ecoPackaging` when given |
| ReservationsService.NoReservationData | src/services/reservations.service.js:70-73 | falsy data gets the one "no data" message and is invalid |
| ReservationsService.ItemIssuesAbout | src/services/reservations.service.js:84-118 | every message of the element check names that element |
| ReservationsService.ItemIssuesTagged | src/services/reservations.service.js:84-118 | the callback only ever names the element it was given |
| ReservationsService.ProductsIssuesAbout | src/services/reservations.service.js:81-119 | the `products` block names only `products` or its elements |
| ReservationsService.FieldPushesNameNoElement | src/services/reservations.service.js:65-167 | an element message is in the list exactly when the `products` block pushed it |
| ReservationsService.FieldReportedByTable | src/services/reservations.service.js:121-164 | a field after `products` is in the list exactly when its own block pushed it |
| ReservationsService.UserIdReported | src/services/reservations.service.js:76-78 | `userId` is reported exactly when it is not a string or a number |
| ReservationsService.ProductReportedAtIndex | src/services/reservations.service.js:84-118 | an element of a non-empty `products` array is reported under its index exactly as its own check reports it |
| ReservationsService.ItemTypeAndIdMessages | src/services/reservations.service.js:92-117 | for an object element: the type message exactly when the type is not a non-empty string, the unknown-type message exactly when a truthy type is neither "tea" nor "craft", the id message exactly when the id is not a truthy string or number |
| ReservationsService.ItemNumberMessages | src/services/reservations.service.js:102-109 | the quantity message exactly when the quantity is missing or not a number above 0; the unit-price message exactly when the price is missing or not a number of at least 0 |
| ReservationsService.NonObjectItem | src/services/reservations.service.js:86-89 | an element that is not an object gets that one message and no other |
| ReservationsService.ProductsNotAnArray | src/services/reservations.service.js:81-83 | `products` that is not an array, or is empty, gets the field message and no element message |
| ReservationsService.FormatsReported | src/services/reservations.service.js:127-142 | the pickup date, slot and e-mail are each reported exactly when they are not strings of their shape |
| ReservationsService.AmountsReported | src/services/reservations.service.js:121-164 | the total and the subtotal are reported exactly when missing or not numbers of at least 0; `ecoPackaging` exactly when given and not a boolean |
| ReservationsService.PickupDateShapeOnly | src/services/reservations.service.js:127-130 | "99-99-99" passes as a pickup date: only the shape is checked |
| ReservationsService.PickupSlotShapeOnly | src/services/reservations.service.js:133-136 | "99:99-00:00", which ends before it starts, passes as a slot |
| ReservationsService.PaymentMethodRequired | src/services/reservations.service.js:145-148 | the payment method is reported exactly when it is not one of the four methods |
| ReservationsService.StateRequired | src/services/reservations.service.js:156-159 | the state is reported exactly when it is not one of the four states |
| ReservationsService.CheckUpdateItem | src/services/reservations.service.js:200-225 | the update's callback pushes the reference function's messages for the element |
| ReservationsService.UpdateItemTableMeaning | src/services/reservations.service.js:206-224 | the type, id, quantity and unit-price messages of an updated element are each pushed exactly when their own check failed |
| ReservationsService.UpdateItemTableShape | src/services/reservations.service.js:206-224 | an updated element's messages all name that element, and it gets none exactly when no check failed |
| ReservationsService.CheckUpdateProducts | src/services/reservations.service.js:196-227 | the update's `products` block pushes nothing when the field is absent, and otherwise the reference function's messages |
| ReservationsService.ValidateReservationUpdateData | src/services/reservations.service.js:169-287 | the answer is the reference function's verdict: a throw for null or undefined, the "nothing to update" message, or the checked list |
| ReservationsService.UpdateUserIdTableMeaning | src/services/reservations.service.js:191-193 | the update's `userId` message is pushed exactly when its check failed, and it is the only message of its block |
| ReservationsService.UpdateFieldTableChoices | src/services/reservations.service.js:256-270 | the update's payment-method and state messages are each pushed exactly when their own check failed |
| ReservationsService.UpdateFieldTableDates | src/services/reservations.service.js:240-284 | the update's cancellation-date and pickup-date messages are each pushed exactly when their own check failed |
| ReservationsService.UpdateFieldTableShape | src/services/reservations.service.js:236-284 | the update's field blocks name fields other than `userId` and `products` only, and push nothing exactly when none of their checks failed |
| ReservationsService.UpdateItemIssuesEmptyIff | src/services/reservations.service.js:200-225 | an updated element draws no message exactly when it is an object whose given fields each pass their rule |
| ReservationsService.UpdateItemMessages | src/services/reservations.service.js:207-224 | each message of an updated element comes exactly when that field was given and breaks its rule: a type other than "tea" or "craft", an id that is not a string or number, a quantity not above 0, a price below 0 or not a number |
| ReservationsService.UpdateProductsIssuesEmptyIff | src/services/reservations.service.js:196-227 | the update's `products` block pushes nothing exactly when the field is absent or a non-empty array of acceptable elements |
| ReservationsService.UpdateDataValidIff | src/services/reservations.service.js:190-286 | once something was supplied, the update is valid exactly when every field that was sent passes its rule |
| ReservationsService.NothingSuppliedGivesMessage | src/services/reservations.service.js:181-188 | with none of the fourteen fields the answer is the message, with no list |
| ReservationsService.UpdateItemIssuesAbout | src/services/reservations.service.js:200-225 | every message of the update's element check names that element |
| ReservationsService.UpdateItemIssuesTagged | src/services/reservations.service.js:200-225 | the update callback only ever names the element it was given |
| ReservationsService.UpdateProductsIssuesAbout | src/services/reservations.service.js:196-227 | the update's `products` block names only `products` or its elements |
| ReservationsService.UpdateFieldReportedByTable | src/services/reservations.service.js:236-284 | a field after `products` is in the update's list exactly when its own block pushed it |
| ReservationsService.AbsentProductsPass | src/services/reservations.service.js:196 | with `products` absent the update reports only fields, and not `products` |
| ReservationsService.AbsentUserIdPasses | src/services/reservations.service.js:191 | a `userId` that was not sent is not reported |
| ReservationsService.NullPaymentOnlyPassesUpdate | src/services/reservations.service.js:233 | a null payment method passes on update, where null is in the list, but is reported on create |
| ReservationsService.CancellationReported | src/services/reservations.service.js:280-284 | the cancellation date is reported exactly when it was given, is not "" and is not a `DD-MM-YY` string; "" passes |
| ReservationsService.UpdateStateReported | src/services/reservations.service.js:268-270 | a supplied state is reported exactly when it is not one of the four states |
| ReservationsService.GetReservationById | src/services/reservations.service.js:9-18 | a miss, an id `doc()` refuses or a failed store call throws "Reserva no encontrada"; otherwise the stored reservation with its key |
| ReservationsService.CreateReservation | src/services/reservations.service.js:20-33 | null or undefined data, or a product of unknown type, throws with the "Error creando reserva: " prefix and writes nothing; otherwise the model's create on the prepared data, whose failure message gets the same prefix |
| ReservationsService.UpdateReservation | src/services/reservations.service.js:35-52 | a miss throws and writes nothing; so do an empty `products` array and a product of unknown type; otherwise the prepared and rewritten patch is merged into the document under that very key, or null comes back with nothing written when it cannot be written |
| ReservationsService.PrepareUpdate | src/services/reservations.service.js:41-48 | what reaches the model is `UpdatePrepared(updateData)`: null or undefined data throws, an empty `products` array is refused, and the products are prepared |
| ReservationsService.DeleteReservation | src/services/reservations.service.js:54-63 | a miss throws and deletes nothing; otherwise the document under the key is removed and its fields come back |
| ReservationsService.NumericProductIdFailsCreate | src/services/reservations.service.js:289-309 | a reservation whose products all have a known type, one of them with a numeric id that the validators accept, prepares without error and then cannot be written |
| UsersModel.UserWithEmail | src/models/users.model.js:38-51 | the first listed user whose `email` is strictly equal to the argument, or null when there is none |
| UsersModel.GetAllUsers | src/models/users.model.js:7-17 | the listing of every stored user, or `[]` when the store fails |
| UsersModel.GetUserById | src/models/users.model.js:19-30 | `{ id, ...data }` of the document under the key, null for a missing key or a failed call |
| UsersModel.GetUserByEmail | src/models/users.model.js:32-57 | the first user of the listing (`[]` when the store fails) whose `email` is strictly equal to the argument, or null |
| UsersModel.FoundUserIsObject | src/models/users.model.js:43-51 | over listed users `find` answers null or a user object, and its answer is truthy exactly when it is not null |
| UsersModel.PrepareUser | src/models/users.model.js:61-85 | the steps before `addDoc` give no record for data that is not an object, an e-mail some listed user holds, or a password bcrypt refuses; otherwise the record `createUser` writes |
| UsersModel.CreateUser | src/models/users.model.js:59-95 | data that is not an object, an e-mail already registered, a password that cannot be hashed a record Firestore refuses or a failed store call gives the one create-failure message and writes nothing; otherwise exactly one document with the new user's record is added at the place of its new key and returned without its password |
| UsersModel.UpdateUser | src/models/users.model.js:97-146 | the patch is merged into the document the lenient lookup settles on, and the merged record comes back without its password; no match gives null and no write; a failed call, a patch that cannot be built, or one `updateDoc` refuses on the located document, gives the one update-failure message and no write |
| UsersModel.DeleteUser | src/models/users.model.js:148-175 | by direct key only: a present document is removed and `{ deleted: true, data }` comes back; a missing one gives `{ deleted: false, message }`; a failure gives the failure reply; nothing else changes |
| UsersModel.NewUserDefaults | src/models/users.model.js:75-85 | a new user is enabled, has the role "user", is stamped with the time, gets "" for a missing phone or address, and carries no `id` field: whatever the caller sent |
| UsersModel.NewUserKeepsPersonalFields | src/models/users.model.js:75-85 | the record has exactly the nine fields of `userData`, with the name, date of birth and e-mail as sent |
| UsersModel.NewUserPassword | src/models/users.model.js:71-73 | a non-empty string password is stored as its hash |
| UsersModel.DuplicateEmailRejected | src/models/users.model.js:65-68 | an e-mail some listed user already has is never registered again |
| UsersModel.ReplyHidesPassword | src/models/users.model.js:90 | what create and update hand back has no password, and keeps every other stored field |
| UsersModel.PatchMeaning | src/models/users.model.js:102-106 | the update patch has the sent field names, keeps every field but `password`, and stores a non-empty string password as its hash |
| UsersService.UserTableIdentity | src/services/users.service.js:123-137 | the full-name message and the two date-of-birth messages are each pushed exactly when their own check failed |
| UsersService.UserTableCredentials | src/services/users.service.js:139-148 | the e-mail, password and role messages are each pushed exactly when their own check failed |
| UsersService.UserTableOptional | src/services/users.service.js:150-163 | the `accountEnabled`, phone and address messages are each pushed exactly when their own check failed |
| UsersService.UserTableEmpty | src/services/users.service.js:123-171 | nothing is pushed exactly when no check failed |
| UsersService.ValidateUserData | src/services/users.service.js:114-172 | the answer is the checked list of the reference function's messages, in the order of the blocks |
| UsersService.UserDataValidIff | src/services/users.service.js:114-172 | the validator answers valid exactly when the data has a non-blank full name, a `DD-MM-YY` date of birth, an e-mail address, a password of at least 6 UTF-16 code units after trimming, and, when given, a boolean `accountEnabled` and string phone and address |
| UsersService.NoUserData | src/services/users.service.js:118-121 | falsy data gets the one "no data" message and is invalid |
| UsersService.RequiredFieldsReported | src/services/users.service.js:124-148 | the full name, the e-mail and the password are each reported exactly when they break their rule |
| UsersService.DateOfBirthReported | src/services/users.service.js:129-137 | a missing or empty date of birth gets the first message, a non-empty string of the wrong shape the second, never both |
| UsersService.OptionalFieldsReported | src/services/users.service.js:150-169 | `accountEnabled`, phone and address are reported only when given with the wrong type; the role is never reported |
| UsersService.AcceptedEmailHasOneAt | src/services/users.service.js:140-143 | an accepted e-mail has no white space and exactly one "@" |
| UsersService.ValidateUserUpdateData | src/services/users.service.js:174-234 | the answer is the reference function's verdict: a throw for null or undefined, the "nothing to update" message, or the checked list |
| UsersService.UpdateDataValidIff | src/services/users.service.js:190-233 | once something was supplied, the update is valid exactly when every field that is not undefined passes its rule |
| UsersService.NullishUpdateThrows | src/services/users.service.js:175-178 | destructuring null or undefined throws instead of answering |
| UsersService.NothingSuppliedGivesMessage | src/services/users.service.js:183-188 | with none of the eight fields, or for a primitive, the answer is the message, with no list |
| UsersService.UpdateFieldsReported | src/services/users.service.js:196-231 | a supplied role other than "user" or "admin", e-mail, password or date of birth is reported exactly when it breaks its rule; an absent one is not; the date has only the one message |
| UsersService.CreateAcceptableIsUpdateAcceptable | src/services/users.service.js:114-234 | a new user's acceptable data with an allowed role, or none, is also an acceptable update |
| UsersService.GetUserById | src/services/users.service.js:8-14 | a miss, an id `doc()` refuses or a failed store call throws "Usuario no encontrado"; otherwise the stored user with its key |
| UsersService.GetUserByEmail | src/services/users.service.js:16-23 | with no listed holder of exactly that e-mail it throws; otherwise the first listed user who holds it |
| UsersService.SearchUserByName | src/services/users.service.js:25-42 | the search over the listing by the `name` field, which create never writes, with its no-match message |
| UsersService.CreateUser | src/services/users.service.js:44-53 | null or undefined data throws and writes nothing; an e-mail a listed user holds is refused and nothing is written; otherwise the model's create; distinct e-mails stay distinct |
| UsersService.UpdateUser | src/services/users.service.js:55-70 | a miss, null or undefined data, or a new truthy e-mail whose first holder has another id throws and writes nothing; otherwise the patch is merged into the document under that very key, or the model's failure message comes back when the patch cannot be built or `updateDoc` refuses it |
| UsersService.UpdateRefusal | src/services/users.service.js:56-67 | the checks before the write refuse, in order: a miss with "Usuario no encontrado", null or undefined data with a `TypeError`, and an e-mail clash with its message; and nothing else |
| UsersService.EmailTaken | src/services/users.service.js:62-66 | a clash is reported exactly when the new e-mail is truthy, differs from the user's own, and its first holder has an `id` other than the argument |
| UsersService.DeleteUser | src/services/users.service.js:72-78 | a miss throws and deletes nothing; otherwise the document is removed and `{ deleted: true, data }` comes back |
| UsersService.Profile | src/services/users.service.js:102-111 | the profile has exactly the eight listed fields, copied from the user, and never the password |
| UsersService.AuthenticateUser | src/services/users.service.js:84-112 | the answer of the login check on the listed users: the first holder of the e-mail, refused when disabled, then the password compared |
| UsersService.AuthenticatedIff | src/services/users.service.js:84-112 | a login succeeds exactly when some user holds the e-mail, the first holder is not disabled, and the given password verifies against the stored one; it then gives that user's profile |
| UsersService.UnknownAndWrongPasswordAlike | src/services/users.service.js:87-100 | an unknown e-mail and a wrong password get the same message |
| UsersService.DisabledRefusedFirst | src/services/users.service.js:92-94 | a disabled account is refused whatever password is given |
| UsersService.HolderFound | src/models/users.model.js:43-51 | `find` gives null exactly when no user holds the e-mail, and otherwise a listed user who does |
| UsersService.CreateKeepsEmailsDistinct | src/services/users.service.js:44-53 | adding a user that create accepts keeps the listed e-mails distinct |
| UsersService.ListingInserted | src/models/users.model.js:38-43 | the listing after an insertion is the old listing with the new record at the insertion slot |
| UsersService.InsertedEmailDistinct | src/services/users.service.js:44-53 | a user whose e-mail no listed user holds can be put at any position without a duplicate |
| UsersService.UpdatedEmail | src/models/users.model.js:102-137 | the updated user ends up with the e-mail of the patch when it has one, and keeps the stored one otherwise |
| UsersService.ReplacedEmailDistinct | src/services/users.service.js:61-67 | distinct e-mails stay distinct when one user's e-mail is replaced by one no other user holds |
| UsersService.OwnEmailFree | src/services/users.service.js:62 | when e-mails are distinct, no other user holds an e-mail equal to a user's own |
| UsersService.MergedListing | src/models/users.model.js:131 | after the merge the listing has the same length: the updated record changes and the others stay |
| UsersService.NewEmailFree | src/services/users.service.js:62-66 | a new e-mail that differs from the user's own and passes the clash check is held by nobody, when no document stores an `id` field |
| UsersService.HolderWithKeyIsUser | src/services/users.service.js:63-64 | when no document stores an `id` field, the first holder of an e-mail whose `id` equals the argument is the user at the path the argument names |
| UsersService.StoredKeyNamesItself | src/services/users.service.js:64 | a document whose key equals the argument is the document the argument names, since a stored key is a plain key |
| UsersService.ListedIdIsKey | src/models/users.model.js:12 | without a stored `id` field, a listed user's `id` is its key |
| UsersService.HolderAt | src/services/users.service.js:63 | the first holder of an e-mail is an element of the listing that holds it |
| UsersService.UpdateKeepsEmailsDistinct | src/services/users.service.js:55-70 | an update the clash check lets through keeps the listed e-mails distinct |
| UsersService.NewcomerFound | src/models/users.model.js:43 | a user added among users none of whom holds the e-mail is the one `find` settles on, wherever its key puts it |
| UsersService.HolderLogsIn | src/services/users.service.js:84-112 | an enabled holder of the e-mail whose stored password verifies logs in and gets their profile |
| UsersService.RegisteredUserLogsIn | src/services/users.service.js:84-112 | a user who just registered with a non-empty password logs in with it, given that `verify` accepts what `hash` makes |

## Left out

- The HTTP layer (controllers, routers, `index.js` and the middlewares) is not modelled: it is request and response plumbing around the services. Its own defects are not part of this model.
- `auth.service.js` and `auth.middleware.js` are not part of this model: they sign and verify JWTs.
- `src/config/backup/export.js` is not part of this model: it uses the Firestore admin SDK and writes files.
- `bcrypt.hash` and `bcrypt.compare` are the parameters `hash` and `verify`. A login only succeeds for a registered user when `verify(p, hash(p))` holds, and `UsersService.RegisteredUserLogsIn` requires exactly that. The salt rounds and the cost of hashing are not modelled.
- The clock behind `createdAt` is the parameter `now`.
- Logging (`logger.utils.js`, every `console.*` call) is a no-op, and so are the argument expressions of those calls. Some log lines call `.data()` on a query snapshot or a document reference. The real SDK would throw there: `getAll*` would then answer `[]`, and `createReservation`, `createOffer` and `createEvent` would fail after the document was added. The model takes the branch the authors evidently meant, in which the log line has no effect.
- `async`/`await` is sequential here: each operation is one chain of store calls with nothing in between, so no interleaving is modelled.
- Firestore is one collection per `Store.Collection`. The behaviour of the store is fixed:
  - A failing store is one flag, `available`, for the whole call, so a call that fails halfway is not modelled.
  - A fresh key is any well-formed key not in use.
  - Document references are `Ref(collection, id)`.
  - `src/config/data.js` is not part of this model. The database is taken with Firestore's default settings, so `ignoreUndefinedProperties` is off and `undefined` is refused.
- Store.Writable: Firestore's limits on nesting depth, document size and field-name length are not modelled.
- Store.Merged: a patch key with a dot is written as one top-level field. Firestore's `updateDoc` reads it as a path into nested maps and writes the innermost field. Patch keys that name the same or overlapping paths are not refused either.
- Store.Collection.UpdateDoc: it refuses the patches Firestore refuses, but for those it accepts with dotted keys its new state is `Store.Merged`, with the difference named on the line above.
- Numbers are reals. There is no floating-point rounding, no `-0`, and no `Infinity`.
- `Number()` of a string handles only an optional sign, decimal digits and one point; exponents, hexadecimal and "Infinity" come out as NaN.
- `toLowerCase()` lowers ASCII capitals only.
- `trim()` removes the JavaScript white-space and line-terminator characters. Strings are `seq<char>`, with no Unicode normalisation. A string's `length` counts UTF-16 code units, two for each character from U+10000 on; lone surrogates cannot occur in a `seq<char>`.
- Json.Text: an object's own `toString` or `valueOf` field is not consulted. The model writes every plain object as "[object Object]"; JavaScript would call such a field, or throw a `TypeError` when it is not a function.
- Json.Text: a number that is not whole, or of size 10^21 or more, has no text in the model. JavaScript writes its shortest decimal form, which depends on floating point.
- Lookup.Locate: a stored `id` that is an array holding such a number, or a document reference, is compared by `Number()` only. JavaScript would also compare its text with the argument.
- References.InvalidTypeMessage: a type whose text the model does not write appears as "?" in the message.
- Ids the Firestore server refuses on its own ("." and "..", and names of the form `__…__`) are treated as ordinary keys.
- The single-digit hours that the event times accept (`9:00`) are handed to `new Date(...)`, and how that parses them is the parameter `loose` of the events validators. Two-digit times are compared as minute counts.
- Validation messages are the `Issue` datatype: each text the source pushes is one constructor or field name. The Spanish wording of those texts is not modelled.
- Exceptions raised by the runtime are placeholder texts: `TypeErrorText` for a property read on null or undefined, `ReferenceErrorText` for an undeclared or not yet initialised variable, `IllegalArgumentsText` for `bcrypt` on a non-string, and `StoreErrorText` for the `error.message` of a failed store call in the users model's delete reply. The exact messages of Node are not modelled.
- Crash paths are modelled only as far as where they happen and what they throw. Four are stated, with no property beyond that:
  - `searchEventByTitle` filters an undeclared `products`;
  - `validateEventUpdateData` touches `errors` before its declaration;
  - `validateOfferData` reads a field of a `null` item;
  - the offers update validator calls `trim` on an id that is not a string.
- `{ ...x }` of a value that is not a plain object gives no fields.
- The services overwrite `data.products`, `data.applicableTo` and `data.password` on the caller's object. The model hands the rewritten value on instead, so the caller's object is never changed. Likewise, the model does not capture `createUser` changing the caller's `data.password`.
- The services' `getAll*` functions only forward to the model's `getAll*`. They have no members of their own, and the model members stand for them.
- The double hashing of the password on the fallback path of the users model's `updateUser` is one hash: with `hash` a function, hashing the same input twice gives the same value.
- UsersService.UpdateKeepsEmailsDistinct: this is weaker than "the update never creates a duplicate e-mail". It requires that no document stores its own `id` field and that the patch writes no falsy e-mail. The source compares the holder's `id`, where a stored `id` field wins over the key, and it skips the check for a falsy e-mail. Without those two conditions a duplicate can be written.
- UsersService.RegisteredUserLogsIn: this holds only under the assumption that `verify` accepts what `hash` produced.
