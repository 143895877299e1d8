/**
 * How products become document references. The reservation and offer
 * services translate each `{ type, id, ... }` item through the fixed table
 * `{ tea: 'teasProducts', craft: 'craftProducts' }` (`prepareProducts`,
 * src/services/reservations.service.js, and `prepareApplicableTo`,
 * src/services/offers.service.js); their models then turn each prepared
 * item into `doc(db, item.collection, item.id)`.
 */
module References {
  import opened Json
  import opened Lists
  import opened Store
  import Teas = TeasProductsModel
  import Crafts = CraftsProductsModel

  const TeaCollection := "teasProducts"
  const CraftCollection := "craftProducts"
  const ProductTypes := ["tea", "craft"]
  const InvalidTypePrefix := "Tipo de producto no válido: "

  /** Stands for the text of the error `doc()` raises for a path that names no document. */
  const InvalidPathText := "FirebaseError: invalid document reference"

  /** The members every object inherits from `Object.prototype`, which a property lookup in the table also finds. */
  const InheritedNames := ["constructor", "__defineGetter__", "__defineSetter__", "hasOwnProperty",
                           "__lookupGetter__", "__lookupSetter__", "isPrototypeOf", "propertyIsEnumerable",
                           "toString", "valueOf", "__proto__", "toLocaleString"]

  /** What `collectionMap[type]` reads: an entry of the table, an inherited member, or nothing. */
  datatype Entry = Own(name: string) | Inherited | Absent

  /**
   * `collectionMap[type]`, a property lookup: `type` is turned into its text
   * (`String(type)`, so `["tea"]` reads as "tea"). "tea" and "craft" give the
   * table's entries, the name of a member of `Object.prototype` gives that
   * member, and every other text gives undefined. A text the model does not
   * write holds a digit, or is a reference's, which no request sends: it
   * names nothing.
   */
  function TableEntry(t: JVal): (r: Entry)
    ensures r == Own(TeaCollection) <==> Text(t) == Some("tea")
    ensures r == Own(CraftCollection) <==> Text(t) == Some("craft")
    ensures r.Own? ==> r.name in [TeaCollection, CraftCollection]
    ensures r.Inherited? <==> Text(t).Some? && Text(t).value in InheritedNames
  {
    match Text(t)
    case None => Absent
    case Some(key) =>
      if key == "tea" then Own(TeaCollection)
      else if key == "craft" then Own(CraftCollection)
      else if key in InheritedNames then Inherited
      else Absent
  }

  /**
   * Stands for an inherited member read as a collection name: a function, or
   * `Object.prototype` itself for "__proto__". It is truthy and not a string,
   * and the core reads no field of it, so an empty object behaves alike.
   */
  const InheritedMember: JVal := Obj(map[])

  /** The value `collectionMap[type]` reads when it is not undefined. */
  function EntryValue(e: Entry): JVal
    requires !e.Absent?
  {
    if e.Own? then Str(e.name) else InheritedMember
  }

  /** `${v}` inside a template literal; "?" for a text the model does not write. */
  function TemplateText(v: JVal): string {
    match Text(v)
    case Some(s) => s
    case None => "?"
  }

  /** The message both prepare functions throw for a type the table does not know. */
  function InvalidTypeMessage(t: JVal): string {
    InvalidTypePrefix + TemplateText(t)
  }

  /**
   * The callback of `prepareProducts`: `{ collection, id, quantity, unitPrice }`
   * for a known type. Reading `type` of null or undefined throws a `TypeError`.
   */
  function PrepareProduct(p: JVal): Outcome<JVal> {
    if IsNullish(p) then Throw(TypeErrorText)
    else var entry := TableEntry(Get(p, "type"));
      if entry.Absent? then Throw(InvalidTypeMessage(Get(p, "type")))
      else Return(Obj(map["collection" := EntryValue(entry), "id" := Get(p, "id"),
                          "quantity" := Get(p, "quantity"), "unitPrice" := Get(p, "unitPrice")]))
  }

  /** The callback of `prepareApplicableTo`: `{ collection, id, type }` for a known type. */
  function PrepareApplicable(p: JVal): Outcome<JVal> {
    if IsNullish(p) then Throw(TypeErrorText)
    else var entry := TableEntry(Get(p, "type"));
      if entry.Absent? then Throw(InvalidTypeMessage(Get(p, "type")))
      else Return(Obj(map["collection" := EntryValue(entry), "id" := Get(p, "id"), "type" := Get(p, "type")]))
  }

  /** `prepareProducts(products)`. */
  function PrepareProducts(items: seq<JVal>): Outcome<seq<JVal>> {
    MapOrThrow(items, PrepareProduct)
  }

  /** `prepareApplicableTo(applicableTo)`. */
  function PrepareApplicableTo(items: seq<JVal>): Outcome<seq<JVal>> {
    MapOrThrow(items, PrepareApplicable)
  }

  /** An item the table lets through: not null or undefined, and its `type` finds something in the table. */
  predicate KnownItem(p: JVal) {
    !IsNullish(p) && !TableEntry(Get(p, "type")).Absent?
  }

  /**
   * `prepareProducts` succeeds exactly when every item has a known type; it
   * then keeps the length and the order, looks the collection up in the
   * table, and copies `id`, `quantity` and `unitPrice` unchanged.
   */
  lemma PrepareProductsMeaning(items: seq<JVal>)
    ensures PrepareProducts(items).Return? <==> forall i :: 0 <= i < |items| ==> KnownItem(items[i])
    ensures PrepareProducts(items).Return? ==>
      var out := PrepareProducts(items).value;
      |out| == |items| &&
      forall i :: 0 <= i < |items| ==>
        Get(out[i], "collection") == EntryValue(TableEntry(Get(items[i], "type")))
        && Get(out[i], "id") == Get(items[i], "id")
        && Get(out[i], "quantity") == Get(items[i], "quantity")
        && Get(out[i], "unitPrice") == Get(items[i], "unitPrice")
  {
    forall i | 0 <= i < |items| ensures PrepareProduct(items[i]).Return? <==> KnownItem(items[i]) {
      ProductPrepared(items[i]);
    }
    if PrepareProducts(items).Return? {
      var out := PrepareProducts(items).value;
      forall i | 0 <= i < |items|
        ensures Get(out[i], "collection") == EntryValue(TableEntry(Get(items[i], "type")))
        ensures Get(out[i], "id") == Get(items[i], "id")
        ensures Get(out[i], "quantity") == Get(items[i], "quantity")
        ensures Get(out[i], "unitPrice") == Get(items[i], "unitPrice")
      {
        ProductPrepared(items[i]);
      }
    }
  }

  /** One item through the callback of `prepareProducts`. */
  lemma ProductPrepared(p: JVal)
    ensures PrepareProduct(p).Return? <==> KnownItem(p)
    ensures KnownItem(p) ==>
      var q := PrepareProduct(p).value;
      Get(q, "collection") == EntryValue(TableEntry(Get(p, "type")))
      && Get(q, "id") == Get(p, "id") && Get(q, "quantity") == Get(p, "quantity")
      && Get(q, "unitPrice") == Get(p, "unitPrice")
  {
    if KnownItem(p) {
      var entry := TableEntry(Get(p, "type"));
      var fields := map["collection" := EntryValue(entry), "id" := Get(p, "id"),
                        "quantity" := Get(p, "quantity"), "unitPrice" := Get(p, "unitPrice")];
      assert PrepareProduct(p) == Return(Obj(fields));
      assert fields["collection"] == EntryValue(entry) && fields["id"] == Get(p, "id");
      assert fields["quantity"] == Get(p, "quantity") && fields["unitPrice"] == Get(p, "unitPrice");
    }
  }

  /** One item of unknown type rejects the whole batch, with the message naming the first such type. */
  lemma PrepareProductsRejectsBatch(items: seq<JVal>, k: nat)
    requires k < |items| && !IsNullish(items[k]) && !KnownItem(items[k])
    requires forall j :: 0 <= j < k ==> KnownItem(items[j])
    ensures PrepareProducts(items) == Throw(InvalidTypeMessage(Get(items[k], "type")))
  {
    var r := PrepareProducts(items);
    assert !PrepareProduct(items[k]).Return?;
    var i :| 0 <= i < |items| && PrepareProduct(items[i]) == Throw(r.message)
      && forall j :: 0 <= j < i ==> PrepareProduct(items[j]).Return?;
    assert !KnownItem(items[i]);
    assert i == k;
  }

  /**
   * `prepareApplicableTo` succeeds exactly when every item has a known type;
   * it keeps the length and the order and gives `{ collection, id, type }`.
   */
  lemma PrepareApplicableToMeaning(items: seq<JVal>)
    ensures PrepareApplicableTo(items).Return? <==> forall i :: 0 <= i < |items| ==> KnownItem(items[i])
    ensures PrepareApplicableTo(items).Return? ==>
      var out := PrepareApplicableTo(items).value;
      |out| == |items| &&
      forall i :: 0 <= i < |items| ==>
        Get(out[i], "collection") == EntryValue(TableEntry(Get(items[i], "type")))
        && Get(out[i], "id") == Get(items[i], "id")
        && Get(out[i], "type") == Get(items[i], "type")
  {
    forall i | 0 <= i < |items| ensures PrepareApplicable(items[i]).Return? <==> KnownItem(items[i]) {
      ApplicablePrepared(items[i]);
    }
    if PrepareApplicableTo(items).Return? {
      var out := PrepareApplicableTo(items).value;
      forall i | 0 <= i < |items|
        ensures Get(out[i], "collection") == EntryValue(TableEntry(Get(items[i], "type")))
        ensures Get(out[i], "id") == Get(items[i], "id")
        ensures Get(out[i], "type") == Get(items[i], "type")
      {
        ApplicablePrepared(items[i]);
      }
    }
  }

  /** One item through the callback of `prepareApplicableTo`. */
  lemma ApplicablePrepared(p: JVal)
    ensures PrepareApplicable(p).Return? <==> KnownItem(p)
    ensures KnownItem(p) ==>
      var q := PrepareApplicable(p).value;
      Get(q, "collection") == EntryValue(TableEntry(Get(p, "type")))
      && Get(q, "id") == Get(p, "id") && Get(q, "type") == Get(p, "type")
  {
  }

  /** The prepared products and applicable items still say which entry of the table they came from. */
  lemma PreparedCollections(p: JVal)
    requires KnownItem(p)
    ensures Get(p, "type") == Str("tea") ==> Get(PrepareProduct(p).value, "collection") == Str(Teas.CollectionName)
    ensures Get(p, "type") == Str("craft") ==> Get(PrepareProduct(p).value, "collection") != Str(Crafts.CollectionName)
  {
  }

  /**
   * The table names the tea collection correctly but not the craft one: craft
   * products are stored in "craftsProducts", while the table sends craft
   * references to "craftProducts", a collection nothing writes to.
   */
  lemma CraftTableEntryMissesCraftsCollection()
    ensures TeaCollection == Teas.CollectionName
    ensures CraftCollection != Crafts.CollectionName
  {
    assert CraftCollection[5] != Crafts.CollectionName[5];
  }

  // ---------------------------------------------------------------------
  // doc(db, collection, id)

  /**
   * `doc(db, collection, id)`, as Firestore builds the path: both must be
   * strings, the collection not empty and neither holding "//"; each is cut
   * at '/' and the empty pieces dropped, and together they must have an even
   * number of pieces, at least two, to name a document. The reference is
   * that path, split after its first piece. Otherwise `doc()` throws.
   */
  function MakeRef(collection: JVal, id: JVal): (r: Option<JVal>)
    ensures r.Some? ==> collection.Str? && id.Str? && r.value.Ref?
    ensures collection.Str? && id.Str? && ValidKey(collection.s) && ValidKey(id.s) ==>
      r == Some(Ref(collection.s, id.s))
  {
    KeyIsOwnPath(if collection.Str? then collection.s else "");
    KeyIsOwnPath(if id.Str? then id.s else "");
    if !collection.Str? || !id.Str? || collection.s == "" || Contains(collection.s, "//") || Contains(id.s, "//")
    then None
    else
      var pieces := Segments(collection.s) + Segments(id.s);
      if |pieces| < 2 || |pieces| % 2 == 1 then None
      else Some(Ref(pieces[0], JoinPath(pieces[1..])))
  }

  /**
   * Into a collection named by a plain key, `doc(db, collection, id)` names
   * the document `doc(collection, id)` does, and throws where it throws.
   */
  lemma MakeRefInCollection(collection: string, id: string)
    requires ValidKey(collection)
    ensures MakeRef(Str(collection), Str(id)) == if Addressable(id) then Some(Ref(collection, PathOf(id))) else None
  {
    KeyIsOwnPath(collection);
    var pieces := Segments(collection) + Segments(id);
    assert pieces[0] == collection && pieces[1..] == Segments(id);
  }

  /** A reference into a product collection drops the slashes at the ends of the id, and refuses two pieces. */
  lemma MakeRefPaths()
    ensures MakeRef(Str(TeaCollection), Str("/abc")) == Some(Ref(TeaCollection, "abc"))
    ensures MakeRef(Str(TeaCollection), Str("a/b/c")) == Some(Ref(TeaCollection, "a/b/c"))
    ensures MakeRef(Str(TeaCollection), Str("a/b")) == None
  {
    CollectionNamesAreKeys();
    MakeRefInCollection(TeaCollection, "/abc");
    MakeRefInCollection(TeaCollection, "a/b/c");
    MakeRefInCollection(TeaCollection, "a/b");
    DocPathTrimsSlashes();
    DocPathNested();
    DocPathRefused();
  }

  /** The reference for a prepared item; reading a field of null or undefined throws. */
  function ItemRef(p: JVal): Outcome<JVal> {
    if IsNullish(p) then Throw(TypeErrorText)
    else match MakeRef(Get(p, "collection"), Get(p, "id"))
      case None => Throw(InvalidPathText)
      case Some(ref) => Return(ref)
  }

  /**
   * `if (data[key] && Array.isArray(data[key])) data[key] = data[key].map(f)`
   * on an object's fields: the array is replaced by its image, every other
   * field is kept, and a throwing callback passes its exception on.
   */
  function RewriteItems(fields: map<string, JVal>, key: string, f: JVal -> Outcome<JVal>): (r: Outcome<map<string, JVal>>)
    ensures !(key in fields && fields[key].Arr?) ==> r == Return(fields)
    ensures key in fields && fields[key].Arr? ==>
      match MapOrThrow(fields[key].items, f)
      case Throw(m) => r == Throw(m)
      case Return(xs) => r == Return(fields[key := Arr(xs)])
  {
    if key in fields && fields[key].Arr? then
      match MapOrThrow(fields[key].items, f)
      case Throw(m) => Throw(m)
      case Return(xs) => Return(fields[key := Arr(xs)])
    else Return(fields)
  }

  /** What the rewrite leaves alone: every other field, and the set of field names. */
  lemma RewriteKeepsOtherFields(fields: map<string, JVal>, key: string, f: JVal -> Outcome<JVal>)
    requires RewriteItems(fields, key, f).Return?
    ensures RewriteItems(fields, key, f).value.Keys == fields.Keys
    ensures forall k :: k in fields && k != key ==> RewriteItems(fields, key, f).value[k] == fields[k]
  {
  }

  /**
   * A prepared item whose id is a number (which the validators accept) has
   * no reference: `doc()` needs a string segment.
   */
  lemma NumericIdHasNoRef(p: JVal)
    requires KnownItem(p) && Get(p, "id").Num?
    ensures ItemRef(PrepareProduct(p).value).Throw?
    ensures ItemRef(PrepareApplicable(p).value).Throw?
  {
  }

  /** The two collection names are plain keys. */
  lemma CollectionNamesAreKeys()
    ensures ValidKey(TeaCollection) && ValidKey(CraftCollection)
  {
  }

  /** An item of a table type with a usable string id prepares to a reference into that type's collection under that id. */
  lemma PreparedItemRef(p: JVal)
    requires !IsNullish(p) && TableEntry(Get(p, "type")).Own? && Get(p, "id").Str? && ValidKey(Get(p, "id").s)
    ensures ItemRef(PrepareProduct(p).value) == Return(Ref(TableEntry(Get(p, "type")).name, Get(p, "id").s))
    ensures ItemRef(PrepareApplicable(p).value) == Return(Ref(TableEntry(Get(p, "type")).name, Get(p, "id").s))
  {
    var name := TableEntry(Get(p, "type")).name;
    CollectionNamesAreKeys();
    ProductPrepared(p);
    ApplicablePrepared(p);
    assert MakeRef(Str(name), Get(p, "id")) == Some(Ref(name, Get(p, "id").s));
  }

  /**
   * A type that names a member of `Object.prototype`, such as "constructor",
   * passes the table's test, and the item then has no reference: the
   * member is no string for `doc()`.
   */
  lemma InheritedTypeHasNoRef(p: JVal)
    requires !IsNullish(p) && TableEntry(Get(p, "type")).Inherited?
    ensures PrepareProduct(p).Return? && ItemRef(PrepareProduct(p).value).Throw?
    ensures PrepareApplicable(p).Return? && ItemRef(PrepareApplicable(p).value).Throw?
  {
    ProductPrepared(p);
    ApplicablePrepared(p);
    assert EntryValue(TableEntry(Get(p, "type"))) == InheritedMember;
  }

  /** The table's own entries, also behind a one-element array. */
  lemma TableEntryOwn()
    ensures TableEntry(Str("tea")) == Own(TeaCollection) && TableEntry(Str("craft")) == Own(CraftCollection)
    ensures TableEntry(Arr([Str("tea")])) == Own(TeaCollection)
  {
    assert JoinedText(Arr([Str("tea")]), 1) == Some("");
    assert "tea" + "" + "" == "tea";
  }

  /** The names of inherited members find those members. */
  lemma TableEntryInherited()
    ensures TableEntry(Str("constructor")).Inherited? && TableEntry(Str("__proto__")).Inherited?
  {
    assert InheritedNames[0] == "constructor" && InheritedNames[10] == "__proto__";
  }

  /** A type in other letters, a number or null finds nothing. */
  lemma TableEntryAbsent()
    ensures TableEntry(Str("Tea")).Absent? && TableEntry(Num(1.0)).Absent? && TableEntry(Null).Absent?
  {
    assert NatText(1) == "1";
  }
}
