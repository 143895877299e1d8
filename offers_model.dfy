/**
 * `src/models/offers.model.js`: the offers collection. An offer's
 * `applicableTo` items are written as bare document references, without
 * their `type`.
 */
module OffersModel {
  import opened Json
  import opened Lists
  import opened Store
  import opened Lookup
  import opened Documents
  import opened References

  const CollectionName := "offers"
  const NotFoundMessage := "Oferta no encontrada"
  const CreateFailedMessage := "Error al crear la oferta en la base de datos"

  /**
   * The fields an offer is written with: an object's own fields, with an
   * array `applicableTo` rewritten to `doc(db, item.collection, item.id)`.
   * None when the data is not an object or some item has no reference.
   */
  function Written(data: JVal): Option<map<string, JVal>> {
    if !data.Obj? then None
    else match RewriteItems(data.fields, "applicableTo", ItemRef)
      case Throw(_) => None
      case Return(fields) => Some(fields)
  }

  /**
   * The rewrite keeps the length and order of `applicableTo` and turns each
   * item into the reference it names, dropping everything else about it;
   * it fails as soon as one item has no reference.
   */
  lemma WrittenApplicable(data: JVal)
    requires data.Obj? && Get(data, "applicableTo").Arr?
    ensures var items := Get(data, "applicableTo").items;
      Written(data).Some? <==> forall i :: 0 <= i < |items| ==> ItemRef(items[i]).Return?
    ensures var items := Get(data, "applicableTo").items;
      Written(data).Some? ==>
        Get(Obj(Written(data).value), "applicableTo").Arr?
        && var out := Get(Obj(Written(data).value), "applicableTo").items;
        |out| == |items|
        && forall i :: 0 <= i < |items| ==> out[i].Ref? && out[i] == ItemRef(items[i]).value
  {
    var items := Get(data, "applicableTo").items;
    if Written(data).Some? {
      var out := Get(Obj(Written(data).value), "applicableTo").items;
      forall i | 0 <= i < |items| ensures out[i].Ref? {
        assert ItemRef(items[i]).Return?;
      }
    }
  }

  /** Data without an array `applicableTo` is written as it was sent. */
  lemma WrittenWithoutApplicable(data: JVal)
    requires data.Obj? && !Get(data, "applicableTo").Arr?
    ensures Written(data) == Some(data.fields)
  {
  }

  /** `getAllOffers`. */
  method GetAllOffers(c: Collection) returns (r: seq<JVal>)
    requires c.name == CollectionName
    ensures r == if c.available then Listing(c.docs) else []
  {
    r := GetAll(c);
  }

  /** `getOfferById`: a direct key read, with no fallback. */
  method GetOfferById(c: Collection, id: string) returns (r: JVal)
    requires c.name == CollectionName
    ensures r == ByKey(c.docs, c.available, id)
  {
    r := GetById(c, id);
  }

  /**
   * `createOffer`: data that is falsy or not an object is refused, the
   * `applicableTo` items become references, and exactly one document is
   * added. Every failure becomes the one generic message.
   */
  method CreateOffer(c: Collection, data: JVal) returns (r: Outcome<JVal>)
    requires c.name == CollectionName && c.Valid()
    modifies c
    ensures c.Valid()
    ensures !(old(c.available) && Written(data).Some? && Writable(Written(data).value)) ==> r == Throw(CreateFailedMessage) && c.docs == old(c.docs)
    ensures old(c.available) && Written(data).Some? && Writable(Written(data).value) ==>
      AddedOne(old(c.docs), c.docs, Written(data).value)
      && r == Return(Obj(WithId(NewKey(old(c.docs), c.docs), Written(data).value)))
  {
    if !Truthy(data) || !IsObject(data) {
      return Throw(CreateFailedMessage);
    }
    if !data.Obj? {
      return Throw(CreateFailedMessage);
    }
    var fields := data.fields;
    var applicableTo := Get(data, "applicableTo");
    if Truthy(applicableTo) && applicableTo.Arr? {
      var refs := MapOrThrow(applicableTo.items, ItemRef);
      if refs.Throw? {
        assert Written(data).None?;
        return Throw(CreateFailedMessage);
      }
      fields := fields["applicableTo" := Arr(refs.value)];
    }
    assert Written(data) == Some(fields);
    var added := Add(c, fields);
    if added.None? {
      return Throw(CreateFailedMessage);
    }
    r := Return(added.value);
  }

  /**
   * `updateOffer`: the lenient lookup, `applicableTo` rewritten to
   * references, the patch merged into the located document only, and that
   * document read back. Null, with nothing written, when nothing matches, a
   * store call fails, or the patch cannot be written.
   */
  method UpdateOffer(c: Collection, id: string, updateData: JVal) returns (r: JVal)
    requires c.name == CollectionName && c.Valid()
    modifies c
    ensures c.Valid()
    ensures var loc := Locate(old(c.docs), old(c.available), id);
      if loc.At? && Written(updateData).Some? && Updatable(Written(updateData).value) then MergedAt(old(c.docs), c.docs, loc.key, Written(updateData).value, r)
      else c.docs == old(c.docs) && r == Null
  {
    var loc := LenientLookup(c, id);
    if !loc.At? {
      return Null;
    }
    if IsNullish(updateData) {
      return Null;
    }
    var patch := PreparePatch(updateData);
    if patch.None? {
      return Null;
    }
    r := MergeAndReread(c, loc.key, patch.value);
  }

  /**
   * The steps of `updateOffer` between the look-up and `updateDoc`: the
   * `applicableTo` items rewritten to references. None when an item has no
   * reference, or when the patch is no object `updateDoc` could write.
   */
  method PreparePatch(updateData: JVal) returns (w: Option<map<string, JVal>>)
    requires !IsNullish(updateData)
    ensures w == Written(updateData)
  {
    var patch := updateData;
    var applicableTo := Get(updateData, "applicableTo");
    if Truthy(applicableTo) && applicableTo.Arr? {
      var refs := MapOrThrow(applicableTo.items, ItemRef);
      if refs.Throw? {
        assert Written(updateData).None?;
        return None;
      }
      patch := Obj(updateData.fields["applicableTo" := Arr(refs.value)]);
    }
    if !patch.Obj? {
      assert Written(updateData).None?;
      return None;
    }
    w := Some(patch.fields);
  }

  /** `deleteOffer`: direct key only; the removed document's fields, or `{ deleted: false, message }`. */
  method DeleteOffer(c: Collection, id: string) returns (r: JVal)
    requires c.name == CollectionName && c.Valid()
    modifies c
    ensures c.Valid()
    ensures !(old(c.available) && Addressable(id)) ==> r == Null && c.docs == old(c.docs)
    ensures old(c.available) && Addressable(id) && !Names(old(c.docs), id) ==>
      r == NotFoundReply(NotFoundMessage) && c.docs == old(c.docs)
    ensures old(c.available) && Names(old(c.docs), id) ==>
      r == Obj(DataAt(old(c.docs), PathOf(id))) && c.docs == Removed(old(c.docs), PathOf(id))
  {
    var d := DeleteByKey(c, id);
    match d
    case DeleteFailed => r := Null;
    case NotThere => r := NotFoundReply(NotFoundMessage);
    case Deleted(data) => r := Obj(data);
  }
}
