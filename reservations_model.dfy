/**
 * `src/models/reservations.model.js`: the reservations collection. A
 * reservation's `products` are written as `{ productRef, quantity, unitPrice }`
 * records holding a document reference.
 */
module ReservationsModel {
  import opened Json
  import opened Lists
  import opened Store
  import opened Lookup
  import opened Documents
  import opened References

  const CollectionName := "reservations"
  const NotFoundMessage := "Reserva no encontrada"
  const CreateFailedMessage := "Error al crear la reserva en la base de datos"

  /** The callback of the rewrite: `{ productRef: doc(db, p.collection, p.id), quantity, unitPrice }`. */
  function ProductRecord(p: JVal): Outcome<JVal> {
    match ItemRef(p)
    case Throw(m) => Throw(m)
    case Return(ref) =>
      Return(Obj(map["productRef" := ref, "quantity" := Get(p, "quantity"), "unitPrice" := Get(p, "unitPrice")]))
  }

  /**
   * The fields a reservation is written with: an object's own fields, with
   * an array `products` rewritten to reference records. None when the data
   * is not an object (`addDoc` and `updateDoc` store objects only) or when
   * some product has no reference.
   */
  function Written(data: JVal): Option<map<string, JVal>> {
    if !data.Obj? then None
    else match RewriteItems(data.fields, "products", ProductRecord)
      case Throw(_) => None
      case Return(fields) => Some(fields)
  }

  /**
   * The rewrite keeps the length and order of `products` and gives each
   * product a reference to `collection`/`id` with its quantity and unit price;
   * it fails as soon as one product has no reference.
   */
  lemma WrittenProducts(data: JVal)
    requires data.Obj? && Get(data, "products").Arr?
    ensures var items := Get(data, "products").items;
      Written(data).Some? <==> forall i :: 0 <= i < |items| ==> ItemRef(items[i]).Return?
    ensures var items := Get(data, "products").items;
      Written(data).Some? ==>
        Get(Obj(Written(data).value), "products").Arr?
        && var out := Get(Obj(Written(data).value), "products").items;
        |out| == |items|
        && forall i :: 0 <= i < |items| ==>
          out[i] == Obj(map["productRef" := ItemRef(items[i]).value,
                            "quantity" := Get(items[i], "quantity"), "unitPrice" := Get(items[i], "unitPrice")])
  {
    assert forall p :: ProductRecord(p).Return? <==> ItemRef(p).Return?;
  }

  /** Data without an array `products` is written as it was sent. */
  lemma WrittenWithoutProducts(data: JVal)
    requires data.Obj? && !Get(data, "products").Arr?
    ensures Written(data) == Some(data.fields)
  {
  }

  /** `getAllReservations`. */
  method GetAllReservations(c: Collection) returns (r: seq<JVal>)
    requires c.name == CollectionName
    ensures r == if c.available then Listing(c.docs) else []
  {
    r := GetAll(c);
  }

  /** `getReservationById`: a direct key read, with no fallback. */
  method GetReservationById(c: Collection, id: string) returns (r: JVal)
    requires c.name == CollectionName
    ensures r == ByKey(c.docs, c.available, id)
  {
    r := GetById(c, id);
  }

  /**
   * `createReservation`: non-object data is refused, the products are
   * rewritten to references, and exactly one document is added. Every
   * failure becomes the one generic message.
   */
  method CreateReservation(c: Collection, data: JVal) returns (r: Outcome<JVal>)
    requires c.name == CollectionName && c.Valid()
    modifies c
    ensures c.Valid()
    ensures !(old(c.available) && Written(data).Some? && Writable(Written(data).value)) ==> r == Throw(CreateFailedMessage) && c.docs == old(c.docs)
    ensures old(c.available) && Written(data).Some? && Writable(Written(data).value) ==>
      AddedOne(old(c.docs), c.docs, Written(data).value)
      && r == Return(Obj(WithId(NewKey(old(c.docs), c.docs), Written(data).value)))
  {
    if !Truthy(data) || !IsObject(data) {
      return Throw(CreateFailedMessage);
    }
    if !data.Obj? {
      return Throw(CreateFailedMessage);
    }
    var fields := data.fields;
    var products := Get(data, "products");
    if Truthy(products) && products.Arr? {
      var records := MapOrThrow(products.items, ProductRecord);
      if records.Throw? {
        return Throw(CreateFailedMessage);
      }
      fields := fields["products" := Arr(records.value)];
    }
    var added := Add(c, fields);
    if added.None? {
      return Throw(CreateFailedMessage);
    }
    r := Return(added.value);
  }

  /**
   * `updateReservation`: the lenient lookup, the products rewritten to
   * references, the patch merged into the located document only, and that
   * document read back. Null, with nothing written, when nothing matches,
   * a store call fails, or the patch cannot be written.
   */
  method UpdateReservation(c: Collection, id: string, updateData: JVal) returns (r: JVal)
    requires c.name == CollectionName && c.Valid()
    modifies c
    ensures c.Valid()
    ensures var loc := Locate(old(c.docs), old(c.available), id);
      if loc.At? && Written(updateData).Some? && Updatable(Written(updateData).value) then MergedAt(old(c.docs), c.docs, loc.key, Written(updateData).value, r)
      else c.docs == old(c.docs) && r == Null
  {
    var loc := LenientLookup(c, id);
    if !loc.At? {
      return Null;
    }
    if IsNullish(updateData) {
      return Null;
    }
    var patch := PreparePatch(updateData);
    if patch.None? {
      return Null;
    }
    r := MergeAndReread(c, loc.key, patch.value);
  }

  /**
   * The steps of `updateReservation` between the look-up and `updateDoc`:
   * the products rewritten to references. None when a product has no
   * reference, or when the patch is no object `updateDoc` could write.
   */
  method PreparePatch(updateData: JVal) returns (w: Option<map<string, JVal>>)
    requires !IsNullish(updateData)
    ensures w == Written(updateData)
  {
    var patch := updateData;
    var products := Get(updateData, "products");
    if Truthy(products) && products.Arr? {
      var records := MapOrThrow(products.items, ProductRecord);
      if records.Throw? {
        assert Written(updateData).None?;
        return None;
      }
      patch := Obj(updateData.fields["products" := Arr(records.value)]);
    }
    if !patch.Obj? {
      assert Written(updateData).None?;
      return None;
    }
    w := Some(patch.fields);
  }

  /** `deleteReservation`: direct key only; the removed document's fields, or `{ deleted: false, message }`. */
  method DeleteReservation(c: Collection, id: string) returns (r: JVal)
    requires c.name == CollectionName && c.Valid()
    modifies c
    ensures c.Valid()
    ensures !(old(c.available) && Addressable(id)) ==> r == Null && c.docs == old(c.docs)
    ensures old(c.available) && Addressable(id) && !Names(old(c.docs), id) ==>
      r == NotFoundReply(NotFoundMessage) && c.docs == old(c.docs)
    ensures old(c.available) && Names(old(c.docs), id) ==>
      r == Obj(DataAt(old(c.docs), PathOf(id))) && c.docs == Removed(old(c.docs), PathOf(id))
  {
    var d := DeleteByKey(c, id);
    match d
    case DeleteFailed => r := Null;
    case NotThere => r := NotFoundReply(NotFoundMessage);
    case Deleted(data) => r := Obj(data);
  }
}
