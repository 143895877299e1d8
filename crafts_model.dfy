/** `src/models/craftsProducts.model.js`: the craft products collection. */
module CraftsProductsModel {
  import opened Json
  import opened Store
  import opened Lookup
  import opened Documents

  const CollectionName := "craftsProducts"
  const NotFoundMessage := "Producto no encontrado"
  const CreateFailedMessage := "Error al crear el producto en la base de datos"

  /** `getAllCraftsProducts`: every product as `{ id, ...data }`, or `[]` when the store fails. */
  method GetAllCraftsProducts(c: Collection) returns (r: seq<JVal>)
    requires c.name == CollectionName
    ensures r == if c.available then Listing(c.docs) else []
  {
    r := GetAll(c);
  }

  /** `getCraftProductById`: the product stored under the key, with the key as `id` unless a stored `id` overrides it. */
  method GetCraftProductById(c: Collection, id: string) returns (r: JVal)
    requires c.name == CollectionName
    ensures r == ByKey(c.docs, c.available, id)
  {
    r := GetById(c, id);
  }

  /**
   * `createCraftProduct`: anything but an object is refused, and so is an
   * array (`addDoc` stores objects only); the data is stored as sent.
   */
  method CreateCraftProduct(c: Collection, data: JVal) returns (r: Outcome<JVal>)
    requires c.name == CollectionName && c.Valid()
    modifies c
    ensures c.Valid()
    ensures !(data.Obj? && old(c.available) && Writable(data.fields)) ==> r == Throw(CreateFailedMessage) && c.docs == old(c.docs)
    ensures data.Obj? && old(c.available) && Writable(data.fields) ==>
      AddedOne(old(c.docs), c.docs, data.fields) && r == Return(Obj(WithId(NewKey(old(c.docs), c.docs), data.fields)))
  {
    if !Truthy(data) || !IsObject(data) {
      return Throw(CreateFailedMessage);
    }
    if !data.Obj? {
      return Throw(CreateFailedMessage);
    }
    var added := Add(c, data.fields);
    if added.None? {
      return Throw(CreateFailedMessage);
    }
    r := Return(added.value);
  }

  /**
   * `updateCraftProduct`: the lenient lookup, then the patch merged into the
   * document it settles on, read back. Null when no document matches, when a
   * store call fails, or when the patch is not an object (`updateDoc` refuses it).
   */
  method UpdateCraftProduct(c: Collection, id: string, updateData: JVal) returns (r: JVal)
    requires c.name == CollectionName && c.Valid()
    modifies c
    ensures c.Valid()
    ensures var loc := Locate(old(c.docs), old(c.available), id);
      if loc.At? && updateData.Obj? && Updatable(updateData.fields) then MergedAt(old(c.docs), c.docs, loc.key, updateData.fields, r)
      else c.docs == old(c.docs) && r == Null
  {
    var loc := LenientLookup(c, id);
    if !loc.At? {
      return Null;
    }
    if !updateData.Obj? {
      return Null;
    }
    r := MergeAndReread(c, loc.key, updateData.fields);
  }

  /** `deleteCraftProduct`: direct key only; the removed document's fields, or `{ deleted: false, message }`. */
  method DeleteCraftProduct(c: Collection, id: string) returns (r: JVal)
    requires c.name == CollectionName && c.Valid()
    modifies c
    ensures c.Valid()
    ensures !(old(c.available) && Addressable(id)) ==> r == Null && c.docs == old(c.docs)
    ensures old(c.available) && Addressable(id) && !Names(old(c.docs), id) ==>
      r == NotFoundReply(NotFoundMessage) && c.docs == old(c.docs)
    ensures old(c.available) && Names(old(c.docs), id) ==>
      r == Obj(DataAt(old(c.docs), PathOf(id))) && c.docs == Removed(old(c.docs), PathOf(id))
  {
    var d := DeleteByKey(c, id);
    match d
    case DeleteFailed => r := Null;
    case NotThere => r := NotFoundReply(NotFoundMessage);
    case Deleted(data) => r := Obj(data);
  }
}
