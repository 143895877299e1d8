/**
 * `src/models/events.model.js`: the events collection. Unlike the other
 * models, `updateEvent` and `deleteEvent` test `!snapshot.exists` without
 * calling it; the method itself is always truthy, so the fallback scan of
 * the update and the "not found" reply of the delete are never reached.
 * The log lines are taken as no-ops, including the ones that call `.data()`
 * on a query snapshot or on a document reference.
 */
module EventsModel {
  import opened Json
  import opened Store
  import opened Lookup
  import opened Documents

  const CollectionName := "events"
  const NotFoundMessage := "Evento no encontrado"

  /**
   * `getAllEvents`; a failed store call is caught and gives `[]`.
   */
  method GetAllEvents(c: Collection) returns (r: seq<JVal>)
    requires c.name == CollectionName
    ensures r == if c.available then Listing(c.docs) else []
  {
    r := GetAll(c);
  }

  /** `getEventById`: a direct key read, with `exists()` called properly. */
  method GetEventById(c: Collection, id: string) returns (r: JVal)
    requires c.name == CollectionName
    ensures r == ByKey(c.docs, c.available, id)
  {
    r := GetById(c, id);
  }

  /**
   * `createEvent`: an object is stored as it was sent and returned with its
   * new key. Everything else fails, and so does a failed store call; the
   * catch then runs `new error(...)` on the caught error, which is not a
   * constructor, so what escapes is a `TypeError` and never the intended
   * message.
   */
  method CreateEvent(c: Collection, data: JVal) returns (r: Outcome<JVal>)
    requires c.name == CollectionName && c.Valid()
    modifies c
    ensures c.Valid()
    ensures !(old(c.available) && data.Obj? && Writable(data.fields)) ==> r == Throw(TypeErrorText) && c.docs == old(c.docs)
    ensures old(c.available) && data.Obj? && Writable(data.fields) ==>
      AddedOne(old(c.docs), c.docs, data.fields) && r == Return(Obj(WithId(NewKey(old(c.docs), c.docs), data.fields)))
  {
    if !Truthy(data) || !IsObject(data) {
      return Throw(TypeErrorText);
    }
    if !data.Obj? {
      // `addDoc` stores objects only
      return Throw(TypeErrorText);
    }
    var added := Add(c, data.fields);
    if added.None? {
      return Throw(TypeErrorText);
    }
    r := Return(added.value);
  }

  /**
   * `updateEvent`: the patch is merged into the document under the given
   * key and that document is read back. Null, with nothing written, when the
   * key names no document, a store call fails, or the patch is not an
   * object. A document found only by its stored `id` field is never updated.
   */
  method UpdateEvent(c: Collection, id: string, data: JVal) returns (r: JVal)
    requires c.name == CollectionName && c.Valid()
    modifies c
    ensures c.Valid()
    ensures if old(c.available) && Names(old(c.docs), id) && data.Obj? && Updatable(data.fields)
      then MergedAt(old(c.docs), c.docs, PathOf(id), data.fields, r)
      else c.docs == old(c.docs) && r == Null
  {
    if !Addressable(id) {
      // `doc()` throws
      return Null;
    }
    var path := PathOf(id);
    var snapshot := c.GetDoc(path);
    if snapshot.Failed? {
      return Null;
    }
    // `!snapshot.exists` is false here whatever the snapshot holds: the scan by `id` field never runs
    if !data.Obj? {
      // `updateDoc` refuses anything but an object
      return Null;
    }
    r := MergeAndReread(c, path, data.fields);
  }

  /**
   * `deleteEvent`: the document under the given key is deleted and its
   * fields returned. For a key that names no document, `deleteDoc` succeeds
   * and changes nothing and `snapshot.data()` is `undefined`; the
   * `{ deleted: false, message }` reply is never given. Null when a store
   * call fails.
   */
  method DeleteEvent(c: Collection, id: string) returns (r: JVal)
    requires c.name == CollectionName && c.Valid()
    modifies c
    ensures c.Valid()
    ensures !(old(c.available) && Addressable(id)) ==> r == Null && c.docs == old(c.docs)
    ensures old(c.available) && Addressable(id) && !Names(old(c.docs), id) ==> r == Undef && c.docs == old(c.docs)
    ensures old(c.available) && Names(old(c.docs), id) ==>
      r == Obj(DataAt(old(c.docs), PathOf(id))) && c.docs == Removed(old(c.docs), PathOf(id))
  {
    var d := DeleteByKey(c, id);
    match d
    case DeleteFailed => r := Null;
    case NotThere => r := Undef;
    case Deleted(data) => r := Obj(data);
  }

  /**
   * What the uncalled `exists` costs: a document whose stored `id` field is
   * "7" is what the lenient lookup of the other models settles on for the
   * argument "7", but no document has the key "7", so `updateEvent` writes
   * nothing and answers null.
   */
  lemma FallbackNeverTaken()
    ensures var docs := [Doc("a", map["id" := Str("7")])];
      Locate(docs, true, "7") == At("a") && !HasKey(docs, "7")
  {
    var docs := [Doc("a", map["id" := Str("7")])];
    assert IdFieldMatches(docs[0], "7");
    assert LooseIndex(docs, "7") == Some(0);
  }
}
