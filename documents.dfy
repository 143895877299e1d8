/**
 * The steps every model file repeats against its own collection: list all
 * documents, read one by key, add one, merge a patch into one and read it
 * back, and delete one. Each model module wires these to its collection and
 * wraps their outcome in its own return values and messages.
 */
module Documents {
  import opened Json
  import opened Store

  /** `snapshot.docs.map(doc => ({ id: doc.id, ...doc.data() }))`. */
  function Listing(docs: seq<Doc>): (r: seq<JVal>)
    ensures |r| == |docs|
    ensures forall i :: 0 <= i < |docs| ==> r[i].Obj? && r[i].fields == WithId(docs[i].key, docs[i].data)
  {
    seq(|docs|, i requires 0 <= i < |docs| => Obj(WithId(docs[i].key, docs[i].data)))
  }

  /**
   * What `get*ById` answers: `{ id: key, ...data }` for the stored document
   * `doc(collection, id)` names, under its key; null otherwise (and when
   * `doc()` throws or the store fails).
   */
  function ByKey(docs: seq<Doc>, available: bool, id: string): (r: JVal)
    ensures r != Null <==> available && Names(docs, id)
    ensures r != Null ==> r == Obj(WithId(PathOf(id), DataAt(docs, PathOf(id))))
  {
    if available && Names(docs, id) then Obj(WithId(PathOf(id), DataAt(docs, PathOf(id)))) else Null
  }

  /** `getDocs`, mapped to records; a failure is caught and gives `[]`. */
  method GetAll(c: Collection) returns (r: seq<JVal>)
    ensures r == if c.available then Listing(c.docs) else []
  {
    var all := c.GetDocs();
    if all.None? {
      return [];
    }
    r := Listing(all.value);
  }

  /** `getDoc(doc(collection, id))` and `snapshot.exists() ? { id, ...data } : null`, failures caught as null. */
  method GetById(c: Collection, id: string) returns (r: JVal)
    ensures r == ByKey(c.docs, c.available, id)
  {
    if !Addressable(id) {
      return Null;
    }
    var path := PathOf(id);
    var snapshot := c.GetDoc(path);
    if snapshot.Found? {
      r := Obj(WithId(path, snapshot.data));
    } else {
      r := Null;
    }
  }

  /**
   * The store grew by exactly one document holding `fields`, under a key
   * that was not in use, in its place in document-ID order.
   */
  ghost predicate AddedOne(before: seq<Doc>, after: seq<Doc>, fields: map<string, JVal>) {
    !HasKey(before, NewKey(before, after)) && after == Inserted(before, Doc(NewKey(before, after), fields))
  }

  /**
   * `addDoc(collection, fields)` and `{ id: docRef.id, ...fields }`. None is
   * a failed call, or fields `addDoc` cannot write, which each model turns
   * into its own message.
   */
  method Add(c: Collection, fields: map<string, JVal>) returns (r: Option<JVal>)
    requires c.Valid()
    modifies c
    ensures c.Valid() && c.available == old(c.available)
    ensures !(c.available && Writable(fields)) ==> r.None? && c.docs == old(c.docs)
    ensures c.available && Writable(fields) ==>
      AddedOne(old(c.docs), c.docs, fields) && r == Some(Obj(WithId(NewKey(old(c.docs), c.docs), fields)))
  {
    ghost var before := c.docs;
    var key := c.AddDoc(fields);
    if key.None? {
      return None;
    }
    NewKeyOfInserted(before, Doc(key.value, fields));
    r := Some(Obj(WithId(key.value, fields)));
  }

  /** The fields after a merge: the old ones, overwritten by the patch. */
  ghost predicate MergedAt(before: seq<Doc>, after: seq<Doc>, key: string, patch: map<string, JVal>, r: JVal)
    requires HasKey(before, key)
  {
    after == Merged(before, key, patch) && r == Obj(WithId(key, DataAt(before, key) + patch))
  }

  /**
   * `updateDoc(ref, patch)`, then `getDoc(ref)` and `{ id, ...data }`;
   * a failing call is caught and gives null. A missing document, or a
   * patch `updateDoc` cannot write, makes `updateDoc` fail.
   */
  method MergeAndReread(c: Collection, key: string, patch: map<string, JVal>) returns (r: JVal)
    requires c.Valid()
    modifies c
    ensures c.Valid() && c.available == old(c.available)
    ensures old(c.available) && Updatable(patch) && HasKey(old(c.docs), key) ==> MergedAt(old(c.docs), c.docs, key, patch, r)
    ensures !(old(c.available) && Updatable(patch) && HasKey(old(c.docs), key)) ==> c.docs == old(c.docs) && r == Null
  {
    ghost var before := c.docs;
    var ok := c.UpdateDoc(key, patch);
    if !ok {
      return Null;
    }
    MergedLookup(before, key, patch);
    var snapshot := c.GetDoc(key);
    if snapshot.Found? {
      r := Obj(WithId(key, snapshot.data));
    } else {
      r := Null;
    }
  }

  /** How a direct-key delete ends: a failed call, no such document, or the removed document's fields. */
  datatype Deletion = DeleteFailed | NotThere | Deleted(data: map<string, JVal>)

  /** `getDoc(ref)`, `if (!snapshot.exists()) ...`, then `deleteDoc(ref)`. */
  method DeleteByKey(c: Collection, id: string) returns (d: Deletion)
    requires c.Valid()
    modifies c
    ensures c.Valid() && c.available == old(c.available)
    ensures d.Deleted? <==> old(c.available) && Names(old(c.docs), id)
    ensures d.Deleted? ==> d.data == DataAt(old(c.docs), PathOf(id)) && c.docs == Removed(old(c.docs), PathOf(id))
    ensures d.NotThere? <==> old(c.available) && Addressable(id) && !Names(old(c.docs), id)
    ensures !d.Deleted? ==> c.docs == old(c.docs)
  {
    if !Addressable(id) {
      return DeleteFailed;
    }
    var path := PathOf(id);
    var snapshot := c.GetDoc(path);
    if snapshot.Failed? {
      return DeleteFailed;
    }
    if snapshot.Missing? {
      return NotThere;
    }
    var ok := c.DeleteDoc(path);
    if !ok {
      return DeleteFailed;
    }
    d := Deleted(snapshot.data);
  }

  /** `{ deleted: false, message }`, what a delete answers for a missing key. */
  function NotFoundReply(message: string): (r: JVal)
    ensures r.Obj? && r.fields.Keys == {"deleted", "message"}
    ensures Get(r, "deleted") == Bool(false) && Get(r, "message") == Str(message)
  {
    Obj(map["deleted" := Bool(false), "message" := Str(message)])
  }
}
