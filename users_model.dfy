/**
 * `src/models/users.model.js`: the users collection. Passwords are stored
 * hashed; bcrypt is a parameter `hash` (salting makes the real one
 * nondeterministic, which the model does not see). The creation time
 * `new Date().toISOString()` is a parameter `now`.
 */
module UsersModel {
  import opened Json
  import opened Lists
  import opened Store
  import opened Lookup
  import opened Documents

  const CollectionName := "users"
  const NotFoundMessage := "Usuario no encontrado"
  const CreateFailedMessage := "Error al crear el usuario en la base de datos"
  const UpdateFailedMessage := "Error al actualizar el usuario en la base de datos"
  const DeleteFailedMessage := "Error al eliminar el usuario"

  /** Stands for the text of the error bcrypt throws for an argument that is not a string. */
  const IllegalArgumentsText := "Illegal arguments"

  /** Stands for `error.message` of a failed store call. */
  const StoreErrorText := "FirebaseError"

  /** `user.email === email`. */
  predicate EmailIs(user: JVal, email: JVal) {
    StrictEq(Get(user, "email"), email)
  }

  /**
   * `users.find(user => user.email === email)`, or null. The empty-list
   * test before it gives the same null.
   */
  function UserWithEmail(users: seq<JVal>, email: JVal): (r: JVal)
    ensures (forall i :: 0 <= i < |users| ==> !EmailIs(users[i], email)) ==> r == Null
    ensures forall i :: 0 <= i < |users| && EmailIs(users[i], email) && (forall j :: 0 <= j < i ==> !EmailIs(users[j], email)) ==>
      r == users[i]
  {
    match FirstWhere(users, (u: JVal) => EmailIs(u, email))
    case None => Null
    case Some(i) => users[i]
  }

  /** `getAllUsers`; a failed store call is caught and gives `[]`. */
  method GetAllUsers(c: Collection) returns (r: seq<JVal>)
    requires c.name == CollectionName
    ensures r == if c.available then Listing(c.docs) else []
  {
    r := GetAll(c);
  }

  /** `getUserById`: a direct key read. */
  method GetUserById(c: Collection, id: string) returns (r: JVal)
    requires c.name == CollectionName
    ensures r == ByKey(c.docs, c.available, id)
  {
    r := GetById(c, id);
  }

  /** `getUserByEmail`: the first listed user whose `email` is strictly equal to the argument (case counts), or null. */
  method GetUserByEmail(c: Collection, email: JVal) returns (r: JVal)
    requires c.name == CollectionName
    ensures r == UserWithEmail(if c.available then Listing(c.docs) else [], email)
  {
    var users := GetAllUsers(c);
    if users == [] {
      return Null;
    }
    var found := FirstWhere(users, (u: JVal) => EmailIs(u, email));
    if found.None? {
      return Null;
    }
    r := users[found.value];
  }

  /** `a || b`. */
  function OrElse(a: JVal, b: JVal): JVal {
    if Truthy(a) then a else b
  }

  /**
   * The password as stored: `if (password) password = await bcrypt.hash(password, 12)`.
   * A falsy password is kept; bcrypt throws on one that is not a string.
   */
  function StoredPassword(password: JVal, hash: string -> string): Outcome<JVal> {
    if !Truthy(password) then Return(password)
    else if password.Str? then Return(Str(hash(password.s)))
    else Throw(IllegalArgumentsText)
  }

  /** The record `createUser` writes: the caller's personal fields, and forced defaults for the rest. */
  function NewRecord(data: JVal, password: JVal, now: string): map<string, JVal> {
    map["fullName" := Get(data, "fullName"), "dateOfBirth" := Get(data, "dateOfBirth"),
        "email" := Get(data, "email"), "password" := password, "accountEnabled" := Bool(true),
        "phone" := OrElse(Get(data, "phone"), Str("")), "address" := OrElse(Get(data, "address"), Str("")),
        "role" := Str("user"), "createdAt" := Str(now)]
  }

  /**
   * What `createUser` writes, given the listed users: nothing for data that
   * is falsy or not an object, for an e-mail some user already has, or for
   * a password bcrypt refuses.
   */
  function NewUser(users: seq<JVal>, data: JVal, hash: string -> string, now: string): Option<map<string, JVal>> {
    if !Truthy(data) || !IsObject(data) then None
    else if UserWithEmail(users, Get(data, "email")) != Null then None
    else match StoredPassword(Get(data, "password"), hash)
      case Throw(_) => None
      case Return(p) => Some(NewRecord(data, p, now))
  }

  /** Over users that are all objects, `find` answers null or one of them, and only the latter is truthy. */
  lemma FoundUserIsObject(users: seq<JVal>, email: JVal)
    requires forall i :: 0 <= i < |users| ==> users[i].Obj?
    ensures UserWithEmail(users, email) == Null || UserWithEmail(users, email).Obj?
    ensures Truthy(UserWithEmail(users, email)) <==> UserWithEmail(users, email) != Null
  {
    var f := FirstWhere(users, (u: JVal) => EmailIs(u, email));
    if f.Some? {
      assert UserWithEmail(users, email) == users[f.value];
    }
  }

  /** `{ id, ...record, password: undefined }`: what create and update hand back. */
  function Reply(key: string, record: map<string, JVal>): JVal {
    Obj(WithId(key, record)["password" := Undef])
  }

  /**
   * The steps of `createUser` before `addDoc`: the object test, the look-up
   * of the e-mail, and the hash of a truthy password. They read the store
   * and write nothing; None is every way they fail.
   */
  method PrepareUser(c: Collection, data: JVal, hash: string -> string, now: string) returns (w: Option<map<string, JVal>>)
    requires c.name == CollectionName
    ensures w == NewUser(if c.available then Listing(c.docs) else [], data, hash, now)
  {
    if !Truthy(data) || !IsObject(data) {
      return None;
    }
    ghost var users := if c.available then Listing(c.docs) else [];
    var existing := GetUserByEmail(c, Get(data, "email"));
    FoundUserIsObject(users, Get(data, "email"));
    if Truthy(existing) {
      return None;
    }
    assert UserWithEmail(users, Get(data, "email")) == Null;
    // `if (data.password) data.password = await bcrypt.hash(data.password, 12)`
    var password := StoredPassword(Get(data, "password"), hash);
    if password.Throw? {
      return None;
    }
    w := Some(NewRecord(data, password.value, now));
  }

  /**
   * `createUser`: the one generic message for every failure; otherwise
   * exactly one document is added and returned without its password.
   */
  method CreateUser(c: Collection, data: JVal, hash: string -> string, now: string) returns (r: Outcome<JVal>)
    requires c.name == CollectionName && c.Valid()
    modifies c
    ensures c.Valid()
    ensures var w := NewUser(if old(c.available) then Listing(old(c.docs)) else [], data, hash, now);
      if old(c.available) && w.Some? && Writable(w.value) then
        AddedOne(old(c.docs), c.docs, w.value) && r == Return(Reply(NewKey(old(c.docs), c.docs), w.value))
      else r == Throw(CreateFailedMessage) && c.docs == old(c.docs)
  {
    var w := PrepareUser(c, data, hash, now);
    if w.None? {
      return Throw(CreateFailedMessage);
    }
    var before := c.docs;
    var added := Add(c, w.value);
    if added.None? {
      return Throw(CreateFailedMessage);
    }
    r := Return(Reply(NewKey(before, c.docs), w.value));
  }

  /** `{ ...data }` for an object; other values spread no fields. */
  function Spread(data: JVal): map<string, JVal> {
    if data.Obj? then data.fields else map[]
  }

  /**
   * The patch `updateUser` writes: `{ ...data }` with a truthy password
   * replaced by its hash. Reading `data.password` of null or undefined throws.
   */
  function Patch(data: JVal, hash: string -> string): Outcome<map<string, JVal>> {
    if IsNullish(data) then Throw(TypeErrorText)
    else
      var password := Get(data, "password");
      if !Truthy(password) then Return(Spread(data))
      else if password.Str? then Return(Spread(data)["password" := Str(hash(password.s))])
      else Throw(IllegalArgumentsText)
  }

  /**
   * `updateUser`: the lenient lookup and the patch merged into the located
   * document, which is returned without its password. No match gives null
   * and no write; every failure gives the one generic message. The patch is
   * built between the first read and the scan in the source; since nothing
   * is written before `updateDoc` and every exception becomes the same
   * message, building it after the lookup changes nothing here. (On the
   * fallback path the source hashes the password twice; with `hash` a
   * function the second hash is the first.)
   */
  method UpdateUser(c: Collection, id: string, data: JVal, hash: string -> string) returns (r: Outcome<JVal>)
    requires c.name == CollectionName && c.Valid()
    modifies c
    ensures c.Valid()
    ensures var loc := Locate(old(c.docs), old(c.available), id);
      var p := Patch(data, hash);
      if loc.LookupFailed? || p.Throw? || (loc.At? && !Updatable(p.value)) then r == Throw(UpdateFailedMessage) && c.docs == old(c.docs)
      else if loc.NoMatch? then r == Return(Null) && c.docs == old(c.docs)
      else (c.docs == Merged(old(c.docs), loc.key, p.value)
        && r == Return(Reply(loc.key, DataAt(old(c.docs), loc.key) + p.value)))
  {
    var loc := LenientLookup(c, id);
    if loc.LookupFailed? {
      return Throw(UpdateFailedMessage);
    }
    if IsNullish(data) {
      return Throw(UpdateFailedMessage);
    }
    var patch := Spread(data);
    var password := Get(data, "password");
    if Truthy(password) {
      if !password.Str? {
        return Throw(UpdateFailedMessage);
      }
      patch := patch["password" := Str(hash(password.s))];
    }
    assert Patch(data, hash) == Return(patch);
    if loc.NoMatch? {
      return Return(Null);
    }
    var updated := MergeAndReread(c, loc.key, patch);
    if !updated.Obj? {
      return Throw(UpdateFailedMessage);
    }
    r := Return(Obj(updated.fields["password" := Undef]));
  }

  /** `{ deleted: false, message, error }`, what a failed delete answers. */
  function DeleteFailedReply(): (r: JVal)
    ensures Get(r, "deleted") == Bool(false) && Get(r, "message") == Str(DeleteFailedMessage)
  {
    Obj(map["deleted" := Bool(false), "message" := Str(DeleteFailedMessage), "error" := Str(StoreErrorText)])
  }

  /** `{ deleted: true, data: { id, ...data } }`. */
  function DeletedReply(id: string, data: map<string, JVal>): JVal {
    Obj(map["deleted" := Bool(true), "data" := Obj(WithId(id, data))])
  }

  /** `deleteUser`: direct key only; the three replies say which way it went. */
  method DeleteUser(c: Collection, id: string) returns (r: JVal)
    requires c.name == CollectionName && c.Valid()
    modifies c
    ensures c.Valid()
    ensures !(old(c.available) && Addressable(id)) ==> r == DeleteFailedReply() && c.docs == old(c.docs)
    ensures old(c.available) && Addressable(id) && !Names(old(c.docs), id) ==>
      r == NotFoundReply(NotFoundMessage) && c.docs == old(c.docs)
    ensures old(c.available) && Names(old(c.docs), id) ==>
      r == DeletedReply(PathOf(id), DataAt(old(c.docs), PathOf(id))) && c.docs == Removed(old(c.docs), PathOf(id))
  {
    var d := DeleteByKey(c, id);
    match d
    case DeleteFailed => r := DeleteFailedReply();
    case NotThere => r := NotFoundReply(NotFoundMessage);
    case Deleted(data) => r := DeletedReply(PathOf(id), data);
  }

  // ---------------------------------------------------------------------
  // What a new user is

  /**
   * A new user is always enabled, always a plain "user", stamped with the
   * time, and has a string phone and address: whatever the caller sent for
   * `role` or `accountEnabled`.
   */
  lemma NewUserDefaults(users: seq<JVal>, data: JVal, hash: string -> string, now: string)
    requires NewUser(users, data, hash, now).Some?
    ensures var rec := NewUser(users, data, hash, now).value;
      rec["accountEnabled"] == Bool(true) && rec["role"] == Str("user") && rec["createdAt"] == Str(now)
      && rec["phone"] == (if Truthy(Get(data, "phone")) then Get(data, "phone") else Str(""))
      && rec["address"] == (if Truthy(Get(data, "address")) then Get(data, "address") else Str(""))
      && "id" !in rec
  {
  }

  /** The personal fields are stored as the caller sent them. */
  lemma NewUserKeepsPersonalFields(users: seq<JVal>, data: JVal, hash: string -> string, now: string)
    requires NewUser(users, data, hash, now).Some?
    ensures var rec := NewUser(users, data, hash, now).value;
      rec.Keys == {"fullName", "dateOfBirth", "email", "password", "accountEnabled", "phone", "address", "role", "createdAt"}
      && rec["fullName"] == Get(data, "fullName") && rec["dateOfBirth"] == Get(data, "dateOfBirth")
      && rec["email"] == Get(data, "email")
  {
  }

  /** A non-empty string password is stored as its hash. */
  lemma NewUserPassword(users: seq<JVal>, data: JVal, hash: string -> string, now: string)
    requires NewUser(users, data, hash, now).Some? && NonEmptyPassword(data)
    ensures NewUser(users, data, hash, now).value["password"] == Str(hash(Get(data, "password").s))
  {
  }

  predicate NonEmptyPassword(data: JVal) {
    Get(data, "password").Str? && Get(data, "password").s != ""
  }

  /** An e-mail some listed user already has is never registered again. */
  lemma DuplicateEmailRejected(users: seq<JVal>, data: JVal, hash: string -> string, now: string, k: nat)
    requires forall i :: 0 <= i < |users| ==> users[i].Obj?
    requires k < |users| && EmailIs(users[k], Get(data, "email"))
    ensures NewUser(users, data, hash, now).None?
  {
    var f := FirstWhere(users, (u: JVal) => EmailIs(u, Get(data, "email")));
    assert f.Some? && users[f.value].Obj?;
  }

  /** What create and update hand back never carries the password. */
  lemma ReplyHidesPassword(key: string, record: map<string, JVal>)
    ensures Get(Reply(key, record), "password") == Undef
    ensures forall k :: k in record && k != "id" && k != "password" ==> Get(Reply(key, record), k) == record[k]
  {
  }

  /** An update patch keeps every sent field but `password`, which it hashes when it is a non-empty string. */
  lemma PatchMeaning(data: JVal, hash: string -> string)
    requires data.Obj? && Patch(data, hash).Return?
    ensures Patch(data, hash).value.Keys == data.fields.Keys
    ensures forall k :: k in data.fields && k != "password" ==> Patch(data, hash).value[k] == data.fields[k]
    ensures NonEmptyPassword(data) ==> Patch(data, hash).value["password"] == Str(hash(Get(data, "password").s))
  {
  }
}
